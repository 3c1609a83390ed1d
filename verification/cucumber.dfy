/**
 * The Cucumber JSON documents the report builder reads: features holding
 * scenarios ("elements") holding steps, each step with an execution result.
 * Every field the builder tests for presence is an `Option`.
 */
module Cucumber {
  import opened Wrappers

  /** The `result` object of a step. */
  datatype StepResult = StepResult(status: string, errorMessage: Option<string>)

  datatype Step = Step(keyword: string, name: string, result: Option<StepResult>)

  datatype Scenario = Scenario(name: string, steps: Option<seq<Step>>)

  datatype Feature = Feature(name: string, description: Option<string>, elements: Option<seq<Scenario>>)

  /** The only status that counts as a pass. */
  const PASSED: string := "passed"

  /** JavaScript truthiness of an optional string: both `undefined` and `""` are falsy. */
  predicate Truthy(s: Option<string>) {
    s.Some? && s.value != ""
  }

  /** A step passed when it has a result whose status is exactly "passed". */
  predicate StepPassed(st: Step) {
    st.result.Some? && st.result.value.status == PASSED
  }

  /** `steps.every(StepPassed)`, scanning left to right; true of the empty list. */
  predicate AllStepsPassed(steps: seq<Step>) {
    if |steps| == 0 then true else StepPassed(steps[0]) && AllStepsPassed(steps[1..])
  }

  /** The aggregate's notion of a passed scenario: it has `steps` and every one passed. */
  predicate ScenarioPassed(sc: Scenario) {
    sc.steps.Some? && AllStepsPassed(sc.steps.value)
  }

  /** The scan agrees with the quantified reading of `every`. */
  lemma {:induction false} AllStepsPassedIff(steps: seq<Step>)
    ensures AllStepsPassed(steps) <==> forall i :: 0 <= i < |steps| ==> StepPassed(steps[i])
  {
    if |steps| > 0 {
      AllStepsPassedIff(steps[1..]);
      assert forall i :: 1 <= i < |steps| ==> steps[i] == steps[1..][i - 1];
    }
  }

  /** A scenario is counted as passed iff `steps` is present and each step has
      a result with status "passed"; any other status makes it count as failed. */
  lemma ScenarioPassedIff(sc: Scenario)
    ensures ScenarioPassed(sc) <==>
              sc.steps.Some? &&
              forall i :: 0 <= i < |sc.steps.value| ==>
                sc.steps.value[i].result.Some? && sc.steps.value[i].result.value.status == PASSED
  {
    if sc.steps.Some? {
      AllStepsPassedIff(sc.steps.value);
    }
  }

  /** The renderer dereferences `result` of every step. */
  predicate StepRenderable(st: Step) {
    st.result.Some?
  }

  /** The renderer dereferences `steps` of every scenario. */
  predicate ScenarioRenderable(sc: Scenario) {
    sc.steps.Some? && forall i :: 0 <= i < |sc.steps.value| ==> StepRenderable(sc.steps.value[i])
  }

  /** The renderer dereferences `elements` of every feature. */
  predicate FeatureRenderable(f: Feature) {
    f.elements.Some? && forall i :: 0 <= i < |f.elements.value| ==> ScenarioRenderable(f.elements.value[i])
  }

  predicate AllRenderable(fs: seq<Feature>) {
    forall i :: 0 <= i < |fs| ==> FeatureRenderable(fs[i])
  }
}
