/**
 * Rendering the report as an ordered sequence of markup pieces. Each piece
 * stands for one fragment of the HTML template; the fixed CSS and HTML text
 * around them carries no information and is not represented.
 */
module Render {
  import opened Wrappers
  import opened Cucumber
  import opened Stats

  const FAILED: string := "failed"

  datatype Tile = TotalTile | PassedTile | FailedTile

  datatype Piece =
    | StatTile(tile: Tile, value: int)
    | NoData
    | FeatureStart(name: string)
    | Description(text: string)
    | ScenarioStart(statusClass: string, name: string)
    | StepStart(statusClass: string, keyword: string, name: string)
    | ErrorMessage(text: string)
    | StepEnd
    | ScenarioEnd
    | FeatureEnd

  /** The uncaught TypeError the renderer raises when it dereferences a missing field;
      the string names the feature, scenario or step being rendered. */
  datatype RenderError = MissingElements(feature: string) | MissingSteps(scenario: string) | MissingResult(step: string)

  type Rendered = Result<seq<Piece>, RenderError>

  /** A piece of the feature listing, as opposed to the header tiles or the no-data block. */
  predicate DetailPiece(p: Piece) {
    !p.StatTile? && !p.NoData?
  }

  predicate AllDetail(ps: seq<Piece>) {
    forall i :: 0 <= i < |ps| ==> DetailPiece(ps[i])
  }

  /** The three statistic tiles, in page order. */
  function Tiles(total: int, passed: int, failed: int): seq<Piece> {
    [StatTile(TotalTile, total), StatTile(PassedTile, passed), StatTile(FailedTile, failed)]
  }

  /** The page for an absent or empty feature list. */
  function Placeholder(): seq<Piece> {
    Tiles(0, 0, 0) + [NoData]
  }

  /** The scenario status class. */
  function ClassOf(passed: bool): string {
    if passed then PASSED else FAILED
  }

  /** `steps.every(step => step.result.status === 'passed')`: stops at the first
      step whose status is not "passed"; a missing `result` before that throws. */
  function EveryStepPassed(steps: seq<Step>): (r: Result<bool, RenderError>)
    ensures (forall i :: 0 <= i < |steps| ==> StepRenderable(steps[i])) ==> r == Ok(AllStepsPassed(steps))
    ensures r == Ok(true) ==> AllStepsPassed(steps)
  {
    if |steps| == 0 then Ok(true)
    else if steps[0].result.None? then Err(MissingResult(steps[0].name))
    else if steps[0].result.value.status != PASSED then Ok(false)
    else
      assert forall i :: 1 <= i < |steps| ==> steps[1..][i - 1] == steps[i];
      EveryStepPassed(steps[1..])
  }

  /** `generateStepHTML`: the status becomes the class; the error message is
      emitted only when it is truthy. */
  function RenderStep(st: Step): (r: Rendered)
    ensures r.Ok? <==> StepRenderable(st)
    ensures r.Ok? ==> AllDetail(r.value)
    ensures r.Ok? ==> |r.value| >= 2 && r.value[0] == StepStart(st.result.value.status, st.keyword, st.name)
    ensures r.Ok? ==> (ErrorMessage(st.result.value.errorMessage.GetOr("")) in r.value <==> Truthy(st.result.value.errorMessage))
    ensures r.Ok? && Truthy(st.result.value.errorMessage) ==> r.value[1] == ErrorMessage(st.result.value.errorMessage.value)
    ensures r.Ok? ==> forall i :: 0 <= i < |r.value| && r.value[i].ErrorMessage? ==>
              Truthy(st.result.value.errorMessage) && r.value[i].text == st.result.value.errorMessage.value
  {
    match st.result
    case None => Err(MissingResult(st.name))
    case Some(res) =>
      var message := if Truthy(res.errorMessage) then [ErrorMessage(res.errorMessage.value)] else [];
      Ok([StepStart(res.status, st.keyword, st.name)] + message + [StepEnd])
  }

  /** `steps.map(generateStepHTML).join('')`: the first throwing step aborts. */
  function RenderSteps(steps: seq<Step>): (r: Rendered)
    ensures r.Ok? <==> forall i :: 0 <= i < |steps| ==> StepRenderable(steps[i])
    ensures r.Ok? ==> AllDetail(r.value)
  {
    if |steps| == 0 then Ok([])
    else
      var head :- RenderStep(steps[0]);
      var tail :- RenderSteps(steps[1..]);
      assert forall i :: 1 <= i < |steps| ==> steps[1..][i - 1] == steps[i];
      Ok(head + tail)
  }

  /** `generateScenarioHTML`: the class is computed by `every` before the steps are rendered. */
  function RenderScenario(sc: Scenario): (r: Rendered)
    ensures r.Ok? <==> ScenarioRenderable(sc)
    ensures r.Ok? ==> AllDetail(r.value)
    ensures r.Ok? ==> |r.value| >= 2 && r.value[0] == ScenarioStart(ClassOf(ScenarioPassed(sc)), sc.name)
  {
    match sc.steps
    case None => Err(MissingSteps(sc.name))
    case Some(steps) =>
      var passed :- EveryStepPassed(steps);
      var body :- RenderSteps(steps);
      Ok([ScenarioStart(ClassOf(passed), sc.name)] + body + [ScenarioEnd])
  }

  function RenderScenarios(scs: seq<Scenario>): (r: Rendered)
    ensures r.Ok? <==> forall i :: 0 <= i < |scs| ==> ScenarioRenderable(scs[i])
    ensures r.Ok? ==> AllDetail(r.value)
  {
    if |scs| == 0 then Ok([])
    else
      var head :- RenderScenario(scs[0]);
      var tail :- RenderScenarios(scs[1..]);
      assert forall i :: 1 <= i < |scs| ==> scs[1..][i - 1] == scs[i];
      Ok(head + tail)
  }

  /** `generateFeatureHTML`: name, the description only when truthy, then the scenarios. */
  function RenderFeature(f: Feature): (r: Rendered)
    ensures r.Ok? <==> FeatureRenderable(f)
    ensures r.Ok? ==> AllDetail(r.value)
    ensures r.Ok? ==> |r.value| >= 2 && r.value[0] == FeatureStart(f.name)
    ensures r.Ok? ==> |r.value| >= 2 && (r.value[1] == Description(f.description.GetOr("")) <==> Truthy(f.description))
    ensures r.Ok? ==> (r.value[1].Description? <==> Truthy(f.description))
    ensures r.Ok? && r.value[1].Description? ==> r.value[1].text == f.description.value
  {
    match f.elements
    case None => Err(MissingElements(f.name))
    case Some(scs) =>
      var body :- RenderScenarios(scs);
      var description := if Truthy(f.description) then [Description(f.description.value)] else [];
      Ok([FeatureStart(f.name)] + description + body + [FeatureEnd])
  }

  function RenderFeatures(fs: seq<Feature>): (r: Rendered)
    ensures r.Ok? <==> AllRenderable(fs)
    ensures r.Ok? ==> AllDetail(r.value)
  {
    if |fs| == 0 then Ok([])
    else
      var head :- RenderFeature(fs[0]);
      var tail :- RenderFeatures(fs[1..]);
      assert forall i :: 1 <= i < |fs| ==> fs[1..][i - 1] == fs[i];
      Ok(head + tail)
  }

  /** `generateHTML`: the placeholder page when the list is absent or empty
      (whatever the counts would be), otherwise the tiles and every feature. */
  function GenerateHtml(features: Option<seq<Feature>>): (r: Rendered)
    ensures var fs := features.GetOr([]);
            r.Ok? ==> |r.value| >= 3 && r.value[..3] == Tiles(TotalScenarios(fs), PassedScenarios(fs), FailedScenarios(fs))
    ensures r.Ok? <==> AllRenderable(features.GetOr([]))
    ensures r.Ok? ==> (NoData in r.value <==> |features.GetOr([])| == 0)
    ensures |features.GetOr([])| == 0 ==> r.Ok? && r.value[3..] == [NoData]
    ensures r.Ok? && |features.GetOr([])| > 0 ==> AllDetail(r.value[3..])
  {
    if features.None? || |features.value| == 0 then Ok(Placeholder())
    else
      var fs := features.value;
      var body :- RenderFeatures(fs);
      Ok(Tiles(TotalScenarios(fs), PassedScenarios(fs), FailedScenarios(fs)) + body)
  }
}
