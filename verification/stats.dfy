/**
 * The three numbers at the top of the report: total, passed and failed
 * scenarios over the merged feature list.
 */
module Stats {
  import opened Wrappers
  import opened Cucumber

  /** How many scenarios a feature holds; a feature without `elements` holds none. */
  function ScenarioCount(f: Feature): nat {
    if f.elements.Some? then |f.elements.value| else 0
  }

  /** The scenarios of a list that the aggregate counts as passed, in order. */
  function PassedOf(scs: seq<Scenario>): seq<Scenario> {
    if |scs| == 0 then []
    else if ScenarioPassed(scs[0]) then [scs[0]] + PassedOf(scs[1..])
    else PassedOf(scs[1..])
  }

  /** How many of a feature's scenarios passed; a feature without `elements` adds nothing. */
  function PassedCount(f: Feature): nat {
    if f.elements.None? then 0 else |PassedOf(f.elements.value)|
  }

  /** `features.reduce((acc, feature) => acc + count, 0)` for total scenarios. */
  function TotalFrom(acc: nat, fs: seq<Feature>): nat
    decreases |fs|
  {
    if |fs| == 0 then acc else TotalFrom(acc + ScenarioCount(fs[0]), fs[1..])
  }

  /** The same reduction for passed scenarios. */
  function PassedFrom(acc: nat, fs: seq<Feature>): nat
    decreases |fs|
  {
    if |fs| == 0 then acc else PassedFrom(acc + PassedCount(fs[0]), fs[1..])
  }

  function TotalScenarios(fs: seq<Feature>): nat {
    TotalFrom(0, fs)
  }

  function PassedScenarios(fs: seq<Feature>): nat {
    PassedFrom(0, fs)
  }

  /** Failed is whatever is not passed, computed by subtraction. */
  function FailedScenarios(fs: seq<Feature>): int {
    TotalScenarios(fs) - PassedScenarios(fs)
  }

  /** A one-feature list counts that feature's scenarios. */
  lemma CountsOfOne(f: Feature)
    ensures TotalScenarios([f]) == ScenarioCount(f)
    ensures PassedScenarios([f]) == PassedCount(f)
  {
    assert [f][1..] == [];
    assert TotalFrom(0, [f]) == TotalFrom(ScenarioCount(f), []);
    assert PassedFrom(0, [f]) == PassedFrom(PassedCount(f), []);
  }

  /** Reference: every scenario of every feature, in document order. */
  function AllScenarios(fs: seq<Feature>): seq<Scenario> {
    if |fs| == 0 then [] else fs[0].elements.GetOr([]) + AllScenarios(fs[1..])
  }

  /** Reference: the scenarios of a list that the aggregate does NOT count as passed. */
  function NotPassedOf(scs: seq<Scenario>): seq<Scenario> {
    if |scs| == 0 then []
    else if ScenarioPassed(scs[0]) then NotPassedOf(scs[1..])
    else [scs[0]] + NotPassedOf(scs[1..])
  }

  lemma {:induction false} PassedOfAppend(a: seq<Scenario>, b: seq<Scenario>)
    ensures PassedOf(a + b) == PassedOf(a) + PassedOf(b)
  {
    if |a| == 0 {
      assert a + b == b;
    } else {
      assert (a + b)[0] == a[0];
      assert (a + b)[1..] == a[1..] + b;
      PassedOfAppend(a[1..], b);
      if ScenarioPassed(a[0]) {
        assert PassedOf(a + b) == [a[0]] + (PassedOf(a[1..]) + PassedOf(b));
      }
    }
  }

  /** The scenarios split into the passed and the not-passed ones: every scenario
      lands in exactly one part, and nothing else does. */
  lemma {:induction false} PassedOfSplits(scs: seq<Scenario>)
    ensures |PassedOf(scs)| + |NotPassedOf(scs)| == |scs|
    ensures forall i :: 0 <= i < |PassedOf(scs)| ==> ScenarioPassed(PassedOf(scs)[i])
    ensures forall i :: 0 <= i < |NotPassedOf(scs)| ==> !ScenarioPassed(NotPassedOf(scs)[i])
    ensures multiset(PassedOf(scs)) + multiset(NotPassedOf(scs)) == multiset(scs)
  {
    if |scs| > 0 {
      PassedOfSplits(scs[1..]);
      assert scs == [scs[0]] + scs[1..];
    }
  }

  lemma {:induction false} TotalFromIsLength(acc: nat, fs: seq<Feature>)
    ensures TotalFrom(acc, fs) == acc + |AllScenarios(fs)|
    decreases |fs|
  {
    if |fs| > 0 {
      TotalFromIsLength(acc + ScenarioCount(fs[0]), fs[1..]);
    }
  }

  lemma {:induction false} PassedFromIsLength(acc: nat, fs: seq<Feature>)
    ensures PassedFrom(acc, fs) == acc + |PassedOf(AllScenarios(fs))|
    decreases |fs|
  {
    if |fs| > 0 {
      PassedFromIsLength(acc + PassedCount(fs[0]), fs[1..]);
      PassedOfAppend(fs[0].elements.GetOr([]), AllScenarios(fs[1..]));
    }
  }

  /** Total is the number of scenarios over all features (features without
      `elements` contribute none); passed is the number of those that pass. */
  lemma CountsAreSizes(fs: seq<Feature>)
    ensures TotalScenarios(fs) == |AllScenarios(fs)|
    ensures PassedScenarios(fs) == |PassedOf(AllScenarios(fs))|
  {
    TotalFromIsLength(0, fs);
    PassedFromIsLength(0, fs);
  }

  /** The tiles are consistent: total = passed + failed, passed <= total, and the
      failed count is exactly the number of scenarios that did not pass. */
  lemma CountsConsistent(fs: seq<Feature>)
    ensures PassedScenarios(fs) <= TotalScenarios(fs)
    ensures FailedScenarios(fs) >= 0
    ensures TotalScenarios(fs) == PassedScenarios(fs) + FailedScenarios(fs)
    ensures FailedScenarios(fs) == |NotPassedOf(AllScenarios(fs))|
    ensures multiset(PassedOf(AllScenarios(fs))) + multiset(NotPassedOf(AllScenarios(fs))) == multiset(AllScenarios(fs))
  {
    CountsAreSizes(fs);
    PassedOfSplits(AllScenarios(fs));
  }

  lemma {:induction false} AllScenariosAppend(a: seq<Feature>, b: seq<Feature>)
    ensures AllScenarios(a + b) == AllScenarios(a) + AllScenarios(b)
  {
    if |a| == 0 {
      assert a + b == b;
    } else {
      assert (a + b)[1..] == a[1..] + b;
      AllScenariosAppend(a[1..], b);
    }
  }

  /** The counts of a concatenated feature list are the sums of the counts of its parts. */
  lemma CountsAppend(a: seq<Feature>, b: seq<Feature>)
    ensures TotalScenarios(a + b) == TotalScenarios(a) + TotalScenarios(b)
    ensures PassedScenarios(a + b) == PassedScenarios(a) + PassedScenarios(b)
  {
    CountsAreSizes(a + b);
    CountsAreSizes(a);
    CountsAreSizes(b);
    AllScenariosAppend(a, b);
    PassedOfAppend(AllScenarios(a), AllScenarios(b));
  }

  /** A feature without `elements` contributes 0 to both the total and the passed count. */
  lemma FeatureWithoutElementsCountsNothing(fs: seq<Feature>, i: nat)
    requires i < |fs| && fs[i].elements.None?
    ensures TotalScenarios(fs) == TotalScenarios(fs[..i] + fs[i + 1..])
    ensures PassedScenarios(fs) == PassedScenarios(fs[..i] + fs[i + 1..])
  {
    assert fs == fs[..i] + [fs[i]] + fs[i + 1..];
    CountsAppend(fs[..i] + [fs[i]], fs[i + 1..]);
    CountsAppend(fs[..i], [fs[i]]);
    CountsAppend(fs[..i], fs[i + 1..]);
    CountsAreSizes([fs[i]]);
    assert AllScenarios([fs[i]]) == [] + AllScenarios([]);
  }
}
