/**
 * Reading a rendered report back: a parser for the piece sequence that
 * recovers the statistics and the ordered feature / scenario / step listing.
 * The round-trip lemmas show that rendering the pieces loses nothing the page
 * shows and keeps the input order, and that the tiles agree with the listing.
 * They are about the pieces: the HTML text itself is not escaped.
 */
module Readback {
  import opened Wrappers
  import opened Cucumber
  import opened Stats
  import opened Render

  datatype StepView = StepView(statusClass: string, keyword: string, name: string, errorMessage: Option<string>)
  datatype ScenarioView = ScenarioView(statusClass: string, name: string, steps: seq<StepView>)
  datatype FeatureView = FeatureView(name: string, description: Option<string>, scenarios: seq<ScenarioView>)
  datatype Body = NoDataBody | Listing(features: seq<FeatureView>)
  datatype ReportView = ReportView(total: int, passed: int, failed: int, body: Body)

  // ---- What the page shows of the input ----

  /** An optional text as the page shows it: falsy text is not shown at all. */
  function Shown(s: Option<string>): Option<string> {
    if Truthy(s) then s else None
  }

  function StepViewOf(st: Step): StepView
    requires StepRenderable(st)
  {
    StepView(st.result.value.status, st.keyword, st.name, Shown(st.result.value.errorMessage))
  }

  function StepViewsOf(steps: seq<Step>): seq<StepView>
    requires forall i :: 0 <= i < |steps| ==> StepRenderable(steps[i])
  {
    if |steps| == 0 then [] else [StepViewOf(steps[0])] + StepViewsOf(steps[1..])
  }

  /** The scenario class shown is the aggregate's notion of passed. */
  function ScenarioViewOf(sc: Scenario): ScenarioView
    requires ScenarioRenderable(sc)
  {
    ScenarioView(ClassOf(ScenarioPassed(sc)), sc.name, StepViewsOf(sc.steps.value))
  }

  function ScenarioViewsOf(scs: seq<Scenario>): seq<ScenarioView>
    requires forall i :: 0 <= i < |scs| ==> ScenarioRenderable(scs[i])
  {
    if |scs| == 0 then [] else [ScenarioViewOf(scs[0])] + ScenarioViewsOf(scs[1..])
  }

  function FeatureViewOf(f: Feature): FeatureView
    requires FeatureRenderable(f)
  {
    FeatureView(f.name, Shown(f.description), ScenarioViewsOf(f.elements.value))
  }

  function FeatureViewsOf(fs: seq<Feature>): seq<FeatureView>
    requires AllRenderable(fs)
  {
    if |fs| == 0 then [] else [FeatureViewOf(fs[0])] + FeatureViewsOf(fs[1..])
  }

  /** The whole page for a feature list the renderer accepts. */
  function ReportViewOf(features: Option<seq<Feature>>): ReportView
    requires AllRenderable(features.GetOr([]))
  {
    var fs := features.GetOr([]);
    ReportView(TotalScenarios(fs), PassedScenarios(fs), FailedScenarios(fs),
               if |fs| == 0 then NoDataBody else Listing(FeatureViewsOf(fs)))
  }

  // ---- The parser ----

  function ReadStep(ps: seq<Piece>): (r: Option<(StepView, seq<Piece>)>)
    ensures r.Some? ==> |r.value.1| < |ps|
  {
    if |ps| == 0 || !ps[0].StepStart? then None
    else if |ps| >= 3 && ps[1].ErrorMessage? && ps[2] == StepEnd then
      Some((StepView(ps[0].statusClass, ps[0].keyword, ps[0].name, Some(ps[1].text)), ps[3..]))
    else if |ps| >= 2 && ps[1] == StepEnd then
      Some((StepView(ps[0].statusClass, ps[0].keyword, ps[0].name, None), ps[2..]))
    else None
  }

  function ReadSteps(ps: seq<Piece>): (r: Option<(seq<StepView>, seq<Piece>)>)
    ensures r.Some? ==> |r.value.1| <= |ps|
    decreases |ps|
  {
    if |ps| == 0 || !ps[0].StepStart? then Some(([], ps))
    else match ReadStep(ps)
      case None => None
      case Some((v, rest)) =>
        match ReadSteps(rest)
        case None => None
        case Some((vs, rest')) => Some(([v] + vs, rest'))
  }

  function ReadScenario(ps: seq<Piece>): (r: Option<(ScenarioView, seq<Piece>)>)
    ensures r.Some? ==> |r.value.1| < |ps|
  {
    if |ps| == 0 || !ps[0].ScenarioStart? then None
    else match ReadSteps(ps[1..])
      case None => None
      case Some((vs, rest)) =>
        if |rest| > 0 && rest[0] == ScenarioEnd then
          Some((ScenarioView(ps[0].statusClass, ps[0].name, vs), rest[1..]))
        else None
  }

  function ReadScenarios(ps: seq<Piece>): (r: Option<(seq<ScenarioView>, seq<Piece>)>)
    ensures r.Some? ==> |r.value.1| <= |ps|
    decreases |ps|
  {
    if |ps| == 0 || !ps[0].ScenarioStart? then Some(([], ps))
    else match ReadScenario(ps)
      case None => None
      case Some((v, rest)) =>
        match ReadScenarios(rest)
        case None => None
        case Some((vs, rest')) => Some(([v] + vs, rest'))
  }

  function ReadFeature(ps: seq<Piece>): (r: Option<(FeatureView, seq<Piece>)>)
    ensures r.Some? ==> |r.value.1| < |ps|
  {
    if |ps| == 0 || !ps[0].FeatureStart? then None
    else
      var description := if |ps| > 1 && ps[1].Description? then Some(ps[1].text) else None;
      var after := if description.Some? then ps[2..] else ps[1..];
      match ReadScenarios(after)
      case None => None
      case Some((vs, rest)) =>
        if |rest| > 0 && rest[0] == FeatureEnd then
          Some((FeatureView(ps[0].name, description, vs), rest[1..]))
        else None
  }

  /** Features until the pieces run out. */
  function ReadFeatures(ps: seq<Piece>): Option<seq<FeatureView>>
    decreases |ps|
  {
    if |ps| == 0 then Some([])
    else match ReadFeature(ps)
      case None => None
      case Some((v, rest)) =>
        match ReadFeatures(rest)
        case None => None
        case Some(vs) => Some([v] + vs)
  }

  function ReadReport(ps: seq<Piece>): Option<ReportView> {
    if |ps| < 3 || !ps[0].StatTile? || !ps[1].StatTile? || !ps[2].StatTile? then None
    else if ps[..3] != Tiles(ps[0].value, ps[1].value, ps[2].value) then None
    else if ps[3..] == [NoData] then Some(ReportView(ps[0].value, ps[1].value, ps[2].value, NoDataBody))
    else match ReadFeatures(ps[3..])
      case None => None
      case Some(fvs) => Some(ReportView(ps[0].value, ps[1].value, ps[2].value, Listing(fvs)))
  }

  // ---- Round trip ----

  lemma StepRoundTrip(st: Step, rest: seq<Piece>)
    requires StepRenderable(st)
    ensures ReadStep(RenderStep(st).value + rest) == Some((StepViewOf(st), rest))
  {
  }

  lemma {:induction false} StepsRoundTrip(steps: seq<Step>, rest: seq<Piece>)
    requires forall i :: 0 <= i < |steps| ==> StepRenderable(steps[i])
    requires |rest| == 0 || !rest[0].StepStart?
    ensures ReadSteps(RenderSteps(steps).value + rest) == Some((StepViewsOf(steps), rest))
  {
    if |steps| == 0 {
      assert RenderSteps(steps).value + rest == rest;
    } else {
      var head := RenderStep(steps[0]).value;
      var tail := RenderSteps(steps[1..]).value;
      assert RenderSteps(steps).value + rest == head + (tail + rest);
      StepRoundTrip(steps[0], tail + rest);
      StepsRoundTrip(steps[1..], rest);
    }
  }

  lemma ScenarioRoundTrip(sc: Scenario, rest: seq<Piece>)
    requires ScenarioRenderable(sc)
    ensures ReadScenario(RenderScenario(sc).value + rest) == Some((ScenarioViewOf(sc), rest))
  {
    var body := RenderSteps(sc.steps.value).value;
    var ps := RenderScenario(sc).value + rest;
    assert ps[1..] == body + ([ScenarioEnd] + rest);
    StepsRoundTrip(sc.steps.value, [ScenarioEnd] + rest);
    assert ([ScenarioEnd] + rest)[1..] == rest;
  }

  lemma {:induction false} ScenariosRoundTrip(scs: seq<Scenario>, rest: seq<Piece>)
    requires forall i :: 0 <= i < |scs| ==> ScenarioRenderable(scs[i])
    requires |rest| == 0 || !rest[0].ScenarioStart?
    ensures ReadScenarios(RenderScenarios(scs).value + rest) == Some((ScenarioViewsOf(scs), rest))
  {
    if |scs| == 0 {
      assert RenderScenarios(scs).value + rest == rest;
    } else {
      var head := RenderScenario(scs[0]).value;
      var tail := RenderScenarios(scs[1..]).value;
      assert RenderScenarios(scs).value + rest == head + (tail + rest);
      ScenarioRoundTrip(scs[0], tail + rest);
      ScenariosRoundTrip(scs[1..], rest);
    }
  }

  /** The pieces of a rendered feature followed by `rest`, laid out. */
  lemma FeatureLayout(f: Feature, rest: seq<Piece>)
    requires FeatureRenderable(f)
    ensures var closing := [FeatureEnd] + rest;
            var body := RenderScenarios(f.elements.value).value;
            RenderFeature(f).value + rest ==
              if Truthy(f.description) then [FeatureStart(f.name), Description(f.description.value)] + (body + closing)
              else [FeatureStart(f.name)] + (body + closing)
  {
    var body := RenderScenarios(f.elements.value).value;
    var description := if Truthy(f.description) then [Description(f.description.value)] else [];
    assert RenderFeature(f).value == [FeatureStart(f.name)] + description + body + [FeatureEnd];
  }

  /** Reading a feature block, with a description, whose scenario pieces read back as `views`. */
  lemma ReadDescribedFeature(name: string, description: string, body: seq<Piece>,
                             views: seq<ScenarioView>, rest: seq<Piece>)
    requires ReadScenarios(body + ([FeatureEnd] + rest)) == Some((views, [FeatureEnd] + rest))
    ensures ReadFeature([FeatureStart(name), Description(description)] + (body + ([FeatureEnd] + rest)))
            == Some((FeatureView(name, Some(description), views), rest))
  {
    var closing := [FeatureEnd] + rest;
    var ps := [FeatureStart(name), Description(description)] + (body + closing);
    assert ps[1] == Description(description);
    assert ps[2..] == body + closing;
    assert closing[0] == FeatureEnd && closing[1..] == rest;
  }

  /** Reading a feature block without a description. */
  lemma ReadPlainFeature(name: string, body: seq<Piece>, views: seq<ScenarioView>, rest: seq<Piece>)
    requires |body| == 0 || body[0].ScenarioStart?
    requires ReadScenarios(body + ([FeatureEnd] + rest)) == Some((views, [FeatureEnd] + rest))
    ensures ReadFeature([FeatureStart(name)] + (body + ([FeatureEnd] + rest)))
            == Some((FeatureView(name, None, views), rest))
  {
    var closing := [FeatureEnd] + rest;
    var ps := [FeatureStart(name)] + (body + closing);
    assert ps[1..] == body + closing;
    assert |body| == 0 ==> ps[1] == FeatureEnd;
    assert |body| > 0 ==> ps[1] == body[0];
    assert closing[0] == FeatureEnd && closing[1..] == rest;
  }

  lemma FeatureRoundTrip(f: Feature, rest: seq<Piece>)
    requires FeatureRenderable(f)
    ensures ReadFeature(RenderFeature(f).value + rest) == Some((FeatureViewOf(f), rest))
  {
    var body := RenderScenarios(f.elements.value).value;
    var views := ScenarioViewsOf(f.elements.value);
    FeatureLayout(f, rest);
    ScenariosRoundTrip(f.elements.value, [FeatureEnd] + rest);
    if Truthy(f.description) {
      ReadDescribedFeature(f.name, f.description.value, body, views, rest);
    } else {
      assert |body| > 0 ==> body[0].ScenarioStart?;
      ReadPlainFeature(f.name, body, views, rest);
    }
  }

  lemma {:induction false} FeaturesRoundTrip(fs: seq<Feature>)
    requires AllRenderable(fs)
    ensures ReadFeatures(RenderFeatures(fs).value) == Some(FeatureViewsOf(fs))
  {
    if |fs| > 0 {
      var head := RenderFeature(fs[0]).value;
      var tail := RenderFeatures(fs[1..]).value;
      FeatureRoundTrip(fs[0], tail);
      FeaturesRoundTrip(fs[1..]);
    }
  }

  /** Reading back a rendered page recovers the counts and, in input order, every
      feature, scenario and step with the text and status class the page shows. */
  lemma ReportRoundTrip(features: Option<seq<Feature>>)
    requires GenerateHtml(features).Ok?
    ensures ReadReport(GenerateHtml(features).value) == Some(ReportViewOf(features))
  {
    var fs := features.GetOr([]);
    var ps := GenerateHtml(features).value;
    if |fs| > 0 {
      var body := RenderFeatures(fs).value;
      assert ps[3..] == body;
      FeaturesRoundTrip(fs);
      assert body[0].FeatureStart?;
    }
  }

  // ---- The tiles agree with the listing ----

  function ListedScenarios(fvs: seq<FeatureView>): seq<ScenarioView> {
    if |fvs| == 0 then [] else fvs[0].scenarios + ListedScenarios(fvs[1..])
  }

  function CountPassedClass(svs: seq<ScenarioView>): nat {
    if |svs| == 0 then 0 else (if svs[0].statusClass == PASSED then 1 else 0) + CountPassedClass(svs[1..])
  }

  /** A page whose tiles count exactly the scenarios it lists, and exactly those
      listed with the "passed" class. */
  predicate Consistent(v: ReportView) {
    var listed := if v.body.Listing? then ListedScenarios(v.body.features) else [];
    v.total == |listed| && v.passed == CountPassedClass(listed) && v.failed == v.total - v.passed
  }

  lemma {:induction false} ScenarioViewsAppend(a: seq<Scenario>, b: seq<Scenario>)
    requires forall i :: 0 <= i < |a| ==> ScenarioRenderable(a[i])
    requires forall i :: 0 <= i < |b| ==> ScenarioRenderable(b[i])
    ensures ScenarioViewsOf(a + b) == ScenarioViewsOf(a) + ScenarioViewsOf(b)
  {
    if |a| == 0 {
      assert a + b == b;
    } else {
      assert (a + b)[1..] == a[1..] + b;
      ScenarioViewsAppend(a[1..], b);
    }
  }

  lemma {:induction false} ListedIsAllScenarios(fs: seq<Feature>)
    requires AllRenderable(fs)
    ensures forall i :: 0 <= i < |AllScenarios(fs)| ==> ScenarioRenderable(AllScenarios(fs)[i])
    ensures ListedScenarios(FeatureViewsOf(fs)) == ScenarioViewsOf(AllScenarios(fs))
  {
    if |fs| > 0 {
      ListedIsAllScenarios(fs[1..]);
      var own := fs[0].elements.value;
      assert AllScenarios(fs) == own + AllScenarios(fs[1..]);
      assert forall i :: |own| <= i < |AllScenarios(fs)| ==> AllScenarios(fs)[i] == AllScenarios(fs[1..])[i - |own|];
      ScenarioViewsAppend(own, AllScenarios(fs[1..]));
    }
  }

  lemma {:induction false} CountPassedClassIsPassed(scs: seq<Scenario>)
    requires forall i :: 0 <= i < |scs| ==> ScenarioRenderable(scs[i])
    ensures |ScenarioViewsOf(scs)| == |scs|
    ensures CountPassedClass(ScenarioViewsOf(scs)) == |PassedOf(scs)|
  {
    if |scs| > 0 {
      CountPassedClassIsPassed(scs[1..]);
    }
  }

  /** On every page the renderer produces, the tiles count exactly the listed
      scenarios and exactly those shown as passed. */
  lemma RenderedReportConsistent(features: Option<seq<Feature>>)
    requires GenerateHtml(features).Ok?
    ensures ReadReport(GenerateHtml(features).value).Some?
    ensures Consistent(ReadReport(GenerateHtml(features).value).value)
  {
    ReportRoundTrip(features);
    var fs := features.GetOr([]);
    CountsConsistent(fs);
    CountsAreSizes(fs);
    if |fs| > 0 {
      ListedIsAllScenarios(fs);
      CountPassedClassIsPassed(AllScenarios(fs));
    }
  }
}
