/**
 * The whole run of `generateCucumberReport`: discover the result files, merge
 * what parses, and render one page. The directory listing and the outcome of
 * reading and parsing each file are inputs; the page written is the result.
 */
module Report {
  import opened Wrappers
  import opened Cucumber
  import opened Discover
  import opened Merge
  import opened Stats
  import opened Render

  /** One entry of the results directory with what parsing its contents yields. */
  type ResultEntry = DirEntry<ParseOutcome<Feature>>

  function Outcomes(files: seq<ResultEntry>): (os: seq<ParseOutcome<Feature>>)
    ensures |os| == |files|
    ensures forall i :: 0 <= i < |files| ==> os[i] == files[i].content
  {
    if |files| == 0 then [] else [files[0].content] + Outcomes(files[1..])
  }

  /** The page written: the placeholder when the directory is missing or holds no
      result file, otherwise the page for the merged features. */
  function GenerateCucumberReport(dirExists: bool, listing: seq<ResultEntry>): Rendered {
    if !dirExists then GenerateHtml(Some([]))
    else
      var files := Discovered(listing);
      if |files| == 0 then GenerateHtml(Some([]))
      else GenerateHtml(Some(MergeAll(Outcomes(files))))
  }

  /** The features the page is built from. */
  function ReportedFeatures(dirExists: bool, listing: seq<ResultEntry>): seq<Feature> {
    if dirExists then MergeAll(Outcomes(Discovered(listing))) else []
  }

  /** The two early returns are shortcuts: they write what the general path would. */
  lemma PipelineRendersMergedFeatures(dirExists: bool, listing: seq<ResultEntry>)
    ensures GenerateCucumberReport(dirExists, listing) == GenerateHtml(Some(ReportedFeatures(dirExists, listing)))
  {
  }

  /** A missing directory, or one without any ".json" file, still yields a page:
      the placeholder, with all tiles 0 and the no-data block. */
  lemma MissingInputGivesPlaceholder(dirExists: bool, listing: seq<ResultEntry>)
    requires !dirExists || forall i :: 0 <= i < |listing| ==> !EndsWith(listing[i].name, JSON_SUFFIX)
    ensures GenerateCucumberReport(dirExists, listing) == Ok(Tiles(0, 0, 0) + [NoData])
  {
    if dirExists {
      NothingDiscovered(listing);
    }
  }

  /** Entries whose names do not end in ".json" never influence the page. */
  lemma OtherFilesIgnored(listing: seq<ResultEntry>)
    ensures GenerateCucumberReport(true, listing) == GenerateCucumberReport(true, Discovered(listing))
  {
    DiscoveredIdempotent(listing);
  }

  /** Sum of the total counts each parsed file would give on its own; files that
      fail to parse add nothing. */
  function PerFileTotal(os: seq<ParseOutcome<Feature>>): nat {
    if |os| == 0 then 0 else TotalScenarios(Contribution(os[0])) + PerFileTotal(os[1..])
  }

  function PerFilePassed(os: seq<ParseOutcome<Feature>>): nat {
    if |os| == 0 then 0 else PassedScenarios(Contribution(os[0])) + PerFilePassed(os[1..])
  }

  /** The counts over the merged list are the sums of the per-file counts. */
  lemma {:induction false} MergedCountsArePerFileSums(os: seq<ParseOutcome<Feature>>)
    ensures TotalScenarios(MergeAll(os)) == PerFileTotal(os)
    ensures PassedScenarios(MergeAll(os)) == PerFilePassed(os)
  {
    MergeAllIsContributions(os);
    if |os| > 0 {
      MergedCountsArePerFileSums(os[1..]);
      MergeAllIsContributions(os[1..]);
      CountsAppend(Contribution(os[0]), Contributions(os[1..]));
    }
  }

  /** When the page is written, its tiles show the per-file sums over the
      ".json" files that parsed; a malformed file is left out of every count. */
  lemma ReportTilesArePerFileSums(dirExists: bool, listing: seq<ResultEntry>)
    requires GenerateCucumberReport(dirExists, listing).Ok?
    ensures var os := if dirExists then Outcomes(Discovered(listing)) else [];
            var total := PerFileTotal(os);
            var passed := PerFilePassed(os);
            GenerateCucumberReport(dirExists, listing).value[..3] == Tiles(total, passed, total - passed)
  {
    var os := if dirExists then Outcomes(Discovered(listing)) else [];
    PipelineRendersMergedFeatures(dirExists, listing);
    MergedCountsArePerFileSums(os);
  }

  // ---- Examples ----

  const LoginPassed: Feature :=
    Feature("Login", None, Some([Scenario("valid creds", Some([
      Step("Given ", "the login page", Some(StepResult("passed", None))),
      Step("When ", "valid credentials are entered", Some(StepResult("passed", None)))]))]))

  const LoginFailed: Feature :=
    Feature("Login", None, Some([Scenario("valid creds", Some([
      Step("Given ", "the login page", Some(StepResult("passed", None))),
      Step("When ", "valid credentials are entered", Some(StepResult("failed", Some("element not found"))))]))]))

  /** Two passing steps: one scenario, counted passed and shown with class "passed". */
  lemma ExampleAllStepsPass()
    ensures TotalScenarios([LoginPassed]) == 1
    ensures PassedScenarios([LoginPassed]) == 1
    ensures FailedScenarios([LoginPassed]) == 0
    ensures RenderScenario(LoginPassed.elements.value[0]).value[0] == ScenarioStart("passed", "valid creds")
  {
    var sc := LoginPassed.elements.value[0];
    assert ScenarioPassed(sc) by {
      AllStepsPassedIff(sc.steps.value);
    }
    assert PassedOf([sc]) == [sc] + PassedOf([]);
    CountsOfOne(LoginPassed);
  }

  /** A failing step: the scenario counts as failed, and the error message is
      rendered under that step. */
  lemma ExampleFailingStep()
    ensures TotalScenarios([LoginFailed]) == 1
    ensures PassedScenarios([LoginFailed]) == 0
    ensures FailedScenarios([LoginFailed]) == 1
    ensures RenderScenario(LoginFailed.elements.value[0]).value[0] == ScenarioStart("failed", "valid creds")
    ensures RenderStep(LoginFailed.elements.value[0].steps.value[1]).value ==
            [StepStart("failed", "When ", "valid credentials are entered"), ErrorMessage("element not found"), StepEnd]
  {
    var sc := LoginFailed.elements.value[0];
    assert !ScenarioPassed(sc) by {
      AllStepsPassedIff(sc.steps.value);
      assert !StepPassed(sc.steps.value[1]);
    }
    assert PassedOf([sc]) == PassedOf([]);
    CountsOfOne(LoginFailed);
  }

  const Broken: ResultEntry := DirEntry("broken.json", Err("Unexpected token"))
  const Notes: ResultEntry := DirEntry("notes.txt", Ok(JsonValue(LoginFailed)))
  const Login: ResultEntry := DirEntry("login.cucumber.json", Ok(JsonArray([LoginPassed])))

  /** Of a malformed ".json" file, a text file and a ".cucumber.json" file, the
      text file is not picked up. */
  lemma ExampleDiscovery()
    ensures Discovered([Broken, Notes, Login]) == [Broken, Login]
  {
    assert IsResultFile(Broken.name) by {
      assert Broken.name[6..] == JSON_SUFFIX;
    }
    assert !IsResultFile(Notes.name) by {
      IsResultFileIff(Notes.name);
      assert Notes.name[4..][0] != JSON_SUFFIX[0];
    }
    assert IsResultFile(Login.name) by {
      assert Login.name[14..] == JSON_SUFFIX;
    }
    assert [Broken, Notes, Login][1..] == [Notes, Login];
    assert [Notes, Login][1..] == [Login];
    assert [Login][1..] == [];
    assert Discovered([Login]) == [Login];
    assert Discovered([Notes, Login]) == [Login];
    assert Discovered([Broken, Notes, Login]) == [Broken] + [Login];
  }

  /** One malformed file next to a good one: the run goes on, and only the good
      file's features are reported. */
  lemma ExampleMalformedFileSkipped()
    ensures ReportedFeatures(true, [Broken, Notes, Login]) == [LoginPassed]
  {
    ExampleDiscovery();
    var os := Outcomes([Broken, Login]);
    assert os == [Broken.content] + [Login.content];
    MergeAllAppend([Broken.content], [Login.content]);
    assert [] + [Broken.content] == [Broken.content];
    assert [] + [Login.content] == [Login.content];
    MergeOneMore([], Broken.content);
    MergeOneMore([], Login.content);
  }

  /** A feature with an empty `elements` list counts 0 scenarios, yet the page is
      the listing, not the placeholder: the placeholder is chosen by the feature
      list being empty, not by the total being 0. */
  lemma ExampleZeroScenariosIsNotPlaceholder()
    ensures GenerateHtml(Some([Feature("Empty", Some(""), Some([]))])).Ok?
    ensures GenerateHtml(Some([Feature("Empty", Some(""), Some([]))])).value[..3] == Tiles(0, 0, 0)
    ensures NoData !in GenerateHtml(Some([Feature("Empty", Some(""), Some([]))])).value
  {
  }

  /** A feature without `elements` counts 0, but the renderer then throws. */
  lemma ExampleMissingElementsThrows()
    ensures TotalScenarios([Feature("Bare", None, None)]) == 0
    ensures GenerateHtml(Some([Feature("Bare", None, None)])) == Err(MissingElements("Bare"))
  {
  }
}
