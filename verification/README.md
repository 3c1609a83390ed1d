# Cucumber HTML report builder: a Dafny model

This project models the report builder of a Cypress example suite. The builder
reads the Cucumber JSON result files of a test run and merges them into one
ordered list of features. It counts the total, passed and failed scenarios.
It then renders a standalone HTML page: three statistic tiles, followed by
either a "no data" block or every feature, scenario and step.

The model is a set of pure functions over immutable datatypes:

- `Cucumber` (cucumber.dfy) holds the documents: `Feature`, `Scenario`, `Step`
  and `StepResult`. Every field the code tests for presence is an `Option`:
  `elements`, `steps`, `result`, `description` and `error_message`. The module
  also defines the aggregate's notion of a passed scenario, and JavaScript
  truthiness for optional strings (`undefined` and `""` are falsy).
- `Discover` (discover.dfy) is the file-name filter applied to the directory listing.
- `Merge` (merge.dfy) is the per-file loop. Each file's `JSON.parse` outcome is an
  input, `Ok(JsonArray(items))`, `Ok(JsonValue(item))` or `Err(message)`, and the
  loop folds over these outcomes. The reference for it is "the contributions
  concatenated in file order".
- `Stats` (stats.dfy) holds the two `reduce` computations and the subtraction. Their
  reference definitions are the flattened scenario list and its passed and
  not-passed parts.
- `Render` (render.dfy) renders the page as a sequence of markup pieces: tiles,
  the no-data block, feature, description, scenario, step, error message and
  closing markers. The renderer dereferences `elements`, `steps` and `result`
  without checking them, so a missing field throws a `TypeError` that nothing
  catches. The model returns that as `Err(RenderError)`.
- `Readback` (readback.dfy) is a parser for the piece sequence, used to state
  what the page shows. Reading the rendered pieces back recovers the counts and
  the ordered listing. The tiles always agree with the listing. This holds of
  the pieces, not of the HTML text, which is unescaped.
- `Report` (report.dfy) is the whole run. It takes whether the directory exists
  and the listing, with each entry's parse outcome, and returns the page that
  would be written. It also holds the worked examples.

Behaviour that differs from what a reader of the report might expect, which the model keeps as the code has it:

- The placeholder page is chosen when the feature list is absent or empty, not
  when the total is 0. A feature with an empty `elements` list gives tiles
  0/0/0 followed by its feature block, with no no-data block
  (`Report.ExampleZeroScenariosIsNotPlaceholder`).
- Nothing is escaped. Names, descriptions and error messages go into the page
  verbatim, so the model makes no claim about injection safety.
- The aggregate counts a scenario without `steps` as not passed. An empty
  `steps` list counts as passed. The renderer, however, throws on a missing
  `steps`, `elements` or `result` (`Report.ExampleMissingElementsThrows`).
- The filter accepts any name ending in `.json`. The `.cucumber.json` test is
  subsumed by it.
- The page is written directly. There is no temporary file and no rename.

## Model

| member | source | states |
|---|---|---|
| Cucumber.AllStepsPassed | scripts/generate-cucumber-report.js:114 | `steps.every(step => step.result && step.result.status === 'passed')`; its meaning is fixed by `AllStepsPassedIff`: every step has a result with status exactly "passed" |
| Cucumber.ScenarioPassed | scripts/generate-cucumber-report.js:113-114 | The filter predicate of the passed count; `ScenarioPassedIff` states it: `steps` present and every step passed |
| Discover.IsResultFile | scripts/generate-cucumber-report.js:27 | The two-suffix file-name test; `IsResultFileIff` shows it accepts exactly the names ending in ".json" |
| Merge.MergeStep | scripts/generate-cucumber-report.js:44-52 | One iteration of the per-file loop (concat, push, or skip on a parse error); `MergeOneMore` states what each case appends |
| Merge.MergeFrom | scripts/generate-cucumber-report.js:40-54 | The per-file loop from an accumulator; `MergeFromIsAppend` shows it yields the accumulator followed by the contributions of the files in order |
| Merge.MergeAll | scripts/generate-cucumber-report.js:38-54 | The loop from the empty list; `MergeAll` equals `Contributions` (`MergeAllIsContributions`) |
| Merge.MergeFromIsAppend | scripts/generate-cucumber-report.js:38-54 | Running the loop from any accumulator appends exactly the concatenated file contributions to it |
| Stats.TotalFrom | scripts/generate-cucumber-report.js:107-109 | The `reduce` for `totalScenarios`; `TotalFromIsLength` shows it adds the number of all scenarios to the start value |
| Stats.PassedFrom | scripts/generate-cucumber-report.js:111-116 | The `reduce` for `passedScenarios`; `PassedFromIsLength` shows it adds the number of passed scenarios to the start value |
| Stats.TotalFromIsLength | scripts/generate-cucumber-report.js:107-109 | The total `reduce` from any start value adds exactly the length of the flattened scenario list |
| Stats.PassedFromIsLength | scripts/generate-cucumber-report.js:111-116 | The passed `reduce` from any start value adds exactly the number of flattened scenarios that pass |
| Stats.TotalScenarios | scripts/generate-cucumber-report.js:107-109 | `const totalScenarios`, the total `reduce` from 0; `CountsAreSizes` shows it is the number of scenarios over all features |
| Stats.PassedScenarios | scripts/generate-cucumber-report.js:111-116 | `const passedScenarios`, the passed `reduce` from 0; `CountsAreSizes` shows it is the number of those scenarios that pass |
| Stats.FailedScenarios | scripts/generate-cucumber-report.js:118 | `totalScenarios - passedScenarios`; `CountsConsistent` shows it is never negative and equals the number of scenarios not passed |
| Report.GenerateCucumberReport | scripts/generate-cucumber-report.js:4-60 | The whole run; `PipelineRendersMergedFeatures` shows it renders the merged features of the result files, `MissingInputGivesPlaceholder` that missing input gives the placeholder |
| Cucumber.AllStepsPassedIff | scripts/generate-cucumber-report.js:114 | The left-to-right `every` scan is true iff every step has a result with status exactly "passed"; it is true of the empty list |
| Cucumber.ScenarioPassedIff | scripts/generate-cucumber-report.js:113-115 | A scenario counts as passed iff `steps` is present and every step has a `result` whose status is "passed"; a missing `steps` or any other status (skipped, pending, ...) makes it not passed |
| Discover.IsResultFileIff | scripts/generate-cucumber-report.js:27 | The filter accepts a name iff it ends in ".json"; the ".cucumber.json" disjunct adds nothing |
| Discover.Discovered | scripts/generate-cucumber-report.js:27 | Every kept entry is in the listing and passes the filter, every entry of the listing that passes the filter is kept, and nothing is added |
| Discover.DiscoveredAppend | scripts/generate-cucumber-report.js:27 | Filtering keeps listing order: filtering a concatenated listing is the concatenation of the filtered parts |
| Discover.DiscoveredIdempotent | scripts/generate-cucumber-report.js:27 | Filtering an already filtered listing changes nothing |
| Merge.MergeAllIsContributions | scripts/generate-cucumber-report.js:38-54 | The per-file loop yields exactly the per-file contributions concatenated in file order (array: its items; other value: itself; parse error: nothing) |
| Merge.MergeAllAppend | scripts/generate-cucumber-report.js:40-54 | Merging two runs of files one after the other is the concatenation of merging each |
| Merge.MergeOneMore | scripts/generate-cucumber-report.js:44-49 | One more file appends all items of an array in order, exactly one item for a non-array value, and nothing for a parse error |
| Merge.ParseErrorSkipped | scripts/generate-cucumber-report.js:43-53 | A file that fails to parse is dropped, and the files after it are still merged, in order |
| Merge.MergeAllLength | scripts/generate-cucumber-report.js:40-54 | The merged length is the sum of the per-file contribution sizes (array length, 1, or 0) |
| Stats.CountsAreSizes | scripts/generate-cucumber-report.js:107-116 | `totalScenarios` is the number of scenarios over all features, with a feature without `elements` contributing none; `passedScenarios` is the number of those that pass |
| Stats.CountsConsistent | scripts/generate-cucumber-report.js:107-118 | passed <= total, failed >= 0, total = passed + failed, and failed is exactly the number of scenarios not counted as passed; the passed and not-passed scenarios together are exactly the scenarios of all features |
| Stats.CountsAppend | scripts/generate-cucumber-report.js:107-116 | The total and passed counts of a concatenated feature list are the sums over its parts |
| Stats.FeatureWithoutElementsCountsNothing | scripts/generate-cucumber-report.js:108-112 | Removing a feature without `elements` changes neither the total nor the passed count |
| Render.EveryStepPassed | scripts/generate-cucumber-report.js:185 | When every step has a result, the short-circuiting `every` returns the aggregate's all-passed verdict; a `true` answer always implies it |
| Render.RenderStep | scripts/generate-cucumber-report.js:197-203 | Rendering a step succeeds iff it has a `result`; it starts with the step's status class, keyword and name; its error block appears iff `error_message` is truthy, right after the step header, and any error block carries exactly that message |
| Render.RenderSteps | scripts/generate-cucumber-report.js:192 | Rendering the step list succeeds iff every step has a `result`, and it emits only listing pieces |
| Render.RenderScenario | scripts/generate-cucumber-report.js:184-195 | Rendering a scenario succeeds iff it has `steps` and every step has a `result`; its class is "passed" exactly when the aggregate counts the scenario as passed, and "failed" otherwise |
| Render.RenderScenarios | scripts/generate-cucumber-report.js:180 | Rendering a scenario list succeeds iff every scenario is renderable |
| Render.RenderFeature | scripts/generate-cucumber-report.js:173-182 | Rendering a feature succeeds iff it has `elements` and all of them are renderable; it starts with the feature name, and a description piece follows iff the description is truthy, carrying exactly that text |
| Render.RenderFeatures | scripts/generate-cucumber-report.js:167 | Rendering the feature list succeeds iff every feature is renderable |
| Render.GenerateHtml | scripts/generate-cucumber-report.js:62-171 | The page starts with the tiles total, passed and failed of the feature list; an absent or empty list gives tiles 0/0/0 followed only by the no-data block; otherwise there is no no-data block, and the page exists iff every feature is renderable |
| Render.Placeholder | scripts/generate-cucumber-report.js:63-104 | The page for an absent or empty feature list: tiles 0/0/0 and the no-data block; `GenerateHtml` shows such a list renders to exactly these pieces, tiles 0/0/0 followed by the no-data block |
| Readback.StepsRoundTrip | scripts/generate-cucumber-report.js:192-203 | Reading rendered steps back recovers each step's status, keyword, name and shown error message, in order |
| Readback.ScenariosRoundTrip | scripts/generate-cucumber-report.js:180-195 | Reading rendered scenarios back recovers each scenario's class, name and steps, in order |
| Readback.FeatureRoundTrip | scripts/generate-cucumber-report.js:173-182 | Reading a rendered feature back recovers its name, its description when truthy, and its scenarios |
| Readback.FeaturesRoundTrip | scripts/generate-cucumber-report.js:167 | Reading the rendered feature list back recovers every feature in input order |
| Readback.ReportRoundTrip | scripts/generate-cucumber-report.js:62-203 | Reading the pieces of any rendered page back recovers the three counts and either the no-data body or the full ordered listing of what the page shows |
| Readback.RenderedReportConsistent | scripts/generate-cucumber-report.js:107-167 | On every rendered page the total tile equals the number of listed scenarios, the passed tile equals the number listed with class "passed", and failed is their difference |
| Report.PipelineRendersMergedFeatures | scripts/generate-cucumber-report.js:11-57 | The two early returns write what the general path would write for the merged features |
| Report.MissingInputGivesPlaceholder | scripts/generate-cucumber-report.js:11-36 | A missing results directory, or one without a ".json" file, still yields the placeholder page with tiles 0/0/0 and the no-data block |
| Report.OtherFilesIgnored | scripts/generate-cucumber-report.js:27-40 | Entries whose names do not pass the filter never influence the page |
| Report.MergedCountsArePerFileSums | scripts/generate-cucumber-report.js:40-54 | The total and passed counts over the merged list are the sums of the per-file counts; a parse error adds nothing |
| Report.ReportTilesArePerFileSums | scripts/generate-cucumber-report.js:38-58 | A written page's tiles show the per-file sums over the result files that parsed |
| Report.ExampleAllStepsPass | scripts/generate-cucumber-report.js:107-118 | Worked example: one scenario with two passed steps gives 1/1/0 and class "passed" |
| Report.ExampleFailingStep | scripts/generate-cucumber-report.js:184-203 | Worked example: a failed step gives 1/0/1, class "failed", and its error message under that step |
| Report.ExampleDiscovery | scripts/generate-cucumber-report.js:27 | Worked example: "broken.json" and "login.cucumber.json" are picked up, "notes.txt" is not |
| Report.ExampleMalformedFileSkipped | scripts/generate-cucumber-report.js:40-54 | Worked example: with a malformed file next to a good one, only the good file's features are reported |
| Report.ExampleZeroScenariosIsNotPlaceholder | scripts/generate-cucumber-report.js:63 | Worked example: a feature with no scenarios gives tiles 0/0/0 but no no-data block |
| Report.ExampleMissingElementsThrows | scripts/generate-cucumber-report.js:107-182 | Worked example: a feature without `elements` counts 0, but rendering it throws |

## Left out

- Filesystem calls (`existsSync`, `mkdirSync`, `readdirSync`, `readFileSync`, `writeFileSync`) are I/O. Their effect is reduced to inputs: whether the directory exists, the directory listing in the order `readdirSync` returns it, and each file's parse outcome. The page that would be written is the result.
- `console` logging, including the per-file parse diagnostic, is output only and is not modelled.
- `JSON.parse` is a foreign call, represented only by its outcome: an array, a single value, or an error message.
- Parsed values that are not feature-shaped objects are outside the typed model. A `null` in one of the optional fields (`elements`, `steps`, `result`, `description`, `error_message`) behaves like a missing one, which the model represents. A `null` `name`, `keyword` or `status` is printed as "null", and the model's `string` fields do not represent it. In the code a wrong-typed value is still merged, because `push` runs before the `features.length` that throws on `null`. The run then aborts with an uncaught TypeError in one of two places. In the aggregate, it aborts on a `null` feature or scenario, a truthy `elements` or `steps` that is not an array, or a `null` step that `every` reaches. In the renderer, it aborts on a feature, scenario or step that is not an object, or on a falsy `elements` or `steps` that is not an array. Other wrong-typed fields inside a step are printed as text without any throw: a `result` of `0`, for example, renders the class "undefined" and counts as not passed.
- Readback.ReportRoundTrip: the round trip holds of the piece sequence, where every name and text is a separate field. The code writes one HTML string and inserts names, descriptions and error messages without escaping, so on that text a value containing markup does not read back as itself. For example, a step name `x</div><div class="error-message">boom` reads as an error block the input never had.
- Missing required fields (`name`, `keyword`, `status`) are printed as "undefined" by the code. The model's `string` fields cannot be absent, so it does not represent this case.
- Exceptions from the filesystem calls outside the `try` abort the run without writing a page, and are not modelled: `readFileSync` on an unreadable file or a directory named `x.json`; `readdirSync` when `cypress/cucumber-json` exists but is a regular file (`existsSync` is true for files too, and the `dirExists` input cannot express this); `mkdirSync` and `writeFileSync` when the report directory or file cannot be created or written.
- The literal CSS and HTML text of the page carries no logic. Each dynamic fragment is a `Piece`; the static text around it is not represented.
- Render.RenderFeatures: the error of a failed render names the first missing field met in evaluation order, but the contracts state only when rendering succeeds, not which error is returned.
- The Cypress specs and step definitions, and cypress.config.js, are browser automation and plugin wiring with no self-contained logic.
