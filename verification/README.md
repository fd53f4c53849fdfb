# Placement-readiness and résumé-builder core, in Dafny

This project models the logic at the heart of an AI résumé builder and placement-readiness
platform, a React single-page application that keeps all of its state in the browser's
`localStorage`. The model covers these parts:

- **Job-description analysis** (`src/lib/analysisEngine.js`):
  - skill extraction against a fixed six-category taxonomy, using case-insensitive
    whole-word regular expressions, with a fallback bucket when no token matches;
  - company heuristics (enterprise detection, industry, size label);
  - the interview-round mapping and its checklist;
  - the readiness base score, the seven-day plan, and the interview question bank of at most
    ten questions;
  - the analysis history kept under `placement_prep_history`: save, load with corruption
    detection, update by id, and find by id.
- **Rescoring on the results page** (`src/pages/Results.jsx`): toggling a skill between
  `know` and `practice`, recomputing the final score clamped to 0..100, persisting it, and the
  list of the first three weak skills.
- **The résumé draft** (`src/hooks/useResumeData.js`): every state transformer the hook
  exposes, the initial load from storage, and the explicit save.
- **Plain-text export** (`src/lib/resumeExportUtils.js`): `convertToPlainText`, modelled as a
  list of tagged pieces and then rendered.
- **The eight-step build track** (`src/hooks/useBuildTrack.js`,
  `src/pages/ResumeBuilder/StepPage.jsx`):
  - per-step artifacts and the step-access rule;
  - proof links;
  - route resolution and the redirects it triggers;
  - where "Next" navigates, and when it is disabled.
- **The internal test checklist** (`src/lib/testStorage.js`, `src/pages/TestChecklist.jsx`):
  ten checks in storage, toggling one, resetting, the summary, and the "ready to ship"
  condition.

Storage is modelled as `map<string, Blob<T>>`. A `Blob` is one of three things:

- the empty string;
- text that `JSON.parse` rejects;
- parsed JSON of the expected shape.

`JSON.stringify` followed by `JSON.parse` is the identity on the modelled values. Clocks
(`Date.now()`, `new Date().toISOString()`) are parameters. String matching follows
JavaScript's rules exactly for the ASCII patterns the program uses:

- `\b` word boundaries over `[A-Za-z0-9_]`;
- ASCII case folding for the `i` flag;
- the ECMAScript white-space set for `trim`.

Modules follow the source: `Skills`, `Company`, `Rounds`, `Score`, `Plan`, `Questions`,
`Analysis` and `History` model the analysis engine. `Rescoring` models the results page.
`Resume` models the résumé hook and `ResumeExport` the exporter. `BuildTrack` and `StepRoutes`
model the build track, and `Checklist` the test checklist. `Seqs`, `Text`, `Storage` and
`Wrappers` hold shared definitions.

Where the code's behaviour differs from what its names, comments or neighbouring code suggest,
the model follows the code:

- A freshly analysed record has `finalScore == baseScore`. This is not the
  "base plus adjustments, clamped" value that every later toggle writes, because a fresh
  record's map is all `practice` (`Rescoring.FreshRecordIsNotRescored`).
- The résumé hook's initial load throws on unparsable stored JSON instead of falling back to
  the blank draft (`Resume.InitialState` returns `None` there).
- The company size label tests the raw `company` string for emptiness, while the score
  bonus tests `company.trim()`.
- `extractedSkills` always carries all seven keys. Categories without a match keep `[]`.
- The résumé's `skills` value can be a string (what the hook stores) or an object of three
  lists (what the exporter reads), so it is modelled as both.

## Model

| member | source | states |
|---|---|---|
| Storage.Write | src/lib/testStorage.js:26-28 | after `setItem`, the key holds the written value and is no longer blank; every other key is untouched |
| Text.Trim | src/lib/analysisEngine.js:116-117 | `trim()` yields the infix of the input left after removing a white-space prefix and a white-space suffix; the result has no white space at either end, and it is empty exactly when the input is all white space |
| Text.IndexOfFrom | src/pages/ResumeBuilder/StepPage.jsx:28-29 | the found index is the first occurrence at or after `from`; `None` means there is no occurrence |
| Text.DecimalInjective | src/hooks/useBuildTrack.js:33-42 | distinct step numbers print differently, so the `rb_step_<n>_artifact` keys never collide |
| Text.NonWordEndNeedsWordAfter | src/lib/analysisEngine.js:34-36 | a token ending in a non-word character, such as `C++` or `C#`, matches only when a word character follows it |
| Skills.MatchedIn | src/lib/analysisEngine.js:34-36 | the matched tokens keep taxonomy order and are exactly the tokens the text mentions as whole words, case-insensitively |
| Skills.Matched | src/lib/analysisEngine.js:33-36 | one category's list is exactly its mentioned tokens, in taxonomy order |
| Skills.Extract | src/lib/analysisEngine.js:11-53 | at most six categories are counted, at least one skill is always reported, and the confidence map's keys are exactly the reported skills, all at `practice` |
| Skills.ExtractCategory | src/lib/analysisEngine.js:33-44 | each category's stored list is exactly the tokens of that category the text mentions, in order |
| Skills.ExtractFallback | src/lib/analysisEngine.js:46-53 | the four fallback skills are used exactly when no taxonomy token is mentioned; otherwise `other` stays empty; the flat list is the lists in key order |
| Skills.ExtractCount | src/lib/analysisEngine.js:37-43 | `detectedCategoriesCount` equals the number of categories whose list is non-empty |
| Skills.ExtractDistinct | src/lib/analysisEngine.js:1-8 | the flat skill list never repeats a skill, because no token occurs twice in the taxonomy |
| Skills.AllTokensDistinct | src/lib/analysisEngine.js:1-8 | the taxonomy lists every token once, across all six categories |
| Skills.ExtractVocabulary | src/lib/analysisEngine.js:41-51 | every reported skill is a taxonomy token or a fallback term |
| Skills.NoBlankSkill | src/lib/analysisEngine.js:1-8 | no taxonomy token or fallback term is the empty string |
| Skills.ExtractConfidence | src/lib/analysisEngine.js:40-50 | the seeded confidence map is never empty |
| Company.AnyContained | src/lib/analysisEngine.js:57 | `some` over case-insensitive substring tests holds exactly when some name occurs in the string |
| Company.FirstIndustry | src/lib/analysisEngine.js:60-62 | the industry is the label of the first rule with a keyword in the text, or the default when no rule matches |
| Company.Profile | src/lib/analysisEngine.js:56-66 | enterprise exactly when a listed name occurs in the company string; the size label is Enterprise, Startup or N/A by the flag and the raw string's emptiness; the focus follows the flag |
| Company.EmptyCompanyIsNotEnterprise | src/lib/analysisEngine.js:57-63 | an empty company string matches no enterprise name and is sized N/A |
| Rounds.FirstSkillOr | src/lib/analysisEngine.js:98 | `allSkills[0] \|\| 'Feature'` is never empty, and it is the first skill whenever that skill is non-empty |
| Rounds.RoundMapping | src/lib/analysisEngine.js:68-111 | an enterprise gets the four fixed rounds; a startup gets three, the first of which builds with the first skill |
| Rounds.Checklist | src/lib/analysisEngine.js:184 | the checklist has one entry per round, with that round's title and focus areas as items |
| Score.Clamp | src/pages/Results.jsx:47 | the clamped value lies in the bounds: it is the input when that is in range, the lower bound below it and the upper bound above it |
| Score.BaseScore | src/lib/analysisEngine.js:113-119 | the base score lies in 35..95 and, without bonuses, is 35 plus five per category up to 30 |
| Score.BonusesAddTen | src/lib/analysisEngine.js:116-118 | a trimmed non-blank company, a trimmed non-blank role and a description longer than 800 characters each add exactly ten to the score without that bonus |
| Score.BaseScoreSaturates | src/lib/analysisEngine.js:115 | categories beyond the sixth add nothing |
| Score.BlankInputsEarnNothing | src/lib/analysisEngine.js:116-117 | a company or role made only of white space earns no bonus |
| Plan.SevenDayPlan | src/lib/analysisEngine.js:121-136 | five plan entries with fixed days and focuses; only day 5 and day 6 gain a task, exactly when web or cloud skills were found |
| Questions.Lookup | src/lib/analysisEngine.js:157-158 | object lookup returns a value paired with the key, or nothing when no entry has the key |
| Questions.TemplateInjective | src/lib/analysisEngine.js:139-153 | two skills with the same template question are the same skill |
| Questions.TemplatesAreNotDefaults | src/lib/analysisEngine.js:139-168 | no template question is also one of the five default questions |
| Questions.DefaultsDistinct | src/lib/analysisEngine.js:162-168 | the five default questions are pairwise different |
| Questions.SkillQuestions | src/lib/analysisEngine.js:155-160 | one question per templated skill, in `forEach` order: the j-th question is the template of the j-th skill that has one; each is some skill's template, and every templated skill's question is present |
| Questions.SkillQuestionsDistinct | src/lib/analysisEngine.js:155-160 | a duplicate-free skill list yields duplicate-free template questions |
| Questions.FillDefaults | src/lib/analysisEngine.js:170-173 | the loop keeps the collected questions as a prefix, stops at ten, adds only defaults, and adds no duplicate; FillDefaultsAppends says which defaults and in what order |
| Questions.FillDefaultsAppends | src/lib/analysisEngine.js:170-173 | with duplicate-free defaults, the loop appends exactly the defaults not already present, in their order, up to the room left under ten |
| Questions.FillDefaultsCount | src/lib/analysisEngine.js:170-173 | with no overlap, defaults are appended until ten questions are reached or the defaults run out |
| Questions.BuildQuestions | src/lib/analysisEngine.js:155-186 | the bank is the first ten of the template questions in skill order followed by the five defaults, at most ten questions, with no duplicates when the skills have none |
| Questions.QuestionCount | src/lib/analysisEngine.js:155-186 | with k templated skills the bank holds min(k + 5, 10) questions, at least five, starting with the template questions in skill order |
| Questions.TopUp | src/lib/analysisEngine.js:170-186 | topping up questions that are not defaults and truncating to ten gives the first ten of those questions followed by all five defaults, so min(n + 5, 10) questions with the given ones as a prefix |
| Analysis.AnalyzeJD | src/lib/analysisEngine.js:10-191 | the record carries the given id, clock, company, role and text; its skills and confidence map are those extracted from the text, its company profile is the one for the company and text, its base score is the score formula for the detected category count and the inputs (in 35..95) and the final score starts equal to it, and its questions are the bank for its own flat skill list |
| Analysis.AnalyzeRounds | src/lib/analysisEngine.js:56-111 | the enterprise flag alone picks four or three rounds, and the checklist mirrors the rounds |
| Analysis.FeatureDefaultUnreachable | src/lib/analysisEngine.js:98 | the startup first round always names a real extracted skill, so `'Feature'` is never used |
| Analysis.AnalyzeSkills | src/lib/analysisEngine.js:11-53 | the skill lists are non-empty and duplicate-free, the map's keys are exactly the skills, and the fallback is used exactly when nothing matched |
| Analysis.AnalyzeConfidence | src/lib/analysisEngine.js:40-53 | a fresh record's map is non-empty and all `practice`, and its final score equals its base score |
| Analysis.AnalyzeQuestions | src/lib/analysisEngine.js:138-186 | the record's questions are the template questions of its own skills in skill order, then the defaults, cut at ten: min(10, k + 5) questions for k templated skills, none repeated |
| Analysis.AnalyzeScore | src/lib/analysisEngine.js:114-119 | the base score is 35, plus five per non-empty category up to 30, plus ten each for a non-blank trimmed company, a non-blank trimmed role and a description longer than 800 characters |
| Analysis.AnalyzePlan | src/lib/analysisEngine.js:121-136 | the plan's conditional tasks follow the record's `web` and `cloud` lists |
| History.ValidRecords | src/lib/analysisEngine.js:224-226 | the filter keeps exactly the object entries with a truthy id and JD text, in order |
| History.ValidRecordsOfEncode | src/lib/analysisEngine.js:197-226 | a stored list of valid records is read back unchanged |
| History.GetHistory | src/lib/analysisEngine.js:216-235 | blank storage gives an empty, uncorrupted list; unparsable or non-array data gives an empty, corrupted list; every loaded record is valid |
| History.GetHistoryArray | src/lib/analysisEngine.js:224-231 | a parsed array yields its valid entries and is flagged corrupted exactly when some entry was dropped |
| History.SaveToHistory | src/lib/analysisEngine.js:194-198 | the new record is prepended to the loaded list and written back; no other key changes |
| History.SaveThenLoad | src/lib/analysisEngine.js:194-235 | after a save, loading gives the new record (if valid) before the previous list, and reports corruption exactly when the new record is invalid |
| History.FirstIndex | src/lib/analysisEngine.js:202 | `findIndex` returns the first position with that id, or none when no record has it |
| History.GetAnalysisById | src/lib/analysisEngine.js:237-240 | `find` returns the first loaded record with that id, which is valid; `undefined` means no loaded record has the id |
| History.SaveThenFind | src/lib/analysisEngine.js:194-240 | a saved record is found by its id exactly when it is valid |
| History.Merge | src/lib/analysisEngine.js:204-208 | the spread keeps every field except the patched ones and `updatedAt` |
| History.UpdateHistoryEntry | src/lib/analysisEngine.js:200-214 | `null` and an untouched store exactly when no loaded record has the id; otherwise the updated record keeps the id |
| History.UpdateThenLoad | src/lib/analysisEngine.js:200-214 | a successful update rewrites only the first record with that id, in place, and the reloaded list shows it |
| Rescoring.Toggle | src/pages/Results.jsx:35-38 | the toggled map adds the skill, flips its effective status, and keeps every other entry |
| Rescoring.ToggleTwice | src/pages/Results.jsx:35-38 | toggling twice restores the map, except that an absent skill stays recorded as `practice` |
| Rescoring.SumAdjustments | src/pages/Results.jsx:41-44 | the loop's total is +2 per `know` entry and -2 per `practice` entry, and lies within ±2 per entry |
| Rescoring.KnowAndPracticePartition | src/pages/Results.jsx:41-44 | every entry is counted once, as `know` or as `practice` |
| Rescoring.Rescore | src/pages/Results.jsx:41-47 | the final score is base + 2·know − 2·practice saturated to 0..100: that value when in range, 0 below it, 100 above it |
| Rescoring.AdjustmentAfterToggle | src/pages/Results.jsx:35-44 | one toggle moves the adjustment by +4 or −4 for a recorded skill, and by +2 for a new one |
| Rescoring.RescoreToggleTwice | src/pages/Results.jsx:32-55 | toggling a recorded skill twice restores the final score |
| Rescoring.AllPracticeLowers | src/pages/Results.jsx:41-47 | a non-empty all-practice map always lowers a positive base score |
| Rescoring.FreshRecordIsNotRescored | src/lib/analysisEngine.js:187-189 | a fresh record's final score is its base score, not the rescoring formula's value |
| Rescoring.HandleToggleSkill | src/pages/Results.jsx:32-55 | no displayed record means no change; otherwise the store is rewritten so that the first stored record with the displayed id gets the toggled map and the rescored final score, and the page shows them |
| Rescoring.WeakIn | src/pages/Results.jsx:59-61 | the filter keeps exactly the skills explicitly marked `practice`, in order, each as many times as it occurs in the input |
| Rescoring.WeakSkills | src/pages/Results.jsx:57-63 | the first three weak skills in list order (all of them when fewer than three): the result is the prefix of length min(3, count) of the weak skills |
| Resume.UpdatePersonalInfo | src/hooks/useResumeData.js:53-55 | supplied keys overwrite, missing keys keep their value, and nothing outside the personal info changes |
| Resume.PersonalInfoIdempotent | src/hooks/useResumeData.js:53-55 | applying the same patch twice is applying it once, and the empty patch changes nothing |
| Resume.UpdateSummary | src/hooks/useResumeData.js:57-59 | only the summary changes, to the given text |
| Resume.UpdateSkills | src/hooks/useResumeData.js:97-99 | only the skills value changes, to the given one |
| Resume.UpdateLinks | src/hooks/useResumeData.js:101-103 | supplied links overwrite, missing ones stay, and nothing else changes |
| Resume.LinksIdempotent | src/hooks/useResumeData.js:101-103 | applying the same links patch twice is applying it once |
| Resume.AddEducation | src/hooks/useResumeData.js:61-63 | one blank entry is appended and everything else stays |
| Resume.UpdateEducation | src/hooks/useResumeData.js:65-71 | only the named field of the named entry changes |
| Resume.AddExperience | src/hooks/useResumeData.js:73-75 | one blank entry is appended and everything else stays |
| Resume.UpdateExperience | src/hooks/useResumeData.js:77-83 | only the named field of the named entry changes |
| Resume.UpdateEntryLaws | src/hooks/useResumeData.js:77-83 | writing back a field's current value changes nothing, and the later of two writes wins |
| Resume.AddProject | src/hooks/useResumeData.js:85-87 | one blank entry is appended and everything else stays |
| Resume.UpdateProject | src/hooks/useResumeData.js:89-95 | only the named field of the named entry changes |
| Resume.LoadSampleData | src/hooks/useResumeData.js:105-107 | the draft becomes the sample, which has a name, two experiences and two projects |
| Resume.LoadSampleIdempotent | src/hooks/useResumeData.js:105-107 | loading the sample gives the same draft from any state, including after a previous load |
| Resume.InitialState | src/hooks/useResumeData.js:48-51 | blank storage gives the blank draft, and the load fails exactly when the stored text does not parse |
| Resume.Apply | src/hooks/useResumeData.js:53-111 | only the save writes to storage, and it writes the current draft |
| Resume.SaveThenReload | src/hooks/useResumeData.js:48-111 | a saved draft comes back on the next load, and unsaved edits afterwards do not reach storage |
| ResumeExport.LinksPieces | src/lib/resumeExportUtils.js:14-16 | the links line is written exactly when a GitHub or LinkedIn link is set |
| ResumeExport.SummaryPieces | src/lib/resumeExportUtils.js:21-23 | the summary block is written exactly when the summary is non-empty |
| ResumeExport.ExperiencePieces | src/lib/resumeExportUtils.js:26-35 | the experience heading is written exactly when there is an entry |
| ResumeExport.ProjectPieces | src/lib/resumeExportUtils.js:38-47 | the projects heading is written exactly when there is a project |
| ResumeExport.EducationPieces | src/lib/resumeExportUtils.js:50-56 | the education heading is written exactly when there is an entry |
| ResumeExport.SkillsPieces | src/lib/resumeExportUtils.js:59-64 | the skills heading is written exactly when the value is truthy |
| ResumeExport.SummaryBlock | src/lib/resumeExportUtils.js:21-23 | the summary block is empty without a summary, and otherwise is the `SUMMARY` line followed by the summary and a blank line |
| ResumeExport.ExperienceBlock | src/lib/resumeExportUtils.js:26-35 | the experience block is empty without entries, and otherwise is the `EXPERIENCE` line followed by the entries |
| ResumeExport.ProjectsBlock | src/lib/resumeExportUtils.js:38-47 | the projects block is empty without projects, and otherwise is the `PROJECTS` line followed by the projects |
| ResumeExport.EducationBlock | src/lib/resumeExportUtils.js:50-56 | the education block is empty without entries, and otherwise is the `EDUCATION` line, the entries and one blank line |
| ResumeExport.SkillsBlock | src/lib/resumeExportUtils.js:59-64 | the skills block is empty for a falsy value, otherwise opens with the `TECHNICAL SKILLS` line, and every skill line in it is its caption (`Technical: `, `Soft Skills: `, `Tools: `) followed by its list joined with `, ` |
| ResumeExport.SkillLineOf | src/lib/resumeExportUtils.js:61-63 | a skill line carries its group's caption and the comma-joined list |
| ResumeExport.SkillLinesPresentIff | src/lib/resumeExportUtils.js:59-64 | each of the three skill lines is written exactly when its list is non-empty; a string value gets none |
| ResumeExport.ConvertToPlainText | src/lib/resumeExportUtils.js:1-67 | a missing argument gives `''`, and the text never starts or ends with white space |
| ResumeExport.SectionsPresentIff | src/lib/resumeExportUtils.js:14-64 | in the whole text, the links line appears exactly when a link is set, and each of the `SUMMARY`, `EXPERIENCE`, `PROJECTS`, `EDUCATION` and `TECHNICAL SKILLS` title lines appears exactly when its data is present |
| ResumeExport.SkillLinesInText | src/lib/resumeExportUtils.js:59-64 | in the whole text, each skill line appears exactly when its list is non-empty, and every such line is its caption followed by that list joined with `, ` |
| ResumeExport.SectionOrder | src/lib/resumeExportUtils.js:9-64 | sections appear in a fixed order: header, contact, links, divider, summary, experience, projects, education, skills |
| ResumeExport.ExperienceLinesInOrder | src/lib/resumeExportUtils.js:26-35 | one `role \| company \| duration` line per experience entry, in list order |
| ResumeExport.RenderedFront | src/lib/resumeExportUtils.js:9-18 | before trimming, the text is the name (or `YOUR NAME`), a newline, the contact and links text, then the divider |
| ResumeExport.StartsWithName | src/lib/resumeExportUtils.js:9-66 | the trimmed text starts with the name, or with `YOUR NAME` when the name is empty |
| ResumeExport.NeverEmpty | src/lib/resumeExportUtils.js:18-66 | whatever the draft, the exported text is non-empty |
| BuildTrack.StepKeyInjective | src/hooks/useBuildTrack.js:33-42 | different steps use different storage keys |
| BuildTrack.SaveArtifact | src/hooks/useBuildTrack.js:33-38 | saving adds the step's key, keeps the other artifacts, and leaves the links alone |
| BuildTrack.GetArtifact | src/hooks/useBuildTrack.js:40-42 | a step with nothing stored reads as `''` |
| BuildTrack.CompleteIffArtifact | src/hooks/useBuildTrack.js:44-46 | a step is complete exactly when its artifact is non-empty |
| BuildTrack.SaveThenGet | src/hooks/useBuildTrack.js:33-46 | a saved artifact reads back, and other steps' artifacts and completion are unchanged |
| BuildTrack.SaveEmptyLocksNext | src/hooks/useBuildTrack.js:44-51 | saving an empty artifact makes the step incomplete and locks the next step |
| BuildTrack.SaveNonEmptyUnlocksNext | src/hooks/useBuildTrack.js:44-51 | saving a non-empty artifact completes the step and unlocks the next |
| BuildTrack.CompletePrefixAccessible | src/hooks/useBuildTrack.js:48-51 | if every step before k is complete, all steps up to k are accessible |
| BuildTrack.FreshOnlyFirst | src/hooks/useBuildTrack.js:15-51 | with nothing stored, only the first step is accessible |
| BuildTrack.UpdateLinks | src/hooks/useBuildTrack.js:53-55 | supplied links overwrite, missing ones stay, and the artifacts are untouched |
| BuildTrack.UpdateLinksKeepsProgress | src/hooks/useBuildTrack.js:53-55 | link updates never change completion or access, and repeating one changes nothing further |
| StepRoutes.FindStep | src/pages/ResumeBuilder/StepPage.jsx:13 | `findIndex` returns the first step whose name occurs in the route id, or none |
| StepRoutes.Route | src/pages/ResumeBuilder/StepPage.jsx:13-16 | the step is shown exactly when the route names a step that is accessible; otherwise the page redirects to the first step |
| StepRoutes.RouteIdResolves | src/pages/ResumeBuilder/StepPage.jsx:13 | each step's own route id resolves to that step and no earlier one |
| StepRoutes.NextTargetIsNextRoute | src/pages/ResumeBuilder/StepPage.jsx:25-37 | "Next" ends on the next step's route, or on the proof page from the last step |
| StepRoutes.NextNavigations | src/pages/ResumeBuilder/StepPage.jsx:25-37 | before the last step "Next" navigates twice, the second time to `/rb/` and the next step's route id; from the last step it navigates once, to `/rb/proof` |
| StepRoutes.NextShowsNextStep | src/pages/ResumeBuilder/StepPage.jsx:13-37 | after a saved artifact, following "Next" shows the next step instead of redirecting |
| StepRoutes.NextDisabledIff | src/pages/ResumeBuilder/StepPage.jsx:71 | "Next" is disabled exactly when the text is all white space |
| StepRoutes.WhitespaceCompletesStep | src/pages/ResumeBuilder/StepPage.jsx:20-71 | white space alone completes a step and unlocks the next, although "Next" stays disabled |
| Checklist.GetChecklist | src/lib/testStorage.js:16-24 | blank or unparsable storage gives the ten defaults |
| Checklist.UpdateChecklist | src/lib/testStorage.js:26-28 | only the checklist key changes |
| Checklist.UpdateThenGet | src/lib/testStorage.js:16-28 | whatever list is written is the list read back |
| Checklist.ResetChecklist | src/lib/testStorage.js:30-33 | a reset returns the defaults and leaves them stored |
| Checklist.Summarize | src/lib/testStorage.js:40-44 | passed ≤ total = the list's length, with equality exactly when every check passed |
| Checklist.GetChecklistSummary | src/lib/testStorage.js:35-44 | the stored summary reports all passed exactly when `isChecklistComplete` holds |
| Checklist.Mount | src/pages/TestChecklist.jsx:11-14 | the mounted page shows the stored list, and its summary counts that list: passed is at most total, total is the list's length, and passed equals total exactly when the stored checklist is complete |
| Checklist.DefaultsSummary | src/lib/testStorage.js:3-14 | the defaults summarise as 0 of 10 |
| Checklist.DefaultIdsDistinct | src/lib/testStorage.js:3-14 | the ten default ids are pairwise different |
| Checklist.ToggleTest | src/pages/TestChecklist.jsx:16-17 | every check with the id flips, every other check stays, and no caption, hint or id changes |
| Checklist.ToggleTwice | src/pages/TestChecklist.jsx:16-17 | toggling the same id twice gives the list back |
| Checklist.ToggleUnknownId | src/pages/TestChecklist.jsx:16-17 | an id no check carries changes nothing |
| Checklist.ToggleMovesCountByOne | src/pages/TestChecklist.jsx:16-20 | toggling the single check with an id moves the passed count by exactly one |
| Checklist.HandleToggle | src/pages/TestChecklist.jsx:16-21 | the page shows the toggled list, and the store holds it |
| Checklist.HandleReset | src/pages/TestChecklist.jsx:23-27 | the page and the store both hold the defaults |
| Checklist.SummaryFollowsList | src/pages/TestChecklist.jsx:11-46 | after mount or toggle the summary describes the list on screen, so the page is ready exactly when every check has passed |
| Checklist.ResetIsNotReady | src/pages/TestChecklist.jsx:8-46 | neither the unmounted page nor a reset page is ready; a reset shows 0 of 10 |
| Checklist.ToggleThenReload | src/pages/TestChecklist.jsx:11-21 | reloading after a toggle shows the toggled list |

## Left out

- Rendering (JSX, styling, icons, the ship-lock and proof pages) has no logic beyond the
  modelled conditions.
- Clocks and ids (`Date.now()`, `toISOString()`) are parameters of the model.
- The JSON text format is not modelled. Stored values are parsed results; `JSON.parse` errors
  are the `Malformed` blob.
- Parsable JSON of an unexpected shape (an object where an array is expected, records with
  missing fields) is not modelled, except the history's "not an array" and
  "entry without id or JD text" cases, which the code checks.
- The build track's initial load from `rb_artifacts` and `rb_links`, the effects that write
  them back, and the extra per-step `setItem` are modelled as the in-memory `Track`, which
  those keys mirror. `BuildTrack.Fresh` is the state when nothing is stored. A malformed
  stored value, which makes the hook throw, is not modelled.
- The results page's load effect (`src/pages/Results.jsx:27-30`) is represented only as the
  `entry` parameter of `Rescoring.HandleToggleSkill`.
- Clipboard export (`handleExport`), copy-status timers and navigation side effects are
  foreign browser calls.
- String length is counted in characters, not UTF-16 code units. Case folding covers ASCII
  only, which is exact for every pattern the program uses.
- `stepIndex` on line 11 of `src/pages/ResumeBuilder/StepPage.jsx` is unused and is not modelled.
- Resume.UpdateEducation: requires an existing index; JavaScript would write past the end, but the editor passes only indexes of existing entries.
- Resume.UpdateExperience: requires an existing index, for the same reason.
- Resume.UpdateProject: requires an existing index, for the same reason.
- Resume.UpdatePersonalInfo: the patch can carry only the four known fields; the editor never passes other keys.
- History.Merge: the patch can carry only `skillConfidenceMap` and `finalScore`, the keys its only caller passes.
- ResumeExport.ConvertToPlainText: the exact characters are stated for the text's front and its per-section structure, not as one formula for the whole string.
- `removeEducation`, `removeExperience`, `removeProject`, `atsScore` and `suggestions` are
  read from the résumé hook by `src/pages/ResumeApp/Builder.jsx:34-52`, but the hook's return
  value (`src/hooks/useResumeData.js:113-127`) has none of them, so they are `undefined` in
  the page and there is nothing to model.
