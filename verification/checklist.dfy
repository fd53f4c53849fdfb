/** The internal test checklist (src/lib/testStorage.js and src/pages/TestChecklist.jsx):
    ten named checks, each passed or not, kept under one storage key; the page toggles
    one check at a time and calls the platform ready once every check has passed. */
module Checklist {
  import opened Seqs
  import opened Storage

  /** One check; the source's `label` field is called `caption` here. */
  datatype TestItem = TestItem(id: string, caption: string, hint: string, passed: bool)

  const ChecklistKey: string := "prp_test_checklist"

  /** `DEFAULT_TESTS`: the ten checks, none passed. */
  const DefaultTests: seq<TestItem> := [
    TestItem("jd-req", "JD required validation works", "Try submitting with empty JD.", false),
    TestItem("short-jd", "Short JD warning shows for <200 chars", "Paste \"hello\" and see if amber warning appears.", false),
    TestItem("skills-group", "Skills extraction groups correctly", "Ensure React is in \"Web\", Java in \"Languages\".", false),
    TestItem("round-mapping", "Round mapping changes based on company + skills", "Compare Enterprise vs Startup mappings.", false),
    TestItem("score-det", "Score calculation is deterministic", "Same JD should yield same base score.", false),
    TestItem("live-score", "Skill toggles update score live", "Click a skill and see score change ±2.", false),
    TestItem("persistence", "Changes persist after refresh", "Toggle a skill, refresh page, verify state.", false),
    TestItem("history-res", "History saves and loads correctly", "Check if new analysis appears in History list.", false),
    TestItem("export-copy", "Export buttons copy the correct content", "Click export and paste in notepad.", false),
    TestItem("no-console", "No console errors on core pages", "Open DevTools (F12) and check for red logs.", false)
  ]

  type ChecklistStore = Store<seq<TestItem>>

  /** `getChecklist()`: the stored list, or the defaults when nothing usable is stored. */
  function GetChecklist(s: ChecklistStore): (r: seq<TestItem>)
    ensures IsBlank(s, ChecklistKey) ==> r == DefaultTests
    ensures ChecklistKey in s && s[ChecklistKey].Malformed? ==> r == DefaultTests
  {
    if IsBlank(s, ChecklistKey) then DefaultTests
    else match s[ChecklistKey]
      case Json(tests) => tests
      case _ => DefaultTests
  }

  /** `updateChecklist(tests)`. */
  function UpdateChecklist(s: ChecklistStore, tests: seq<TestItem>): (s': ChecklistStore)
    ensures forall k :: k != ChecklistKey ==> (k in s' <==> k in s)
    ensures forall k :: k in s && k != ChecklistKey ==> s'[k] == s[k]
  {
    Write(s, ChecklistKey, tests)
  }

  /** Whatever list is written is the list read back, whatever was stored before. */
  lemma UpdateThenGet(s: ChecklistStore, tests: seq<TestItem>)
    ensures GetChecklist(UpdateChecklist(s, tests)) == tests
  {
  }

  /** `resetChecklist()`: stores the defaults and returns them. */
  function ResetChecklist(s: ChecklistStore): (r: (ChecklistStore, seq<TestItem>))
    ensures r.1 == DefaultTests
    ensures GetChecklist(r.0) == DefaultTests
  {
    (UpdateChecklist(s, DefaultTests), DefaultTests)
  }

  function Passed(t: TestItem): bool {
    t.passed
  }

  /** `tests.every(t => t.passed)`. */
  predicate AllPassed(tests: seq<TestItem>) {
    forall i :: 0 <= i < |tests| ==> tests[i].passed
  }

  /** `tests.filter(t => t.passed).length`. */
  function PassedCount(tests: seq<TestItem>): nat {
    |Filter(Passed, tests)|
  }

  datatype Summary = Summary(passed: nat, total: nat)

  /** The summary of a list: how many passed, out of how many. */
  function Summarize(tests: seq<TestItem>): (r: Summary)
    ensures r.total == |tests|
    ensures r.passed <= r.total
    ensures r.passed == r.total <==> AllPassed(tests)
  {
    Summary(PassedCount(tests), |tests|)
  }

  /** `isChecklistComplete()`. */
  predicate IsChecklistComplete(s: ChecklistStore) {
    AllPassed(GetChecklist(s))
  }

  /** `getChecklistSummary()`. */
  function GetChecklistSummary(s: ChecklistStore): (r: Summary)
    ensures r.passed <= r.total == |GetChecklist(s)|
    ensures r.passed == r.total <==> IsChecklistComplete(s)
  {
    Summarize(GetChecklist(s))
  }

  /** The defaults: ten checks, none passed, so never complete. */
  lemma DefaultsSummary()
    ensures Summarize(DefaultTests) == Summary(0, 10)
  {
    assert forall i :: 0 <= i < |DefaultTests| ==> !DefaultTests[i].passed;
  }

  /** The ids of the defaults, in order. */
  const DefaultIds: seq<string> :=
    ["jd-req", "short-jd", "skills-group", "round-mapping", "score-det",
     "live-score", "persistence", "history-res", "export-copy", "no-console"]

  /** No two default checks share an id, so a toggle on the page flips exactly one. */
  lemma DefaultIdsDistinct()
    ensures Ids(DefaultTests) == DefaultIds
    ensures Distinct(DefaultIds)
  {
    var ids := Ids(DefaultTests);
    assert forall i :: 0 <= i < 10 ==> ids[i] == DefaultIds[i];
    forall i, j | 0 <= i < j < 10 ensures DefaultIds[i] != DefaultIds[j] {
      assert DefaultIds[i][0] != DefaultIds[j][0] || DefaultIds[i][1] != DefaultIds[j][1];
    }
  }

  function Ids(tests: seq<TestItem>): (r: seq<string>)
    ensures |r| == |tests| && forall i :: 0 <= i < |tests| ==> r[i] == tests[i].id
  {
    seq(|tests|, i requires 0 <= i < |tests| => tests[i].id)
  }

  /** One element of `tests.map(t => t.id === id ? { ...t, passed: !t.passed } : t)`. */
  function FlipIf(t: TestItem, id: string): TestItem {
    if t.id == id then t.(passed := !t.passed) else t
  }

  /** `toggleTest(id)`'s new list: the checks with that id flip, the rest stay. */
  function ToggleTest(tests: seq<TestItem>, id: string): (r: seq<TestItem>)
    ensures |r| == |tests|
    ensures forall i :: 0 <= i < |tests| ==>
      r[i].id == tests[i].id && r[i].caption == tests[i].caption && r[i].hint == tests[i].hint
    ensures forall i :: 0 <= i < |tests| ==>
      r[i].passed == (if tests[i].id == id then !tests[i].passed else tests[i].passed)
  {
    if |tests| == 0 then []
    else [FlipIf(tests[0], id)] + ToggleTest(tests[1..], id)
  }

  /** Toggling the same id twice gives back the list. */
  lemma ToggleTwice(tests: seq<TestItem>, id: string)
    ensures ToggleTest(ToggleTest(tests, id), id) == tests
  {
    var r := ToggleTest(ToggleTest(tests, id), id);
    assert forall i :: 0 <= i < |tests| ==> r[i] == tests[i];
  }

  /** An id no check carries changes nothing. */
  lemma ToggleUnknownId(tests: seq<TestItem>, id: string)
    requires forall i :: 0 <= i < |tests| ==> tests[i].id != id
    ensures ToggleTest(tests, id) == tests
  {
    var r := ToggleTest(tests, id);
    assert forall i :: 0 <= i < |tests| ==> r[i] == tests[i];
  }

  /** Toggling the one check with a given id moves the passed count by exactly one:
      down when it had passed, up when it had not. */
  lemma {:induction false} ToggleMovesCountByOne(tests: seq<TestItem>, id: string, k: nat)
    requires k < |tests| && tests[k].id == id
    requires forall j :: 0 <= j < |tests| && j != k ==> tests[j].id != id
    ensures PassedCount(ToggleTest(tests, id)) ==
      if tests[k].passed then PassedCount(tests) - 1 else PassedCount(tests) + 1
  {
    var r := ToggleTest(tests, id);
    assert r[1..] == ToggleTest(tests[1..], id);
    if k == 0 {
      ToggleUnknownId(tests[1..], id);
    } else {
      ToggleMovesCountByOne(tests[1..], id, k - 1);
      assert Passed(r[0]) == Passed(tests[0]);
    }
  }

  /** The page's state: the list shown and the summary shown. */
  datatype Page = Page(tests: seq<TestItem>, summary: Summary)

  /** Before the mount effect runs: no checks and a `0 / 10` summary. */
  const Unmounted: Page := Page([], Summary(0, 10))

  /** The mount effect: the list and the summary, both read from storage. */
  function Mount(s: ChecklistStore): (p: Page)
    ensures p.tests == GetChecklist(s)
    ensures p.summary.passed <= p.summary.total == |p.tests|
    ensures p.summary.passed == p.summary.total <==> IsChecklistComplete(s)
  {
    Page(GetChecklist(s), GetChecklistSummary(s))
  }

  /** The summary describes the list on screen. */
  predicate Consistent(p: Page) {
    p.summary == Summarize(p.tests)
  }

  /** `toggleTest(id)`: flip, store, then re-read the summary from storage. */
  function HandleToggle(p: Page, s: ChecklistStore, id: string): (r: (Page, ChecklistStore))
    ensures r.0.tests == ToggleTest(p.tests, id)
    ensures GetChecklist(r.1) == r.0.tests
  {
    var next := ToggleTest(p.tests, id);
    var s' := UpdateChecklist(s, next);
    (Page(next, GetChecklistSummary(s')), s')
  }

  /** `handleReset()`. */
  function HandleReset(s: ChecklistStore): (r: (Page, ChecklistStore))
    ensures r.0.tests == DefaultTests
    ensures GetChecklist(r.1) == DefaultTests
  {
    var (s', cleared) := ResetChecklist(s);
    (Page(cleared, GetChecklistSummary(s')), s')
  }

  /** The ready banner and the link to the ship step: `summary.passed === summary.total`. */
  predicate Ready(p: Page) {
    p.summary.passed == p.summary.total
  }

  /** Mounting and toggling both leave the summary describing the list on
      screen, whatever the page showed before; so the page is ready exactly when every
      check on it has passed. */
  lemma SummaryFollowsList(p: Page, s: ChecklistStore, id: string)
    ensures Consistent(Mount(s))
    ensures Consistent(HandleToggle(p, s, id).0)
    ensures Ready(HandleToggle(p, s, id).0) <==> AllPassed(ToggleTest(p.tests, id))
  {
    UpdateThenGet(s, ToggleTest(p.tests, id));
  }

  /** The page before mounting is not ready; a reset shows the defaults with a consistent
      `0 / 10` summary, so it is not ready either. */
  lemma ResetIsNotReady(s: ChecklistStore)
    ensures !Ready(Unmounted)
    ensures Consistent(HandleReset(s).0)
    ensures HandleReset(s).0.summary == Summary(0, 10)
    ensures !Ready(HandleReset(s).0)
  {
    DefaultsSummary();
  }

  /** Reloading after a toggle shows the toggled list: the toggle persists. */
  lemma ToggleThenReload(p: Page, s: ChecklistStore, id: string)
    ensures Mount(HandleToggle(p, s, id).1) == HandleToggle(p, s, id).0
  {
  }
}
