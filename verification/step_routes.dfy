/** Route handling of a build-track step page (src/pages/ResumeBuilder/StepPage.jsx): which
    step a route id names, when the page redirects, where "Next" goes and when it is
    disabled. */
module StepRoutes {
  import opened Wrappers
  import opened Text
  import opened BuildTrack

  /** The first step, from `from` on, whose name occurs in `stepId`. */
  function FindFrom(stepId: string, from: nat): (r: Option<nat>)
    requires from <= |Steps|
    ensures r.Some? ==> from <= r.value < |Steps| && Includes(stepId, Steps[r.value])
    ensures r.Some? ==> forall j :: from <= j < r.value ==> !Includes(stepId, Steps[j])
    ensures r.None? ==> forall j :: from <= j < |Steps| ==> !Includes(stepId, Steps[j])
    decreases |Steps| - from
  {
    if from == |Steps| then None
    else if Includes(stepId, Steps[from]) then Some(from)
    else FindFrom(stepId, from + 1)
  }

  /** `STEPS.findIndex(s => stepId.includes(s))`, with `None` for -1. */
  function FindStep(stepId: string): (r: Option<nat>)
    ensures r.Some? ==> r.value < |Steps| && Includes(stepId, Steps[r.value])
    ensures r.Some? ==> forall j :: 0 <= j < r.value ==> !Includes(stepId, Steps[j])
    ensures r.None? ==> forall j :: 0 <= j < |Steps| ==> !Includes(stepId, Steps[j])
  {
    FindFrom(stepId, 0)
  }

  const Home: string := "/rb/01-problem"

  /** What the page renders: a redirect, or the step with that index. */
  datatype View = Redirect(to: string) | ShowStep(index: nat)

  /** Lines 13-16: an unknown step, or one not yet accessible, redirects to the first step. */
  function Route(t: Track, stepId: string): (v: View)
    ensures v.ShowStep? <==> FindStep(stepId).Some? && CanAccessStep(t, FindStep(stepId).value)
    ensures v.ShowStep? ==> v.index == FindStep(stepId).value && v.index < |Steps|
    ensures v.Redirect? ==> v.to == Home
  {
    match FindStep(stepId)
    case None => Redirect(Home)
    case Some(i) => if CanAccessStep(t, i) then ShowStep(i) else Redirect(Home)
  }

  /** `String(n).padStart(2, '0')`. */
  function TwoDigit(n: nat): string {
    PadStart(Decimal(n), 2, '0')
  }

  /** The route id of step `k`: its two-digit number, a dash and its name. */
  function RouteId(k: nat): string
    requires k < |Steps|
  {
    TwoDigit(k + 1) + "-" + Steps[k]
  }

  /** The paths `handleNext` navigates to, in order (lines 25-36). The first, built by string
      replacement and padding, is immediately superseded by the second. */
  function NextNavigations(i: nat): (navs: seq<string>)
    requires i < |Steps|
    ensures |navs| == (if i < |Steps| - 1 then 2 else 1)
    ensures i < |Steps| - 1 ==> navs[1] == "/rb/" + RouteId(i + 1)
    ensures i == |Steps| - 1 ==> navs == ["/rb/proof"]
  {
    if i < |Steps| - 1 then
      var next := Steps[i + 1];
      ConcatAssoc("/rb/", TwoDigit(i + 2), "-", next);
      [QuickPath(i), "/rb/" + TwoDigit(i + 2) + "-" + next]
    else ["/rb/proof"]
  }

  /** The first navigation of line 29. */
  function QuickPath(i: nat): string
    requires i < |Steps| - 1
  {
    var quick := ReplaceFirst(ReplaceFirst("0" + Decimal(i + 2) + "-" + Steps[i + 1], "09", "09"), "010", "10");
    "/rb/" + TakeLast(PadStart(quick, 11, '0'), 11)
  }

  /** Where "Next" ends up: the last navigation wins. */
  function NextTarget(i: nat): string
    requires i < |Steps|
  {
    var navs := NextNavigations(i);
    navs[|navs| - 1]
  }

  /** "Next" from step `i` lands on the next step's route, and from the last step on the proof page. */
  lemma NextTargetIsNextRoute(i: nat)
    requires i < |Steps|
    ensures i < |Steps| - 1 ==> NextTarget(i) == "/rb/" + RouteId(i + 1)
    ensures i == |Steps| - 1 ==> NextTarget(i) == "/rb/proof"
  {
    if i < |Steps| - 1 {
      var navs := NextNavigations(i);
      var n, d, name := TwoDigit(i + 2), "-", Steps[i + 1];
      assert navs[1] == "/rb/" + n + d + name;
      assert RouteId(i + 1) == n + d + name;
      ConcatAssoc("/rb/", n, d, name);
    }
  }

  lemma ConcatAssoc(a: string, b: string, c: string, d: string)
    ensures a + b + c + d == a + (b + c + d)
  {
  }

  /** Every route id names its own step: no earlier step's name occurs in it. */
  lemma RouteIdResolves(k: nat)
    requires k < |Steps|
    ensures FindStep(RouteId(k)) == Some(k)
  {
    var s := RouteId(k);
    assert MatchAt(s, Steps[k], 3);
    forall j | 0 <= j < k ensures !Includes(s, Steps[j]) {
      EarlierNameAbsent(k, j);
    }
  }

  lemma EarlierNameAbsent(k: nat, j: nat)
    requires j < k < |Steps|
    ensures !Includes(RouteId(k), Steps[j])
  {
    var s := RouteId(k);
    assert s == ['0', Digit(k + 1), '-'] + Steps[k];
    NotIncludedByFirstTwo(s, Steps[j]);
  }

  /** Following "Next" from an accessible step whose artifact is saved shows the next step. */
  lemma NextShowsNextStep(t: Track, i: nat)
    requires i < |Steps| - 1 && IsStepComplete(t, i)
    ensures Route(t, RouteId(i + 1)) == ShowStep(i + 1)
  {
    RouteIdResolves(i + 1);
  }

  /** `isNextDisabled`: the edited text is blank once trimmed. */
  predicate NextDisabled(content: string) {
    Trim(content) == ""
  }

  /** Next is disabled exactly when the text is all white space. */
  lemma NextDisabledIff(content: string)
    ensures NextDisabled(content) <==> forall i :: 0 <= i < |content| ==> IsSpace(content[i])
  {
  }

  /** White space alone can still be saved: it completes the step and unlocks the next
      one, although the page keeps "Next" disabled. */
  lemma WhitespaceCompletesStep(t: Track, i: nat)
    ensures NextDisabled(" ")
    ensures IsStepComplete(SaveArtifact(t, i, " "), i)
    ensures CanAccessStep(SaveArtifact(t, i, " "), i + 1)
  {
    assert IsSpace(" "[0]);
  }
}
