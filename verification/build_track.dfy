/** The eight-step build track (src/hooks/useBuildTrack.js): one artifact per step, kept
    in a map under `rb_step_<n>_artifact` keys, and three proof links. */
module BuildTrack {
  import opened Wrappers
  import opened Text

  /** `STEPS`. */
  const Steps: seq<string> := ["problem", "market", "architecture", "hld", "lld", "build", "test", "ship"]

  /** The artifact key of step `i` (counted from zero): `rb_step_${i + 1}_artifact`. */
  function StepKey(i: nat): string {
    "rb_step_" + Decimal(i + 1) + "_artifact"
  }

  /** Different steps have different keys. */
  lemma StepKeyInjective(i: nat, j: nat)
    requires StepKey(i) == StepKey(j)
    ensures i == j
  {
    var a, b := Decimal(i + 1), Decimal(j + 1);
    var ka, kb := StepKey(i), StepKey(j);
    assert |a| == |b|;
    assert a == ka[8..8 + |a|] == kb[8..8 + |b|] == b;
    DecimalInjective(i + 1, j + 1);
  }

  datatype ProofLinks = ProofLinks(lovable: string, github: string, deploy: string)

  /** The hook's state: the artifact map and the proof links. */
  datatype Track = Track(artifacts: map<string, string>, links: ProofLinks)

  /** The state with nothing stored: no artifacts and blank links. */
  const Fresh: Track := Track(map[], ProofLinks("", "", ""))

  /** `saveArtifact(stepIndex, content)`. */
  function SaveArtifact(t: Track, i: nat, content: string): (r: Track)
    ensures r.links == t.links
    ensures r.artifacts.Keys == t.artifacts.Keys + {StepKey(i)}
    ensures forall k :: k in t.artifacts && k != StepKey(i) ==> r.artifacts[k] == t.artifacts[k]
  {
    t.(artifacts := t.artifacts[StepKey(i) := content])
  }

  /** `getArtifact(stepIndex)`: the stored text, or `''`. */
  function GetArtifact(t: Track, i: nat): (r: string)
    ensures StepKey(i) !in t.artifacts ==> r == ""
  {
    if StepKey(i) in t.artifacts then t.artifacts[StepKey(i)] else ""
  }

  /** `isStepComplete(stepIndex)`: a non-empty artifact is stored. */
  predicate IsStepComplete(t: Track, i: nat) {
    StepKey(i) in t.artifacts && t.artifacts[StepKey(i)] != ""
  }

  /** `canAccessStep(stepIndex)`: the first step always, any other once its predecessor is complete. */
  predicate CanAccessStep(t: Track, i: nat) {
    i == 0 || IsStepComplete(t, i - 1)
  }

  /** A step is complete exactly when its artifact is non-empty. */
  lemma CompleteIffArtifact(t: Track, i: nat)
    ensures IsStepComplete(t, i) <==> GetArtifact(t, i) != ""
  {
  }

  /** After a save the step's artifact is the saved text and every other step's is unchanged. */
  lemma SaveThenGet(t: Track, i: nat, content: string, j: nat)
    ensures GetArtifact(SaveArtifact(t, i, content), i) == content
    ensures j != i ==> GetArtifact(SaveArtifact(t, i, content), j) == GetArtifact(t, j)
    ensures j != i ==> (IsStepComplete(SaveArtifact(t, i, content), j) <==> IsStepComplete(t, j))
  {
    if j != i && StepKey(j) == StepKey(i) {
      StepKeyInjective(i, j);
    }
  }

  /** Saving an empty artifact makes the step incomplete and locks the next one. */
  lemma SaveEmptyLocksNext(t: Track, i: nat)
    ensures !IsStepComplete(SaveArtifact(t, i, ""), i)
    ensures !CanAccessStep(SaveArtifact(t, i, ""), i + 1)
  {
  }

  /** Saving a non-empty artifact unlocks the next step. */
  lemma SaveNonEmptyUnlocksNext(t: Track, i: nat, content: string)
    requires content != ""
    ensures IsStepComplete(SaveArtifact(t, i, content), i)
    ensures CanAccessStep(SaveArtifact(t, i, content), i + 1)
  {
  }

  /** If steps `0..k-1` all hold non-empty artifacts, every step `0..k` is accessible. */
  lemma CompletePrefixAccessible(t: Track, k: nat)
    requires forall j :: 0 <= j < k ==> IsStepComplete(t, j)
    ensures forall j :: 0 <= j <= k ==> CanAccessStep(t, j)
  {
    forall j | 0 <= j <= k ensures CanAccessStep(t, j) {
      if j > 0 {
        assert IsStepComplete(t, j - 1);
      }
    }
  }

  /** From a fresh state only the first step is accessible. */
  lemma FreshOnlyFirst(i: nat)
    ensures CanAccessStep(Fresh, i) <==> i == 0
  {
  }

  /** The keys an `updateLinks` argument supplies. */
  datatype LinksPatch = LinksPatch(lovable: Option<string>, github: Option<string>, deploy: Option<string>)

  /** `updateLinks(newLinks)`: `{ ...prev, ...newLinks }`. */
  function UpdateLinks(t: Track, p: LinksPatch): (r: Track)
    ensures r.artifacts == t.artifacts
    ensures r.links.lovable == (if p.lovable.Some? then p.lovable.value else t.links.lovable)
    ensures r.links.github == (if p.github.Some? then p.github.value else t.links.github)
    ensures r.links.deploy == (if p.deploy.Some? then p.deploy.value else t.links.deploy)
  {
    t.(links := ProofLinks(p.lovable.GetOr(t.links.lovable), p.github.GetOr(t.links.github), p.deploy.GetOr(t.links.deploy)))
  }

  /** Link updates never change which steps are complete or accessible, and repeating one
      changes nothing further. */
  lemma UpdateLinksKeepsProgress(t: Track, p: LinksPatch, i: nat)
    ensures IsStepComplete(UpdateLinks(t, p), i) <==> IsStepComplete(t, i)
    ensures CanAccessStep(UpdateLinks(t, p), i) <==> CanAccessStep(t, i)
    ensures UpdateLinks(UpdateLinks(t, p), p) == UpdateLinks(t, p)
  {
  }
}
