/** Confidence toggling and rescoring on the results page (src/pages/Results.jsx:32-63). */
module Rescoring {
  import opened Wrappers
  import opened Seqs
  import opened Storage
  import opened Skills
  import opened Score
  import opened Analysis
  import opened History

  type ConfidenceMap = map<string, Confidence>

  /** `skillConfidenceMap?.[skill] || 'practice'`: a skill with no entry counts as practice. */
  function Status(m: ConfidenceMap, skill: string): Confidence {
    if skill in m then m[skill] else Practice
  }

  /** The toggled map `{ ...map, [skill]: flipped }`. */
  function Toggle(m: ConfidenceMap, skill: string): (m': ConfidenceMap)
    ensures m'.Keys == m.Keys + {skill}
    ensures m'[skill] != Status(m, skill)
    ensures forall k :: k in m && k != skill ==> m'[k] == m[k]
  {
    m[skill := if Status(m, skill) == Know then Practice else Know]
  }

  /** Toggling a skill twice restores the map, apart from creating an absent skill's
      entry at its default status. */
  lemma ToggleTwice(m: ConfidenceMap, skill: string)
    ensures Toggle(Toggle(m, skill), skill) == m[skill := Status(m, skill)]
    ensures skill in m ==> Toggle(Toggle(m, skill), skill) == m
  {
    var t := Toggle(Toggle(m, skill), skill);
    assert t.Keys == m[skill := Status(m, skill)].Keys;
  }

  /** The skills marked `'know'` and those marked `'practice'`. */
  function KnowSet(m: ConfidenceMap): set<string> {
    set k | k in m && m[k] == Know
  }

  function PracticeSet(m: ConfidenceMap): set<string> {
    set k | k in m && m[k] == Practice
  }

  /** The whole-map adjustment: +2 per `'know'` entry, -2 per `'practice'` entry. */
  function Adjustment(m: ConfidenceMap): int {
    2 * |KnowSet(m)| - 2 * |PracticeSet(m)|
  }

  /** The adjustment of the entries already visited, while `left` remain. */
  function Visited(m: ConfidenceMap, left: set<string>): int {
    2 * |KnowSet(m) - left| - 2 * |PracticeSet(m) - left|
  }

  lemma RemoveMember(a: set<string>, left: set<string>, k: string)
    requires k in a && k in left
    ensures |a - (left - {k})| == |a - left| + 1
  {
    assert a - (left - {k}) == (a - left) + {k};
  }

  lemma RemoveOther(a: set<string>, left: set<string>, k: string)
    requires k !in a
    ensures a - (left - {k}) == a - left
  {
  }

  /** Visiting one more entry adds its signed contribution. */
  lemma VisitStep(m: ConfidenceMap, left: set<string>, k: string)
    requires k in left && k in m
    ensures Visited(m, left - {k}) == Visited(m, left) + (if m[k] == Know then 2 else -2)
  {
    if m[k] == Know {
      RemoveMember(KnowSet(m), left, k);
      RemoveOther(PracticeSet(m), left, k);
    } else {
      RemoveOther(KnowSet(m), left, k);
      RemoveMember(PracticeSet(m), left, k);
    }
  }

  /** The `Object.values(newMap).forEach` loop of lines 41-44, visiting the entries in
      an arbitrary order. */
  method SumAdjustments(m: ConfidenceMap) returns (total: int)
    ensures total == Adjustment(m)
    ensures -2 * |m| <= total <= 2 * |m|
  {
    total := 0;
    var left := m.Keys;
    while left != {}
      invariant left <= m.Keys
      invariant total == Visited(m, left)
      decreases |left|
    {
      var k :| k in left;
      VisitStep(m, left, k);
      total := total + if m[k] == Know then 2 else -2;
      left := left - {k};
    }
    assert KnowSet(m) - left == KnowSet(m);
    assert PracticeSet(m) - left == PracticeSet(m);
    KnowAndPracticePartition(m);
  }

  /** Every key is in exactly one of the two sets. */
  lemma KnowAndPracticePartition(m: ConfidenceMap)
    ensures |KnowSet(m)| + |PracticeSet(m)| == |m|
  {
    assert KnowSet(m) + PracticeSet(m) == m.Keys;
    assert KnowSet(m) * PracticeSet(m) == {};
  }

  /** The rescored `finalScore`: base plus the adjustment, clamped to [0, 100]. */
  function Rescore(base: int, m: ConfidenceMap): (r: int)
    ensures 0 <= r <= 100
    ensures 0 <= base + 2 * |KnowSet(m)| - 2 * |PracticeSet(m)| <= 100 ==>
      r == base + 2 * |KnowSet(m)| - 2 * |PracticeSet(m)|
    ensures r == Clamp(base + 2 * |KnowSet(m)| - 2 * |PracticeSet(m)|, 0, 100)
  {
    Clamp(base + Adjustment(m), 0, 100)
  }

  /** One toggle moves the adjustment by four when the skill had an entry and by two when
      it had none (an absent skill becomes `'know'`). */
  lemma AdjustmentAfterToggle(m: ConfidenceMap, skill: string)
    ensures Adjustment(Toggle(m, skill)) == Adjustment(m) +
      (if skill !in m then 2 else if m[skill] == Know then -4 else 4)
  {
    var t := Toggle(m, skill);
    if skill !in m {
      AddedKey(m, skill);
    } else if m[skill] == Know {
      Flipped(m, skill, Know, Practice);
      KnowAndPracticePartition(m);
    } else {
      Flipped(m, skill, Practice, Know);
    }
  }

  lemma AddedKey(m: ConfidenceMap, skill: string)
    requires skill !in m
    ensures KnowSet(m[skill := Know]) == KnowSet(m) + {skill}
    ensures PracticeSet(m[skill := Know]) == PracticeSet(m)
  {
  }

  lemma Flipped(m: ConfidenceMap, skill: string, from: Confidence, to: Confidence)
    requires skill in m && m[skill] == from && from != to
    ensures KnowSet(m[skill := to]) == if to == Know then KnowSet(m) + {skill} else KnowSet(m) - {skill}
    ensures PracticeSet(m[skill := to]) == if to == Practice then PracticeSet(m) + {skill} else PracticeSet(m) - {skill}
  {
  }

  /** Toggling a present skill twice restores the final score. */
  lemma RescoreToggleTwice(base: int, m: ConfidenceMap, skill: string)
    requires skill in m
    ensures Rescore(base, Toggle(Toggle(m, skill), skill)) == Rescore(base, m)
  {
    ToggleTwice(m, skill);
  }

  /** Rescoring a non-empty all-practice map lowers any positive base. */
  lemma AllPracticeLowers(base: int, m: ConfidenceMap)
    requires 0 < base <= 100 && |m| > 0
    requires forall k :: k in m ==> m[k] == Practice
    ensures Rescore(base, m) < base
  {
    assert KnowSet(m) == {};
    KnowAndPracticePartition(m);
  }

  /** A freshly analysed record does not satisfy the rescoring formula: every one of its
      skills is at `'practice'`, so rescoring its own map gives less than its `finalScore`. */
  lemma FreshRecordIsNotRescored(company: string, role: string, jdText: string, id: string, now: string)
    ensures var r := AnalyzeJD(company, role, jdText, id, now);
      Rescore(r.baseScore, r.skillConfidenceMap) < r.finalScore
  {
    var r := AnalyzeJD(company, role, jdText, id, now);
    AnalyzeConfidence(company, role, jdText, id, now);
    AllPracticeLowers(r.baseScore, r.skillConfidenceMap);
  }

  /** `handleToggleSkill(skill)` for the displayed record `entry`. */
  method HandleToggleSkill(s: Store<HistoryJson>, entry: Option<AnalysisRecord>, skill: string, now: string)
    returns (u: Updated)
    ensures entry.None? ==> u == Updated(s, None)
    ensures entry.Some? ==>
      var e := entry.value;
      var m := Toggle(e.skillConfidenceMap, skill);
      var score := Clamp(e.baseScore + 2 * |KnowSet(m)| - 2 * |PracticeSet(m)|, 0, 100);
      && (u.entry.None? <==> forall x :: x in GetHistory(s).list ==> x.id != e.id)
      && (u.entry.None? ==> u.store == s)
      && (u.entry.Some? ==>
            && 0 <= u.entry.value.finalScore <= 100
            && exists x :: x in GetHistory(s).list && x.id == e.id &&
                 u.entry.value == x.(updatedAt := now, skillConfidenceMap := m, finalScore := score))
      && u == UpdateHistoryEntry(s, e.id, Patch(Some(m), Some(score)), now)
  {
    if entry.None? {
      return Updated(s, None);
    }
    var e := entry.value;
    var m := Toggle(e.skillConfidenceMap, skill);
    var adjustment := SumAdjustments(m);
    var score := Clamp(e.baseScore + adjustment, 0, 100);
    u := UpdateHistoryEntry(s, e.id, Patch(Some(m), Some(score)), now);
    var h := GetHistory(s).list;
    if u.entry.Some? {
      var i := FirstIndex(h, e.id).value;
      assert h[i] in h;
    }
  }

  /** The record's own status of a skill is `'practice'`; absence does not count. */
  predicate IsWeak(m: ConfidenceMap, skill: string) {
    skill in m && m[skill] == Practice
  }

  /** The weak skills among `xs`, in order. */
  function WeakIn(m: ConfidenceMap, xs: seq<string>): (r: seq<string>)
    ensures IsSubsequence(r, xs)
    ensures forall x :: x in r ==> IsWeak(m, x)
    ensures forall x :: x in xs && IsWeak(m, x) ==> x in r
    ensures forall x :: multiset(r)[x] == if IsWeak(m, x) then multiset(xs)[x] else 0
  {
    if |xs| == 0 then []
    else
      assert xs == [xs[0]] + xs[1..];
      if IsWeak(m, xs[0]) then [xs[0]] + WeakIn(m, xs[1..])
      else
        var rest := WeakIn(m, xs[1..]);
        SubsequenceOfTail(rest, xs);
        rest
  }

  /** The `weakSkills` list of the results page. */
  function WeakSkills(e: AnalysisRecord): (r: seq<string>)
    ensures |r| <= 3
    ensures IsSubsequence(r, Flatten(e.extractedSkills.Lists()))
    ensures forall x :: x in r ==> IsWeak(e.skillConfidenceMap, x)
    ensures forall x :: x in Flatten(e.extractedSkills.Lists()) && IsWeak(e.skillConfidenceMap, x) && x !in r ==>
      |r| == 3
    ensures var all := WeakIn(e.skillConfidenceMap, Flatten(e.extractedSkills.Lists()));
      |r| == (if |all| < 3 then |all| else 3) && r == all[..|r|]
  {
    var all := WeakIn(e.skillConfidenceMap, Flatten(e.extractedSkills.Lists()));
    var r := Take(all, 3);
    PrefixOfSubsequence(all, Flatten(e.extractedSkills.Lists()), |r|);
    assert r == all[..|r|];
    r
  }
}
