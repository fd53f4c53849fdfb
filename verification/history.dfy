/** The analysis history: a newest-first list of records behind one storage key
    (src/lib/analysisEngine.js:194-240). */
module History {
  import opened Wrappers
  import opened Storage
  import opened Skills
  import opened Analysis

  /** One element of the stored array: something that is not an object, or an object
      read as a record (a missing `id` or `jdText` reads as the empty string). */
  datatype Entry = NotObject | Obj(rec: AnalysisRecord)

  /** The parsed history blob: something other than an array, or an array of entries. */
  datatype HistoryJson = NotArray | Array(entries: seq<Entry>)

  const HistoryKey: string := "placement_prep_history"

  /** `getHistory()`'s result. */
  datatype Loaded = Loaded(list: seq<AnalysisRecord>, corrupted: bool)

  /** The filter at line 224: an object whose `id` and `jdText` are both truthy. */
  predicate IsValid(e: Entry) {
    e.Obj? && e.rec.id != "" && e.rec.jdText != ""
  }

  predicate IsValidRecord(r: AnalysisRecord) {
    IsValid(Obj(r))
  }

  /** The records of the valid entries, in order. */
  function ValidRecords(es: seq<Entry>): (r: seq<AnalysisRecord>)
    ensures |r| <= |es|
    ensures |r| == |es| <==> forall i :: 0 <= i < |es| ==> IsValid(es[i])
    ensures forall x :: x in r ==> IsValidRecord(x) && Obj(x) in es
    ensures forall i :: 0 <= i < |es| && IsValid(es[i]) ==> es[i].rec in r
  {
    if |es| == 0 then []
    else
      var rest := ValidRecords(es[1..]);
      assert forall i :: 1 <= i < |es| ==> es[i] == es[1..][i - 1];
      if IsValid(es[0]) then [es[0].rec] + rest else rest
  }

  lemma {:induction false} ValidRecordsAppend(a: seq<Entry>, b: seq<Entry>)
    ensures ValidRecords(a + b) == ValidRecords(a) + ValidRecords(b)
  {
    if |a| > 0 {
      assert (a + b)[1..] == a[1..] + b;
      ValidRecordsAppend(a[1..], b);
    } else {
      assert a + b == b;
    }
  }

  /** The array `JSON.stringify` writes for a list of records. */
  function Encode(rs: seq<AnalysisRecord>): (es: seq<Entry>)
    ensures |es| == |rs| && forall i :: 0 <= i < |rs| ==> es[i] == Obj(rs[i])
  {
    seq(|rs|, i requires 0 <= i < |rs| => Obj(rs[i]))
  }

  /** Reading back a list of valid records loses nothing. */
  lemma {:induction false} ValidRecordsOfEncode(rs: seq<AnalysisRecord>)
    requires forall x :: x in rs ==> IsValidRecord(x)
    ensures ValidRecords(Encode(rs)) == rs
  {
    if |rs| > 0 {
      var es := Encode(rs);
      assert rs[0] in rs;
      assert es[0] == Obj(rs[0]) && IsValid(es[0]);
      assert es[1..] == Encode(rs[1..]);
      ValidRecordsOfEncode(rs[1..]);
      assert rs == [rs[0]] + rs[1..];
    }
  }

  /** `getHistory()`. */
  function GetHistory(s: Store<HistoryJson>): (h: Loaded)
    ensures forall x :: x in h.list ==> IsValidRecord(x)
    ensures IsBlank(s, HistoryKey) ==> h == Loaded([], false)
    ensures !IsBlank(s, HistoryKey) && (s[HistoryKey].Malformed? || s[HistoryKey].value.NotArray?) ==>
      h == Loaded([], true)
  {
    if IsBlank(s, HistoryKey) then Loaded([], false)
    else match s[HistoryKey]
      case Json(Array(es)) =>
        var v := ValidRecords(es);
        Loaded(v, |v| != |es|)
      case _ => Loaded([], true)
  }

  /** A parsed array keeps exactly its valid entries, in order, and is flagged corrupted
      exactly when some entry was dropped. */
  lemma GetHistoryArray(s: Store<HistoryJson>, es: seq<Entry>)
    requires HistoryKey in s && s[HistoryKey] == Json(Array(es))
    ensures GetHistory(s).list == ValidRecords(es)
    ensures GetHistory(s).corrupted <==> exists i :: 0 <= i < |es| && !IsValid(es[i])
  {
  }

  /** `saveToHistory(analysis)`: prepend and write back the loaded list. */
  function SaveToHistory(s: Store<HistoryJson>, a: AnalysisRecord): (s': Store<HistoryJson>)
    ensures HistoryKey in s' && s'[HistoryKey] == Json(Array([Obj(a)] + Encode(GetHistory(s).list)))
    ensures forall k :: k != HistoryKey ==> (k in s' <==> k in s) && (k in s ==> s'[k] == s[k])
  {
    var h := GetHistory(s).list;
    assert Encode([a] + h) == [Obj(a)] + Encode(h);
    Write(s, HistoryKey, Array(Encode([a] + h)))
  }

  /** After a save the stored list is the new record followed by the previous valid list;
      a record without `id` or `jdText` is stored but filtered out on the next read. */
  lemma SaveThenLoad(s: Store<HistoryJson>, a: AnalysisRecord)
    ensures GetHistory(SaveToHistory(s, a)).list ==
      (if IsValidRecord(a) then [a] else []) + GetHistory(s).list
    ensures GetHistory(SaveToHistory(s, a)).corrupted <==> !IsValidRecord(a)
  {
    var prev := GetHistory(s).list;
    var es := [Obj(a)] + Encode(prev);
    LoadWritten(s, es);
    ValidRecordsAppend([Obj(a)], Encode(prev));
    ValidRecordsOfEncode(prev);
    assert [Obj(a)][1..] == [];
    assert ValidRecords([Obj(a)]) == if IsValidRecord(a) then [a] else [];
  }

  /** Reading back a written array. */
  lemma LoadWritten(s: Store<HistoryJson>, es: seq<Entry>)
    ensures GetHistory(Write(s, HistoryKey, Array(es))) ==
      Loaded(ValidRecords(es), |ValidRecords(es)| != |es|)
  {
  }

  /** The index of the first record with the given id. */
  function FirstIndex(h: seq<AnalysisRecord>, id: string): (r: Option<nat>)
    ensures r.Some? ==> r.value < |h| && h[r.value].id == id && forall j :: 0 <= j < r.value ==> h[j].id != id
    ensures r.None? ==> forall j :: 0 <= j < |h| ==> h[j].id != id
  {
    if |h| == 0 then None
    else if h[0].id == id then Some(0)
    else match FirstIndex(h[1..], id)
      case None => None
      case Some(i) => Some(i + 1)
  }

  /** `getAnalysisById(id)`: the first loaded record with that id. */
  function GetAnalysisById(s: Store<HistoryJson>, id: string): (r: Option<AnalysisRecord>)
    ensures r.Some? ==> r.value.id == id && r.value in GetHistory(s).list && IsValidRecord(r.value)
    ensures r.None? ==> forall x :: x in GetHistory(s).list ==> x.id != id
    ensures var h := GetHistory(s).list;
      r.Some? ==> exists i :: 0 <= i < |h| && h[i] == r.value && forall j :: 0 <= j < i ==> h[j].id != id
  {
    var h := GetHistory(s).list;
    match FirstIndex(h, id)
    case None => None
    case Some(i) => Some(h[i])
  }

  /** A saved record is found by its id exactly when it has both an id and a JD text. */
  lemma SaveThenFind(s: Store<HistoryJson>, a: AnalysisRecord)
    ensures GetAnalysisById(SaveToHistory(s, a), a.id) == (if IsValidRecord(a) then Some(a) else
      GetAnalysisById(s, a.id))
  {
    SaveThenLoad(s, a);
    var h := GetHistory(s).list;
    if !IsValidRecord(a) {
      assert GetHistory(SaveToHistory(s, a)).list == h;
    }
  }

  /** The fields `updateHistoryEntry` may be given; Results passes both. */
  datatype Patch = Patch(confidence: Option<map<string, Confidence>>, finalScore: Option<int>)

  /** `{ ...entry, ...updates, updatedAt }`. */
  function Merge(r: AnalysisRecord, p: Patch, now: string): (m: AnalysisRecord)
    ensures m.updatedAt == now && m.id == r.id && m.jdText == r.jdText
    ensures m.skillConfidenceMap == p.confidence.GetOr(r.skillConfidenceMap)
    ensures m.finalScore == p.finalScore.GetOr(r.finalScore)
    ensures m.(updatedAt := r.updatedAt, skillConfidenceMap := r.skillConfidenceMap, finalScore := r.finalScore) == r
  {
    r.(updatedAt := now,
       skillConfidenceMap := p.confidence.GetOr(r.skillConfidenceMap),
       finalScore := p.finalScore.GetOr(r.finalScore))
  }

  /** The store after an update and the updated record, if any. */
  datatype Updated = Updated(store: Store<HistoryJson>, entry: Option<AnalysisRecord>)

  /** `updateHistoryEntry(id, updates)`. */
  function UpdateHistoryEntry(s: Store<HistoryJson>, id: string, p: Patch, now: string): (u: Updated)
    ensures u.entry.None? <==> forall x :: x in GetHistory(s).list ==> x.id != id
    ensures u.entry.None? ==> u.store == s
    ensures u.entry.Some? ==> u.entry.value.id == id && IsValidRecord(u.entry.value)
  {
    var h := GetHistory(s).list;
    match FirstIndex(h, id)
    case None => Updated(s, None)
    case Some(i) =>
      assert h[i] in h;
      var m := Merge(h[i], p, now);
      Updated(Write(s, HistoryKey, Array(Encode(h[i := m]))), Some(m))
  }

  /** A successful update rewrites only the first record with that id, in place, and
      leaves a clean list in which lookup finds the merged record. */
  lemma UpdateThenLoad(s: Store<HistoryJson>, id: string, p: Patch, now: string)
    requires FirstIndex(GetHistory(s).list, id).Some?
    ensures var h := GetHistory(s).list;
      var i := FirstIndex(h, id).value;
      var u := UpdateHistoryEntry(s, id, p, now);
      && u.entry == Some(Merge(h[i], p, now))
      && GetHistory(u.store) == Loaded(h[i := Merge(h[i], p, now)], false)
      && GetAnalysisById(u.store, id) == u.entry
  {
    var h := GetHistory(s).list;
    var i := FirstIndex(h, id).value;
    var m := Merge(h[i], p, now);
    var h2 := h[i := m];
    assert h[i] in h;
    assert forall x :: x in h2 ==> IsValidRecord(x) by {
      forall x | x in h2 ensures IsValidRecord(x) {
        var j :| 0 <= j < |h2| && h2[j] == x;
        if j != i { assert x == h[j]; }
      }
    }
    ValidRecordsOfEncode(h2);
    LoadWritten(s, Encode(h2));
    FirstIndexAfterUpdate(h, id, i, m);
  }

  lemma FirstIndexAfterUpdate(h: seq<AnalysisRecord>, id: string, i: nat, m: AnalysisRecord)
    requires FirstIndex(h, id) == Some(i) && m.id == id
    ensures FirstIndex(h[i := m], id) == Some(i)
  {
    var h2 := h[i := m];
    assert h2[i].id == id;
    assert forall j :: 0 <= j < i ==> h2[j] == h[j];
  }
}
