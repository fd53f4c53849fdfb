/** The interview question bank of `analyzeJD` (src/lib/analysisEngine.js:138-173, 186):
    one template question per known skill, topped up from five defaults, at most ten. */
module Questions {
  import opened Wrappers
  import opened Seqs

  const MaxQuestions := 10

  /** The `questionTemplates` object: skill name to its interview question, in declaration order. */
  const TemplateTable: seq<(string, string)> := [
    ("SQL", "Explain indexing and how it helps in optimizing queries."),
    ("React", "Explain state management options in React and their trade-offs."),
    ("DSA", "How would you optimize search in sorted versus unsorted data?"),
    ("Java", "Explain the difference between final, finally, and finalize."),
    ("Python", "How are lists and tuples different in terms of memory?"),
    ("Node.js", "How does the event loop work in Node.js?"),
    ("Networks", "Explain the 7 layers of the OSI model and where HTTP resides."),
    ("DBMS", "What are ACID properties and why are they important?"),
    ("OS", "Explain the difference between a process and a thread."),
    ("Docker", "What is the difference between an image and a container?"),
    ("REST", "What are the common HTTP status codes and their meanings?"),
    ("Next.js", "What is the difference between SSR and SSG?"),
    ("MongoDB", "What are the advantages of NoSQL over traditional SQL databases?")
  ]

  /** The question column of a table. */
  function QuestionsOf(table: seq<(string, string)>): (qs: seq<string>)
    ensures |qs| == |table| && forall i :: 0 <= i < |table| ==> qs[i] == table[i].1
  {
    seq(|table|, i requires 0 <= i < |table| => table[i].1)
  }

  /** Object property lookup in a table: the value paired with the first matching key. */
  function Lookup(table: seq<(string, string)>, key: string): (r: Option<string>)
    ensures r.Some? ==> exists i :: 0 <= i < |table| && table[i] == (key, r.value)
    ensures r.None? ==> forall i :: 0 <= i < |table| ==> table[i].0 != key
  {
    if |table| == 0 then None
    else if table[0].0 == key then Some(table[0].1)
    else
      var r := Lookup(table[1..], key);
      assert forall i :: 1 <= i < |table| ==> table[i] == table[1..][i - 1];
      r
  }

  /** In a table whose questions are all different, a question comes from one key only. */
  lemma LookupInjective(table: seq<(string, string)>, a: string, b: string)
    requires Distinct(QuestionsOf(table))
    requires Lookup(table, a).Some? && Lookup(table, a) == Lookup(table, b)
    ensures a == b
  {
    var q := Lookup(table, a).value;
    var i :| 0 <= i < |table| && table[i] == (a, q);
    var j :| 0 <= j < |table| && table[j] == (b, q);
    assert QuestionsOf(table)[i] == QuestionsOf(table)[j];
  }

  /** `questionTemplates[skill]`: the question kept for a skill, if any. */
  function Template(skill: string): Option<string> {
    Lookup(TemplateTable, skill)
  }

  predicate HasTemplate(skill: string) {
    Template(skill).Some?
  }

  /** The questions used to top the bank up, in the order they are tried. */
  const DefaultQuestions: seq<string> := [
    "Tell me about a challenging project you've worked on.",
    "How do you handle disagreements in a team setting?",
    "What is your approach to learning a new technology rapidly?",
    "Explain the Time and Space complexity of your most used algorithm.",
    "How do you ensure code quality in your projects?"
  ]

  /** Different skills never share a template question. */
  lemma TemplateInjective(a: string, b: string)
    requires HasTemplate(a) && Template(a) == Template(b)
    ensures a == b
  {
    TemplateQuestionsDistinct();
    LookupInjective(TemplateTable, a, b);
  }

  lemma TemplateQuestionsDistinct()
    ensures Distinct(QuestionsOf(TemplateTable))
  {
  }

  /** No template question is also a default question. */
  lemma TemplatesAreNotDefaults(skill: string)
    requires HasTemplate(skill)
    ensures Template(skill).value !in DefaultQuestions
  {
    TemplateColumnApart();
    var i :| 0 <= i < |TemplateTable| && TemplateTable[i] == (skill, Template(skill).value);
    assert QuestionsOf(TemplateTable)[i] == Template(skill).value;
  }

  lemma TemplateColumnApart()
    ensures forall q :: q in QuestionsOf(TemplateTable) ==> q !in DefaultQuestions
  {
  }

  lemma DefaultsDistinct()
    ensures Distinct(DefaultQuestions)
  {
  }

  /** The values `f` gives to the elements of `xs`, in order, skipping the elements it
      maps to nothing. */
  function Collect(f: string -> Option<string>, xs: seq<string>): seq<string> {
    if |xs| == 0 then []
    else match f(xs[0])
      case None => Collect(f, xs[1..])
      case Some(q) => [q] + Collect(f, xs[1..])
  }

  /** The j-th collected value is the value of the j-th element that has one. */
  lemma {:induction false} CollectInOrder(f: string -> Option<string>, p: string -> bool, xs: seq<string>)
    requires forall x :: p(x) == f(x).Some?
    ensures var r := Collect(f, xs);
      && |r| == |Filter(p, xs)|
      && forall j :: 0 <= j < |r| ==> f(Filter(p, xs)[j]) == Some(r[j])
  {
    if |xs| > 0 {
      CollectInOrder(f, p, xs[1..]);
      if p(xs[0]) {
        assert Filter(p, xs) == [xs[0]] + Filter(p, xs[1..]);
        assert Collect(f, xs) == [f(xs[0]).value] + Collect(f, xs[1..]);
      } else {
        assert Filter(p, xs) == Filter(p, xs[1..]);
        assert Collect(f, xs) == Collect(f, xs[1..]);
      }
    }
  }

  /** A collected value is the value of some element, and every element's value is collected. */
  lemma {:induction false} CollectMembers(f: string -> Option<string>, xs: seq<string>)
    ensures forall q :: q in Collect(f, xs) ==> exists i :: 0 <= i < |xs| && f(xs[i]) == Some(q)
    ensures forall i :: 0 <= i < |xs| && f(xs[i]).Some? ==> f(xs[i]).value in Collect(f, xs)
  {
    if |xs| > 0 {
      CollectMembers(f, xs[1..]);
      assert forall i :: 1 <= i < |xs| ==> xs[i] == xs[1..][i - 1];
      forall q | q in Collect(f, xs) ensures exists i :: 0 <= i < |xs| && f(xs[i]) == Some(q) {
        if q !in Collect(f, xs[1..]) {
          assert f(xs[0]) == Some(q);
        } else {
          var i :| 0 <= i < |xs[1..]| && f(xs[1..][i]) == Some(q);
          assert f(xs[i + 1]) == Some(q);
        }
      }
    }
  }

  /** The first loop: the template question of every skill that has one, in skill order. */
  function SkillQuestions(skills: seq<string>): (qs: seq<string>)
    ensures |qs| == |Filter(HasTemplate, skills)|
    ensures forall j :: 0 <= j < |qs| ==> Template(Filter(HasTemplate, skills)[j]) == Some(qs[j])
    ensures forall q :: q in qs ==> exists i :: 0 <= i < |skills| && Template(skills[i]) == Some(q)
    ensures forall i :: 0 <= i < |skills| && HasTemplate(skills[i]) ==> Template(skills[i]).value in qs
  {
    CollectInOrder(Template, HasTemplate, skills);
    CollectMembers(Template, skills);
    Collect(Template, skills)
  }

  /** The template questions never include a default question. */
  lemma SkillQuestionsNotDefaults(skills: seq<string>)
    ensures forall q :: q in SkillQuestions(skills) ==> q !in DefaultQuestions
  {
    forall q | q in SkillQuestions(skills) ensures q !in DefaultQuestions {
      var i :| 0 <= i < |skills| && Template(skills[i]) == Some(q);
      TemplatesAreNotDefaults(skills[i]);
    }
  }

  /** Different skills give different questions, so a duplicate-free skill list gives a
      duplicate-free question list. */
  lemma {:induction false} SkillQuestionsDistinct(skills: seq<string>)
    requires Distinct(skills)
    ensures Distinct(SkillQuestions(skills))
  {
    if |skills| > 0 {
      var rest := SkillQuestions(skills[1..]);
      SkillQuestionsDistinct(skills[1..]);
      if Template(skills[0]).Some? {
        var q := Template(skills[0]).value;
        if q in rest {
          var j :| 0 <= j < |skills[1..]| && Template(skills[1..][j]) == Some(q);
          assert skills[1..][j] == skills[j + 1];
          TemplateInjective(skills[0], skills[1..][j]);
          assert false;
        }
        assert SkillQuestions(skills) == [q] + rest;
        DistinctAppend([q], rest);
      }
    }
  }

  /** The second loop: while fewer than ten questions are collected and defaults remain,
      take the next default and append it unless already present. */
  function FillDefaults(qs: seq<string>, defaults: seq<string>): (r: seq<string>)
    ensures |r| >= |qs| && r[..|qs|] == qs
    ensures |qs| >= MaxQuestions ==> r == qs
    ensures |qs| < MaxQuestions ==> |r| <= MaxQuestions
    ensures forall q :: q in r ==> q in qs || q in defaults
    ensures Distinct(qs) ==> Distinct(r)
    decreases |defaults|
  {
    if |qs| >= MaxQuestions || |defaults| == 0 then qs
    else
      var next := if defaults[0] in qs then qs else qs + [defaults[0]];
      assert Distinct(qs) ==> Distinct(next) by {
        if Distinct(qs) && defaults[0] !in qs {
          DistinctAppend(qs, [defaults[0]]);
        }
      }
      var r := FillDefaults(next, defaults[1..]);
      assert r[..|qs|] == next[..|qs|] == qs;
      r
  }

  /** The defaults that are not already among `qs`, in the order given. */
  function Unused(qs: seq<string>, defaults: seq<string>): seq<string> {
    if |defaults| == 0 then []
    else if defaults[0] in qs then Unused(qs, defaults[1..])
    else [defaults[0]] + Unused(qs, defaults[1..])
  }

  /** How many questions may still be added before the cap. */
  function Room(qs: seq<string>): nat {
    if |qs| >= MaxQuestions then 0 else MaxQuestions - |qs|
  }

  /** With duplicate-free defaults, the second loop appends exactly the defaults not yet
      present, in their order, until the cap is reached. */
  lemma {:induction false} FillDefaultsAppends(qs: seq<string>, defaults: seq<string>)
    requires Distinct(defaults)
    ensures FillDefaults(qs, defaults) == qs + Take(Unused(qs, defaults), Room(qs))
    decreases |defaults|
  {
    if |qs| >= MaxQuestions || |defaults| == 0 {
      assert Take(Unused(qs, defaults), Room(qs)) == [];
      assert qs + [] == qs;
    } else {
      var d, tail := defaults[0], defaults[1..];
      DistinctTail(defaults);
      if d in qs {
        FillDefaultsAppends(qs, tail);
        assert FillDefaults(qs, defaults) == FillDefaults(qs, tail);
        assert Unused(qs, defaults) == Unused(qs, tail);
      } else {
        var u := Unused(qs, tail);
        FillDefaultsAppends(qs + [d], tail);
        UnusedIgnores(qs, d, tail);
        assert FillDefaults(qs, defaults) == FillDefaults(qs + [d], tail);
        assert Unused(qs, defaults) == [d] + u;
        assert Room(qs + [d]) == Room(qs) - 1;
        TakeCons(d, u, Room(qs));
        ConcatAssoc(qs, [d], Take(u, Room(qs) - 1));
      }
    }
  }

  /** The tail of a duplicate-free list is duplicate-free and does not hold its head. */
  lemma DistinctTail(xs: seq<string>)
    requires |xs| > 0 && Distinct(xs)
    ensures Distinct(xs[1..]) && xs[0] !in xs[1..]
  {
    var tail := xs[1..];
    forall i, j | 0 <= i < j < |tail| ensures tail[i] != tail[j] {
      assert tail[i] == xs[i + 1] && tail[j] == xs[j + 1];
    }
    forall i | 0 <= i < |tail| ensures tail[i] != xs[0] {
      assert tail[i] == xs[i + 1];
    }
  }

  lemma ConcatAssoc(a: seq<string>, b: seq<string>, c: seq<string>)
    ensures (a + b) + c == a + (b + c)
  {
  }

  /** Taking n > 0 elements of a list with a head takes the head and n - 1 of the rest. */
  lemma TakeCons(d: string, u: seq<string>, n: nat)
    requires n > 0
    ensures Take([d] + u, n) == [d] + Take(u, n - 1)
  {
  }

  /** Adding a value the defaults do not hold leaves the unused defaults as they were. */
  lemma {:induction false} UnusedIgnores(qs: seq<string>, d: string, defaults: seq<string>)
    requires d !in defaults
    ensures Unused(qs + [d], defaults) == Unused(qs, defaults)
    decreases |defaults|
  {
    if |defaults| > 0 {
      assert defaults[0] in qs + [d] <==> defaults[0] in qs;
      assert defaults[1..][..] == defaults[1..];
      assert forall x :: x in defaults[1..] ==> x in defaults;
      UnusedIgnores(qs, d, defaults[1..]);
    }
  }

  /** With no overlap, every default is appended until ten questions are reached. */
  lemma {:induction false} FillDefaultsCount(qs: seq<string>, defaults: seq<string>)
    requires Distinct(defaults)
    requires forall q :: q in defaults ==> q !in qs
    ensures |FillDefaults(qs, defaults)| ==
              if |qs| >= MaxQuestions then |qs|
              else if |qs| + |defaults| < MaxQuestions then |qs| + |defaults| else MaxQuestions
    decreases |defaults|
  {
    if |qs| < MaxQuestions && |defaults| > 0 {
      var next := qs + [defaults[0]];
      forall q | q in defaults[1..] ensures q !in next {
        assert q != defaults[0];
      }
      FillDefaultsCount(next, defaults[1..]);
    }
  }

  /** When no default is already present, every default is unused. */
  lemma {:induction false} UnusedOfDisjoint(qs: seq<string>, defaults: seq<string>)
    requires forall q :: q in defaults ==> q !in qs
    ensures Unused(qs, defaults) == defaults
    decreases |defaults|
  {
    if |defaults| > 0 {
      assert defaults[0] in defaults;
      assert forall x :: x in defaults[1..] ==> x in defaults;
      UnusedOfDisjoint(qs, defaults[1..]);
      assert defaults == [defaults[0]] + defaults[1..];
    }
  }

  /** The question bank for the flat skill list, truncated to ten. */
  function BuildQuestions(skills: seq<string>): (r: seq<string>)
    ensures |r| <= MaxQuestions
    ensures Distinct(skills) ==> Distinct(r)
    ensures r == Take(SkillQuestions(skills) + DefaultQuestions, MaxQuestions)
  {
    SkillQuestionsNotDefaults(skills);
    TopUp(SkillQuestions(skills));
    var r := Take(FillDefaults(SkillQuestions(skills), DefaultQuestions), MaxQuestions);
    assert Distinct(skills) ==> Distinct(r) by {
      if Distinct(skills) {
        SkillQuestionsDistinct(skills);
      }
      var f := FillDefaults(SkillQuestions(skills), DefaultQuestions);
      assert |f| <= MaxQuestions ==> r == f;
      if |f| > MaxQuestions {
        assert r == f[..MaxQuestions];
      }
    }
    r
  }

  /** For a duplicate-free skill list with k templated skills, the bank holds
      min(10, k + 5) questions, so between five and ten, and starts with the
      template questions in skill order. */
  lemma QuestionCount(skills: seq<string>)
    ensures var k := |Filter(HasTemplate, skills)|;
            |BuildQuestions(skills)| == if k + 5 < MaxQuestions then k + 5 else MaxQuestions
    ensures 5 <= |BuildQuestions(skills)| <= MaxQuestions
    ensures var sq := SkillQuestions(skills);
            forall i :: 0 <= i < |sq| && i < MaxQuestions ==> BuildQuestions(skills)[i] == sq[i]
  {
    SkillQuestionsNotDefaults(skills);
    TopUp(SkillQuestions(skills));
  }

  /** Topping up questions none of which is a default, then truncating to ten. */
  lemma TopUp(sq: seq<string>)
    requires forall q :: q in sq ==> q !in DefaultQuestions
    ensures var r := Take(FillDefaults(sq, DefaultQuestions), MaxQuestions);
            && |r| == (if |sq| + 5 < MaxQuestions then |sq| + 5 else MaxQuestions)
            && (forall i :: 0 <= i < |sq| && i < MaxQuestions ==> r[i] == sq[i])
            && r == Take(sq + DefaultQuestions, MaxQuestions)
  {
    DefaultsDistinct();
    FillDefaultsAppends(sq, DefaultQuestions);
    UnusedOfDisjoint(sq, DefaultQuestions);
    CappedTopUp(sq, DefaultQuestions);
    var t := Take(sq + DefaultQuestions, MaxQuestions);
    assert forall i :: 0 <= i < |sq| && i < MaxQuestions ==> t[i] == (sq + DefaultQuestions)[i] == sq[i];
  }

  /** Appending at most the room left and then cutting at the cap is cutting at the cap. */
  lemma CappedTopUp(a: seq<string>, d: seq<string>)
    ensures Take(a + Take(d, Room(a)), MaxQuestions) == Take(a + d, MaxQuestions)
  {
    var l := Take(a + Take(d, Room(a)), MaxQuestions);
    var r := Take(a + d, MaxQuestions);
    assert |l| == |r|;
    forall i | 0 <= i < |l| ensures l[i] == r[i] {
      if i >= |a| {
        assert (a + Take(d, Room(a)))[i] == Take(d, Room(a))[i - |a|];
      }
    }
  }
}
