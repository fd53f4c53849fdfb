/** Skill extraction from a job description (src/lib/analysisEngine.js:1-53):
    a six-category taxonomy matched token by token as whole words, case-insensitively,
    with a four-term fallback bucket when nothing matches. */
module Skills {
  import opened Seqs
  import opened Text

  /** The taxonomy's categories, in declaration order. */
  datatype Category = CoreCS | Languages | Web | Data | Cloud | Testing

  const Categories: seq<Category> := [CoreCS, Languages, Web, Data, Cloud, Testing]

  /** The canonical tokens of each category, in declaration order. */
  const CoreCSTokens: seq<string> := ["DSA", "OOP", "DBMS", "OS", "Networks"]
  const LanguageTokens: seq<string> := ["Java", "Python", "JavaScript", "TypeScript", "C", "C++", "C#", "Go"]
  const WebTokens: seq<string> := ["React", "Next.js", "Node.js", "Express", "REST", "GraphQL"]
  const DataTokens: seq<string> := ["SQL", "MongoDB", "PostgreSQL", "MySQL", "Redis"]
  const CloudTokens: seq<string> := ["AWS", "Azure", "GCP", "Docker", "Kubernetes", "CI/CD", "Linux"]
  const TestingTokens: seq<string> := ["Selenium", "Cypress", "Playwright", "JUnit", "Pytest"]

  function Tokens(c: Category): seq<string> {
    match c
    case CoreCS => CoreCSTokens
    case Languages => LanguageTokens
    case Web => WebTokens
    case Data => DataTokens
    case Cloud => CloudTokens
    case Testing => TestingTokens
  }

  /** Every taxonomy token, category after category. */
  function AllTokens(): seq<string> {
    Tokens(CoreCS) + Tokens(Languages) + Tokens(Web) + Tokens(Data) + Tokens(Cloud) + Tokens(Testing)
  }

  /** The generic skills reported when no taxonomy token matches. */
  const Fallback: seq<string> := ["Communication", "Problem solving", "Basic coding", "Projects"]

  /** A user's self-assessment of one skill. */
  datatype Confidence = Know | Practice

  /** The `extractedSkills` record: one list per category plus the fallback bucket. */
  datatype ExtractedSkills = ExtractedSkills(
    coreCS: seq<string>, languages: seq<string>, web: seq<string>, data: seq<string>,
    cloud: seq<string>, testing: seq<string>, other: seq<string>)
  {
    /** The list stored under a taxonomy category's key. */
    function Get(c: Category): seq<string> {
      match c
      case CoreCS => coreCS
      case Languages => languages
      case Web => web
      case Data => data
      case Cloud => cloud
      case Testing => testing
    }

    /** `Object.values(extractedSkills)`: the lists in the object's key order. */
    function Lists(): seq<seq<string>> {
      [coreCS, languages, web, data, cloud, testing, other]
    }
  }

  /** The outcome of extraction: the per-category lists, the flat `allSkills` list, the
      number of categories that matched and the seeded confidence map. */
  datatype Extraction = Extraction(
    skills: ExtractedSkills, all: seq<string>, detected: nat, confidence: map<string, Confidence>)

  /** Whether a token matches the text: `\b` + escaped token + `\b`, case-insensitive. */
  predicate Mentions(text: string, token: string) {
    ContainsWholeWord(text, token)
  }

  /** `tokens.filter(...)`: the tokens the text mentions, in their original order. */
  function MatchedIn(text: string, tokens: seq<string>): (r: seq<string>)
    ensures IsSubsequence(r, tokens)
    ensures forall t :: t in r ==> Mentions(text, t)
    ensures forall t :: t in tokens && Mentions(text, t) ==> t in r
  {
    if |tokens| == 0 then []
    else if Mentions(text, tokens[0]) then [tokens[0]] + MatchedIn(text, tokens[1..])
    else
      var rest := MatchedIn(text, tokens[1..]);
      SubsequenceOfTail(rest, tokens);
      rest
  }

  /** Matching distributes over concatenation of token lists. */
  lemma {:induction false} MatchedInAppend(text: string, a: seq<string>, b: seq<string>)
    ensures MatchedIn(text, a + b) == MatchedIn(text, a) + MatchedIn(text, b)
  {
    if |a| == 0 {
      assert a + b == b;
    } else {
      assert (a + b)[1..] == a[1..] + b;
      MatchedInAppend(text, a[1..], b);
    }
  }

  /** One category's matches, in taxonomy order. */
  function Matched(text: string, c: Category): (r: seq<string>)
    ensures IsSubsequence(r, Tokens(c))
    ensures forall t :: t in r ==> Mentions(text, t)
    ensures forall t :: t in Tokens(c) && Mentions(text, t) ==> t in r
  {
    MatchedIn(text, Tokens(c))
  }

  /** The number of non-empty lists. */
  function CountNonEmpty(xss: seq<seq<string>>): (n: nat)
    ensures n <= |xss|
  {
    if |xss| == 0 then 0 else (if xss[0] != [] then 1 else 0) + CountNonEmpty(xss[1..])
  }

  /** The six category lists of a text, in taxonomy order. */
  function CategoryLists(text: string): (lists: seq<seq<string>>)
    ensures |lists| == 6 && forall i :: 0 <= i < 6 ==> lists[i] == Matched(text, Categories[i])
  {
    [Matched(text, CoreCS), Matched(text, Languages), Matched(text, Web),
     Matched(text, Data), Matched(text, Cloud), Matched(text, Testing)]
  }

  /** Builds the extraction outcome from the six category lists: the flat list, the
      fallback bucket when it is empty, the count of non-empty lists and the confidence seeds. */
  function Assemble(lists: seq<seq<string>>): (x: Extraction)
    requires |lists| == 6
    ensures x.detected <= 6
    ensures |x.all| > 0
    ensures x.confidence.Keys == set s | s in x.all
    ensures forall s :: s in x.confidence ==> x.confidence[s] == Practice
  {
    var flat := Flatten(lists);
    var other := if flat == [] then Fallback else [];
    var skills := ExtractedSkills(lists[0], lists[1], lists[2], lists[3], lists[4], lists[5], other);
    var all := flat + other;
    Extraction(skills, all, CountNonEmpty(lists), map s | s in all :: Practice)
  }

  /** The extraction step of `analyzeJD` (src/lib/analysisEngine.js:11-53). */
  function Extract(text: string): (x: Extraction)
    ensures x.detected <= 6
    ensures |x.all| > 0
    ensures x.confidence.Keys == set s | s in x.all
    ensures forall s :: s in x.confidence ==> x.confidence[s] == Practice
  {
    Assemble(CategoryLists(text))
  }

  /** The assembled record's lists, flattened in key order, are the flat list; the
      fallback bucket is present exactly when no category matched. */
  lemma AssembleFallback(lists: seq<seq<string>>)
    requires |lists| == 6
    ensures Assemble(lists).skills.other == Fallback <==> Flatten(lists) == []
    ensures Assemble(lists).skills.other != Fallback ==> Assemble(lists).skills.other == []
    ensures Assemble(lists).all == Flatten(Assemble(lists).skills.Lists())
  {
    var x := Assemble(lists);
    assert x.skills.Lists() == lists + [x.skills.other];
    FlattenAppend(lists, [x.skills.other]);
  }

  /** Each category's list holds exactly the taxonomy tokens the text mentions, in taxonomy order. */
  lemma ExtractCategory(text: string, c: Category)
    ensures IsSubsequence(Extract(text).skills.Get(c), Tokens(c))
    ensures forall t :: t in Extract(text).skills.Get(c) ==> Mentions(text, t)
    ensures forall t :: t in Tokens(c) && Mentions(text, t) ==> t in Extract(text).skills.Get(c)
  {
    var lists := CategoryLists(text);
    match c
    case CoreCS => assert lists[0] == Matched(text, Categories[0]);
    case Languages => assert lists[1] == Matched(text, Categories[1]);
    case Web => assert lists[2] == Matched(text, Categories[2]);
    case Data => assert lists[3] == Matched(text, Categories[3]);
    case Cloud => assert lists[4] == Matched(text, Categories[4]);
    case Testing => assert lists[5] == Matched(text, Categories[5]);
  }

  /** Flattening distributes over concatenation. */
  lemma {:induction false} FlattenAppend(a: seq<seq<string>>, b: seq<seq<string>>)
    ensures Flatten(a + b) == Flatten(a) + Flatten(b)
  {
    if |a| == 0 {
      assert a + b == b;
    } else {
      assert (a + b)[1..] == a[1..] + b;
      FlattenAppend(a[1..], b);
    }
  }

  /** Matching each list of a table and flattening equals flattening and then matching. */
  lemma {:induction false} MatchedFlatten(text: string, tss: seq<seq<string>>)
    ensures Flatten(seq(|tss|, i requires 0 <= i < |tss| => MatchedIn(text, tss[i])))
         == MatchedIn(text, Flatten(tss))
  {
    if |tss| > 0 {
      var ms := seq(|tss|, i requires 0 <= i < |tss| => MatchedIn(text, tss[i]));
      assert ms[1..] == seq(|tss| - 1, i requires 0 <= i < |tss| - 1 => MatchedIn(text, tss[1..][i]));
      MatchedFlatten(text, tss[1..]);
      MatchedInAppend(text, tss[0], Flatten(tss[1..]));
    }
  }

  /** The taxonomy as a table, one row per category. */
  function Table(): (rows: seq<seq<string>>)
    ensures |rows| == 6 && forall i :: 0 <= i < 6 ==> rows[i] == Tokens(Categories[i])
  {
    seq(6, i requires 0 <= i < 6 => Tokens(Categories[i]))
  }

  /** The six category lists, flattened, are the whole taxonomy matched against the text. */
  lemma FlatIsMatchedTaxonomy(text: string)
    ensures Flatten(CategoryLists(text)) == MatchedIn(text, AllTokens())
  {
    var rows := Table();
    MatchedFlatten(text, rows);
    assert CategoryLists(text) == seq(6, i requires 0 <= i < 6 => MatchedIn(text, rows[i]));
    TableFlattens();
  }

  lemma TableFlattens()
    ensures Flatten(Table()) == AllTokens()
  {
    var rows := Table();
    calc {
      Flatten(rows);
      rows[0] + Flatten(rows[1..]);
      rows[0] + (rows[1] + Flatten(rows[2..]));
      rows[0] + (rows[1] + (rows[2] + Flatten(rows[3..])));
      rows[0] + (rows[1] + (rows[2] + (rows[3] + Flatten(rows[4..]))));
      rows[0] + (rows[1] + (rows[2] + (rows[3] + (rows[4] + Flatten(rows[5..])))));
      rows[0] + (rows[1] + (rows[2] + (rows[3] + (rows[4] + (rows[5] + Flatten(rows[6..]))))));
    }
  }

  /** The fallback bucket is used exactly when the text mentions no taxonomy token,
      and the flat `allSkills` list is the record's lists flattened in key order. */
  lemma ExtractFallback(text: string)
    ensures Extract(text).skills.other == Fallback <==> forall t :: t in AllTokens() ==> !Mentions(text, t)
    ensures Extract(text).skills.other != Fallback ==> Extract(text).skills.other == []
    ensures Extract(text).all == Flatten(Extract(text).skills.Lists())
  {
    AssembleFallback(CategoryLists(text));
    FlatIsMatchedTaxonomy(text);
    MatchedInEmpty(text, AllTokens());
  }

  /** Nothing matches exactly when no token is mentioned. */
  lemma MatchedInEmpty(text: string, tokens: seq<string>)
    ensures MatchedIn(text, tokens) == [] <==> forall t :: t in tokens ==> !Mentions(text, t)
  {
    var m := MatchedIn(text, tokens);
    if m != [] {
      assert m[0] in m;
    }
  }

  /** The categories, among `cs`, whose list in `e` is non-empty, in order. */
  function NonEmptyCategories(e: ExtractedSkills, cs: seq<Category>): (r: seq<Category>)
    ensures IsSubsequence(r, cs)
    ensures forall c :: c in r <==> c in cs && e.Get(c) != []
  {
    if |cs| == 0 then []
    else if e.Get(cs[0]) != [] then [cs[0]] + NonEmptyCategories(e, cs[1..])
    else
      var rest := NonEmptyCategories(e, cs[1..]);
      SubsequenceOfTail(rest, cs);
      rest
  }

  lemma {:induction false} CountIsNonEmptyCategories(e: ExtractedSkills, cs: seq<Category>, lists: seq<seq<string>>)
    requires |lists| == |cs| && forall i :: 0 <= i < |cs| ==> lists[i] == e.Get(cs[i])
    ensures CountNonEmpty(lists) == |NonEmptyCategories(e, cs)|
  {
    if |cs| > 0 {
      CountIsNonEmptyCategories(e, cs[1..], lists[1..]);
    }
  }

  /** `detectedCategoriesCount` is the number of categories whose list is non-empty. */
  lemma ExtractCount(text: string)
    ensures Extract(text).detected == |NonEmptyCategories(Extract(text).skills, Categories)|
  {
    AssembleCount(CategoryLists(text));
  }

  lemma AssembleCount(lists: seq<seq<string>>)
    requires |lists| == 6
    ensures Assemble(lists).detected == |NonEmptyCategories(Assemble(lists).skills, Categories)|
  {
    var e := Assemble(lists).skills;
    assert e.Lists()[..6] == lists;
    forall i | 0 <= i < 6 ensures lists[i] == e.Get(Categories[i]) {
      assert e.Get(Categories[i]) == e.Lists()[i];
    }
    CountIsNonEmptyCategories(e, Categories, lists);
  }

  /** No element of `a` is an element of `b`. */
  predicate Apart(a: seq<string>, b: seq<string>) {
    forall t :: t in a ==> t !in b
  }

  /** No category lists a token twice. */
  lemma TokensDistinct(c: Category)
    ensures Distinct(Tokens(c))
  {
  }

  /** No two categories share a token; one small lemma per pair of categories. */
  lemma ApartCoreCSLanguages() ensures Apart(Tokens(CoreCS), Tokens(Languages)) {}
  lemma ApartCoreCSWeb() ensures Apart(Tokens(CoreCS), Tokens(Web)) {}
  lemma ApartCoreCSData() ensures Apart(Tokens(CoreCS), Tokens(Data)) {}
  lemma ApartCoreCSCloud() ensures Apart(Tokens(CoreCS), Tokens(Cloud)) {}
  lemma ApartCoreCSTesting() ensures Apart(Tokens(CoreCS), Tokens(Testing)) {}
  lemma ApartLanguagesWeb() ensures Apart(Tokens(Languages), Tokens(Web)) {}
  lemma ApartLanguagesData() ensures Apart(Tokens(Languages), Tokens(Data)) {}
  lemma ApartLanguagesCloud() ensures Apart(Tokens(Languages), Tokens(Cloud)) {}
  lemma ApartLanguagesTesting() ensures Apart(Tokens(Languages), Tokens(Testing)) {}
  lemma ApartWebData() ensures Apart(Tokens(Web), Tokens(Data)) {}
  lemma ApartWebCloud() ensures Apart(Tokens(Web), Tokens(Cloud)) {}
  lemma ApartWebTesting() ensures Apart(Tokens(Web), Tokens(Testing)) {}
  lemma ApartDataCloud() ensures Apart(Tokens(Data), Tokens(Cloud)) {}
  lemma ApartDataTesting() ensures Apart(Tokens(Data), Tokens(Testing)) {}
  lemma ApartCloudTesting() ensures Apart(Tokens(Cloud), Tokens(Testing)) {}

  /** No token is listed twice across the taxonomy. */
  lemma AllTokensDistinct()
    ensures Distinct(AllTokens())
  {
    TokensDistinct(CoreCS);
    ApartCoreCSLanguages();
    TokensDistinct(Languages);
    DistinctAppend(Tokens(CoreCS), Tokens(Languages));
    ApartCoreCSWeb();
    ApartLanguagesWeb();
    TokensDistinct(Web);
    DistinctAppend(Tokens(CoreCS) + Tokens(Languages), Tokens(Web));
    ApartCoreCSData();
    ApartLanguagesData();
    ApartWebData();
    TokensDistinct(Data);
    DistinctAppend(Tokens(CoreCS) + Tokens(Languages) + Tokens(Web), Tokens(Data));
    ApartCoreCSCloud();
    ApartLanguagesCloud();
    ApartWebCloud();
    ApartDataCloud();
    TokensDistinct(Cloud);
    DistinctAppend(Tokens(CoreCS) + Tokens(Languages) + Tokens(Web) + Tokens(Data), Tokens(Cloud));
    ApartCoreCSTesting();
    ApartLanguagesTesting();
    ApartWebTesting();
    ApartDataTesting();
    ApartCloudTesting();
    TokensDistinct(Testing);
    DistinctAppend(Tokens(CoreCS) + Tokens(Languages) + Tokens(Web) + Tokens(Data) + Tokens(Cloud), Tokens(Testing));
  }

  /** The flat `allSkills` list never repeats a skill. */
  lemma ExtractDistinct(text: string)
    ensures Distinct(Extract(text).all)
  {
    FlatIsMatchedTaxonomy(text);
    AllTokensDistinct();
    SubsequenceDistinct(MatchedIn(text, AllTokens()), AllTokens());
    AssembleDistinct(CategoryLists(text));
  }

  lemma AssembleDistinct(lists: seq<seq<string>>)
    requires |lists| == 6 && Distinct(Flatten(lists))
    ensures Distinct(Assemble(lists).all)
  {
    if Flatten(lists) == [] {
      FallbackDistinct();
      assert Assemble(lists).all == Fallback;
    } else {
      assert Assemble(lists).all == Flatten(lists) + [];
    }
  }

  lemma FallbackDistinct()
    ensures Distinct(Fallback)
  {
  }

  /** Every reported skill is a taxonomy token or a fallback term. */
  lemma ExtractVocabulary(text: string)
    ensures forall s :: s in Extract(text).all ==> s in AllTokens() || s in Fallback
  {
    AssembleFallback(CategoryLists(text));
    FlatIsMatchedTaxonomy(text);
    SubsequenceElements(MatchedIn(text, AllTokens()), AllTokens());
  }

  /** No taxonomy token or fallback term is the empty string. */
  lemma NoBlankSkill()
    ensures forall t :: t in AllTokens() ==> t != ""
    ensures forall t :: t in Fallback ==> t != ""
  {
    TokensNonBlank(CoreCS);
    TokensNonBlank(Languages);
    TokensNonBlank(Web);
    TokensNonBlank(Data);
    TokensNonBlank(Cloud);
    TokensNonBlank(Testing);
  }

  lemma TokensNonBlank(c: Category)
    ensures forall t :: t in Tokens(c) ==> t != ""
  {
  }

  /** The seeded confidence map is never empty. */
  lemma AssembleConfidence(lists: seq<seq<string>>)
    requires |lists| == 6
    ensures |Assemble(lists).confidence| > 0
  {
    var x := Assemble(lists);
    assert x.all[0] in x.confidence;
  }

  lemma ExtractConfidence(text: string)
    ensures |Extract(text).confidence| > 0
  {
    AssembleConfidence(CategoryLists(text));
  }
}
