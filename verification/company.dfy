/** Company heuristics of `analyzeJD` (src/lib/analysisEngine.js:55-66): enterprise
    detection by case-insensitive substring, industry by keyword priority, and the
    size and hiring-focus labels derived from them. */
module Company {
  import opened Text

  /** The sixteen names whose presence in the company string marks an enterprise. */
  const EnterpriseNames: seq<string> := ["Amazon", "Google", "Microsoft", "Meta", "Apple", "Netflix",
    "TCS", "Infosys", "Wipro", "HCL", "Accenture", "IBM", "Oracle", "Salesforce", "Cisco", "Intel"]

  /** An industry rule: any keyword present (case-insensitively) selects the label. */
  datatype IndustryRule = IndustryRule(keywords: seq<string>, name: string)

  /** The industry rules in priority order. */
  const IndustryRules: seq<IndustryRule> := [
    IndustryRule(["finance", "fintech", "bank"], "FinTech"),
    IndustryRule(["health", "medical"], "HealthTech"),
    IndustryRule(["e-commerce", "retail"], "E-commerce")
  ]

  const DefaultIndustry := "Technology Services"
  const EnterpriseSize := "Enterprise (2000+)"
  const StartupSize := "Startup (<200)"
  const UnknownSize := "N/A"
  const EnterpriseFocus := "Structured DSA + Core Fundamentals"
  const StartupFocus := "Practical Problem Solving + Stack Depth"

  /** The `companyIntel` record. */
  datatype CompanyIntel = CompanyIntel(industry: string, size: string, hiringFocus: string, isEnterprise: bool)

  /** `list.some(e => new RegExp(e, 'i').test(s))`, scanning left to right. */
  function AnyContained(s: string, names: seq<string>): (r: bool)
    ensures r <==> exists i :: 0 <= i < |names| && ContainsFolded(s, names[i])
  {
    if |names| == 0 then false
    else if ContainsFolded(s, names[0]) then true
    else
      var r := AnyContained(s, names[1..]);
      assert forall i :: 1 <= i < |names| ==> names[i] == names[1..][i - 1];
      r
  }

  /** Whether the company string names a known enterprise. */
  function IsEnterprise(company: string): (r: bool)
    ensures r <==> exists i :: 0 <= i < |EnterpriseNames| && ContainsFolded(company, EnterpriseNames[i])
  {
    AnyContained(company, EnterpriseNames)
  }

  /** The label of the first rule with a keyword in the text, or the default. */
  function FirstIndustry(text: string, rules: seq<IndustryRule>): (r: string)
    ensures forall i :: 0 <= i < |rules| && AnyContained(text, rules[i].keywords)
              && (forall j :: 0 <= j < i ==> !AnyContained(text, rules[j].keywords))
              ==> r == rules[i].name
    ensures (forall j :: 0 <= j < |rules| ==> !AnyContained(text, rules[j].keywords)) ==> r == DefaultIndustry
  {
    if |rules| == 0 then DefaultIndustry
    else if AnyContained(text, rules[0].keywords) then rules[0].name
    else
      var r := FirstIndustry(text, rules[1..]);
      assert forall i :: 1 <= i < |rules| ==> rules[i] == rules[1..][i - 1];
      r
  }

  /** The company-intel step of `analyzeJD`. The size label tests the raw company string
      for emptiness (not its trimmed form). */
  function Profile(company: string, jdText: string): (ci: CompanyIntel)
    ensures ci.isEnterprise <==> exists i :: 0 <= i < |EnterpriseNames| && ContainsFolded(company, EnterpriseNames[i])
    ensures ci.size == EnterpriseSize <==> ci.isEnterprise
    ensures ci.size == StartupSize <==> !ci.isEnterprise && |company| > 0
    ensures ci.size == UnknownSize <==> !ci.isEnterprise && |company| == 0
    ensures ci.hiringFocus == (if ci.isEnterprise then EnterpriseFocus else StartupFocus)
    ensures ci.industry == FirstIndustry(jdText, IndustryRules)
  {
    var e := IsEnterprise(company);
    CompanyIntel(
      FirstIndustry(jdText, IndustryRules),
      if e then EnterpriseSize else if |company| > 0 then StartupSize else UnknownSize,
      if e then EnterpriseFocus else StartupFocus,
      e)
  }

  /** An empty company string matches no enterprise name and is sized "N/A". */
  lemma EmptyCompanyIsNotEnterprise()
    ensures !IsEnterprise("")
    ensures Profile("", "").size == UnknownSize
  {
    forall i | 0 <= i < |EnterpriseNames| ensures !ContainsFolded("", EnterpriseNames[i]) {
      assert |EnterpriseNames[i]| > 0;
    }
  }
}
