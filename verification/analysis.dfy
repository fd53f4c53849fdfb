/** The job-description analysis record and `analyzeJD` (src/lib/analysisEngine.js:10-192).
    The record id and the creation time, which the program takes from the clock, are parameters. */
module Analysis {
  import opened Seqs
  import opened Skills
  import opened Company
  import opened Rounds
  import opened Plan
  import opened Questions
  import opened Score

  /** One analysis, as created and as stored in the history. */
  datatype AnalysisRecord = AnalysisRecord(
    id: string, createdAt: string, updatedAt: string,
    company: string, role: string, jdText: string,
    extractedSkills: ExtractedSkills,
    roundMapping: seq<Round>, checklist: seq<ChecklistEntry>,
    plan7Days: seq<PlanDay>, questions: seq<string>,
    baseScore: int, finalScore: int,
    skillConfidenceMap: map<string, Confidence>,
    companyIntel: CompanyIntel)

  /** The record `analyzeJD` assembles from an extraction `x` and a company profile. */
  function Assembled(x: Extraction, intel: CompanyIntel, company: string, role: string, jdText: string,
                     id: string, now: string): AnalysisRecord
  {
    var rounds := RoundMapping(intel.isEnterprise, x.all);
    var score := BaseScore(x.detected, company, role, jdText);
    AnalysisRecord(
      id, now, now, company, role, jdText,
      x.skills, rounds, Checklist(rounds),
      SevenDayPlan(x.skills.web != [], x.skills.cloud != []),
      BuildQuestions(x.all),
      score, score,
      x.confidence, intel)
  }

  /** `analyzeJD(company, role, jdText)` with the clock's id and timestamp given. */
  function AnalyzeJD(company: string, role: string, jdText: string, id: string, now: string): (r: AnalysisRecord)
    ensures r.id == id && r.createdAt == now && r.updatedAt == now
    ensures r.company == company && r.role == role && r.jdText == jdText
    ensures 35 <= r.baseScore <= 95 && r.finalScore == r.baseScore
    ensures r.extractedSkills == Extract(jdText).skills && r.skillConfidenceMap == Extract(jdText).confidence
    ensures r.companyIntel == Profile(company, jdText)
    ensures r.baseScore == BaseScore(Extract(jdText).detected, company, role, jdText)
    ensures r.questions == BuildQuestions(AllSkills(r))
  {
    ExtractFallback(jdText);
    Assembled(Extract(jdText), Profile(company, jdText), company, role, jdText, id, now)
  }

  /** The flat skill list of a record: its extracted lists in key order. */
  function AllSkills(r: AnalysisRecord): seq<string> {
    Flatten(r.extractedSkills.Lists())
  }

  /** Company intel and rounds: the enterprise flag alone picks four or three rounds, and
      the checklist is the round mapping projected to titles and focus areas. */
  lemma AnalyzeRounds(company: string, role: string, jdText: string, id: string, now: string)
    ensures var r := AnalyzeJD(company, role, jdText, id, now);
      && (r.companyIntel.isEnterprise <==>
            exists i :: 0 <= i < |EnterpriseNames| && Text.ContainsFolded(company, EnterpriseNames[i]))
      && (r.companyIntel.isEnterprise ==> r.roundMapping == EnterpriseRounds)
      && (!r.companyIntel.isEnterprise ==> |r.roundMapping| == 3)
      && (forall i :: 0 <= i < |r.roundMapping| ==>
            r.checklist[i] == ChecklistEntry(r.roundMapping[i].roundTitle, r.roundMapping[i].focusAreas))
  {
    AssembledRounds(Extract(jdText), Profile(company, jdText), company, role, jdText, id, now);
  }

  lemma AssembledRounds(x: Extraction, intel: CompanyIntel, company: string, role: string, jdText: string,
                        id: string, now: string)
    ensures var r := Assembled(x, intel, company, role, jdText, id, now);
      && r.companyIntel == intel
      && (intel.isEnterprise ==> r.roundMapping == EnterpriseRounds)
      && (!intel.isEnterprise ==> |r.roundMapping| == 3)
      && (forall i :: 0 <= i < |r.roundMapping| ==>
            r.checklist[i] == ChecklistEntry(r.roundMapping[i].roundTitle, r.roundMapping[i].focusAreas))
  {
  }

  /** The startup first round interpolates the first extracted skill: the `'Feature'`
      default is unreachable because the flat skill list is never empty. */
  lemma FeatureDefaultUnreachable(company: string, role: string, jdText: string, id: string, now: string)
    ensures var r := AnalyzeJD(company, role, jdText, id, now);
      !r.companyIntel.isEnterprise ==>
        |AllSkills(r)| > 0 && r.roundMapping[0].focusAreas[0] == "Build a small " + AllSkills(r)[0]
  {
    var x := Extract(jdText);
    ExtractFallback(jdText);
    ExtractVocabulary(jdText);
    NoBlankSkill();
    assert x.all[0] in x.all;
    AssembledFirstRound(x, Profile(company, jdText), company, role, jdText, id, now);
  }

  lemma AssembledFirstRound(x: Extraction, intel: CompanyIntel, company: string, role: string,
                            jdText: string, id: string, now: string)
    requires |x.all| > 0 && x.all[0] != "" && x.all == Flatten(x.skills.Lists())
    ensures var r := Assembled(x, intel, company, role, jdText, id, now);
      !intel.isEnterprise ==>
        |AllSkills(r)| > 0 && r.roundMapping[0].focusAreas[0] == "Build a small " + AllSkills(r)[0]
  {
  }

  /** The record's skill lists and confidence map: the map's keys are exactly the
      emitted skills, every one at `'practice'`. */
  lemma AnalyzeSkills(company: string, role: string, jdText: string, id: string, now: string)
    ensures var r := AnalyzeJD(company, role, jdText, id, now);
      && |AllSkills(r)| > 0 && Distinct(AllSkills(r))
      && r.skillConfidenceMap.Keys == set s | s in AllSkills(r)
      && (r.extractedSkills.other == Fallback <==>
            forall t :: t in AllTokens() ==> !Mentions(jdText, t))
  {
    ExtractFallback(jdText);
    ExtractDistinct(jdText);
  }

  /** The confidence map of a fresh record is non-empty and all at `'practice'`. */
  lemma AnalyzeConfidence(company: string, role: string, jdText: string, id: string, now: string)
    ensures var r := AnalyzeJD(company, role, jdText, id, now);
      && |r.skillConfidenceMap| > 0
      && (forall s :: s in r.skillConfidenceMap ==> r.skillConfidenceMap[s] == Practice)
      && r.finalScore == r.baseScore && 35 <= r.baseScore <= 95
  {
    ExtractConfidence(jdText);
  }

  /** The question bank holds the template questions of the record's own skills, in skill
      order, then the defaults, cut at ten: min(10, k + 5) questions for k templated skills,
      with no duplicates. */
  lemma AnalyzeQuestions(company: string, role: string, jdText: string, id: string, now: string)
    ensures var r := AnalyzeJD(company, role, jdText, id, now);
      && r.questions == Take(SkillQuestions(AllSkills(r)) + DefaultQuestions, MaxQuestions)
      && |r.questions| == Min(MaxQuestions, |Filter(HasTemplate, AllSkills(r))| + 5)
      && 5 <= |r.questions| <= MaxQuestions && Distinct(r.questions)
  {
    var x := Extract(jdText);
    ExtractDistinct(jdText);
    ExtractFallback(jdText);
    QuestionCount(x.all);
  }

  /** The base score is 35, plus five per category with a match up to 30, plus ten each for a
      non-blank company, a non-blank role and a description longer than 800 characters; the
      cap of 100 is never reached. */
  lemma AnalyzeScore(company: string, role: string, jdText: string, id: string, now: string)
    ensures var r := AnalyzeJD(company, role, jdText, id, now);
      r.baseScore == 35 + Min(5 * |NonEmptyCategories(r.extractedSkills, Categories)|, 30)
        + (if HasText(company) then 10 else 0) + (if HasText(role) then 10 else 0)
        + (if |jdText| > 800 then 10 else 0)
  {
    ExtractCount(jdText);
  }

  /** The plan's conditional tasks follow the `web` and `cloud` lists. */
  lemma AnalyzePlan(company: string, role: string, jdText: string, id: string, now: string)
    ensures var r := AnalyzeJD(company, role, jdText, id, now);
      && r.plan7Days[2].tasks == BasePlan[2].tasks + (if r.extractedSkills.web != [] then [WebTask] else [])
      && r.plan7Days[3].tasks == BasePlan[3].tasks + (if r.extractedSkills.cloud != [] then [CloudTask] else [])
      && (forall i :: 0 <= i < 5 && i != 2 && i != 3 ==> r.plan7Days[i] == BasePlan[i])
  {
  }
}
