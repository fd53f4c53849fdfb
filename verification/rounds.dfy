/** Interview round mapping and its checklist projection (src/lib/analysisEngine.js:68-111, 184). */
module Rounds {

  /** One interview round: its title, why it matters and the areas to focus on. */
  datatype Round = Round(roundTitle: string, whyItMatters: string, focusAreas: seq<string>)

  /** One checklist entry: a round's title and its focus areas as items. */
  datatype ChecklistEntry = ChecklistEntry(roundTitle: string, items: seq<string>)

  /** The four rounds of an enterprise process. */
  const EnterpriseRounds: seq<Round> := [
    Round("Round 1: OA & Aptitude",
      "To filter candidates based on logical reasoning and basic coding speed.",
      ["Speed-coding DSA", "Aptitude MCQs", "Core CS Basics"]),
    Round("Round 2: Technical Interview I",
      "Deep dive into Data Structures and Algorithm efficiency.",
      ["Array/String Logic", "Tree/Graph Traversal", "Complexity Analysis"]),
    Round("Round 3: Technical Interview II",
      "Evaluates project knowledge and core engineering principles like DBMS/OS.",
      ["Project Architecture", "System Design Basics", "Core CS (Database/OS)"]),
    Round("Round 4: Managerial/HR",
      "Assesses cultural fit and alignment with company core values.",
      ["Behavioral (STAR)", "Conflict Resolution", "Salary/Logistics"])
  ]

  /** The first startup round's title and rationale. */
  const StartupFirstTitle: string := "Round 1: Machine Coding / Practical"
  const StartupFirstWhy: string := "Startups value build speed and your ability to write clean, working code."

  /** The first startup round's focus areas after the skill-specific one. */
  const StartupFirstFocusRest: seq<string> := ["API Integration", "State Management"]

  /** The second and third startup rounds, which do not depend on the skills. */
  const StartupLaterRounds: seq<Round> := [
    Round("Round 2: Technical Discussion",
      "Evaluates depth in chosen stack and architectural thinking.",
      ["Stack-specific deep dive", "Framework internals", "Debugging Skills"]),
    Round("Round 3: Founder / Culture Round",
      "Ensures you can thrive in a fast-paced, high-ownership environment.",
      ["Vision alignment", "Product thinking", "High-ownership mindset"])
  ]

  /** The three rounds of a startup process; the first focus area names a skill to build with. */
  function StartupRounds(firstSkill: string): seq<Round> {
    [Round(StartupFirstTitle, StartupFirstWhy, ["Build a small " + firstSkill] + StartupFirstFocusRest)]
      + StartupLaterRounds
  }

  /** `allSkills[0] || 'Feature'`: the first skill, unless there is none or it is empty. */
  function FirstSkillOr(allSkills: seq<string>): (s: string)
    ensures |allSkills| > 0 && allSkills[0] != "" ==> s == allSkills[0]
    ensures s != ""
  {
    if |allSkills| > 0 && allSkills[0] != "" then allSkills[0] else "Feature"
  }

  /** The round mapping: chosen by the enterprise flag alone. */
  function RoundMapping(isEnterprise: bool, allSkills: seq<string>): (r: seq<Round>)
    ensures |r| == if isEnterprise then 4 else 3
    ensures isEnterprise ==> r == EnterpriseRounds
    ensures !isEnterprise ==> |r[0].focusAreas| == 3 && r[0].focusAreas[0] == "Build a small " + FirstSkillOr(allSkills)
  {
    if isEnterprise then EnterpriseRounds else StartupRounds(FirstSkillOr(allSkills))
  }

  /** `rounds.map(r => ({ roundTitle: r.roundTitle, items: r.focusAreas }))`. */
  function Checklist(rounds: seq<Round>): (c: seq<ChecklistEntry>)
    ensures |c| == |rounds|
    ensures forall i :: 0 <= i < |rounds| ==>
              c[i].roundTitle == rounds[i].roundTitle && c[i].items == rounds[i].focusAreas
  {
    seq(|rounds|, i requires 0 <= i < |rounds| => ChecklistEntry(rounds[i].roundTitle, rounds[i].focusAreas))
  }
}
