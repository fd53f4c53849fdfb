/** The fixed preparation plan with its two conditional additions (src/lib/analysisEngine.js:121-136). */
module Plan {

  /** One entry of the plan: the day label, its focus and its tasks. */
  datatype PlanDay = PlanDay(day: string, focus: string, tasks: seq<string>)

  const BasePlan: seq<PlanDay> := [
    PlanDay("Day 1-2", "Core CS Fundamentals", ["Basics of Programming", "Core CS Fundamentals (OS/DBMS)", "Aptitude Brush-up"]),
    PlanDay("Day 3-4", "DSA Topic-wise Practice", ["DSA Topic-wise Practice", "Coding Problem Solving (LeetCode)", "Algorithm Revision"]),
    PlanDay("Day 5", "Projects & Portfolio", ["Project Review", "Resume Alignment", "Stack Deep-dive"]),
    PlanDay("Day 6", "Mock Drills", ["Mock Interview Questions", "Behavioral Prep", "Company Research"]),
    PlanDay("Day 7", "Final Revision", ["Full Revision", "Weak Area Focus", "Logistics Check"])
  ]

  /** The task added to the "Projects & Portfolio" day when web skills were found. */
  const WebTask := "Frontend/Backend Framework revision"
  /** The task added to the "Mock Drills" day when cloud skills were found. */
  const CloudTask := "Cloud Infrastructure & CI/CD pipeline basics"

  /** Appends `task` to the tasks of entry `i`. */
  function AddTask(plan: seq<PlanDay>, i: nat, task: string): seq<PlanDay>
    requires i < |plan|
  {
    plan[i := plan[i].(tasks := plan[i].tasks + [task])]
  }

  /** The plan for a job description, given whether its `web` and `cloud` lists are non-empty. */
  function SevenDayPlan(hasWeb: bool, hasCloud: bool): (p: seq<PlanDay>)
    ensures |p| == 5
    ensures forall i :: 0 <= i < 5 ==> p[i].day == BasePlan[i].day && p[i].focus == BasePlan[i].focus
    ensures forall i :: 0 <= i < 5 && i != 2 && i != 3 ==> p[i] == BasePlan[i]
    ensures p[2].tasks == BasePlan[2].tasks + (if hasWeb then [WebTask] else [])
    ensures p[3].tasks == BasePlan[3].tasks + (if hasCloud then [CloudTask] else [])
  {
    var p := if hasWeb then AddTask(BasePlan, 2, WebTask) else BasePlan;
    if hasCloud then AddTask(p, 3, CloudTask) else p
  }
}
