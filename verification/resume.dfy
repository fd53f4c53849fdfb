/** The résumé draft and its state transformers (src/hooks/useResumeData.js). Each
    `setResumeData(prev => ...)` body is a function from draft to draft. */
module Resume {
  import opened Wrappers
  import opened Storage

  datatype PersonalInfo = PersonalInfo(name: string, email: string, phone: string, location: string)

  datatype Education = Education(school: string, degree: string, year: string)
  {
    function Get(f: EducationField): string {
      match f
      case School => school
      case Degree => degree
      case Year => year
    }

    /** `{ ...entry, [field]: value }`. */
    function With(f: EducationField, v: string): (e: Education)
      ensures e.Get(f) == v && forall g :: g != f ==> e.Get(g) == Get(g)
    {
      match f
      case School => this.(school := v)
      case Degree => this.(degree := v)
      case Year => this.(year := v)
    }
  }

  datatype EducationField = School | Degree | Year

  datatype Experience = Experience(company: string, role: string, duration: string, description: string)
  {
    function Get(f: ExperienceField): string {
      match f
      case Company => company
      case Role => role
      case Duration => duration
      case Description => description
    }

    function With(f: ExperienceField, v: string): (e: Experience)
      ensures e.Get(f) == v && forall g :: g != f ==> e.Get(g) == Get(g)
    {
      match f
      case Company => this.(company := v)
      case Role => this.(role := v)
      case Duration => this.(duration := v)
      case Description => this.(description := v)
    }
  }

  datatype ExperienceField = Company | Role | Duration | Description

  datatype Project = Project(title: string, description: string)
  {
    function Get(f: ProjectField): string {
      match f
      case Title => title
      case Summary => description
    }

    function With(f: ProjectField, v: string): (e: Project)
      ensures e.Get(f) == v && forall g :: g != f ==> e.Get(g) == Get(g)
    {
      match f
      case Title => this.(title := v)
      case Summary => this.(description := v)
    }
  }

  /** A project's fields; `Summary` is the `description` key. */
  datatype ProjectField = Title | Summary

  /** The `skills` value: the hook stores a plain string, while the exporter also
      understands an object of three lists. */
  datatype SkillsValue = SkillsText(text: string) | SkillLists(technical: seq<string>, soft: seq<string>, tools: seq<string>)

  datatype Links = Links(github: string, linkedin: string)

  datatype ResumeData = ResumeData(
    personalInfo: PersonalInfo, summary: string,
    education: seq<Education>, experience: seq<Experience>, projects: seq<Project>,
    skills: SkillsValue, links: Links)

  /** `INITIAL_DATA`: every field blank, every list empty. */
  const Initial: ResumeData := ResumeData(
    PersonalInfo("", "", "", ""), "", [], [], [], SkillsText(""), Links("", ""))

  /** `SAMPLE_DATA`. */
  const Sample: ResumeData := ResumeData(
    PersonalInfo("Rahul Coder", "rahul@example.com", "+91 98765 43210", "Bangalore, India"),
    "Passionate software developer with 3+ years of experience in building scalable web applications using React and Node.js. Expertise in full-stack development and UI/UX design.",
    [Education("KodNest University", "B.Tech in Computer Science", "2019-2023")],
    [Experience("Tech Solutions", "Frontend Developer", "2023 - Present", "Developing premium web interfaces and optimizing performance."),
     Experience("Code Crafters", "Junior Intern", "2022-2023", "Assisted in building responsive dashboards.")],
    [Project("AI Portfolio Builder", "An automated platform for generating developer portfolios."),
     Project("Task Manager Pro", "A collaborative tool for team project management.")],
    SkillsText("React, Javascript, Node.js, Tailwind CSS, PostgreSQL, Git"),
    Links("https://github.com/rahul-coder", "https://linkedin.com/in/rahul-coder"))

  /** The keys an `updatePersonalInfo` argument supplies. */
  datatype InfoPatch = InfoPatch(name: Option<string>, email: Option<string>, phone: Option<string>, location: Option<string>)

  /** The keys an `updateLinks` argument supplies. */
  datatype LinksPatch = LinksPatch(github: Option<string>, linkedin: Option<string>)

  /** `updatePersonalInfo(info)`: `{ ...prev.personalInfo, ...info }`. */
  function UpdatePersonalInfo(d: ResumeData, p: InfoPatch): (r: ResumeData)
    ensures r.(personalInfo := d.personalInfo) == d
    ensures p.name.Some? ==> r.personalInfo.name == p.name.value
    ensures p.name.None? ==> r.personalInfo.name == d.personalInfo.name
    ensures p.email.Some? ==> r.personalInfo.email == p.email.value
    ensures p.email.None? ==> r.personalInfo.email == d.personalInfo.email
    ensures p.phone.Some? ==> r.personalInfo.phone == p.phone.value
    ensures p.phone.None? ==> r.personalInfo.phone == d.personalInfo.phone
    ensures p.location.Some? ==> r.personalInfo.location == p.location.value
    ensures p.location.None? ==> r.personalInfo.location == d.personalInfo.location
  {
    var i := d.personalInfo;
    d.(personalInfo := PersonalInfo(
      p.name.GetOr(i.name), p.email.GetOr(i.email), p.phone.GetOr(i.phone), p.location.GetOr(i.location)))
  }

  /** Applying the same info patch twice is applying it once; the empty patch changes nothing. */
  lemma PersonalInfoIdempotent(d: ResumeData, p: InfoPatch)
    ensures UpdatePersonalInfo(UpdatePersonalInfo(d, p), p) == UpdatePersonalInfo(d, p)
    ensures UpdatePersonalInfo(d, InfoPatch(None, None, None, None)) == d
  {
  }

  /** `updateSummary(summary)`. */
  function UpdateSummary(d: ResumeData, summary: string): (r: ResumeData)
    ensures r.summary == summary && r.(summary := d.summary) == d
  {
    d.(summary := summary)
  }

  /** `updateSkills(skills)`. */
  function UpdateSkills(d: ResumeData, skills: SkillsValue): (r: ResumeData)
    ensures r.skills == skills && r.(skills := d.skills) == d
  {
    d.(skills := skills)
  }

  /** `updateLinks(links)`: `{ ...prev.links, ...links }`. */
  function UpdateLinks(d: ResumeData, p: LinksPatch): (r: ResumeData)
    ensures r.(links := d.links) == d
    ensures r.links.github == (if p.github.Some? then p.github.value else d.links.github)
    ensures r.links.linkedin == (if p.linkedin.Some? then p.linkedin.value else d.links.linkedin)
  {
    d.(links := Links(p.github.GetOr(d.links.github), p.linkedin.GetOr(d.links.linkedin)))
  }

  /** Applying the same links patch twice is applying it once. */
  lemma LinksIdempotent(d: ResumeData, p: LinksPatch)
    ensures UpdateLinks(UpdateLinks(d, p), p) == UpdateLinks(d, p)
    ensures UpdateLinks(d, LinksPatch(None, None)) == d
  {
  }

  /** `addEducation()`: append a blank entry. */
  function AddEducation(d: ResumeData): (r: ResumeData)
    ensures |r.education| == |d.education| + 1
    ensures r.education[..|d.education|] == d.education
    ensures r.education[|d.education|] == Education("", "", "")
    ensures r.(education := d.education) == d
  {
    d.(education := d.education + [Education("", "", "")])
  }

  /** `updateEducation(index, field, value)` for an existing entry. */
  function UpdateEducation(d: ResumeData, i: nat, f: EducationField, v: string): (r: ResumeData)
    requires i < |d.education|
    ensures |r.education| == |d.education|
    ensures forall j :: 0 <= j < |d.education| && j != i ==> r.education[j] == d.education[j]
    ensures r.education[i].Get(f) == v
    ensures forall g :: g != f ==> r.education[i].Get(g) == d.education[i].Get(g)
    ensures r.(education := d.education) == d
  {
    d.(education := d.education[i := d.education[i].With(f, v)])
  }

  /** `addExperience()`: append a blank entry. */
  function AddExperience(d: ResumeData): (r: ResumeData)
    ensures |r.experience| == |d.experience| + 1
    ensures r.experience[..|d.experience|] == d.experience
    ensures r.experience[|d.experience|] == Experience("", "", "", "")
    ensures r.(experience := d.experience) == d
  {
    d.(experience := d.experience + [Experience("", "", "", "")])
  }

  /** `updateExperience(index, field, value)` for an existing entry. */
  function UpdateExperience(d: ResumeData, i: nat, f: ExperienceField, v: string): (r: ResumeData)
    requires i < |d.experience|
    ensures |r.experience| == |d.experience|
    ensures forall j :: 0 <= j < |d.experience| && j != i ==> r.experience[j] == d.experience[j]
    ensures r.experience[i].Get(f) == v
    ensures forall g :: g != f ==> r.experience[i].Get(g) == d.experience[i].Get(g)
    ensures r.(experience := d.experience) == d
  {
    d.(experience := d.experience[i := d.experience[i].With(f, v)])
  }

  /** `addProject()`: append a blank entry. */
  function AddProject(d: ResumeData): (r: ResumeData)
    ensures |r.projects| == |d.projects| + 1
    ensures r.projects[..|d.projects|] == d.projects
    ensures r.projects[|d.projects|] == Project("", "")
    ensures r.(projects := d.projects) == d
  {
    d.(projects := d.projects + [Project("", "")])
  }

  /** `updateProject(index, field, value)` for an existing entry. */
  function UpdateProject(d: ResumeData, i: nat, f: ProjectField, v: string): (r: ResumeData)
    requires i < |d.projects|
    ensures |r.projects| == |d.projects|
    ensures forall j :: 0 <= j < |d.projects| && j != i ==> r.projects[j] == d.projects[j]
    ensures r.projects[i].Get(f) == v
    ensures forall g :: g != f ==> r.projects[i].Get(g) == d.projects[i].Get(g)
    ensures r.(projects := d.projects) == d
  {
    d.(projects := d.projects[i := d.projects[i].With(f, v)])
  }

  /** Writing a field back with its current value changes nothing, and of two writes to the
      same field the later one wins. */
  lemma UpdateEntryLaws(d: ResumeData, i: nat, f: ExperienceField, v: string, w: string)
    requires i < |d.experience|
    ensures UpdateExperience(d, i, f, d.experience[i].Get(f)) == d
    ensures UpdateExperience(UpdateExperience(d, i, f, v), i, f, w) == UpdateExperience(d, i, f, w)
  {
    var e := d.experience[i];
    assert e.With(f, e.Get(f)) == e;
    assert e.With(f, v).With(f, w) == e.With(f, w);
    assert d.experience[i := e] == d.experience;
  }

  /** `loadSampleData()`. */
  function LoadSampleData(d: ResumeData): (r: ResumeData)
    ensures r == Sample && r.personalInfo.name != "" && |r.experience| == 2 && |r.projects| == 2
  {
    Sample
  }

  /** Loading the sample twice is loading it once, from any draft. */
  lemma LoadSampleIdempotent(d: ResumeData, e: ResumeData)
    ensures LoadSampleData(LoadSampleData(d)) == LoadSampleData(d) == LoadSampleData(e)
  {
  }

  const ResumeKey: string := "ai_resume_data"

  /** The initial state at lines 48-51: the stored draft, or `INITIAL_DATA` when nothing
      (or the empty string) is stored. `None` is a stored blob `JSON.parse` rejects, on
      which the program throws. */
  function InitialState(s: Store<ResumeData>): (r: Option<ResumeData>)
    ensures IsBlank(s, ResumeKey) ==> r == Some(Initial)
    ensures r.None? <==> ResumeKey in s && s[ResumeKey].Malformed?
  {
    if IsBlank(s, ResumeKey) then Some(Initial)
    else match s[ResumeKey]
      case Json(v) => Some(v)
      case _ => None
  }

  /** Every edit the hook exposes. */
  datatype Action =
    | EditPersonalInfo(info: InfoPatch)
    | EditSummary(summary: string)
    | NewEducation
    | EditEducation(index: nat, eduField: EducationField, value: string)
    | NewExperience
    | EditExperience(index: nat, expField: ExperienceField, value: string)
    | NewProject
    | EditProject(index: nat, projField: ProjectField, value: string)
    | EditSkills(skills: SkillsValue)
    | EditLinks(links: LinksPatch)
    | LoadSample
    | Save

  /** The hook's state: the in-memory draft and the browser store. */
  datatype Session = Session(data: ResumeData, store: Store<ResumeData>)

  /** An index-based edit names an existing entry. */
  predicate Applicable(d: ResumeData, a: Action) {
    match a
    case EditEducation(i, _, _) => i < |d.education|
    case EditExperience(i, _, _) => i < |d.experience|
    case EditProject(i, _, _) => i < |d.projects|
    case _ => true
  }

  /** One hook call. Only `saveToLocalStorage` writes, and it writes the current draft. */
  function Apply(st: Session, a: Action): (r: Session)
    requires Applicable(st.data, a)
    ensures a.Save? ==> r.data == st.data && r.store == Write(st.store, ResumeKey, st.data)
    ensures !a.Save? ==> r.store == st.store
  {
    var d := st.data;
    match a
    case EditPersonalInfo(p) => Session(UpdatePersonalInfo(d, p), st.store)
    case EditSummary(v) => Session(UpdateSummary(d, v), st.store)
    case NewEducation => Session(AddEducation(d), st.store)
    case EditEducation(i, f, v) => Session(UpdateEducation(d, i, f, v), st.store)
    case NewExperience => Session(AddExperience(d), st.store)
    case EditExperience(i, f, v) => Session(UpdateExperience(d, i, f, v), st.store)
    case NewProject => Session(AddProject(d), st.store)
    case EditProject(i, f, v) => Session(UpdateProject(d, i, f, v), st.store)
    case EditSkills(v) => Session(UpdateSkills(d, v), st.store)
    case EditLinks(p) => Session(UpdateLinks(d, p), st.store)
    case LoadSample => Session(LoadSampleData(d), st.store)
    case Save => Session(d, Write(st.store, ResumeKey, d))
  }

  /** A draft saved and then loaded on the next visit comes back unchanged, while edits
      made after the last save are not seen on reload. */
  lemma SaveThenReload(st: Session, a: Action)
    requires Applicable(Apply(st, Save).data, a) && !a.Save?
    ensures InitialState(Apply(st, Save).store) == Some(st.data)
    ensures InitialState(Apply(Apply(st, Save), a).store) == Some(st.data)
  {
  }
}
