/** `convertToPlainText` (src/lib/resumeExportUtils.js): the résumé as plain text. The
    text is built as a list of pieces, each tagged with the section and the role it plays;
    the output is the pieces' texts concatenated and trimmed. */
module ResumeExport {
  import opened Wrappers
  import opened Text
  import opened Seqs
  import opened Resume

  /** The parts of the text, in the order the exporter writes them. */
  datatype Section = Header | Contact | SocialLinks | Divider
                   | SummarySection | ExperienceSection | ProjectsSection | EducationSection | SkillsSection

  function Rank(s: Section): nat {
    match s
    case Header => 0
    case Contact => 1
    case SocialLinks => 2
    case Divider => 3
    case SummarySection => 4
    case ExperienceSection => 5
    case ProjectsSection => 6
    case EducationSection => 7
    case SkillsSection => 8
  }

  datatype SkillGroup = Technical | Soft | Tools

  /** What a piece is within its section. */
  datatype Kind = Heading | EntryTitle | Body | Blank | SkillLine(group: SkillGroup)

  datatype Piece = Piece(section: Section, kind: Kind, text: string)

  /** The concatenated texts. */
  function Render(ps: seq<Piece>): string {
    if |ps| == 0 then "" else ps[0].text + Render(ps[1..])
  }

  lemma {:induction false} RenderAppend(a: seq<Piece>, b: seq<Piece>)
    ensures Render(a + b) == Render(a) + Render(b)
  {
    if |a| > 0 {
      assert (a + b)[1..] == a[1..] + b;
      RenderAppend(a[1..], b);
    } else {
      assert a + b == b;
    }
  }

  /** Some piece of `ps` has that section and kind. */
  predicate Has(ps: seq<Piece>, s: Section, k: Kind) {
    exists i :: 0 <= i < |ps| && ps[i].section == s && ps[i].kind == k
  }

  /** Every piece of `ps` belongs to section `s`. */
  predicate AllIn(ps: seq<Piece>, s: Section) {
    forall i :: 0 <= i < |ps| ==> ps[i].section == s
  }

  /** The name line (line 9). */
  function NamePieces(p: PersonalInfo): (ps: seq<Piece>)
    ensures AllIn(ps, Header)
  {
    [Piece(Header, Body, (if p.name != "" then p.name else "YOUR NAME") + "\n")]
  }

  /** The contact line (lines 10-12), written even when every part is empty. */
  function ContactPieces(p: PersonalInfo): (ps: seq<Piece>)
    ensures AllIn(ps, Contact)
  {
    [Piece(Contact, Body,
       (if p.email != "" then "Email: " + p.email else "")
       + (if p.phone != "" then " | Phone: " + p.phone else "")
       + (if p.location != "" then " | Location: " + p.location else "")
       + "\n")]
  }

  /** The links line (lines 14-16). */
  function LinksPieces(l: Links): (ps: seq<Piece>)
    ensures AllIn(ps, SocialLinks)
    ensures Has(ps, SocialLinks, Body) <==> l.github != "" || l.linkedin != ""
  {
    if l.github != "" || l.linkedin != "" then
      var ps := [Piece(SocialLinks, Body,
         (if l.github != "" then "GitHub: " + l.github + " " else "")
         + (if l.linkedin != "" then "| LinkedIn: " + l.linkedin else "")
         + "\n")];
      assert ps[0].kind == Body;
      ps
    else []
  }

  const DividerText: string := "\n" + Repeat('=', 40) + "\n\n"

  /** The divider (line 18). */
  function DividerPieces(): (ps: seq<Piece>)
    ensures AllIn(ps, Divider)
  {
    [Piece(Divider, Body, DividerText)]
  }

  /** The section titles, each on a line of its own. */
  const SummaryHeading: string := "SUMMARY\n"
  const ExperienceHeading: string := "EXPERIENCE\n"
  const ProjectsHeading: string := "PROJECTS\n"
  const EducationHeading: string := "EDUCATION\n"
  const SkillsHeading: string := "TECHNICAL SKILLS\n"

  /** The summary block (lines 21-23): the title, then the summary and a blank line. */
  function SummaryPieces(summary: string): (ps: seq<Piece>)
    ensures AllIn(ps, SummarySection)
    ensures Has(ps, SummarySection, Heading) <==> summary != ""
  {
    if summary != "" then
      var ps := [Piece(SummarySection, Heading, SummaryHeading), Piece(SummarySection, Body, summary + "\n\n")];
      assert ps[0].kind == Heading;
      ps
    else []
  }

  /** The title line of one experience entry. */
  function ExperienceLine(e: Experience): string {
    e.role + " | " + e.company + " | " + e.duration + "\n"
  }

  /** The pieces of one experience entry: title, description when given, blank line. */
  function ExperienceEntry(e: Experience): (ps: seq<Piece>)
    ensures AllIn(ps, ExperienceSection) && !Has(ps, ExperienceSection, Heading)
    ensures |ps| > 0 && ps[0].kind == EntryTitle
    ensures forall i :: 0 < i < |ps| ==> ps[i].kind != EntryTitle
  {
    [Piece(ExperienceSection, EntryTitle, ExperienceLine(e))]
    + (if e.description != "" then [Piece(ExperienceSection, Body, e.description + "\n")] else [])
    + [Piece(ExperienceSection, Blank, "\n")]
  }

  /** The experience entries (lines 28-34). */
  function ExperienceEntries(es: seq<Experience>): (ps: seq<Piece>)
    ensures AllIn(ps, ExperienceSection) && !Has(ps, ExperienceSection, Heading)
  {
    if |es| == 0 then []
    else
      var ps := ExperienceEntry(es[0]) + ExperienceEntries(es[1..]);
      HasAppend(ExperienceEntry(es[0]), ExperienceEntries(es[1..]), ExperienceSection, Heading);
      ps
  }

  function ExperiencePieces(es: seq<Experience>): (ps: seq<Piece>)
    ensures AllIn(ps, ExperienceSection)
    ensures Has(ps, ExperienceSection, Heading) <==> |es| > 0
  {
    if |es| > 0 then
      var ps := [Piece(ExperienceSection, Heading, ExperienceHeading)] + ExperienceEntries(es);
      assert ps[0].kind == Heading;
      ps
    else []
  }

  /** The pieces of one project: title, description when given, blank line. */
  function ProjectEntry(p: Project): (ps: seq<Piece>)
    ensures AllIn(ps, ProjectsSection) && !Has(ps, ProjectsSection, Heading)
  {
    [Piece(ProjectsSection, EntryTitle, p.title + "\n")]
    + (if p.description != "" then [Piece(ProjectsSection, Body, p.description + "\n")] else [])
    + [Piece(ProjectsSection, Blank, "\n")]
  }

  /** The project entries (lines 40-46). */
  function ProjectEntries(projects: seq<Project>): (ps: seq<Piece>)
    ensures AllIn(ps, ProjectsSection) && !Has(ps, ProjectsSection, Heading)
  {
    if |projects| == 0 then []
    else
      var ps := ProjectEntry(projects[0]) + ProjectEntries(projects[1..]);
      HasAppend(ProjectEntry(projects[0]), ProjectEntries(projects[1..]), ProjectsSection, Heading);
      ps
  }

  function ProjectPieces(projects: seq<Project>): (ps: seq<Piece>)
    ensures AllIn(ps, ProjectsSection)
    ensures Has(ps, ProjectsSection, Heading) <==> |projects| > 0
  {
    if |projects| > 0 then
      var ps := [Piece(ProjectsSection, Heading, ProjectsHeading)] + ProjectEntries(projects);
      assert ps[0].kind == Heading;
      ps
    else []
  }

  /** The education lines (lines 52-54). */
  function EducationEntries(es: seq<Education>): (ps: seq<Piece>)
    ensures AllIn(ps, EducationSection) && !Has(ps, EducationSection, Heading)
  {
    if |es| == 0 then []
    else
      var head := [Piece(EducationSection, EntryTitle, es[0].degree + " | " + es[0].school + " | " + es[0].year + "\n")];
      HasAppend(head, EducationEntries(es[1..]), EducationSection, Heading);
      head + EducationEntries(es[1..])
  }

  function EducationPieces(es: seq<Education>): (ps: seq<Piece>)
    ensures AllIn(ps, EducationSection)
    ensures Has(ps, EducationSection, Heading) <==> |es| > 0
  {
    if |es| > 0 then
      var ps := [Piece(EducationSection, Heading, EducationHeading)] + EducationEntries(es) + [Piece(EducationSection, Blank, "\n")];
      assert ps[0].kind == Heading;
      HasAppend([Piece(EducationSection, Heading, EducationHeading)] + EducationEntries(es),
        [Piece(EducationSection, Blank, "\n")], EducationSection, Heading);
      ps
    else []
  }

  const TechnicalCaption: string := "Technical: "
  const SoftCaption: string := "Soft Skills: "
  const ToolsCaption: string := "Tools: "

  /** The caption that opens a skill line. */
  function Caption(g: SkillGroup): string {
    match g
    case Technical => TechnicalCaption
    case Soft => SoftCaption
    case Tools => ToolsCaption
  }

  /** The list of a list value that a skill line shows. */
  function SkillList(s: SkillsValue, g: SkillGroup): seq<string>
    requires s.SkillLists?
  {
    match g
    case Technical => s.technical
    case Soft => s.soft
    case Tools => s.tools
  }

  /** The text of a skill line (lines 61-63): the caption, the list joined by commas, a newline. */
  function SkillLineText(g: SkillGroup, xs: seq<string>): string {
    Caption(g) + Join(xs, ", ") + "\n"
  }

  /** A skill line, when its list is non-empty. */
  function SkillLinePieces(g: SkillGroup, xs: seq<string>): (ps: seq<Piece>)
    ensures AllIn(ps, SkillsSection)
    ensures forall i :: 0 <= i < |ps| ==> ps[i].kind == SkillLine(g)
    ensures |ps| > 0 <==> |xs| > 0
  {
    if |xs| > 0 then [Piece(SkillsSection, SkillLine(g), SkillLineText(g, xs))] else []
  }

  /** JavaScript truthiness of the `skills` value: a non-empty string, or any object. */
  predicate SkillsPresent(s: SkillsValue) {
    s.SkillLists? || s.text != ""
  }

  /** The three skill lines of a list value. */
  function SkillLines(s: SkillsValue): (ps: seq<Piece>)
    requires s.SkillLists?
    ensures AllIn(ps, SkillsSection)
    ensures forall i :: 0 <= i < |ps| ==> ps[i].kind.SkillLine?
  {
    SkillLinePieces(Technical, s.technical)
    + SkillLinePieces(Soft, s.soft)
    + SkillLinePieces(Tools, s.tools)
  }

  /** The skills block (lines 59-64): a string value gets the heading and nothing else. */
  function SkillsPieces(s: SkillsValue): (ps: seq<Piece>)
    ensures AllIn(ps, SkillsSection)
    ensures Has(ps, SkillsSection, Heading) <==> SkillsPresent(s)
  {
    if !SkillsPresent(s) then []
    else
      var ps := [Piece(SkillsSection, Heading, SkillsHeading)] + (if s.SkillLists? then SkillLines(s) else []);
      assert ps[0].kind == Heading;
      ps
  }

  /** The summary block is empty without a summary; otherwise it is the title line, then
      the summary followed by a blank line. */
  lemma SummaryBlock(summary: string)
    ensures summary == "" <==> SummaryPieces(summary) == []
    ensures summary != "" ==>
      SummaryPieces(summary) == [Piece(SummarySection, Heading, SummaryHeading), Piece(SummarySection, Body, summary + "\n\n")]
  {
  }

  /** The experience block is empty without entries; otherwise it is the title line and then
      the entries. */
  lemma ExperienceBlock(es: seq<Experience>)
    ensures |es| == 0 <==> ExperiencePieces(es) == []
    ensures |es| > 0 ==> ExperiencePieces(es) == [Piece(ExperienceSection, Heading, ExperienceHeading)] + ExperienceEntries(es)
  {
    if |es| > 0 {
      assert |ExperiencePieces(es)| > 0;
    }
  }

  /** The projects block is empty without projects; otherwise it is the title line and then
      the projects. */
  lemma ProjectsBlock(projects: seq<Project>)
    ensures |projects| == 0 <==> ProjectPieces(projects) == []
    ensures |projects| > 0 ==> ProjectPieces(projects) == [Piece(ProjectsSection, Heading, ProjectsHeading)] + ProjectEntries(projects)
  {
    if |projects| > 0 {
      assert |ProjectPieces(projects)| > 0;
    }
  }

  /** The education block is empty without entries; otherwise it is the title line, the
      entries and one blank line. */
  lemma EducationBlock(es: seq<Education>)
    ensures |es| == 0 <==> EducationPieces(es) == []
    ensures |es| > 0 ==>
      EducationPieces(es) == [Piece(EducationSection, Heading, EducationHeading)] + EducationEntries(es) + [Piece(EducationSection, Blank, "\n")]
  {
    if |es| > 0 {
      assert |EducationPieces(es)| > 0;
    }
  }

  /** The skills block is empty for a falsy value; otherwise it opens with its title line, and
      every skill line in it is its caption followed by the comma-joined list. */
  lemma SkillsBlock(s: SkillsValue)
    ensures !SkillsPresent(s) <==> SkillsPieces(s) == []
    ensures SkillsPresent(s) ==> SkillsPieces(s)[0] == Piece(SkillsSection, Heading, SkillsHeading)
    ensures forall p :: p in SkillsPieces(s) && p.kind.SkillLine? ==>
      s.SkillLists? && p.text == SkillLineText(p.kind.group, SkillList(s, p.kind.group))
  {
    var head := [Piece(SkillsSection, Heading, SkillsHeading)];
    if !SkillsPresent(s) {
      assert SkillsPieces(s) == [];
    } else if !s.SkillLists? {
      assert SkillsPieces(s) == head;
    } else {
      var a := SkillLinePieces(Technical, s.technical);
      var b := SkillLinePieces(Soft, s.soft);
      var c := SkillLinePieces(Tools, s.tools);
      assert SkillsPieces(s) == head + a + b + c;
      SkillLineOf(Technical, s.technical);
      SkillLineOf(Soft, s.soft);
      SkillLineOf(Tools, s.tools);
      forall p | p in SkillsPieces(s) && p.kind.SkillLine?
        ensures p.text == SkillLineText(p.kind.group, SkillList(s, p.kind.group))
      {
        if p !in a && p !in b {
          assert p in c;
        }
      }
    }
  }

  lemma SkillLineOf(g: SkillGroup, xs: seq<string>)
    ensures forall p :: p in SkillLinePieces(g, xs) ==> p.kind == SkillLine(g) && p.text == SkillLineText(g, xs)
  {
  }

  /** Each of the Technical, Soft Skills and Tools lines is written exactly when the value
      is a list object and that list is non-empty. */
  lemma SkillLinesPresentIff(s: SkillsValue, g: SkillGroup)
    ensures Has(SkillsPieces(s), SkillsSection, SkillLine(g)) <==> s.SkillLists? && |SkillList(s, g)| > 0
  {
    if SkillsPresent(s) {
      var head := [Piece(SkillsSection, Heading, SkillsHeading)];
      var lines := if s.SkillLists? then SkillLines(s) else [];
      assert SkillsPieces(s) == head + lines;
      HasAppend(head, lines, SkillsSection, SkillLine(g));
      if s.SkillLists? {
        var a := SkillLinePieces(Technical, s.technical);
        var b := SkillLinePieces(Soft, s.soft);
        var c := SkillLinePieces(Tools, s.tools);
        HasAppend(a, b, SkillsSection, SkillLine(g));
        HasAppend(a + b, c, SkillsSection, SkillLine(g));
        if |a| > 0 { assert a[0].kind == SkillLine(Technical); }
        if |b| > 0 { assert b[0].kind == SkillLine(Soft); }
        if |c| > 0 { assert c[0].kind == SkillLine(Tools); }
      }
    }
  }

  lemma {:induction false} HasAppend(a: seq<Piece>, b: seq<Piece>, s: Section, k: Kind)
    ensures Has(a + b, s, k) <==> Has(a, s, k) || Has(b, s, k)
  {
    if Has(a + b, s, k) {
      var i :| 0 <= i < |a + b| && (a + b)[i].section == s && (a + b)[i].kind == k;
      if i >= |a| { assert b[i - |a|] == (a + b)[i]; }
    }
    if Has(b, s, k) {
      var i :| 0 <= i < |b| && b[i].section == s && b[i].kind == k;
      assert (a + b)[|a| + i] == b[i];
    }
    if Has(a, s, k) {
      var i :| 0 <= i < |a| && a[i].section == s && a[i].kind == k;
      assert (a + b)[i] == a[i];
    }
  }

  /** The text's blocks, in writing order; block `m` holds only pieces of rank `m`. */
  function Blocks(d: ResumeData): (bs: seq<seq<Piece>>)
    ensures |bs| == 9
    ensures forall m :: 0 <= m < 9 ==> AllIn(bs[m], SectionOfRank(m))
  {
    var b0, b1, b2, b3 := NamePieces(d.personalInfo), ContactPieces(d.personalInfo), LinksPieces(d.links), DividerPieces();
    var b4, b5, b6 := SummaryPieces(d.summary), ExperiencePieces(d.experience), ProjectPieces(d.projects);
    var b7, b8 := EducationPieces(d.education), SkillsPieces(d.skills);
    assert AllIn(b0, SectionOfRank(0)) && AllIn(b1, SectionOfRank(1)) && AllIn(b2, SectionOfRank(2));
    assert AllIn(b3, SectionOfRank(3)) && AllIn(b4, SectionOfRank(4)) && AllIn(b5, SectionOfRank(5));
    assert AllIn(b6, SectionOfRank(6)) && AllIn(b7, SectionOfRank(7)) && AllIn(b8, SectionOfRank(8));
    [b0, b1, b2, b3, b4, b5, b6, b7, b8]
  }

  function SectionOfRank(m: nat): (s: Section)
    requires m < 9
    ensures Rank(s) == m
  {
    if m == 0 then Header else if m == 1 then Contact else if m == 2 then SocialLinks
    else if m == 3 then Divider else if m == 4 then SummarySection else if m == 5 then ExperienceSection
    else if m == 6 then ProjectsSection else if m == 7 then EducationSection else SkillsSection
  }

  /** Every piece of the text, in writing order. */
  function Pieces(d: ResumeData): seq<Piece> {
    Flatten(Blocks(d))
  }

  /** `convertToPlainText(data)`; `None` is a null or undefined argument. */
  function ConvertToPlainText(data: Option<ResumeData>): (r: string)
    ensures data.None? ==> r == ""
    ensures |r| > 0 ==> !IsSpace(r[0]) && !IsSpace(r[|r| - 1])
  {
    match data
    case None => ""
    case Some(d) => Trim(Render(Pieces(d)))
  }

  lemma {:induction false} HasFlatten(bs: seq<seq<Piece>>, s: Section, k: Kind)
    ensures Has(Flatten(bs), s, k) <==> exists m :: 0 <= m < |bs| && Has(bs[m], s, k)
  {
    if |bs| > 0 {
      HasAppend(bs[0], Flatten(bs[1..]), s, k);
      HasFlatten(bs[1..], s, k);
      if exists m :: 0 <= m < |bs| && Has(bs[m], s, k) {
        var m :| 0 <= m < |bs| && Has(bs[m], s, k);
        if m > 0 { assert bs[1..][m - 1] == bs[m]; }
      }
      if exists m :: 0 <= m < |bs[1..]| && Has(bs[1..][m], s, k) {
        var m :| 0 <= m < |bs[1..]| && Has(bs[1..][m], s, k);
        assert bs[1..][m] == bs[m + 1];
      }
    }
  }

  /** Pieces of section `s` and kind `k` occur in the text exactly when the block of that
      section holds one. */
  lemma HasInText(d: ResumeData, m: nat, k: Kind)
    requires m < 9
    ensures Has(Pieces(d), SectionOfRank(m), k) <==> Has(Blocks(d)[m], SectionOfRank(m), k)
  {
    var bs := Blocks(d);
    var s := SectionOfRank(m);
    HasFlatten(bs, s, k);
    if Has(Pieces(d), s, k) {
      var m' :| 0 <= m' < |bs| && Has(bs[m'], s, k);
      var i :| 0 <= i < |bs[m']| && bs[m'][i].section == s && bs[m'][i].kind == k;
      assert Rank(bs[m'][i].section) == m';
    }
  }

  /** A piece of section `s` is in the text exactly when it is in the block of `s`. */
  lemma InText(d: ResumeData, m: nat, p: Piece)
    requires m < 9 && p.section == SectionOfRank(m)
    ensures p in Pieces(d) <==> p in Blocks(d)[m]
  {
    var bs := Blocks(d);
    if p in Pieces(d) {
      var i :| 0 <= i < |bs| && p in bs[i];
      var j :| 0 <= j < |bs[i]| && bs[i][j] == p;
      assert Rank(bs[i][j].section) == i;
    }
  }

  /** Each optional block appears exactly when its data is present, with its title line as
      written, and the links line exactly when a GitHub or LinkedIn link is given. */
  lemma SectionsPresentIff(d: ResumeData)
    ensures Has(Pieces(d), SocialLinks, Body) <==> d.links.github != "" || d.links.linkedin != ""
    ensures Has(Pieces(d), SummarySection, Heading) <==> d.summary != ""
    ensures Has(Pieces(d), ExperienceSection, Heading) <==> |d.experience| > 0
    ensures Has(Pieces(d), ProjectsSection, Heading) <==> |d.projects| > 0
    ensures Has(Pieces(d), EducationSection, Heading) <==> |d.education| > 0
    ensures Has(Pieces(d), SkillsSection, Heading) <==> SkillsPresent(d.skills)
    ensures Piece(SummarySection, Heading, SummaryHeading) in Pieces(d) <==> d.summary != ""
    ensures Piece(ExperienceSection, Heading, ExperienceHeading) in Pieces(d) <==> |d.experience| > 0
    ensures Piece(ProjectsSection, Heading, ProjectsHeading) in Pieces(d) <==> |d.projects| > 0
    ensures Piece(EducationSection, Heading, EducationHeading) in Pieces(d) <==> |d.education| > 0
    ensures Piece(SkillsSection, Heading, SkillsHeading) in Pieces(d) <==> SkillsPresent(d.skills)
  {
    HasInText(d, 2, Body);
    HasInText(d, 4, Heading);
    HasInText(d, 5, Heading);
    HasInText(d, 6, Heading);
    HasInText(d, 7, Heading);
    HasInText(d, 8, Heading);
    SummaryBlock(d.summary);
    ExperienceBlock(d.experience);
    ProjectsBlock(d.projects);
    EducationBlock(d.education);
    SkillsBlock(d.skills);
    InText(d, 4, Piece(SummarySection, Heading, SummaryHeading));
    InText(d, 5, Piece(ExperienceSection, Heading, ExperienceHeading));
    InText(d, 6, Piece(ProjectsSection, Heading, ProjectsHeading));
    InText(d, 7, Piece(EducationSection, Heading, EducationHeading));
    InText(d, 8, Piece(SkillsSection, Heading, SkillsHeading));
  }

  /** Each skill line is in the text exactly when its list is non-empty, and then reads as
      its caption followed by the comma-joined list. */
  lemma SkillLinesInText(d: ResumeData, g: SkillGroup)
    ensures Has(Pieces(d), SkillsSection, SkillLine(g)) <==> d.skills.SkillLists? && |SkillList(d.skills, g)| > 0
    ensures d.skills.SkillLists? && |SkillList(d.skills, g)| > 0 ==>
      Piece(SkillsSection, SkillLine(g), SkillLineText(g, SkillList(d.skills, g))) in Pieces(d)
    ensures forall p :: p in Pieces(d) && p.section == SkillsSection && p.kind == SkillLine(g) ==>
      d.skills.SkillLists? && p.text == SkillLineText(g, SkillList(d.skills, g))
  {
    HasInText(d, 8, SkillLine(g));
    SkillLinesPresentIff(d.skills, g);
    var ps := SkillsPieces(d.skills);
    SkillsBlock(d.skills);
    forall p | p in Pieces(d) && p.section == SkillsSection && p.kind == SkillLine(g)
      ensures d.skills.SkillLists? && p.text == SkillLineText(g, SkillList(d.skills, g))
    {
      InText(d, 8, p);
    }
    if d.skills.SkillLists? && |SkillList(d.skills, g)| > 0 {
      var i :| 0 <= i < |ps| && ps[i].section == SkillsSection && ps[i].kind == SkillLine(g);
      assert ps[i] == Piece(SkillsSection, SkillLine(g), SkillLineText(g, SkillList(d.skills, g)));
      InText(d, 8, ps[i]);
    }
  }

  /** The pieces' sections never go back: summary, experience, projects, education and
      skills come in that fixed order, after the header, links and divider. */
  predicate InSectionOrder(ps: seq<Piece>) {
    forall i, j :: 0 <= i < j < |ps| ==> Rank(ps[i].section) <= Rank(ps[j].section)
  }

  lemma {:induction false} FlattenInOrder(bs: seq<seq<Piece>>, base: nat)
    requires forall m :: 0 <= m < |bs| ==> forall i :: 0 <= i < |bs[m]| ==> Rank(bs[m][i].section) == base + m
    ensures InSectionOrder(Flatten(bs))
    ensures forall x :: x in Flatten(bs) ==> Rank(x.section) >= base
  {
    if |bs| > 0 {
      var a: seq<Piece> := bs[0];
      var rest: seq<Piece> := Flatten(bs[1..]);
      var ar: seq<Piece> := a + rest;
      FlattenInOrder(bs[1..], base + 1);
      forall i: int, j: int | 0 <= i < j < |ar| ensures Rank(ar[i].section) <= Rank(ar[j].section) {
        if i < |a| && j >= |a| {
          assert ar[j] in rest;
        } else if i >= |a| {
          assert ar[i] == rest[i - |a|] && ar[j] == rest[j - |a|];
        }
      }
      forall x | x in ar ensures Rank(x.section) >= base {
        if x in a {
          var i :| 0 <= i < |a| && a[i] == x;
        }
      }
    }
  }

  lemma SectionOrder(d: ResumeData)
    ensures InSectionOrder(Pieces(d))
  {
    var bs: seq<seq<Piece>> := Blocks(d);
    forall m: int | 0 <= m < |bs| ensures forall i :: 0 <= i < |bs[m]| ==> Rank(bs[m][i].section) == m {
      assert AllIn(bs[m], SectionOfRank(m));
    }
    FlattenInOrder(bs, 0);
  }

  /** The texts of the entry-title pieces of a section, in order. */
  function EntryTitles(ps: seq<Piece>, s: Section): seq<string> {
    if |ps| == 0 then []
    else (if ps[0].section == s && ps[0].kind == EntryTitle then [ps[0].text] else []) + EntryTitles(ps[1..], s)
  }

  lemma {:induction false} EntryTitlesAppend(a: seq<Piece>, b: seq<Piece>, s: Section)
    ensures EntryTitles(a + b, s) == EntryTitles(a, s) + EntryTitles(b, s)
  {
    if |a| > 0 {
      assert (a + b)[1..] == a[1..] + b;
      EntryTitlesAppend(a[1..], b, s);
    } else {
      assert a + b == b;
    }
  }

  lemma {:induction false} EntryTitlesElsewhere(ps: seq<Piece>, s: Section, t: Section)
    requires AllIn(ps, t) && t != s
    ensures EntryTitles(ps, s) == []
  {
    if |ps| > 0 {
      EntryTitlesElsewhere(ps[1..], s, t);
    }
  }

  /** The experience titles of the entries, one per entry, in list order. */
  lemma {:induction false} ExperienceTitles(es: seq<Experience>)
    ensures EntryTitles(ExperienceEntries(es), ExperienceSection) ==
      seq(|es|, i requires 0 <= i < |es| => ExperienceLine(es[i]))
  {
    if |es| > 0 {
      var e := ExperienceEntry(es[0]);
      EntryTitlesAppend(e, ExperienceEntries(es[1..]), ExperienceSection);
      ExperienceTitles(es[1..]);
      EntryTitlesOneEntry(e);
    }
  }

  lemma EntryTitlesOneEntry(e: seq<Piece>)
    requires |e| > 0 && e[0].kind == EntryTitle && AllIn(e, ExperienceSection)
    requires forall i :: 0 < i < |e| ==> e[i].kind != EntryTitle
    ensures EntryTitles(e, ExperienceSection) == [e[0].text]
  {
    EntryTitlesNone(e[1..]);
  }

  lemma {:induction false} EntryTitlesNone(ps: seq<Piece>)
    requires forall i :: 0 <= i < |ps| ==> ps[i].kind != EntryTitle
    ensures EntryTitles(ps, ExperienceSection) == []
  {
    if |ps| > 0 {
      EntryTitlesNone(ps[1..]);
    }
  }

  /** The text has one `role | company | duration` line per experience entry, in list order,
      and no other experience title lines. */
  lemma ExperienceLinesInOrder(d: ResumeData)
    ensures EntryTitles(Pieces(d), ExperienceSection) ==
      seq(|d.experience|, i requires 0 <= i < |d.experience| => ExperienceLine(d.experience[i]))
  {
    var bs := Blocks(d);
    EntryTitlesFlatten(bs, ExperienceSection);
    ExperienceTitles(d.experience);
    var es := d.experience;
    if |es| > 0 {
      assert bs[5] == [Piece(ExperienceSection, Heading, "EXPERIENCE\n")] + ExperienceEntries(es);
      EntryTitlesAppend([Piece(ExperienceSection, Heading, "EXPERIENCE\n")], ExperienceEntries(es), ExperienceSection);
    }
    forall m | 0 <= m < 9 && m != 5 ensures EntryTitles(bs[m], ExperienceSection) == [] {
      EntryTitlesElsewhere(bs[m], ExperienceSection, SectionOfRank(m));
    }
    TitlesOfOneBlock(bs, ExperienceSection, 5);
  }

  /** When only block `k` has titles of section `s`, the text's titles are that block's. */
  lemma {:induction false} TitlesOfOneBlock(bs: seq<seq<Piece>>, s: Section, k: nat)
    requires k < |bs| && forall m :: 0 <= m < |bs| && m != k ==> EntryTitles(bs[m], s) == []
    ensures TitlesOfBlocks(bs, s) == EntryTitles(bs[k], s)
  {
    if k == 0 {
      TitlesOfNoBlock(bs[1..], s);
    } else {
      assert EntryTitles(bs[0], s) == [];
      assert forall m :: 0 <= m < |bs[1..]| && m != k - 1 ==> bs[1..][m] == bs[m + 1];
      TitlesOfOneBlock(bs[1..], s, k - 1);
    }
  }

  lemma {:induction false} TitlesOfNoBlock(bs: seq<seq<Piece>>, s: Section)
    requires forall m :: 0 <= m < |bs| ==> EntryTitles(bs[m], s) == []
    ensures TitlesOfBlocks(bs, s) == []
  {
    if |bs| > 0 {
      assert forall m :: 0 <= m < |bs[1..]| ==> bs[1..][m] == bs[m + 1];
      TitlesOfNoBlock(bs[1..], s);
    }
  }

  /** The titles of a flattened list are the blocks' titles concatenated. */
  function TitlesOfBlocks(bs: seq<seq<Piece>>, s: Section): seq<string> {
    if |bs| == 0 then [] else EntryTitles(bs[0], s) + TitlesOfBlocks(bs[1..], s)
  }

  lemma {:induction false} EntryTitlesFlatten(bs: seq<seq<Piece>>, s: Section)
    ensures EntryTitles(Flatten(bs), s) == TitlesOfBlocks(bs, s)
  {
    if |bs| > 0 {
      EntryTitlesAppend(bs[0], Flatten(bs[1..]), s);
      EntryTitlesFlatten(bs[1..], s);
    }
  }

  /** Rendering blocks whose first is one line and whose fourth is the divider. */
  lemma {:induction false} RenderFrontBlocks(bs: seq<seq<Piece>>, name: string, dt: string)
    requires |bs| >= 4 && bs[0] == [Piece(Header, Body, name + "\n")] && bs[3] == [Piece(Divider, Body, dt)]
    ensures Render(Flatten(bs)) == name + ("\n" + (Render(bs[1]) + Render(bs[2])) + dt + Render(Flatten(bs[4..])))
  {
    assert Flatten(bs) == bs[0] + Flatten(bs[1..]);
    assert Flatten(bs[1..]) == bs[1] + Flatten(bs[2..]) by { assert bs[1..][1..] == bs[2..]; }
    assert Flatten(bs[2..]) == bs[2] + Flatten(bs[3..]) by { assert bs[2..][1..] == bs[3..]; }
    assert Flatten(bs[3..]) == bs[3] + Flatten(bs[4..]) by { assert bs[3..][1..] == bs[4..]; }
    RenderAppend(bs[0], Flatten(bs[1..]));
    RenderAppend(bs[1], Flatten(bs[2..]));
    RenderAppend(bs[2], Flatten(bs[3..]));
    RenderAppend(bs[3], Flatten(bs[4..]));
    assert Render(bs[0]) == name + "\n" by { assert bs[0][1..] == []; }
    assert Render(bs[3]) == dt by { assert bs[3][1..] == []; }
  }

  /** The rendered text: the name line, then the contact and links text, then the divider. */
  lemma RenderedFront(d: ResumeData)
    ensures var n := if d.personalInfo.name != "" then d.personalInfo.name else "YOUR NAME";
      var c := Render(ContactPieces(d.personalInfo)) + Render(LinksPieces(d.links));
      exists tail :: Render(Pieces(d)) == n + ("\n" + c + DividerText + tail)
  {
    var bs := Blocks(d);
    var n := if d.personalInfo.name != "" then d.personalInfo.name else "YOUR NAME";
    RenderFrontBlocks(bs, n, DividerText);
    var tail := Render(Flatten(bs[4..]));
  }

  /** The text starts with the name, or with `YOUR NAME` when the name is empty, provided
      the name does not itself start with white space. */
  lemma StartsWithName(d: ResumeData)
    requires d.personalInfo.name == "" || !IsSpace(d.personalInfo.name[0])
    ensures var n := if d.personalInfo.name != "" then d.personalInfo.name else "YOUR NAME";
      var r := ConvertToPlainText(Some(d));
      |r| >= |n| && r[..|n|] == n
  {
    var n := if d.personalInfo.name != "" then d.personalInfo.name else "YOUR NAME";
    var c := Render(ContactPieces(d.personalInfo)) + Render(LinksPieces(d.links));
    RenderedFront(d);
    var tail :| Render(Pieces(d)) == n + ("\n" + c + DividerText + tail);
    var q := "\n" + c + DividerText + tail;
    assert q[1 + |c| + 1] == DividerText[1] == '=';
    TrimKeepsPrefix(n, q, 1 + |c| + 1);
  }

  /** Whatever the draft, the text is never empty: the divider always survives the trim. */
  lemma NeverEmpty(d: ResumeData)
    ensures |ConvertToPlainText(Some(d))| > 0
  {
    var n := if d.personalInfo.name != "" then d.personalInfo.name else "YOUR NAME";
    var c := Render(ContactPieces(d.personalInfo)) + Render(LinksPieces(d.links));
    RenderedFront(d);
    var tail :| Render(Pieces(d)) == n + ("\n" + c + DividerText + tail);
    var all := Render(Pieces(d));
    assert all[|n| + 1 + |c| + 1] == '=';
  }
}
