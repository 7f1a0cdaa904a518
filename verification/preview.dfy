/** The on-screen resume of `components/ResumePreview.tsx` as a projection of
    `ResumeData` to a header and a sequence of section blocks, and the store
    write of its summary generation. */
module Preview {
  import opened Wrappers
  import opened Resume
  import Store
  import Seqs
  import opened Layout
  import Generation

  /** The header's contact row: the email, phone and location texts and the
      `LinkedIn` and `Portfolio` link labels, each only when its field is
      non-empty, in that order. */
  function ContactItems(pi: PersonalInfo): (items: seq<string>)
    ensures |items| <= 5
    ensures forall x :: x in items ==> x != ""
    ensures pi.email != "" <==> |items| > 0 && items[0] == pi.email
    ensures |items| == 0 <==>
      pi.email == "" && pi.phone == "" && pi.location == "" && pi.linkedin == "" && pi.website == ""
  {
    (if pi.email != "" then [pi.email] else [])
    + ((if pi.phone != "" then [pi.phone] else [])
    + ((if pi.location != "" then [pi.location] else [])
    + ((if pi.linkedin != "" then ["LinkedIn"] else [])
    + (if pi.website != "" then ["Portfolio"] else []))))
  }

  datatype Header = Header(name: string, contacts: seq<string>)

  /** The summary section holds the summary text, or, when there is none, the
      generate button. */
  datatype SummaryContent = Paragraph(text: string) | GenerateButton

  /** One work entry; `bullets` is `None` when no list is rendered. */
  datatype WorkView = WorkView(
    jobTitle: string,
    placeLine: string,
    dates: string,
    bullets: Option<seq<string>>)

  /** One education entry with its optional GPA and coursework lines. */
  datatype EducationView = EducationView(
    degree: string,
    placeLine: string,
    gpaLine: Option<string>,
    graduationDate: string,
    courseworkLine: Option<string>)

  /** One skill group: its heading and one chip per skill. */
  datatype SkillGroupView = SkillGroupView(category: string, chips: seq<string>)

  datatype Block =
    | SummaryBlock(content: SummaryContent)
    | WorkBlock(jobs: seq<WorkView>)
    | EducationBlock(schools: seq<EducationView>)
    | SkillsBlock(groups: seq<SkillGroupView>)
    | EmptyStateBlock

  datatype Page = Page(header: Header, sections: seq<Block>)

  function Kind(b: Block): Section {
    match b
    case SummaryBlock(_) => SummarySection
    case WorkBlock(_) => WorkSection
    case EducationBlock(_) => EducationSection
    case SkillsBlock(_) => SkillsSection
    case EmptyStateBlock => EmptyStateSection
  }

  function Kinds(bs: seq<Block>): seq<Section> {
    Seqs.Map(bs, Kind)
  }

  /** The conditions under which each section is rendered: the summary when
      there is one or generation is offered, a list section when its list is
      non-empty, and the empty-state notice only for a resume with no name and
      no entries. */
  function Visible(d: ResumeData, showGenerateSummary: bool): Visibility {
    Visibility(
      d.personalInfo.summary != "" || showGenerateSummary,
      |d.workExperience| > 0,
      |d.education| > 0,
      |d.skills| > 0,
      && d.personalInfo.firstName == "" && d.personalInfo.lastName == ""
      && |d.workExperience| == 0 && |d.education| == 0 && |d.skills| == 0)
  }

  /** A work entry: the bullets in stored order, and no list at all when the
      description is empty. */
  function WorkViewOf(e: WorkExperience): (v: WorkView)
    ensures v.bullets.None? <==> |e.description| == 0
    ensures v.bullets.Some? ==> v.bullets.value == e.description
    ensures v.jobTitle == e.jobTitle
    ensures v.placeLine == PlaceLine(e.company, e.location)
    ensures v.dates == DateRange(e.startDate, e.endDate)
  {
    WorkView(e.jobTitle, PlaceLine(e.company, e.location), DateRange(e.startDate, e.endDate),
      if |e.description| > 0 then Some(e.description) else None)
  }

  /** An education entry: the GPA line only for a non-empty GPA and the
      coursework line only for non-empty coursework. */
  function EducationViewOf(e: Education): (v: EducationView)
    ensures v.gpaLine.Some? <==> Truthy(e.gpa)
    ensures v.gpaLine.Some? ==> v.gpaLine.value == "GPA: " + e.gpa.value
    ensures v.courseworkLine.Some? <==> Truthy(e.relevantCoursework)
    ensures v.courseworkLine.Some? ==>
      v.courseworkLine.value == "Relevant Coursework: " + e.relevantCoursework.value
    ensures v.degree == e.degree && v.graduationDate == e.graduationDate
    ensures v.placeLine == PlaceLine(e.school, e.location)
  {
    EducationView(e.degree, PlaceLine(e.school, e.location),
      if Truthy(e.gpa) then Some("GPA: " + e.gpa.value) else None,
      e.graduationDate,
      if Truthy(e.relevantCoursework) then Some("Relevant Coursework: " + e.relevantCoursework.value) else None)
  }

  function SkillGroupViewOf(g: Skill): SkillGroupView {
    SkillGroupView(g.category, g.skills)
  }

  /** The block of section `k`, its entries in stored order. */
  function BlockFor(d: ResumeData, k: Section): (b: Block)
    ensures Kind(b) == k
    ensures b.SummaryBlock? ==>
      && (b.content.Paragraph? <==> d.personalInfo.summary != "")
      && (b.content.Paragraph? ==> b.content.text == d.personalInfo.summary)
    ensures b.WorkBlock? ==>
      && |b.jobs| == |d.workExperience|
      && forall i :: 0 <= i < |b.jobs| ==> b.jobs[i] == WorkViewOf(d.workExperience[i])
    ensures b.EducationBlock? ==>
      && |b.schools| == |d.education|
      && forall i :: 0 <= i < |b.schools| ==> b.schools[i] == EducationViewOf(d.education[i])
    ensures b.SkillsBlock? ==>
      && |b.groups| == |d.skills|
      && forall i :: 0 <= i < |b.groups| ==>
           b.groups[i].category == d.skills[i].category && b.groups[i].chips == d.skills[i].skills
  {
    match k
    case SummarySection =>
      SummaryBlock(if d.personalInfo.summary != "" then Paragraph(d.personalInfo.summary) else GenerateButton)
    case WorkSection => WorkBlock(Seqs.Map(d.workExperience, WorkViewOf))
    case EducationSection => EducationBlock(Seqs.Map(d.education, EducationViewOf))
    case SkillsSection => SkillsBlock(Seqs.Map(d.skills, SkillGroupViewOf))
    case EmptyStateSection => EmptyStateBlock
  }

  /** `b` is the block the page renders for its section. */
  predicate Renders(d: ResumeData, b: Block) {
    b == BlockFor(d, Kind(b))
  }

  /** The blocks of the sections `ks`, one each, in the same order. */
  function Blocks(d: ResumeData, ks: seq<Section>): (bs: seq<Block>)
    ensures Kinds(bs) == ks
    ensures forall b :: b in bs ==> Renders(d, b)
  {
    var bs := Seqs.Map(ks, k => BlockFor(d, k));
    assert forall i :: 0 <= i < |bs| ==> Kind(bs[i]) == ks[i];
    bs
  }

  /** The rendered page: the name and contact row, then the summary, work,
      education and skills sections and the empty-state notice, each present
      exactly under the condition the component tests and in that order. */
  function Render(d: ResumeData, showGenerateSummary: bool): (p: Page)
    ensures p.header == Header(FullName(d.personalInfo.firstName, d.personalInfo.lastName), ContactItems(d.personalInfo))
    ensures Kinds(p.sections) == Select(Visible(d, showGenerateSummary))
    ensures InOrder(Kinds(p.sections))
    ensures forall b :: b in p.sections ==> Renders(d, b)
  {
    var ks := Select(Visible(d, showGenerateSummary));
    Page(Header(FullName(d.personalInfo.firstName, d.personalInfo.lastName), ContactItems(d.personalInfo)),
      Blocks(d, ks))
  }

  /** Each section is on the page exactly under the condition the component
      tests. */
  lemma SectionConditions(d: ResumeData, showGenerateSummary: bool)
    ensures var ks := Kinds(Render(d, showGenerateSummary).sections);
      && (SummarySection in ks <==> d.personalInfo.summary != "" || showGenerateSummary)
      && (WorkSection in ks <==> |d.workExperience| > 0)
      && (EducationSection in ks <==> |d.education| > 0)
      && (SkillsSection in ks <==> |d.skills| > 0)
      && (EmptyStateSection in ks <==>
           && d.personalInfo.firstName == "" && d.personalInfo.lastName == ""
           && |d.workExperience| == 0 && |d.education| == 0 && |d.skills| == 0)
  {
    var v := Visible(d, showGenerateSummary);
    assert Kinds(Render(d, showGenerateSummary).sections) == Select(v);
  }

  /** The answer of the summary endpoint. */
  datatype SummaryReply =
    | SummaryOk(summary: string)
    | SummaryNotOk
    | SummaryFailed

  /** `generateSummary`: an ok reply stores its summary through
      `updatePersonalInfo({ summary })`; any other outcome writes nothing. */
  function GenerateSummary(s: Store.State, reply: SummaryReply): (t: Store.State)
    ensures reply.SummaryOk? ==>
      t == s.(resumeData := s.resumeData.(personalInfo := s.resumeData.personalInfo.(summary := reply.summary)))
    ensures !reply.SummaryOk? ==> t == s
  {
    match reply
    case SummaryOk(summary) => Store.UpdatePersonalInfo(s, SummaryPatch(summary))
    case _ => s
  }

  /** Once a non-empty summary has been generated, the summary section shows
      it and the generate button is gone. */
  lemma GeneratedSummaryShown(s: Store.State, summary: string, showGenerateSummary: bool)
    requires summary != ""
    ensures var p := Render(GenerateSummary(s, SummaryOk(summary)).resumeData, showGenerateSummary);
      && SummaryBlock(Paragraph(summary)) in p.sections
      && SummaryBlock(GenerateButton) !in p.sections
  {
    var d := GenerateSummary(s, SummaryOk(summary)).resumeData;
    var p := Render(d, showGenerateSummary);
    var i :| 0 <= i < |p.sections| && Kinds(p.sections)[i] == SummarySection;
    assert p.sections[i] in p.sections;
  }

  /** The summary endpoint answers ok even when the completion call fails,
      with the empty summary it falls back to. Writing that summary leaves an
      empty stored summary as it was, so the generate button stays on offer. */
  lemma FailedSummaryKeepsOffer(s: Store.State, showGenerateSummary: bool)
    requires s.resumeData.personalInfo.summary == ""
    ensures GenerateSummary(s, SummaryOk(Generation.GenerateSummary(Generation.CallFailed))) == s
    ensures showGenerateSummary ==>
      SummaryBlock(GenerateButton) in Render(s.resumeData, showGenerateSummary).sections
  {
    if showGenerateSummary {
      var p := Render(s.resumeData, showGenerateSummary);
      SectionConditions(s.resumeData, showGenerateSummary);
      var i :| 0 <= i < |p.sections| && Kinds(p.sections)[i] == SummarySection;
      assert p.sections[i] in p.sections;
    }
  }
}
