/** The exported document of `components/ResumePDF.tsx` as a projection of
    `ResumeData` to a header and a sequence of titled section blocks. */
module Pdf {
  import opened Wrappers
  import opened Resume
  import Seqs
  import Text
  import opened Layout

  /** The array `contactItems` starts from: email, phone, location, and the
      `LinkedIn` and `Portfolio` labels (or `''` when the link is empty). */
  function ContactCandidates(pi: PersonalInfo): (cs: seq<string>)
    ensures |cs| == 5
  {
    [pi.email] + ([pi.phone] + ([pi.location]
      + ([if pi.linkedin != "" then "LinkedIn" else ""]
      + [if pi.website != "" then "Portfolio" else ""])))
  }

  predicate NonEmpty(x: string) {
    x != ""
  }

  /** `contactItems`: the candidates with the empty ones removed, order kept. */
  function ContactItems(pi: PersonalInfo): (items: seq<string>)
    ensures forall i :: 0 <= i < |items| ==> items[i] != ""
    ensures Seqs.IsSubseq(items, ContactCandidates(pi))
    ensures |items| == Seqs.Count(ContactCandidates(pi), NonEmpty)
    ensures pi.email != "" <==> |items| > 0 && items[0] == pi.email
  {
    Seqs.FilterSpec(ContactCandidates(pi), NonEmpty);
    Seqs.Filter(ContactCandidates(pi), NonEmpty)
  }

  /** The texts of the contact row: every item but the last is followed by
      `" •"`, so `n` items carry `n - 1` separators, none leading and none
      trailing. */
  function WithSeparators(items: seq<string>): (texts: seq<string>)
    ensures |texts| == |items|
    ensures forall i :: 0 <= i < |items| - 1 ==> texts[i] == items[i] + " •"
    ensures |items| > 0 ==> texts[|items| - 1] == items[|items| - 1]
  {
    seq(|items|, i requires 0 <= i < |items| =>
      if i < |items| - 1 then items[i] + " •" else items[i])
  }

  /** Read as one line with a space between texts, the contact row is the
      items joined by `" • "`. */
  lemma {:induction false} ContactLine(items: seq<string>)
    ensures Text.Join(WithSeparators(items), " ") == Text.Join(items, " • ")
    decreases |items|
  {
    if |items| > 1 {
      ContactLine(items[1..]);
      assert WithSeparators(items)[1..] == WithSeparators(items[1..]);
    }
  }

  /** A bullet row: the marker and the text beside it. */
  datatype BulletRow = BulletRow(marker: string, text: string)

  datatype WorkItem = WorkItem(
    jobTitle: string,
    placeLine: string,
    dates: string,
    bullets: seq<BulletRow>)

  datatype EducationItem = EducationItem(
    degree: string,
    placeLine: string,
    gpaLine: Option<string>,
    graduationDate: string,
    coursework: Option<BulletRow>)

  /** A skill group: `category:` and the skills as one comma-separated text. */
  datatype SkillLine = SkillLine(heading: string, list: string)

  datatype Body =
    | SummaryBody(text: string)
    | WorkBody(jobs: seq<WorkItem>)
    | EducationBody(schools: seq<EducationItem>)
    | SkillsBody(lines: seq<SkillLine>)

  datatype Block = Block(title: string, body: Body)

  datatype Header = Header(name: string, contacts: seq<string>)

  datatype Document = Document(header: Header, sections: seq<Block>)

  function Kind(b: Block): Section {
    match b.body
    case SummaryBody(_) => SummarySection
    case WorkBody(_) => WorkSection
    case EducationBody(_) => EducationSection
    case SkillsBody(_) => SkillsSection
  }

  function Kinds(bs: seq<Block>): seq<Section> {
    Seqs.Map(bs, Kind)
  }

  /** The section titles of the document. */
  function Title(k: Section): string {
    match k
    case SummarySection => "PROFESSIONAL SUMMARY"
    case WorkSection => "WORK EXPERIENCE"
    case EducationSection => "EDUCATION"
    case SkillsSection => "SKILLS"
    case EmptyStateSection => ""
  }

  /** The conditions under which each section is rendered: a section when its
      data is non-empty; the document has no empty-state notice. */
  function Visible(d: ResumeData): Visibility {
    Visibility(
      d.personalInfo.summary != "",
      |d.workExperience| > 0,
      |d.education| > 0,
      |d.skills| > 0,
      false)
  }

  /** A work entry: one `•` row per description line, in stored order. */
  function WorkItemOf(e: WorkExperience): (w: WorkItem)
    ensures |w.bullets| == |e.description|
    ensures forall j :: 0 <= j < |e.description| ==> w.bullets[j] == BulletRow("•", e.description[j])
    ensures w.jobTitle == e.jobTitle
    ensures w.placeLine == PlaceLine(e.company, e.location)
    ensures w.dates == DateRange(e.startDate, e.endDate)
  {
    WorkItem(e.jobTitle, PlaceLine(e.company, e.location), DateRange(e.startDate, e.endDate),
      Seqs.Map(e.description, (line: string) => BulletRow("•", line)))
  }

  /** An education entry: the GPA line only for a non-empty GPA and the
      coursework row only for non-empty coursework. */
  function EducationItemOf(e: Education): (v: EducationItem)
    ensures v.gpaLine.Some? <==> Truthy(e.gpa)
    ensures v.gpaLine.Some? ==> v.gpaLine.value == "GPA: " + e.gpa.value
    ensures v.coursework.Some? <==> Truthy(e.relevantCoursework)
    ensures v.coursework.Some? ==>
      v.coursework.value == BulletRow("•", "Relevant Coursework: " + e.relevantCoursework.value)
    ensures v.degree == e.degree && v.graduationDate == e.graduationDate
    ensures v.placeLine == PlaceLine(e.school, e.location)
  {
    EducationItem(e.degree, PlaceLine(e.school, e.location),
      if Truthy(e.gpa) then Some("GPA: " + e.gpa.value) else None,
      e.graduationDate,
      if Truthy(e.relevantCoursework)
      then Some(BulletRow("•", "Relevant Coursework: " + e.relevantCoursework.value))
      else None)
  }

  /** A skill group: `category + ":"` and `skills.join(', ')`. */
  function SkillLineOf(g: Skill): SkillLine {
    SkillLine(g.category + ":", Text.Join(g.skills, ", "))
  }

  /** The block of section `k` under its title, entries in stored order. */
  function BlockFor(d: ResumeData, k: Section): (b: Block)
    requires k != EmptyStateSection
    ensures Kind(b) == k && b.title == Title(k)
    ensures b.body.SummaryBody? ==> b.body.text == d.personalInfo.summary
    ensures b.body.WorkBody? ==>
      && |b.body.jobs| == |d.workExperience|
      && forall i :: 0 <= i < |b.body.jobs| ==> b.body.jobs[i] == WorkItemOf(d.workExperience[i])
    ensures b.body.EducationBody? ==>
      && |b.body.schools| == |d.education|
      && forall i :: 0 <= i < |b.body.schools| ==> b.body.schools[i] == EducationItemOf(d.education[i])
    ensures b.body.SkillsBody? ==>
      && |b.body.lines| == |d.skills|
      && forall i :: 0 <= i < |b.body.lines| ==>
           b.body.lines[i] == SkillLine(d.skills[i].category + ":", Text.Join(d.skills[i].skills, ", "))
  {
    match k
    case SummarySection => Block(Title(k), SummaryBody(d.personalInfo.summary))
    case WorkSection => Block(Title(k), WorkBody(Seqs.Map(d.workExperience, WorkItemOf)))
    case EducationSection => Block(Title(k), EducationBody(Seqs.Map(d.education, EducationItemOf)))
    case SkillsSection => Block(Title(k), SkillsBody(Seqs.Map(d.skills, SkillLineOf)))
  }

  /** `b` is the block the document renders for its section. */
  predicate Renders(d: ResumeData, b: Block) {
    Kind(b) != EmptyStateSection && b == BlockFor(d, Kind(b))
  }

  function Blocks(d: ResumeData, ks: seq<Section>): (bs: seq<Block>)
    requires EmptyStateSection !in ks
    ensures Kinds(bs) == ks
    ensures forall b :: b in bs ==> Renders(d, b)
  {
    var bs := Seqs.Map(ks, k => if k == EmptyStateSection then Block("", SummaryBody("")) else BlockFor(d, k));
    assert forall i :: 0 <= i < |bs| ==> Kind(bs[i]) == ks[i];
    bs
  }

  /** The document: the name and the separated contact row, then the
      summary, work, education and skills sections, each present exactly
      under the condition the component tests and in that order. */
  function Render(d: ResumeData): (doc: Document)
    ensures doc.header ==
      Header(FullName(d.personalInfo.firstName, d.personalInfo.lastName), WithSeparators(ContactItems(d.personalInfo)))
    ensures Kinds(doc.sections) == Select(Visible(d))
    ensures InOrder(Kinds(doc.sections))
    ensures forall b :: b in doc.sections ==> Renders(d, b)
  {
    var ks := Select(Visible(d));
    var bs := Blocks(d, ks);
    Document(
      Header(FullName(d.personalInfo.firstName, d.personalInfo.lastName), WithSeparators(ContactItems(d.personalInfo))),
      bs)
  }

  /** Each section is in the document exactly when its data is non-empty, and
      there is never an empty-state notice. */
  lemma SectionConditions(d: ResumeData)
    ensures var ks := Kinds(Render(d).sections);
      && (SummarySection in ks <==> d.personalInfo.summary != "")
      && (WorkSection in ks <==> |d.workExperience| > 0)
      && (EducationSection in ks <==> |d.education| > 0)
      && (SkillsSection in ks <==> |d.skills| > 0)
      && EmptyStateSection !in ks
  {
    assert Kinds(Render(d).sections) == Select(Visible(d));
  }
}
