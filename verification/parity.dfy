/** What the on-screen preview and the exported document have in common when
    both render the same `ResumeData`. */
module Parity {
  import opened Wrappers
  import opened Resume
  import Seqs
  import Text
  import opened Layout
  import Preview
  import Pdf

  /** The last three candidates, filtered: the location and the two link
      labels. */
  lemma FilteredTail(pi: PersonalInfo)
    ensures Seqs.Filter([pi.location]
      + ([if pi.linkedin != "" then "LinkedIn" else ""]
      + [if pi.website != "" then "Portfolio" else ""]), Pdf.NonEmpty) ==
      (if pi.location != "" then [pi.location] else [])
      + ((if pi.linkedin != "" then ["LinkedIn"] else [])
      + (if pi.website != "" then ["Portfolio"] else []))
  {
    var li := if pi.linkedin != "" then "LinkedIn" else "";
    var po := if pi.website != "" then "Portfolio" else "";
    assert [po] == [po] + [];
    Seqs.FilterCons(po, [], Pdf.NonEmpty);
    Seqs.FilterCons(li, [po], Pdf.NonEmpty);
    Seqs.FilterCons(pi.location, [li] + [po], Pdf.NonEmpty);
  }

  /** Filtering the document's candidates, one candidate at a time. */
  lemma FilteredCandidates(pi: PersonalInfo)
    ensures Seqs.Filter(Pdf.ContactCandidates(pi), Pdf.NonEmpty) ==
      (if pi.email != "" then [pi.email] else [])
      + ((if pi.phone != "" then [pi.phone] else [])
      + ((if pi.location != "" then [pi.location] else [])
      + ((if pi.linkedin != "" then ["LinkedIn"] else [])
      + (if pi.website != "" then ["Portfolio"] else []))))
  {
    var tail := [pi.location]
      + ([if pi.linkedin != "" then "LinkedIn" else ""]
      + [if pi.website != "" then "Portfolio" else ""]);
    FilteredTail(pi);
    Seqs.FilterCons(pi.phone, tail, Pdf.NonEmpty);
    Seqs.FilterCons(pi.email, [pi.phone] + tail, Pdf.NonEmpty);
  }

  /** Both renderers list the same contact items in the same order. */
  lemma ContactItemsAgree(pi: PersonalInfo)
    ensures Preview.ContactItems(pi) == Pdf.ContactItems(pi)
  {
    FilteredCandidates(pi);
  }

  /** Read as one line, the document's contact row is the preview's items
      joined by `" • "`. */
  lemma ContactRowAgrees(d: ResumeData, showGenerateSummary: bool)
    ensures Text.Join(Pdf.Render(d).header.contacts, " ")
      == Text.Join(Preview.Render(d, showGenerateSummary).header.contacts, " • ")
    ensures Pdf.Render(d).header.name == Preview.Render(d, showGenerateSummary).header.name
  {
    ContactItemsAgree(d.personalInfo);
    Pdf.ContactLine(Pdf.ContactItems(d.personalInfo));
  }

  /** Unless the preview offers summary generation for an empty summary, the
      document has exactly the preview's sections, in the same order, less the
      empty-state notice. */
  lemma SectionsAgree(d: ResumeData, showGenerateSummary: bool)
    requires !showGenerateSummary || d.personalInfo.summary != ""
    ensures Pdf.Kinds(Pdf.Render(d).sections)
      == Seqs.Filter(Preview.Kinds(Preview.Render(d, showGenerateSummary).sections), NotEmptyState)
  {
    assert Pdf.Visible(d) == Preview.Visible(d, showGenerateSummary).(emptyState := false);
    HideEmptyState(Preview.Visible(d, showGenerateSummary));
  }

  /** When the preview offers summary generation for an empty summary, the
      two differ exactly in that section: the preview has a summary section
      and the document has none. */
  lemma SummaryOfferDiffers(d: ResumeData, showGenerateSummary: bool)
    requires showGenerateSummary && d.personalInfo.summary == ""
    ensures SummarySection in Preview.Kinds(Preview.Render(d, showGenerateSummary).sections)
    ensures SummarySection !in Pdf.Kinds(Pdf.Render(d).sections)
  {
    Preview.SectionConditions(d, showGenerateSummary);
    Pdf.SectionConditions(d);
  }

  /** A work entry: the same title, place and dates, and the document's
      bullet rows carry exactly the preview's bullets, each marked `•`. */
  lemma WorkEntryAgrees(e: WorkExperience)
    ensures var v, w := Preview.WorkViewOf(e), Pdf.WorkItemOf(e);
      && v.jobTitle == w.jobTitle && v.placeLine == w.placeLine && v.dates == w.dates
      && |w.bullets| == |v.bullets.GetOr([])|
      && forall j :: 0 <= j < |w.bullets| ==> w.bullets[j] == Pdf.BulletRow("•", v.bullets.GetOr([])[j])
  {
  }

  /** An education entry: the same GPA line, and a coursework row exactly
      when the preview has a coursework line, with the same text. */
  lemma EducationEntryAgrees(e: Education)
    ensures var v, w := Preview.EducationViewOf(e), Pdf.EducationItemOf(e);
      && v.degree == w.degree && v.placeLine == w.placeLine
      && v.graduationDate == w.graduationDate
      && v.gpaLine == w.gpaLine
      && (v.courseworkLine.Some? <==> w.coursework.Some?)
      && (v.courseworkLine.Some? ==> w.coursework.value == Pdf.BulletRow("•", v.courseworkLine.value))
  {
  }

  /** The work sections list the same entries in the same order, each
      rendered alike. */
  lemma WorkBlocksAgree(d: ResumeData)
    ensures var v, w := Preview.BlockFor(d, WorkSection), Pdf.BlockFor(d, WorkSection);
      && |v.jobs| == |w.body.jobs| == |d.workExperience|
      && forall i :: 0 <= i < |v.jobs| ==>
           && v.jobs[i] == Preview.WorkViewOf(d.workExperience[i])
           && w.body.jobs[i] == Pdf.WorkItemOf(d.workExperience[i])
           && v.jobs[i].jobTitle == w.body.jobs[i].jobTitle
           && v.jobs[i].dates == w.body.jobs[i].dates
           && |w.body.jobs[i].bullets| == |v.jobs[i].bullets.GetOr([])|
  {
    var v, w := Preview.BlockFor(d, WorkSection), Pdf.BlockFor(d, WorkSection);
    forall i | 0 <= i < |v.jobs|
      ensures |w.body.jobs[i].bullets| == |v.jobs[i].bullets.GetOr([])|
    {
      WorkEntryAgrees(d.workExperience[i]);
    }
  }

  /** The education sections list the same entries in the same order, with
      the same GPA line and a coursework line in both or in neither. */
  lemma EducationBlocksAgree(d: ResumeData)
    ensures var v, w := Preview.BlockFor(d, EducationSection), Pdf.BlockFor(d, EducationSection);
      && |v.schools| == |w.body.schools| == |d.education|
      && forall i :: 0 <= i < |v.schools| ==>
           && v.schools[i].degree == w.body.schools[i].degree
           && v.schools[i].gpaLine == w.body.schools[i].gpaLine
           && (v.schools[i].courseworkLine.Some? <==> w.body.schools[i].coursework.Some?)
  {
    var v, w := Preview.BlockFor(d, EducationSection), Pdf.BlockFor(d, EducationSection);
    forall i | 0 <= i < |v.schools|
      ensures v.schools[i].gpaLine == w.body.schools[i].gpaLine
      ensures v.schools[i].courseworkLine.Some? <==> w.body.schools[i].coursework.Some?
    {
      EducationEntryAgrees(d.education[i]);
    }
  }

  /** Each skill group: the document's heading is the preview's category
      followed by `:`, and its list is the preview's chips joined by `, `. */
  lemma SkillBlocksAgree(d: ResumeData)
    ensures var v, w := Preview.BlockFor(d, SkillsSection), Pdf.BlockFor(d, SkillsSection);
      && |v.groups| == |w.body.lines| == |d.skills|
      && forall i :: 0 <= i < |v.groups| ==>
           && w.body.lines[i].heading == v.groups[i].category + ":"
           && w.body.lines[i].list == Text.Join(v.groups[i].chips, ", ")
  {
  }
}
