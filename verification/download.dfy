/** The export button of `components/PDFDownloadButton.tsx`: the file name,
    the minimum-data guard, and the generating flag around one export. */
module Download {
  import opened Wrappers
  import opened Resume
  import Text
  import Pdf

  const Suffix: string := "_Resume.pdf"

  lemma SuffixHasNoSpace()
    ensures Text.HasNoSpace(Suffix) && Suffix[0] == '_'
  {
  }

  /** The text the file name is made from. */
  function RawName(pi: PersonalInfo): string {
    pi.firstName + "_" + pi.lastName + Suffix
  }

  lemma CollapsedEndsWithSuffix(pi: PersonalInfo)
    ensures Text.EndsWith(Text.CollapseSpaces(RawName(pi), '_'), Suffix)
  {
    var stem := pi.firstName + "_" + pi.lastName;
    SuffixHasNoSpace();
    Text.CollapseAppend(stem, Suffix, '_');
    Text.CollapsePlain(Suffix, '_');
    Text.EndsWithAppend(Text.CollapseSpaces(stem, '_'), Suffix);
  }

  lemma PlainNameUnchanged(pi: PersonalInfo)
    requires Text.HasNoSpace(pi.firstName) && Text.HasNoSpace(pi.lastName)
    ensures Text.HasNoSpace(RawName(pi))
  {
    SuffixHasNoSpace();
    Text.NoSpaceConcat(pi.firstName, "_");
    Text.NoSpaceConcat(pi.firstName + "_", pi.lastName);
    Text.NoSpaceConcat(pi.firstName + "_" + pi.lastName, Suffix);
  }

  /** `${firstName}_${lastName}_Resume.pdf` with every maximal run of white
      space replaced by one `_`. */
  function FileName(pi: PersonalInfo): (name: string)
    ensures Text.HasNoSpace(name)
    ensures Text.EndsWith(name, Suffix)
    ensures Text.HasNoSpace(pi.firstName) && Text.HasNoSpace(pi.lastName) ==>
      name == pi.firstName + "_" + pi.lastName + Suffix
  {
    CollapsedEndsWithSuffix(pi);
    Text.CollapseNoSpace(RawName(pi), '_');
    if Text.HasNoSpace(pi.firstName) && Text.HasNoSpace(pi.lastName) then
      PlainNameUnchanged(pi);
      Text.CollapsePlain(RawName(pi), '_');
      Text.CollapseSpaces(RawName(pi), '_')
    else
      Text.CollapseSpaces(RawName(pi), '_')
  }

  /** A first name made of two words separated by a run of white space
      becomes the two words joined by a single `_`. */
  lemma SpacedFirstName(pi: PersonalInfo, x: string, w: string, y: string)
    requires pi.firstName == x + w + y
    requires x != [] && y != [] && Text.HasNoSpace(x) && Text.HasNoSpace(y)
    requires w != [] && Text.IsBlank(w)
    requires Text.HasNoSpace(pi.lastName)
    ensures FileName(pi) == x + "_" + y + "_" + pi.lastName + Suffix
  {
    var rest := y + "_" + pi.lastName + Suffix;
    assert FileName(pi) == Text.CollapseSpaces(RawName(pi), '_');
    Regroup(x + w, y, pi.lastName);
    Regroup(x + "_", y, pi.lastName);
    TailHasNoSpace(y, pi.lastName);
    WordsAndRun(x, w, rest);
  }

  lemma Regroup(a: string, y: string, lastName: string)
    ensures a + y + "_" + lastName + Suffix == a + (y + "_" + lastName + Suffix)
  {
  }

  /** A word, a run of white space and a text without white space collapse
      to the word, one `_` and the text. */
  lemma WordsAndRun(x: string, w: string, rest: string)
    requires x != [] && Text.HasNoSpace(x)
    requires w != [] && Text.IsBlank(w)
    requires rest != [] && Text.HasNoSpace(rest)
    ensures Text.CollapseSpaces((x + w) + rest, '_') == (x + "_") + rest
  {
    Text.CollapseAppend(x + w, rest, '_');
    Text.CollapsePlain(rest, '_');
    WordThenRun(x, w);
  }

  lemma TailHasNoSpace(y: string, lastName: string)
    requires Text.HasNoSpace(y) && Text.HasNoSpace(lastName)
    ensures Text.HasNoSpace(y + "_" + lastName + Suffix)
  {
    SuffixHasNoSpace();
    Text.NoSpaceConcat(y, "_");
    Text.NoSpaceConcat(y + "_", lastName);
    Text.NoSpaceConcat(y + "_" + lastName, Suffix);
  }

  /** A word followed by a run of white space collapses to the word and one
      `_`. */
  lemma WordThenRun(x: string, w: string)
    requires x != [] && Text.HasNoSpace(x)
    requires w != [] && Text.IsBlank(w)
    ensures Text.CollapseSpaces(x + w, '_') == x + "_"
  {
    Text.CollapseAfterWord(x, w, '_');
    Text.CollapsePlain(x, '_');
    Text.CollapseRun(w, '_');
  }

  /** `hasMinimumData`: first name, last name and email are all non-empty. */
  function HasMinimumData(pi: PersonalInfo): (ok: bool)
    ensures ok <==> |pi.firstName| >= 1 && |pi.lastName| >= 1 && |pi.email| >= 1
  {
    pi.firstName != "" && pi.lastName != "" && pi.email != ""
  }

  /** What the component renders: without the minimum data a permanently
      disabled placeholder with no click handler; otherwise the download
      button, disabled while an export is running. */
  datatype Button =
    | Placeholder(caption: string)
    | DownloadButton(disabled: bool, caption: string)

  function View(pi: PersonalInfo, generating: bool): (b: Button)
    ensures b.Placeholder? <==> !HasMinimumData(pi)
    ensures b.DownloadButton? ==> (b.disabled <==> generating)
    ensures b.DownloadButton? ==> (b.caption == "Generating PDF..." <==> generating)
  {
    if !HasMinimumData(pi) then Placeholder("📄 Download PDF")
    else DownloadButton(generating, if generating then "Generating PDF..." else "📄 Download PDF")
  }

  /** A click: only an enabled download button starts `handleDownload`,
      which raises the generating flag. */
  function Click(pi: PersonalInfo, generating: bool): (started: bool)
    ensures started <==> HasMinimumData(pi) && !generating
  {
    var b := View(pi, generating);
    b.DownloadButton? && !b.disabled
  }

  /** The flag after a click. */
  function FlagAfterClick(pi: PersonalInfo, generating: bool): (g: bool)
    ensures Click(pi, generating) ==> g
    ensures !Click(pi, generating) ==> g == generating
  {
    generating || Click(pi, generating)
  }

  /** Whether the renderer produced the blob. */
  datatype RenderOutcome = Rendered | RenderFailed

  /** A saved file: its name and the document it holds. */
  datatype Saved = Saved(name: string, document: Pdf.Document)

  /** The end of `handleDownload`: on success the document rendered from the
      current data is saved under `FileName`; on failure nothing is saved. The
      `finally` clause lowers the flag either way. */
  function Settle(d: ResumeData, outcome: RenderOutcome): (r: (bool, Option<Saved>))
    ensures !r.0
    ensures r.1.Some? <==> outcome.Rendered?
    ensures r.1.Some? ==> r.1.value == Saved(FileName(d.personalInfo), Pdf.Render(d))
  {
    match outcome
    case Rendered => (false, Some(Saved(FileName(d.personalInfo), Pdf.Render(d))))
    case RenderFailed => (false, None)
  }

  /** From an idle button, one export raises the flag exactly when the data
      suffices and leaves it lowered however the export ends. */
  lemma ExportCycle(d: ResumeData, outcome: RenderOutcome)
    ensures FlagAfterClick(d.personalInfo, false) <==> HasMinimumData(d.personalInfo)
    ensures !Settle(d, outcome).0
    ensures Settle(d, outcome).1.Some? ==> Text.EndsWith(Settle(d, outcome).1.value.name, Suffix)
  {
  }
}
