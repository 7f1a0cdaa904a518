/** The pure part of `lib/openai.ts`: reading the completion, turning it into
    bullet lines, the facts the summary prompt lists, and the fallbacks when
    the completion call fails. The call itself is an input. */
module Generation {
  import opened Wrappers
  import opened Resume
  import Seqs
  import Text

  /** What the completion call produced: the first choice's message content
      (`None` for `null`), or a thrown error. */
  datatype Completion = Completed(content: Option<string>) | CallFailed

  /** `generateResumeContent`: the content, `''` when it is `null`; a failed
      call is rethrown, which is `None` here. */
  function ResumeContent(c: Completion): (r: Option<string>)
    ensures r.None? <==> c.CallFailed?
    ensures c.Completed? && c.content.Some? ==> r == c.content
    ensures c.Completed? && c.content.None? ==> r == Some("")
  {
    match c
    case CallFailed => None
    case Completed(content) => Some(content.GetOr(""))
  }

  predicate NotBlank(line: string) {
    Text.Trim(line) != ""
  }

  predicate NonEmpty(line: string) {
    line != ""
  }

  /** `content.split('\n').filter(line => line.trim() !== '').map(line => line.trim())`. */
  function BulletLines(content: string): (bullets: seq<string>)
    ensures forall i :: 0 <= i < |bullets| ==> bullets[i] != "" && Text.IsTrimmed(bullets[i])
    ensures |bullets| <= |Text.Split(content, '\n')|
    ensures Seqs.IsSubseq(bullets, Seqs.Map(Text.Split(content, '\n'), Text.Trim))
    ensures |bullets| == Seqs.Count(Text.Split(content, '\n'), NotBlank)
    ensures forall line :: line in Text.Split(content, '\n') && NotBlank(line) ==> Text.Trim(line) in bullets
  {
    var lines := Text.Split(content, '\n');
    TrimThenDrop(lines);
    Seqs.FilterSpec(lines, NotBlank);
    Seqs.FilterSpec(Seqs.Map(lines, Text.Trim), NonEmpty);
    var kept := Seqs.Filter(lines, NotBlank);
    var bullets := Seqs.Map(kept, Text.Trim);
    assert forall line :: line in lines && NotBlank(line) ==> Text.Trim(line) in bullets by {
      forall line | line in lines && NotBlank(line)
        ensures Text.Trim(line) in bullets
      {
        var i :| 0 <= i < |kept| && kept[i] == line;
        assert bullets[i] == Text.Trim(line);
      }
    }
    bullets
  }

  /** Dropping the blank lines and then trimming is trimming every line and
      then dropping the empty ones. */
  lemma TrimThenDrop(lines: seq<string>)
    ensures Seqs.Map(Seqs.Filter(lines, NotBlank), Text.Trim)
      == Seqs.Filter(Seqs.Map(lines, Text.Trim), NonEmpty)
  {
    Seqs.MapFilter(lines, Text.Trim, NotBlank, NonEmpty);
  }

  /** A line of nothing but white space never becomes a bullet, and a text
      without line breaks gives at most one bullet: itself, trimmed. */
  lemma OneLine(content: string)
    requires '\n' !in content
    ensures BulletLines(content) == if NotBlank(content) then [Text.Trim(content)] else []
  {
    Text.SplitWithout(content, '\n');
    Seqs.FilterCons(content, [], NotBlank);
    assert [content] + [] == [content];
  }

  /** `generateJobDescriptionBullets`: the bullet lines of the completion, or
      `[]` when the call failed. */
  function GenerateBullets(c: Completion): (bullets: seq<string>)
    ensures c.CallFailed? ==> bullets == []
    ensures c.Completed? ==> bullets == BulletLines(c.content.GetOr(""))
  {
    match ResumeContent(c)
    case None => []
    case Some(content) => BulletLines(content)
  }

  /** A `null` content yields no bullets. */
  lemma NullContentNoBullets()
    ensures GenerateBullets(Completed(None)) == []
  {
    OneLine("");
    assert !NotBlank("");
  }

  /** `${jobTitle} at ${company}`. */
  function Role(e: WorkExperience): string {
    e.jobTitle + " at " + e.company
  }

  /** `${degree} from ${school}`. */
  function Degree(e: Education): string {
    e.degree + " from " + e.school
  }

  /** `experience.slice(0, 2).map(...).join(', ')`: the first two
      experiences at most. */
  function RecentExperience(experience: seq<WorkExperience>): (line: string)
    ensures |experience| == 0 ==> line == ""
    ensures |experience| == 1 ==> line == Role(experience[0])
    ensures |experience| >= 2 ==> line == Role(experience[0]) + ", " + Role(experience[1])
  {
    var recent := if |experience| <= 2 then experience else experience[..2];
    var roles := Seqs.Map(recent, Role);
    assert |experience| >= 2 ==> |roles| == 2 && roles[0] == Role(experience[0]) && roles[1] == Role(experience[1]);
    assert |roles| == 2 ==> Text.Join(roles[1..], ", ") == roles[1];
    Text.Join(roles, ", ")
  }

  /** Only the first two experiences reach the prompt: anything after them
      changes nothing. */
  lemma OnlyFirstTwoMatter(experience: seq<WorkExperience>, later: seq<WorkExperience>)
    requires |experience| >= 2
    ensures RecentExperience(experience + later) == RecentExperience(experience)
  {
    assert (experience + later)[0] == experience[0] && (experience + later)[1] == experience[1];
  }

  /** `education.map(...).join(', ')`: every entry, in stored order. */
  function EducationLine(education: seq<Education>): (line: string)
    ensures |education| == 0 ==> line == ""
    ensures |education| == 1 ==> line == Degree(education[0])
  {
    var degrees := Seqs.Map(education, Degree);
    assert |education| == 1 ==> degrees == [Degree(education[0])];
    Text.Join(degrees, ", ")
  }

  /** Every entry reaches the prompt: one more entry adds `, degree from
      school` at the end. */
  lemma EducationLineAppend(education: seq<Education>, e: Education)
    requires |education| >= 1
    ensures EducationLine(education + [e]) == EducationLine(education) + ", " + Degree(e)
  {
    var degrees := Seqs.Map(education, Degree);
    assert Seqs.Map(education + [e], Degree) == degrees + [Degree(e)];
    Text.JoinSnoc(degrees, Degree(e), ", ");
  }

  /** `generateProfessionalSummary`: the completion's content, or `''` when the
      call failed. */
  function GenerateSummary(c: Completion): (summary: string)
    ensures c.CallFailed? ==> summary == ""
    ensures c.Completed? ==> summary == c.content.GetOr("")
  {
    match ResumeContent(c)
    case None => ""
    case Some(content) => content
  }
}
