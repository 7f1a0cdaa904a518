/** The sections both renderers lay out below the header, in the order the
    page shows them. */
module Layout {
  import Seqs

  datatype Section =
    | SummarySection
    | WorkSection
    | EducationSection
    | SkillsSection
    | EmptyStateSection

  /** The order of the sections on the page. */
  const Order: seq<Section> :=
    [SummarySection, WorkSection, EducationSection, SkillsSection, EmptyStateSection]

  /** A section's position in `Order`. */
  function Rank(k: Section): int {
    match k
    case SummarySection => 0
    case WorkSection => 1
    case EducationSection => 2
    case SkillsSection => 3
    case EmptyStateSection => 4
  }

  /** The sections follow the page order, each at most once. */
  predicate InOrder(ks: seq<Section>) {
    Seqs.Increasing(ks, Rank)
  }

  /** Any selection of sections that keeps the page order is in order. */
  lemma SelectionInOrder(ks: seq<Section>)
    requires Seqs.IsSubseq(ks, Order)
    ensures InOrder(ks)
  {
    Seqs.SubseqIncreasing(ks, Order, Rank);
  }

  /** Which sections a renderer shows, one flag per section: the conditions
      of its `{cond && <Section/>}` blocks. */
  datatype Visibility = Visibility(
    summary: bool,
    work: bool,
    education: bool,
    skills: bool,
    emptyState: bool)
  {
    predicate Has(k: Section) {
      match k
      case SummarySection => summary
      case WorkSection => work
      case EducationSection => education
      case SkillsSection => skills
      case EmptyStateSection => emptyState
    }
  }

  /** `[k]` when `shown`, else nothing. */
  function Optional(shown: bool, k: Section): seq<Section> {
    if shown then [k] else []
  }

  /** The sections `v` shows, in page order. */
  function Select(v: Visibility): (ks: seq<Section>)
    ensures InOrder(ks)
    ensures forall k :: k in ks <==> v.Has(k)
    ensures SummarySection in ks <==> v.summary
    ensures WorkSection in ks <==> v.work
    ensures EducationSection in ks <==> v.education
    ensures SkillsSection in ks <==> v.skills
    ensures EmptyStateSection in ks <==> v.emptyState
  {
    SelectIsFilter(v);
    Seqs.FilterSpec(Order, v.Has);
    SelectionInOrder(Seqs.Filter(Order, v.Has));
    SelectMembers(v);
    Optional(v.summary, SummarySection)
    + (Optional(v.work, WorkSection)
    + (Optional(v.education, EducationSection)
    + (Optional(v.skills, SkillsSection)
    + Optional(v.emptyState, EmptyStateSection))))
  }

  /** The selection is `Order` filtered by `v`. */
  lemma SelectIsFilter(v: Visibility)
    ensures Seqs.Filter(Order, v.Has) ==
      Optional(v.summary, SummarySection)
      + (Optional(v.work, WorkSection)
      + (Optional(v.education, EducationSection)
      + (Optional(v.skills, SkillsSection)
      + Optional(v.emptyState, EmptyStateSection))))
  {
    var o4 := [EmptyStateSection];
    var o3 := [SkillsSection] + o4;
    var o2 := [EducationSection] + o3;
    var o1 := [WorkSection] + o2;
    assert Order == [SummarySection] + o1;
    assert o4 == [EmptyStateSection] + [];
    Seqs.FilterCons(EmptyStateSection, [], v.Has);
    Seqs.FilterCons(SkillsSection, o4, v.Has);
    Seqs.FilterCons(EducationSection, o3, v.Has);
    Seqs.FilterCons(WorkSection, o2, v.Has);
    Seqs.FilterCons(SummarySection, o1, v.Has);
  }

  lemma SelectMembers(v: Visibility)
    ensures forall k :: k in Seqs.Filter(Order, v.Has) <==> v.Has(k)
  {
    var ks := Seqs.Filter(Order, v.Has);
    Seqs.FilterSpec(Order, v.Has);
    forall k
      ensures k in ks <==> v.Has(k)
    {
      if k in ks {
        var i :| 0 <= i < |ks| && ks[i] == k;
        assert v.Has(ks[i]);
      }
      assert 0 <= Rank(k) < |Order| && Order[Rank(k)] == k;
    }
  }

  predicate NotEmptyState(k: Section) {
    k != EmptyStateSection
  }

  /** Filtering one optional section. */
  lemma FilterOptional(shown: bool, k: Section)
    ensures Seqs.Filter(Optional(shown, k), NotEmptyState) == if NotEmptyState(k) then Optional(shown, k) else []
  {
    if shown {
      assert [k] == [k] + [];
      Seqs.FilterCons(k, [], NotEmptyState);
    }
  }

  /** Switching the empty-state notice off removes it and leaves the other
      sections, in the same order. */
  lemma HideEmptyState(v: Visibility)
    ensures Select(v.(emptyState := false)) == Seqs.Filter(Select(v), NotEmptyState)
  {
    var o1 := Optional(v.summary, SummarySection);
    var o2 := Optional(v.work, WorkSection);
    var o3 := Optional(v.education, EducationSection);
    var o4 := Optional(v.skills, SkillsSection);
    var o5 := Optional(v.emptyState, EmptyStateSection);
    FilterOptional(v.summary, SummarySection);
    FilterOptional(v.work, WorkSection);
    FilterOptional(v.education, EducationSection);
    FilterOptional(v.skills, SkillsSection);
    FilterOptional(v.emptyState, EmptyStateSection);
    Seqs.FilterAppend(o4, o5, NotEmptyState);
    Seqs.FilterAppend(o3, o4 + o5, NotEmptyState);
    Seqs.FilterAppend(o2, o3 + (o4 + o5), NotEmptyState);
    Seqs.FilterAppend(o1, o2 + (o3 + (o4 + o5)), NotEmptyState);
    assert o4 + [] == o4;
  }

  /** The name line, `{firstName} {lastName}`. */
  function FullName(firstName: string, lastName: string): string {
    firstName + " " + lastName
  }

  /** The line under an entry's title, `{company} • {location}` (also used for
      school and location). */
  function PlaceLine(place: string, location: string): string {
    place + " • " + location
  }

  /** `{startDate} - {endDate}`. */
  function DateRange(startDate: string, endDate: string): string {
    startDate + " - " + endDate
  }
}
