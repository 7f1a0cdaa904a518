/** The education editor of `components/forms/EducationForm.tsx`: the schema,
    the submit rule, loading an entry for editing, and the lines of the
    saved-entries list. */
module EducationForm {
  import opened Wrappers
  import opened Resume
  import Store
  import opened Editing
  import Preview

  /** The form values (`EducationFormData`); GPA and coursework are optional. */
  datatype Values = Values(
    degree: string,
    school: string,
    location: string,
    graduationDate: string,
    gpa: Option<string>,
    relevantCoursework: Option<string>)

  const DefaultValues: Values := Values("", "", "", "", Some(""), Some(""))

  /** The draft, the form's stored default values, and `editingIndex`.
      `reset(values)` replaces both the draft and the stored defaults;
      `reset()` copies the stored defaults back into the draft. */
  datatype Editor = Editor(values: Values, defaults: Values, editingIndex: Option<nat>)

  /** The editor as first mounted. */
  const Blank: Editor := Editor(DefaultValues, DefaultValues, None)

  /** `educationSchema`: degree, school, location and graduation date must be
      non-empty; GPA and coursework are not checked. */
  function Valid(v: Values): (ok: bool)
    ensures ok <==> v.degree != "" && v.school != "" && v.location != "" && v.graduationDate != ""
  {
    |v.degree| >= 1 && |v.school| >= 1 && |v.location| >= 1 && |v.graduationDate| >= 1
  }

  /** The optional fields never decide validity, and the blank draft is
      refused. */
  lemma OptionalFieldsFree(v: Values, gpa: Option<string>, relevantCoursework: Option<string>)
    ensures Valid(v) <==> Valid(v.(gpa := gpa, relevantCoursework := relevantCoursework))
    ensures !Valid(DefaultValues)
  {
  }

  /** The argument-less `reset()` after a commit and leaving edit mode: the
      draft becomes the stored defaults. */
  function AfterCommit(ed: Editor): Editor {
    Editor(ed.defaults, ed.defaults, None)
  }

  /** `{ id, ...data }`. */
  function ToEntry(v: Values, id: string): Education {
    Education(id, v.degree, v.school, v.location, v.graduationDate, v.gpa, v.relevantCoursework)
  }

  /** `e` carries exactly the values, under `id`. */
  predicate Reflects(e: Education, v: Values, id: string) {
    && e.id == id && e.degree == v.degree && e.school == v.school
    && e.location == v.location && e.graduationDate == v.graduationDate
    && e.gpa == v.gpa && e.relevantCoursework == v.relevantCoursework
  }

  /** `handleSubmit(onSubmit)`: edit mode reuses the id at `editingIndex` and
      calls `updateEducation`; create mode appends under `freshId`; either way
      edit mode is left and the draft is refilled from the stored defaults:
      the blank values, or the entry last loaded for editing. */
  function Submit(s: Store.State, ed: Editor, freshId: string): (r: Commit<Editor>)
    ensures r.Invalid? <==> !Valid(ed.values)
    ensures r.IndexOutOfRange? <==>
      Valid(ed.values) && ed.editingIndex.Some?
      && ed.editingIndex.value >= |s.resumeData.education|
    ensures r.Committed? ==>
      && r.editor.values == ed.defaults && r.editor.defaults == ed.defaults
      && r.editor.editingIndex.None?
    ensures r.Committed? && ed.defaults == DefaultValues ==> r.editor == Blank
    ensures r.Committed? ==>
      r.state == s.(resumeData := s.resumeData.(education := r.state.resumeData.education))
    ensures r.Committed? && ed.editingIndex.None? ==>
      var before, after := s.resumeData.education, r.state.resumeData.education;
      && |after| == |before| + 1
      && after[..|before|] == before
      && Reflects(after[|before|], ed.values, freshId)
    ensures r.Committed? && ed.editingIndex.Some? ==>
      var before, after := s.resumeData.education, r.state.resumeData.education;
      && ed.editingIndex.value < |before|
      && var id := before[ed.editingIndex.value].id;
      && |after| == |before|
      && Reflects(after[ed.editingIndex.value], ed.values, id)
      && (forall j :: 0 <= j < |before| && before[j].id != id ==> after[j] == before[j])
      && (forall j :: 0 <= j < |before| && before[j].id == id ==> Reflects(after[j], ed.values, id))
  {
    if !Valid(ed.values) then Invalid
    else match ed.editingIndex
      case None =>
        Committed(Store.AddEducation(s, ToEntry(ed.values, freshId)), AfterCommit(ed))
      case Some(i) =>
        if i >= |s.resumeData.education| then IndexOutOfRange
        else
          var e := ToEntry(ed.values, s.resumeData.education[i].id);
          Committed(Store.UpdateEducation(s, e.id, WholeEducation(e)), AfterCommit(ed))
  }

  /** `editEducationEntry(index)`: `reset(education)` makes the entry both the
      draft and the stored defaults, and edit mode points at `index`. */
  function LoadForEdit(s: Store.State, index: nat): (ed: Editor)
    requires index < |s.resumeData.education|
    ensures ed.editingIndex == Some(index)
    ensures Reflects(s.resumeData.education[index], ed.values, s.resumeData.education[index].id)
    ensures ed.defaults == ed.values
  {
    var e := s.resumeData.education[index];
    var v := Values(e.degree, e.school, e.location, e.graduationDate, e.gpa, e.relevantCoursework);
    Editor(v, v, Some(index))
  }

  /** Opening a valid entry whose id is not shared and submitting it untouched
      leaves the store as it was; the draft still holds the entry, now in
      create mode. */
  lemma EditThenSubmitIsIdentity(s: Store.State, index: nat, freshId: string)
    requires index < |s.resumeData.education|
    requires var e := s.resumeData.education[index];
      && |e.degree| >= 1 && |e.school| >= 1 && |e.location| >= 1 && |e.graduationDate| >= 1
      && forall j :: 0 <= j < |s.resumeData.education| && s.resumeData.education[j].id == e.id
           ==> s.resumeData.education[j] == e
    ensures var ed := LoadForEdit(s, index);
      Submit(s, ed, freshId) == Committed(s, ed.(editingIndex := None))
  {
    var xs := s.resumeData.education;
    var e := xs[index];
    assert ToEntry(LoadForEdit(s, index).values, e.id) == e;
    var t := Store.UpdateEducation(s, e.id, WholeEducation(e));
    assert t.resumeData.education == xs;
  }

  /** Because the committed draft still holds the edited entry, submitting
      it once more appends a copy of that entry under a new id. */
  lemma ResubmitAfterEditAppendsCopy(s: Store.State, index: nat, freshId: string, nextId: string)
    requires index < |s.resumeData.education|
    requires var e := s.resumeData.education[index];
      && |e.degree| >= 1 && |e.school| >= 1 && |e.location| >= 1 && |e.graduationDate| >= 1
      && forall j :: 0 <= j < |s.resumeData.education| && s.resumeData.education[j].id == e.id
           ==> s.resumeData.education[j] == e
    ensures var r := Submit(s, LoadForEdit(s, index), freshId);
      && r.Committed?
      && var again := Submit(r.state, r.editor, nextId);
      && again.Committed?
      && again.state.resumeData.education
         == s.resumeData.education + [s.resumeData.education[index].(id := nextId)]
  {
    var e := s.resumeData.education[index];
    var ed := LoadForEdit(s, index);
    EditThenSubmitIsIdentity(s, index, freshId);
    assert ToEntry(ed.values, nextId) == e.(id := nextId);
  }

  /** The text lines of one saved entry in the form's list: degree,
      `school • location`, the graduation line with a `• GPA` suffix when the
      GPA is non-empty, and a coursework line when coursework is non-empty. */
  function ListLines(e: Education): (lines: seq<string>)
    ensures |lines| == (if Truthy(e.relevantCoursework) then 4 else 3)
    ensures lines[0] == e.degree && lines[1] == e.school + " • " + e.location
    ensures Truthy(e.gpa) ==> lines[2] == "Graduated: " + e.graduationDate + " • GPA: " + e.gpa.value
    ensures !Truthy(e.gpa) ==> lines[2] == "Graduated: " + e.graduationDate
    ensures Truthy(e.relevantCoursework) ==> lines[3] == "Relevant Coursework: " + e.relevantCoursework.value
  {
    var graduated := "Graduated: " + e.graduationDate
      + (if Truthy(e.gpa) then " • GPA: " + e.gpa.value else "");
    [e.degree, e.school + " • " + e.location, graduated]
      + (if Truthy(e.relevantCoursework) then ["Relevant Coursework: " + e.relevantCoursework.value] else [])
  }

  /** The form's list and the preview show one entry with the same texts:
      the same degree and place line, the graduation line carrying the
      preview's GPA line exactly when the preview has one, and a fourth line
      exactly when the preview has a coursework line, with its text. */
  lemma ListLinesMatchPreview(e: Education)
    ensures var l := ListLines(e);
      var v := Preview.EducationViewOf(e);
      && l[0] == v.degree
      && l[1] == v.placeLine
      && l[2] == "Graduated: " + v.graduationDate
           + (if v.gpaLine.Some? then " • " + v.gpaLine.value else "")
      && (|l| == 4 <==> v.courseworkLine.Some?)
      && (v.courseworkLine.Some? ==> l[3] == v.courseworkLine.value)
  {
  }
}
