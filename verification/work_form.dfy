/** The work-experience editor of `components/forms/WorkExperienceForm.tsx`:
    its draft values, the submit rule, loading an entry for editing, the
    draft's bullet-list operations and the generated-bullets merge. */
module WorkForm {
  import opened Wrappers
  import opened Resume
  import Store
  import opened Editing
  import Seqs
  import Generation

  /** The form values (`WorkExperienceFormData`). `endDate` is optional. */
  datatype Values = Values(
    jobTitle: string,
    company: string,
    location: string,
    startDate: string,
    endDate: Option<string>,
    isCurrentRole: bool,
    description: seq<string>)

  /** `defaultValues`, which `reset()` restores. */
  const DefaultValues: Values := Values("", "", "", "", Some(""), false, [])

  /** The draft, the form's stored default values, and `editingIndex` (`None`
      is `null`: creating a new entry). `reset(values)` replaces both the draft
      and the stored defaults; `reset()` copies the stored defaults back into
      the draft. */
  datatype Editor = Editor(values: Values, defaults: Values, editingIndex: Option<nat>)

  /** The editor as first mounted. */
  const Blank: Editor := Editor(DefaultValues, DefaultValues, None)

  /** `workExperienceSchema`: job title, company, location and start date must
      be non-empty (`min(1)`); the end date, the role flag and the bullets are
      not checked. */
  function Valid(v: Values): (ok: bool)
    ensures ok <==> v.jobTitle != "" && v.company != "" && v.location != "" && v.startDate != ""
  {
    |v.jobTitle| >= 1 && |v.company| >= 1 && |v.location| >= 1 && |v.startDate| >= 1
  }

  /** The optional fields never decide validity, and the blank draft is
      refused. */
  lemma OptionalFieldsFree(v: Values, endDate: Option<string>, isCurrentRole: bool, description: seq<string>)
    ensures Valid(v) <==> Valid(v.(endDate := endDate, isCurrentRole := isCurrentRole, description := description))
    ensures !Valid(DefaultValues)
  {
  }

  /** The argument-less `reset()` after a commit and leaving edit mode: the
      draft becomes the stored defaults. */
  function AfterCommit(ed: Editor): Editor {
    Editor(ed.defaults, ed.defaults, None)
  }

  /** The entry `onSubmit` builds from the values under `id`. */
  function ToEntry(v: Values, id: string): WorkExperience {
    WorkExperience(id, v.jobTitle, v.company, v.location, v.startDate,
      if v.isCurrentRole then "Present" else v.endDate.GetOr(""),
      v.isCurrentRole, v.description)
  }

  /** `e` is the submitted form of `v` under `id`: the fields copied, and the
      end date `"Present"` for a current role, otherwise the entered date or
      `""` when none was entered. */
  predicate Reflects(e: WorkExperience, v: Values, id: string) {
    && e.id == id
    && e.jobTitle == v.jobTitle && e.company == v.company
    && e.location == v.location && e.startDate == v.startDate
    && e.isCurrentRole == v.isCurrentRole && e.description == v.description
    && (v.isCurrentRole ==> e.endDate == "Present")
    && (!v.isCurrentRole ==> e.endDate == v.endDate.GetOr(""))
  }

  /** `handleSubmit(onSubmit)`. In edit mode the entry keeps the id found at
      `editingIndex` and goes through `updateWorkExperience`; otherwise it gets
      `freshId` (the source's `Date.now()`) and is appended. Afterwards edit
      mode is left and the draft is refilled from the stored defaults: the
      blank values, or the entry last loaded for editing. */
  function Submit(s: Store.State, ed: Editor, freshId: string): (r: Commit<Editor>)
    ensures r.Invalid? <==> !Valid(ed.values)
    ensures r.IndexOutOfRange? <==>
      Valid(ed.values) && ed.editingIndex.Some?
      && ed.editingIndex.value >= |s.resumeData.workExperience|
    ensures r.Committed? ==>
      && r.editor.values == ed.defaults && r.editor.defaults == ed.defaults
      && r.editor.editingIndex.None?
    ensures r.Committed? && ed.defaults == DefaultValues ==> r.editor == Blank
    ensures r.Committed? ==>
      r.state == s.(resumeData := s.resumeData.(workExperience := r.state.resumeData.workExperience))
    ensures r.Committed? && ed.editingIndex.None? ==>
      var before, after := s.resumeData.workExperience, r.state.resumeData.workExperience;
      && |after| == |before| + 1
      && after[..|before|] == before
      && Reflects(after[|before|], ed.values, freshId)
    ensures r.Committed? && ed.editingIndex.Some? ==>
      var before, after := s.resumeData.workExperience, r.state.resumeData.workExperience;
      && ed.editingIndex.value < |before|
      && var id := before[ed.editingIndex.value].id;
      && |after| == |before|
      && Reflects(after[ed.editingIndex.value], ed.values, id)
      && (forall j :: 0 <= j < |before| && before[j].id != id ==> after[j] == before[j])
      && (forall j :: 0 <= j < |before| && before[j].id == id ==> Reflects(after[j], ed.values, id))
  {
    if !Valid(ed.values) then Invalid
    else match ed.editingIndex
      case None =>
        Committed(Store.AddWorkExperience(s, ToEntry(ed.values, freshId)), AfterCommit(ed))
      case Some(i) =>
        if i >= |s.resumeData.workExperience| then IndexOutOfRange
        else
          var e := ToEntry(ed.values, s.resumeData.workExperience[i].id);
          Committed(Store.UpdateWorkExperience(s, e.id, WholeWorkExperience(e)), AfterCommit(ed))
  }

  /** `editExperience(index)`: the entry's fields become the draft and the
      stored defaults, with `isCurrentRole` recomputed from the end date, and
      edit mode points at `index`. */
  function LoadForEdit(s: Store.State, index: nat): (ed: Editor)
    requires index < |s.resumeData.workExperience|
    ensures var e := s.resumeData.workExperience[index];
      && ed.editingIndex == Some(index)
      && (ed.values.isCurrentRole <==> e.endDate == "Present")
      && ed.values.jobTitle == e.jobTitle && ed.values.company == e.company
      && ed.values.location == e.location && ed.values.startDate == e.startDate
      && ed.values.endDate == Some(e.endDate) && ed.values.description == e.description
    ensures ed.defaults == ed.values
  {
    var e := s.resumeData.workExperience[index];
    var v := Values(e.jobTitle, e.company, e.location, e.startDate, Some(e.endDate),
      e.endDate == "Present", e.description);
    Editor(v, v, Some(index))
  }

  /** Opening an entry and submitting it untouched leaves the store as it was,
      provided the entry is valid, its role flag already agrees with its end
      date, and no other entry shares its id. The draft still holds the entry,
      now in create mode. */
  lemma EditThenSubmitIsIdentity(s: Store.State, index: nat, freshId: string)
    requires index < |s.resumeData.workExperience|
    requires var e := s.resumeData.workExperience[index];
      && |e.jobTitle| >= 1 && |e.company| >= 1 && |e.location| >= 1 && |e.startDate| >= 1
      && e.isCurrentRole == (e.endDate == "Present")
      && forall j :: 0 <= j < |s.resumeData.workExperience| && s.resumeData.workExperience[j].id == e.id
           ==> s.resumeData.workExperience[j] == e
    ensures var ed := LoadForEdit(s, index);
      Submit(s, ed, freshId) == Committed(s, ed.(editingIndex := None))
  {
    var xs := s.resumeData.workExperience;
    var e := xs[index];
    var ed := LoadForEdit(s, index);
    assert ToEntry(ed.values, e.id) == e;
    var t := Store.UpdateWorkExperience(s, e.id, WholeWorkExperience(e));
    assert t.resumeData.workExperience == xs;
  }

  /** Because the committed draft still holds the edited entry, submitting
      it once more appends a copy of that entry under a new id. */
  lemma ResubmitAfterEditAppendsCopy(s: Store.State, index: nat, freshId: string, nextId: string)
    requires index < |s.resumeData.workExperience|
    requires var e := s.resumeData.workExperience[index];
      && |e.jobTitle| >= 1 && |e.company| >= 1 && |e.location| >= 1 && |e.startDate| >= 1
      && e.isCurrentRole == (e.endDate == "Present")
      && forall j :: 0 <= j < |s.resumeData.workExperience| && s.resumeData.workExperience[j].id == e.id
           ==> s.resumeData.workExperience[j] == e
    ensures var r := Submit(s, LoadForEdit(s, index), freshId);
      && r.Committed?
      && var again := Submit(r.state, r.editor, nextId);
      && again.Committed?
      && again.state.resumeData.workExperience
         == s.resumeData.workExperience + [s.resumeData.workExperience[index].(id := nextId)]
  {
    var e := s.resumeData.workExperience[index];
    var ed := LoadForEdit(s, index);
    EditThenSubmitIsIdentity(s, index, freshId);
    assert ToEntry(ed.values, nextId) == e.(id := nextId);
  }

  /** Edit mode remembers a position, not an id. If an earlier entry is
      deleted while entry 1 of three is being edited, the submit writes the
      draft over the entry that used to be third and leaves the one being
      edited untouched. */
  lemma DeleteDuringEditRetargets(s: Store.State, ed: Editor, freshId: string)
    requires Valid(ed.values) && ed.editingIndex == Some(1)
    requires var w := s.resumeData.workExperience;
      |w| == 3 && w[0].id != w[1].id && w[0].id != w[2].id && w[1].id != w[2].id
    ensures var w := s.resumeData.workExperience;
      var r := Submit(Store.RemoveWorkExperience(s, w[0].id), ed, freshId);
      && r.Committed?
      && r.state.resumeData.workExperience[0] == w[1]
      && Reflects(r.state.resumeData.workExperience[1], ed.values, w[2].id)
  {
    var w := s.resumeData.workExperience;
    var t := Store.RemoveWorkExperience(s, w[0].id);
    var keep := (e: WorkExperience) => e.id != w[0].id;
    assert w[1..][1..] == [w[2]];
    assert Seqs.Filter(w, keep) == [w[1], w[2]];
    assert t.resumeData.workExperience == [w[1], w[2]];
  }

  /** `addBulletPoint`: one empty bullet at the end. */
  function AddBulletPoint(bullets: seq<string>): (r: seq<string>)
    ensures |r| == |bullets| + 1
    ensures r[..|bullets|] == bullets && r[|bullets|] == ""
  {
    bullets + [""]
  }

  /** `removeBulletPoint(index)`: drops position `index` only; an index outside
      the list matches nothing and changes nothing. */
  function RemoveBulletPoint(bullets: seq<string>, index: int): (r: seq<string>)
    ensures 0 <= index < |bullets| ==>
      && |r| == |bullets| - 1
      && (forall k :: 0 <= k < index ==> r[k] == bullets[k])
      && (forall k :: index <= k < |r| ==> r[k] == bullets[k + 1])
    ensures !(0 <= index < |bullets|) ==> r == bullets
  {
    if 0 <= index < |bullets| then bullets[..index] + bullets[index + 1..] else bullets
  }

  /** Removing the bullet just added restores the list. */
  lemma RemoveUndoesAdd(bullets: seq<string>)
    ensures RemoveBulletPoint(AddBulletPoint(bullets), |bullets|) == bullets
  {
  }

  /** `updateBulletPoint(index, value)` for an index of the rendered list. */
  function UpdateBulletPoint(bullets: seq<string>, index: nat, value: string): (r: seq<string>)
    requires index < |bullets|
    ensures |r| == |bullets| && r[index] == value
    ensures forall k :: 0 <= k < |bullets| && k != index ==> r[k] == bullets[k]
  {
    bullets[index := value]
  }

  /** The answer of the bullet-generation endpoint. */
  datatype BulletsReply =
    | ReplyOk(bullets: seq<string>)
    | ReplyNotOk
    | RequestFailed

  /** `generateBulletPoints`: without a job title and a company nothing is
      requested and the values stay as they are; otherwise an ok reply
      replaces the description with the generated bullets and any other
      outcome leaves the values unchanged. */
  function GenerateBulletPoints(v: Values, reply: BulletsReply): (r: (Values, bool))
    ensures r.1 <==> v.jobTitle != "" && v.company != ""
    ensures !r.1 ==> r.0 == v
    ensures r.1 && reply.ReplyOk? ==> r.0 == v.(description := reply.bullets)
    ensures !reply.ReplyOk? ==> r.0 == v
  {
    if v.jobTitle == "" || v.company == "" then (v, false)
    else match reply
      case ReplyOk(bullets) => (v.(description := bullets), true)
      case _ => (v, true)
  }

  /** The bullet endpoint answers ok even when the completion call fails,
      with the empty list it falls back to; the draft's description is then
      replaced by that empty list. */
  lemma FailedCompletionClearsDescription(v: Values)
    requires v.jobTitle != "" && v.company != ""
    ensures GenerateBulletPoints(v, ReplyOk(Generation.GenerateBullets(Generation.CallFailed))).0.description == []
  {
  }
}
