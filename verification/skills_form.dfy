/** The skill-group editor of `components/forms/SkillsForm.tsx`: the chip
    list of skills being drafted, the submit rule and loading a group for
    editing. The chip list (`currentSkills`) and the form's `skills` value are
    separate: the chip handlers set both to the same list, but the `reset()`
    after a commit restores the form's stored defaults while the chips are
    emptied. */
module SkillsForm {
  import opened Wrappers
  import opened Resume
  import Store
  import opened Editing
  import Seqs
  import Text

  /** The values the form holds: a category and a list of skills. */
  datatype Draft = Draft(category: string, skills: seq<string>)

  /** The form values, the chips shown, the text typed into the skill input,
      the form's stored defaults, and `editingIndex`. */
  datatype Editor = Editor(
    category: string,
    skills: seq<string>,
    chips: seq<string>,
    input: string,
    defaults: Draft,
    editingIndex: Option<nat>)

  /** The editor as first mounted. */
  const Blank: Editor := Editor("", [], [], "", Draft("", []), None)

  /** The form's `skills` value is the chip list. */
  predicate Synced(ed: Editor) {
    ed.skills == ed.chips
  }

  /** A chip list the editor can build: no entry is empty or carries
      surrounding whitespace, and no entry occurs twice. */
  predicate WellFormed(skills: seq<string>) {
    && (forall x :: x in skills ==> x != "" && Text.IsTrimmed(x))
    && Seqs.NoDuplicates(skills)
  }

  /** `addSkillToList`: the trimmed input is appended to the chips when it is
      non-empty and not already a chip (exact, case-sensitive comparison); the
      form's `skills` value becomes the new chip list and the input is
      cleared. Otherwise nothing changes. */
  function AddSkillToList(ed: Editor): (r: Editor)
    ensures var t := Text.Trim(ed.input);
      (t != "" && t !in ed.chips) <==> |r.chips| == |ed.chips| + 1
    ensures |r.chips| == |ed.chips| + 1 ==>
      && r.chips[..|ed.chips|] == ed.chips
      && r.chips[|ed.chips|] == Text.Trim(ed.input)
      && r.input == ""
      && Synced(r)
      && r.category == ed.category && r.defaults == ed.defaults && r.editingIndex == ed.editingIndex
    ensures |r.chips| != |ed.chips| + 1 ==> r == ed
    ensures WellFormed(ed.chips) ==> WellFormed(r.chips)
  {
    var t := Text.Trim(ed.input);
    if t != "" && t !in ed.chips then
      AppendKeepsWellFormed(ed.chips, t);
      ed.(skills := ed.chips + [t], chips := ed.chips + [t], input := "")
    else ed
  }

  /** Appending a new, non-empty, trimmed skill keeps the list well formed. */
  lemma AppendKeepsWellFormed(skills: seq<string>, t: string)
    requires t != "" && Text.IsTrimmed(t) && t !in skills
    ensures WellFormed(skills) ==> WellFormed(skills + [t])
  {
    var r := skills + [t];
    assert forall x :: x in r ==> x in skills || x == t;
    assert r[|skills|] == t;
    assert forall i :: 0 <= i < |skills| ==> r[i] == skills[i];
  }

  /** `removeSkillFromList(skill)`: every chip equal to exactly `skill` goes,
      the other chips stay in their order, and the form's `skills` value
      becomes the remaining chips. */
  function RemoveSkillFromList(ed: Editor, skill: string): (r: Editor)
    ensures skill !in r.chips
    ensures forall i :: 0 <= i < |ed.chips| && ed.chips[i] != skill ==> ed.chips[i] in r.chips
    ensures Seqs.IsSubseq(r.chips, ed.chips)
    ensures |r.chips| == Seqs.Count(ed.chips, (x: string) => x != skill)
    ensures skill !in ed.chips ==> r.chips == ed.chips
    ensures r == ed.(skills := r.chips, chips := r.chips)
    ensures WellFormed(ed.chips) ==> WellFormed(r.chips)
  {
    var keep := (x: string) => x != skill;
    var chips := Seqs.Filter(ed.chips, keep);
    Seqs.FilterSpec(ed.chips, keep);
    assert skill !in chips by {
      assert forall i :: 0 <= i < |chips| ==> keep(chips[i]);
    }
    Seqs.FilterAll(ed.chips, keep);
    Seqs.SubseqKeeps(chips, ed.chips);
    ed.(skills := chips, chips := chips)
  }

  /** `skillSchema`: a category is chosen and the form's `skills` value lists
      at least one skill. */
  function Valid(ed: Editor): (ok: bool)
    ensures ok <==> ed.category != "" && ed.skills != []
  {
    |ed.category| >= 1 && |ed.skills| >= 1
  }

  /** The submit button is disabled while there are no chips. */
  function CanSubmit(ed: Editor): (ok: bool)
    ensures ok <==> ed.chips != []
  {
    |ed.chips| != 0
  }

  /** The editor after a commit: `reset()` copies the stored defaults into the
      form, `setCurrentSkills([])` empties the chips, and edit mode is left;
      the skill input is not part of the form, so whatever was typed there
      stays. */
  function AfterCommit(ed: Editor): Editor {
    Editor(ed.defaults.category, ed.defaults.skills, [], ed.input, ed.defaults, None)
  }

  /** `handleSubmit(onSubmit)`: edit mode reuses the id at `editingIndex` and
      calls `updateSkill`; create mode appends a group under `freshId`. The
      group holds the form's category and `skills` value. */
  function Submit(s: Store.State, ed: Editor, freshId: string): (r: Commit<Editor>)
    ensures r.Invalid? <==> !Valid(ed)
    ensures r.IndexOutOfRange? <==>
      Valid(ed) && ed.editingIndex.Some? && ed.editingIndex.value >= |s.resumeData.skills|
    ensures r.Committed? ==>
      && r.editor.category == ed.defaults.category && r.editor.skills == ed.defaults.skills
      && r.editor.chips == [] && r.editor.defaults == ed.defaults
      && r.editor.editingIndex.None? && r.editor.input == ed.input
    ensures r.Committed? && ed.defaults == Blank.defaults ==> r.editor == Blank.(input := ed.input)
    ensures r.Committed? ==>
      r.state == s.(resumeData := s.resumeData.(skills := r.state.resumeData.skills))
    ensures r.Committed? && ed.editingIndex.None? ==>
      var before, after := s.resumeData.skills, r.state.resumeData.skills;
      && |after| == |before| + 1
      && after[..|before|] == before
      && after[|before|] == Skill(freshId, ed.category, ed.skills)
    ensures r.Committed? && ed.editingIndex.Some? ==>
      var before, after := s.resumeData.skills, r.state.resumeData.skills;
      && ed.editingIndex.value < |before|
      && var id := before[ed.editingIndex.value].id;
      && |after| == |before|
      && after[ed.editingIndex.value] == Skill(id, ed.category, ed.skills)
      && (forall j :: 0 <= j < |before| && before[j].id != id ==> after[j] == before[j])
      && (forall j :: 0 <= j < |before| && before[j].id == id ==> after[j] == Skill(id, ed.category, ed.skills))
  {
    if !Valid(ed) then Invalid
    else match ed.editingIndex
      case None =>
        Committed(Store.AddSkill(s, Skill(freshId, ed.category, ed.skills)), AfterCommit(ed))
      case Some(i) =>
        if i >= |s.resumeData.skills| then IndexOutOfRange
        else
          var g := Skill(s.resumeData.skills[i].id, ed.category, ed.skills);
          Committed(Store.UpdateSkill(s, g.id, WholeSkill(g)), AfterCommit(ed))
  }

  /** While the form's `skills` value is the chip list, a draft the button
      disables is one the schema refuses; and a commit always has a category
      and at least one skill. */
  lemma DisabledNeverCommits(s: Store.State, ed: Editor, freshId: string)
    ensures Synced(ed) && !CanSubmit(ed) ==> Submit(s, ed, freshId).Invalid?
    ensures Submit(s, ed, freshId).Committed? ==> ed.category != "" && ed.skills != []
  {
  }

  /** `editSkillCategory(index)`: `reset(skill)` makes the group's category
      and skills the form values and the stored defaults, the chips become the
      group's skills, and edit mode points at `index`; the skill input is
      untouched. */
  function LoadForEdit(s: Store.State, ed: Editor, index: nat): (r: Editor)
    requires index < |s.resumeData.skills|
    ensures r.category == s.resumeData.skills[index].category
    ensures r.skills == s.resumeData.skills[index].skills && Synced(r)
    ensures r.defaults == Draft(r.category, r.skills)
    ensures r.input == ed.input && r.editingIndex == Some(index)
  {
    var g := s.resumeData.skills[index];
    Editor(g.category, g.skills, g.skills, ed.input, Draft(g.category, g.skills), Some(index))
  }

  /** Opening a valid group whose id is not shared and submitting it untouched
      leaves the store as it was. Afterwards the form holds the group again
      while the chips are empty: the button is disabled although the form
      values would pass the schema. */
  lemma EditThenSubmitIsIdentity(s: Store.State, ed: Editor, index: nat, freshId: string)
    requires index < |s.resumeData.skills|
    requires var g := s.resumeData.skills[index];
      && |g.category| >= 1 && |g.skills| >= 1
      && forall j :: 0 <= j < |s.resumeData.skills| && s.resumeData.skills[j].id == g.id
           ==> s.resumeData.skills[j] == g
    ensures var r := Submit(s, LoadForEdit(s, ed, index), freshId);
      && r.Committed?
      && r.state == s
      && r.editor.category == s.resumeData.skills[index].category
      && r.editor.skills == s.resumeData.skills[index].skills
      && r.editor.chips == []
      && !CanSubmit(r.editor) && Valid(r.editor) && !Synced(r.editor)
  {
    var xs := s.resumeData.skills;
    var g := xs[index];
    var t := Store.UpdateSkill(s, g.id, WholeSkill(g));
    assert t.resumeData.skills == xs;
  }
}
