/** The zustand store of `store/resumeStore.ts`: each action is a pure map
    from the previous state to the next. */
module Store {
  import opened Resume
  import Seqs

  datatype Theme = Light | Dark

  /** `resumeData`, `currentStep` and `theme`. The step is a plain number: the
      store never clamps it. */
  datatype State = State(resumeData: ResumeData, currentStep: int, theme: Theme)

  /** The state the store is created with (before any persisted state is
      restored). */
  const Initial: State := State(InitialResumeData, 0, Light)

  /** `state.resumeData.personalInfo := { ...personalInfo, ...info }`. */
  function UpdatePersonalInfo(s: State, info: PersonalInfoPatch): (t: State)
    ensures info.Overwrote(s.resumeData.personalInfo, t.resumeData.personalInfo)
    ensures t == s.(resumeData := s.resumeData.(personalInfo := t.resumeData.personalInfo))
  {
    s.(resumeData := s.resumeData.(personalInfo := info.ApplyTo(s.resumeData.personalInfo)))
  }

  // ---- work experience ----

  function AddWorkExperience(s: State, e: WorkExperience): (t: State)
    ensures var before, after := s.resumeData.workExperience, t.resumeData.workExperience;
      && |after| == |before| + 1
      && after[..|before|] == before
      && after[|before|] == e
    ensures t == s.(resumeData := s.resumeData.(workExperience := t.resumeData.workExperience))
  {
    s.(resumeData := s.resumeData.(workExperience := s.resumeData.workExperience + [e]))
  }

  /** `workExperience.map(exp => exp.id === id ? { ...exp, ...patch } : exp)`. */
  function UpdateWorkExperience(s: State, id: string, patch: WorkExperiencePatch): (t: State)
    ensures var before, after := s.resumeData.workExperience, t.resumeData.workExperience;
      && |after| == |before|
      && (forall i :: 0 <= i < |before| && before[i].id != id ==> after[i] == before[i])
      && (forall i :: 0 <= i < |before| && before[i].id == id ==> patch.Overwrote(before[i], after[i]))
    ensures (forall e :: e in s.resumeData.workExperience ==> e.id != id) ==> t == s
    ensures t == s.(resumeData := s.resumeData.(workExperience := t.resumeData.workExperience))
  {
    var xs := s.resumeData.workExperience;
    var ys := seq(|xs|, i requires 0 <= i < |xs| =>
      if xs[i].id == id then patch.ApplyTo(xs[i]) else xs[i]);
    s.(resumeData := s.resumeData.(workExperience := ys))
  }

  /** `workExperience.filter(exp => exp.id !== id)`. */
  function RemoveWorkExperience(s: State, id: string): (t: State)
    ensures var before, after := s.resumeData.workExperience, t.resumeData.workExperience;
      && (forall i :: 0 <= i < |after| ==> after[i].id != id)
      && (forall i :: 0 <= i < |before| && before[i].id != id ==> before[i] in after)
      && Seqs.IsSubseq(after, before)
      && |after| == Seqs.Count(before, (e: WorkExperience) => e.id != id)
    ensures (forall e :: e in s.resumeData.workExperience ==> e.id != id) ==> t == s
    ensures t == s.(resumeData := s.resumeData.(workExperience := t.resumeData.workExperience))
  {
    var keep := (e: WorkExperience) => e.id != id;
    var xs := s.resumeData.workExperience;
    Seqs.FilterAll(xs, keep);
    Seqs.FilterSpec(xs, keep);
    s.(resumeData := s.resumeData.(workExperience := Seqs.Filter(xs, keep)))
  }

  /** Adding an entry under an id no stored entry carries and then removing
      that id restores the state. */
  lemma RemoveUndoesAddWorkExperience(s: State, e: WorkExperience)
    requires forall i :: 0 <= i < |s.resumeData.workExperience| ==> s.resumeData.workExperience[i].id != e.id
    ensures RemoveWorkExperience(AddWorkExperience(s, e), e.id) == s
  {
    Seqs.FilterDropsLast(s.resumeData.workExperience, e, (x: WorkExperience) => x.id != e.id);
  }

  /** Removing the same id twice is removing it once. */
  lemma RemoveWorkExperienceIdempotent(s: State, id: string)
    ensures RemoveWorkExperience(RemoveWorkExperience(s, id), id) == RemoveWorkExperience(s, id)
  {
    Seqs.FilterIdempotent(s.resumeData.workExperience, (e: WorkExperience) => e.id != id);
  }

  // ---- education ----

  function AddEducation(s: State, e: Education): (t: State)
    ensures var before, after := s.resumeData.education, t.resumeData.education;
      && |after| == |before| + 1
      && after[..|before|] == before
      && after[|before|] == e
    ensures t == s.(resumeData := s.resumeData.(education := t.resumeData.education))
  {
    s.(resumeData := s.resumeData.(education := s.resumeData.education + [e]))
  }

  function UpdateEducation(s: State, id: string, patch: EducationPatch): (t: State)
    ensures var before, after := s.resumeData.education, t.resumeData.education;
      && |after| == |before|
      && (forall i :: 0 <= i < |before| && before[i].id != id ==> after[i] == before[i])
      && (forall i :: 0 <= i < |before| && before[i].id == id ==> patch.Overwrote(before[i], after[i]))
    ensures (forall e :: e in s.resumeData.education ==> e.id != id) ==> t == s
    ensures t == s.(resumeData := s.resumeData.(education := t.resumeData.education))
  {
    var xs := s.resumeData.education;
    var ys := seq(|xs|, i requires 0 <= i < |xs| =>
      if xs[i].id == id then patch.ApplyTo(xs[i]) else xs[i]);
    s.(resumeData := s.resumeData.(education := ys))
  }

  function RemoveEducation(s: State, id: string): (t: State)
    ensures var before, after := s.resumeData.education, t.resumeData.education;
      && (forall i :: 0 <= i < |after| ==> after[i].id != id)
      && (forall i :: 0 <= i < |before| && before[i].id != id ==> before[i] in after)
      && Seqs.IsSubseq(after, before)
      && |after| == Seqs.Count(before, (e: Education) => e.id != id)
    ensures (forall e :: e in s.resumeData.education ==> e.id != id) ==> t == s
    ensures t == s.(resumeData := s.resumeData.(education := t.resumeData.education))
  {
    var keep := (e: Education) => e.id != id;
    var xs := s.resumeData.education;
    Seqs.FilterAll(xs, keep);
    Seqs.FilterSpec(xs, keep);
    s.(resumeData := s.resumeData.(education := Seqs.Filter(xs, keep)))
  }

  /** Removing the id of a just-added, previously unused entry restores the
      state. */
  lemma RemoveUndoesAddEducation(s: State, e: Education)
    requires forall i :: 0 <= i < |s.resumeData.education| ==> s.resumeData.education[i].id != e.id
    ensures RemoveEducation(AddEducation(s, e), e.id) == s
  {
    Seqs.FilterDropsLast(s.resumeData.education, e, (x: Education) => x.id != e.id);
  }

  lemma RemoveEducationIdempotent(s: State, id: string)
    ensures RemoveEducation(RemoveEducation(s, id), id) == RemoveEducation(s, id)
  {
    Seqs.FilterIdempotent(s.resumeData.education, (e: Education) => e.id != id);
  }

  // ---- skill groups ----

  function AddSkill(s: State, g: Skill): (t: State)
    ensures var before, after := s.resumeData.skills, t.resumeData.skills;
      && |after| == |before| + 1
      && after[..|before|] == before
      && after[|before|] == g
    ensures t == s.(resumeData := s.resumeData.(skills := t.resumeData.skills))
  {
    s.(resumeData := s.resumeData.(skills := s.resumeData.skills + [g]))
  }

  function UpdateSkill(s: State, id: string, patch: SkillPatch): (t: State)
    ensures var before, after := s.resumeData.skills, t.resumeData.skills;
      && |after| == |before|
      && (forall i :: 0 <= i < |before| && before[i].id != id ==> after[i] == before[i])
      && (forall i :: 0 <= i < |before| && before[i].id == id ==> patch.Overwrote(before[i], after[i]))
    ensures (forall g :: g in s.resumeData.skills ==> g.id != id) ==> t == s
    ensures t == s.(resumeData := s.resumeData.(skills := t.resumeData.skills))
  {
    var xs := s.resumeData.skills;
    var ys := seq(|xs|, i requires 0 <= i < |xs| =>
      if xs[i].id == id then patch.ApplyTo(xs[i]) else xs[i]);
    s.(resumeData := s.resumeData.(skills := ys))
  }

  function RemoveSkill(s: State, id: string): (t: State)
    ensures var before, after := s.resumeData.skills, t.resumeData.skills;
      && (forall i :: 0 <= i < |after| ==> after[i].id != id)
      && (forall i :: 0 <= i < |before| && before[i].id != id ==> before[i] in after)
      && Seqs.IsSubseq(after, before)
      && |after| == Seqs.Count(before, (g: Skill) => g.id != id)
    ensures (forall g :: g in s.resumeData.skills ==> g.id != id) ==> t == s
    ensures t == s.(resumeData := s.resumeData.(skills := t.resumeData.skills))
  {
    var keep := (g: Skill) => g.id != id;
    var xs := s.resumeData.skills;
    Seqs.FilterAll(xs, keep);
    Seqs.FilterSpec(xs, keep);
    s.(resumeData := s.resumeData.(skills := Seqs.Filter(xs, keep)))
  }

  /** Removing the id of a just-added, previously unused entry restores the
      state. */
  lemma RemoveUndoesAddSkill(s: State, g: Skill)
    requires forall i :: 0 <= i < |s.resumeData.skills| ==> s.resumeData.skills[i].id != g.id
    ensures RemoveSkill(AddSkill(s, g), g.id) == s
  {
    Seqs.FilterDropsLast(s.resumeData.skills, g, (x: Skill) => x.id != g.id);
  }

  lemma RemoveSkillIdempotent(s: State, id: string)
    ensures RemoveSkill(RemoveSkill(s, id), id) == RemoveSkill(s, id)
  {
    Seqs.FilterIdempotent(s.resumeData.skills, (g: Skill) => g.id != id);
  }

  // ---- wizard position, theme, reset ----

  /** `set({ currentStep: step })`: any number is stored as given. */
  function SetCurrentStep(s: State, step: int): (t: State)
    ensures t.currentStep == step
    ensures t.resumeData == s.resumeData && t.theme == s.theme
  {
    s.(currentStep := step)
  }

  function ToggleTheme(s: State): (t: State)
    ensures t.theme != s.theme
    ensures t.resumeData == s.resumeData && t.currentStep == s.currentStep
  {
    s.(theme := if s.theme == Light then Dark else Light)
  }

  /** Toggling twice restores the theme. */
  lemma ToggleThemeTwice(s: State)
    ensures ToggleTheme(ToggleTheme(s)) == s
  {
  }

  /** Back to an empty resume at step 0; the theme is kept. */
  function ResetResume(s: State): (t: State)
    ensures t.resumeData.personalInfo == PersonalInfo("", "", "", "", "", "", "", "")
    ensures t.resumeData.workExperience == [] && t.resumeData.education == []
      && t.resumeData.skills == []
    ensures t.currentStep == 0
    ensures t.theme == s.theme
  {
    s.(resumeData := InitialResumeData, currentStep := 0)
  }
}
