/** The personal-information step of `components/forms/PersonalInfoForm.tsx`:
    the schema as a validation predicate and the submit that merges the draft
    into the store and moves the wizard to step 1. */
module PersonalInfoForm {
  import opened Wrappers
  import opened Resume
  import Store

  /** `personalInfoSchema`. First name, last name, phone and location must be
      non-empty; the email must pass the schema's email check, which is left
      abstract as `isEmail`; LinkedIn, website and summary are unconstrained.
      The submit button is `disabled={!isValid}`, the same check. */
  function Valid(v: PersonalInfo, isEmail: string -> bool): (ok: bool)
    ensures ok <==>
      v.firstName != "" && v.lastName != "" && isEmail(v.email) && v.phone != "" && v.location != ""
  {
    && |v.firstName| >= 1 && |v.lastName| >= 1
    && isEmail(v.email)
    && |v.phone| >= 1 && |v.location| >= 1
  }

  /** The optional fields never decide validity. */
  lemma OptionalFieldsFree(v: PersonalInfo, isEmail: string -> bool, linkedin: string, website: string, summary: string)
    ensures Valid(v, isEmail) <==>
      Valid(v.(linkedin := linkedin, website := website, summary := summary), isEmail)
  {
  }

  /** The draft the form opens with: `defaultValues` is the stored record, so
      writing the opened draft back changes nothing. */
  function Open(s: Store.State): (v: PersonalInfo)
    ensures Store.UpdatePersonalInfo(s, WholePersonalInfo(v)) == s
  {
    s.resumeData.personalInfo
  }

  /** `handleSubmit(onSubmit)`: `None` when validation refuses the draft;
      otherwise `updatePersonalInfo(data)`, every key of the draft being
      present, followed by `setCurrentStep(1)`. */
  function Submit(s: Store.State, v: PersonalInfo, isEmail: string -> bool): (r: Option<Store.State>)
    ensures r.Some? <==> Valid(v, isEmail)
    ensures r.Some? ==>
      && r.value.resumeData == s.resumeData.(personalInfo := v)
      && r.value.currentStep == 1
      && r.value.theme == s.theme
  {
    if !Valid(v, isEmail) then None
    else Some(Store.SetCurrentStep(Store.UpdatePersonalInfo(s, WholePersonalInfo(v)), 1))
  }

  /** Continuing without touching a valid stored record only moves the wizard
      on; with an invalid stored record the step cannot be left this way. */
  lemma ContinueUnchanged(s: Store.State, isEmail: string -> bool)
    ensures Valid(Open(s), isEmail) ==> Submit(s, Open(s), isEmail) == Some(s.(currentStep := 1))
    ensures !Valid(Open(s), isEmail) ==> Submit(s, Open(s), isEmail).None?
  {
  }
}
