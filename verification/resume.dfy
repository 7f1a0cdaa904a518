/** The resume records of `store/resumeStore.ts` and the `Partial<T>` updates
    the store merges into them with object spread. */
module Resume {
  import opened Wrappers

  datatype PersonalInfo = PersonalInfo(
    firstName: string,
    lastName: string,
    email: string,
    phone: string,
    location: string,
    linkedin: string,
    website: string,
    summary: string)

  datatype WorkExperience = WorkExperience(
    id: string,
    jobTitle: string,
    company: string,
    location: string,
    startDate: string,
    endDate: string,
    isCurrentRole: bool,
    description: seq<string>)

  /** `gpa` and `relevantCoursework` are optional properties (`gpa?: string`). */
  datatype Education = Education(
    id: string,
    degree: string,
    school: string,
    location: string,
    graduationDate: string,
    gpa: Option<string>,
    relevantCoursework: Option<string>)

  /** A skill group; the source calls it `Skill`. */
  datatype Skill = Skill(
    id: string,
    category: string,
    skills: seq<string>)

  datatype ResumeData = ResumeData(
    personalInfo: PersonalInfo,
    workExperience: seq<WorkExperience>,
    education: seq<Education>,
    skills: seq<Skill>)

  const EmptyPersonalInfo: PersonalInfo :=
    PersonalInfo("", "", "", "", "", "", "", "")

  /** `initialResumeData`. */
  const InitialResumeData: ResumeData :=
    ResumeData(EmptyPersonalInfo, [], [], [])

  /** JavaScript truthiness of an optional string: present and not `''`. */
  predicate Truthy(o: Option<string>) {
    o.Some? && o.value != ""
  }

  /** The value a spread `{ ...old, ...patch }` leaves in one field. */
  predicate Spread<T(==)>(patch: Option<T>, before: T, after: T) {
    (patch.Some? ==> after == patch.value) && (patch.None? ==> after == before)
  }

  /** `Partial<PersonalInfo>`: `None` is a key the update does not carry. */
  datatype PersonalInfoPatch = PersonalInfoPatch(
    firstName: Option<string>,
    lastName: Option<string>,
    email: Option<string>,
    phone: Option<string>,
    location: Option<string>,
    linkedin: Option<string>,
    website: Option<string>,
    summary: Option<string>)
  {
    /** `{ ...before, ...this }`. */
    function ApplyTo(before: PersonalInfo): PersonalInfo {
      PersonalInfo(
        firstName.GetOr(before.firstName),
        lastName.GetOr(before.lastName),
        email.GetOr(before.email),
        phone.GetOr(before.phone),
        location.GetOr(before.location),
        linkedin.GetOr(before.linkedin),
        website.GetOr(before.website),
        summary.GetOr(before.summary))
    }

    /** `after` carries this patch's fields and `before`'s other fields. */
    predicate Overwrote(before: PersonalInfo, after: PersonalInfo) {
      && Spread(firstName, before.firstName, after.firstName)
      && Spread(lastName, before.lastName, after.lastName)
      && Spread(email, before.email, after.email)
      && Spread(phone, before.phone, after.phone)
      && Spread(location, before.location, after.location)
      && Spread(linkedin, before.linkedin, after.linkedin)
      && Spread(website, before.website, after.website)
      && Spread(summary, before.summary, after.summary)
    }
  }

  /** The update that carries only a new summary, `{ summary }`. */
  function SummaryPatch(summary: string): (p: PersonalInfoPatch)
    ensures forall before: PersonalInfo :: p.ApplyTo(before) == before.(summary := summary)
  {
    PersonalInfoPatch(None, None, None, None, None, None, None, Some(summary))
  }

  /** A complete record passed as an update: every key is present. */
  function WholePersonalInfo(info: PersonalInfo): (p: PersonalInfoPatch)
    ensures forall before: PersonalInfo :: p.ApplyTo(before) == info
  {
    PersonalInfoPatch(Some(info.firstName), Some(info.lastName), Some(info.email),
      Some(info.phone), Some(info.location), Some(info.linkedin),
      Some(info.website), Some(info.summary))
  }

  /** `Partial<WorkExperience>`; it may carry an `id`. */
  datatype WorkExperiencePatch = WorkExperiencePatch(
    id: Option<string>,
    jobTitle: Option<string>,
    company: Option<string>,
    location: Option<string>,
    startDate: Option<string>,
    endDate: Option<string>,
    isCurrentRole: Option<bool>,
    description: Option<seq<string>>)
  {
    function ApplyTo(before: WorkExperience): WorkExperience {
      WorkExperience(
        id.GetOr(before.id),
        jobTitle.GetOr(before.jobTitle),
        company.GetOr(before.company),
        location.GetOr(before.location),
        startDate.GetOr(before.startDate),
        endDate.GetOr(before.endDate),
        isCurrentRole.GetOr(before.isCurrentRole),
        description.GetOr(before.description))
    }

    predicate Overwrote(before: WorkExperience, after: WorkExperience) {
      && Spread(id, before.id, after.id)
      && Spread(jobTitle, before.jobTitle, after.jobTitle)
      && Spread(company, before.company, after.company)
      && Spread(location, before.location, after.location)
      && Spread(startDate, before.startDate, after.startDate)
      && Spread(endDate, before.endDate, after.endDate)
      && Spread(isCurrentRole, before.isCurrentRole, after.isCurrentRole)
      && Spread(description, before.description, after.description)
    }
  }

  function WholeWorkExperience(e: WorkExperience): (p: WorkExperiencePatch)
    ensures forall before: WorkExperience :: p.ApplyTo(before) == e
  {
    WorkExperiencePatch(Some(e.id), Some(e.jobTitle), Some(e.company),
      Some(e.location), Some(e.startDate), Some(e.endDate),
      Some(e.isCurrentRole), Some(e.description))
  }

  /** `Partial<Education>`. An optional property can be absent from the
      update (`None`) or present with the value `undefined` (`Some(None)`),
      which the spread copies. */
  datatype EducationPatch = EducationPatch(
    id: Option<string>,
    degree: Option<string>,
    school: Option<string>,
    location: Option<string>,
    graduationDate: Option<string>,
    gpa: Option<Option<string>>,
    relevantCoursework: Option<Option<string>>)
  {
    function ApplyTo(before: Education): Education {
      Education(
        id.GetOr(before.id),
        degree.GetOr(before.degree),
        school.GetOr(before.school),
        location.GetOr(before.location),
        graduationDate.GetOr(before.graduationDate),
        gpa.GetOr(before.gpa),
        relevantCoursework.GetOr(before.relevantCoursework))
    }

    predicate Overwrote(before: Education, after: Education) {
      && Spread(id, before.id, after.id)
      && Spread(degree, before.degree, after.degree)
      && Spread(school, before.school, after.school)
      && Spread(location, before.location, after.location)
      && Spread(graduationDate, before.graduationDate, after.graduationDate)
      && Spread(gpa, before.gpa, after.gpa)
      && Spread(relevantCoursework, before.relevantCoursework, after.relevantCoursework)
    }
  }

  function WholeEducation(e: Education): (p: EducationPatch)
    ensures forall before: Education :: p.ApplyTo(before) == e
  {
    EducationPatch(Some(e.id), Some(e.degree), Some(e.school), Some(e.location),
      Some(e.graduationDate), Some(e.gpa), Some(e.relevantCoursework))
  }

  /** `Partial<Skill>`. */
  datatype SkillPatch = SkillPatch(
    id: Option<string>,
    category: Option<string>,
    skills: Option<seq<string>>)
  {
    function ApplyTo(before: Skill): Skill {
      Skill(id.GetOr(before.id), category.GetOr(before.category), skills.GetOr(before.skills))
    }

    predicate Overwrote(before: Skill, after: Skill) {
      && Spread(id, before.id, after.id)
      && Spread(category, before.category, after.category)
      && Spread(skills, before.skills, after.skills)
    }
  }

  function WholeSkill(g: Skill): (p: SkillPatch)
    ensures forall before: Skill :: p.ApplyTo(before) == g
  {
    SkillPatch(Some(g.id), Some(g.category), Some(g.skills))
  }
}
