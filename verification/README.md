# Resume builder — a Dafny model of its core

The resume builder is a four-step wizard. It collects personal information,
work experience, education and skill groups into one persisted store. It shows
the result as an on-screen preview, exports it as a PDF document, and can ask a
language model for job bullets and a professional summary.

This project models that core as pure functions over immutable data:

- **Store** (`store/resumeStore.ts`): every store action is a function from
  state to state. A `Partial<T>` update is a record of optional fields, and the
  spread `{ ...old, ...patch }` is `ApplyTo`.
- **The four editors** (`components/forms/*.tsx`):
  - each schema is a validity predicate;
  - each list editor's submit handler is a function to a `Commit` outcome:
    refused by validation, failed on a stale edit index, or committed with the
    new state and the reset editor;
  - the personal-information submit handler returns an `Option` of the new
    state: `None` when validation refuses the draft;
  - also modelled: loading an entry for editing, the bullet-list edits, the
    skill chip list, and the generated-bullets merge.
- **Preview** (`components/ResumePreview.tsx`) and **Pdf**
  (`components/ResumePDF.tsx`): each turns `ResumeData` into a header and a
  sequence of section blocks. **Layout** holds the section order they share.
  **Parity** states what the two renderings have in common.
- **Download** (`components/PDFDownloadButton.tsx`): the file name with
  white-space runs collapsed to `_`, the minimum-data guard, and the
  generating flag around one export.
- **Generation** (the pure part of `lib/openai.ts`): reading the completion,
  turning it into bullet lines, the facts placed in the summary prompt, and the
  fallback values when the call fails.
- **Text** and **Seqs**: the JavaScript string and array built-ins these use.
  `trim`, `split`, `join`, `/\s+/g` replacement and `filter` are defined over
  the ECMAScript white-space set.

Inputs the code reads from outside become parameters:

- `Date.now()` ids are a `freshId` argument;
- the completion call's outcome is a `Completion` value;
- the HTTP replies are `BulletsReply` and `SummaryReply` values;
- zod's email check is an `isEmail` predicate;
- whether the PDF renderer produced a blob is a `RenderOutcome` value.

Rules one might expect but the code does not enforce, modelled as the code
behaves:

- `setCurrentStep` stores any number. It does not clamp it.
- The store does not keep `isCurrentRole` in step with `endDate == "Present"`.
  Only the work form's submit normalises the end date, and a patch can break
  the link.
- Nothing in the store keeps ids unique. The "remove undoes add" lemmas
  therefore assume the new id is unused, and the edit round trips assume the
  edited id is not shared.
- Skill lists are free of duplicates and blanks only when they are built
  through the chip editor (`SkillsForm.WellFormed`). The store accepts any
  list.
- The preview and the document do not show the same sections in every state:
  - the preview also shows the summary section to offer generation;
  - the preview shows an empty-state notice, and the document has none.

  `Parity.SectionsAgree` shows they agree outside the generation offer, and
  `Parity.SummaryOfferDiffers` shows the summary section is the difference
  inside it.
- The list editors load an entry with `reset(entry)`, which also makes the
  entry the form's stored defaults. The argument-less `reset()` after a commit
  therefore refills the draft with the entry last loaded for editing, not the
  blank values. In the skills editor the chips are emptied at the same time,
  so the form's `skills` value and the chip list part ways until the next chip
  edit.

## Model

| member | source | states |
|---|---|---|
| Store.UpdatePersonalInfo | store/resumeStore.ts:93-99 | the fields the update carries are overwritten, every other personal field keeps its value, and nothing outside `personalInfo` changes |
| Store.AddWorkExperience | store/resumeStore.ts:101-107 | the list grows by one, the old entries keep their positions and the new entry is last; the rest of the state is unchanged |
| Store.UpdateWorkExperience | store/resumeStore.ts:109-117 | positions and length are kept; entries with another id are untouched; each entry with the id takes the patch's fields and keeps its others; an unknown id changes nothing |
| Store.RemoveWorkExperience | store/resumeStore.ts:119-125 | no entry with the id survives; every entry with another id survives; survivors keep their relative order; the count is the number of entries with another id; an unknown id changes nothing |
| Store.RemoveUndoesAddWorkExperience | store/resumeStore.ts:101-125 | adding an entry under an unused id and then removing that id restores the state exactly |
| Store.RemoveWorkExperienceIdempotent | store/resumeStore.ts:119-125 | removing an id twice is the same as removing it once |
| Store.AddEducation | store/resumeStore.ts:127-133 | append at the end, everything else unchanged |
| Store.UpdateEducation | store/resumeStore.ts:135-143 | merge by id, preserving length and the other entries; an unknown id changes nothing |
| Store.RemoveEducation | store/resumeStore.ts:145-151 | removal by id with order, survivors and count stated; an unknown id changes nothing |
| Store.RemoveUndoesAddEducation | store/resumeStore.ts:127-151 | removing the id of a just-added, previously unused entry restores the state |
| Store.RemoveEducationIdempotent | store/resumeStore.ts:145-151 | removing an id twice is the same as removing it once |
| Store.AddSkill | store/resumeStore.ts:153-159 | append at the end, everything else unchanged |
| Store.UpdateSkill | store/resumeStore.ts:161-169 | merge by id, preserving length and the other groups; an unknown id changes nothing |
| Store.RemoveSkill | store/resumeStore.ts:171-177 | removal by id with order, survivors and count stated; an unknown id changes nothing |
| Store.RemoveUndoesAddSkill | store/resumeStore.ts:153-177 | removing the id of a just-added, previously unused group restores the state |
| Store.RemoveSkillIdempotent | store/resumeStore.ts:171-177 | removing an id twice is the same as removing it once |
| Store.SetCurrentStep | store/resumeStore.ts:179 | the step becomes exactly the given number, unclamped; data and theme are kept |
| Store.ToggleTheme | store/resumeStore.ts:181-184 | the theme flips and nothing else changes |
| Store.ToggleThemeTwice | store/resumeStore.ts:181-184 | toggling twice restores the state |
| Store.ResetResume | store/resumeStore.ts:186-190 | the personal fields are empty, the three lists are empty and the step is 0; the theme survives |
| Resume.WholePersonalInfo | components/forms/PersonalInfoForm.tsx:33-34 | passing a complete record as the update replaces the stored record by it, whatever was stored |
| Resume.WholeWorkExperience | components/forms/WorkExperienceForm.tsx:106-107 | an update carrying every key of an entry turns any entry into that entry |
| Resume.WholeEducation | components/forms/EducationForm.tsx:46-47 | an update carrying every key of an entry turns any entry into that entry |
| Resume.WholeSkill | components/forms/SkillsForm.tsx:74-75 | an update carrying every key of a group turns any group into that group |
| Resume.SummaryPatch | components/ResumePreview.tsx:27-29 | the `{ summary }` update changes the summary and no other personal field |
| WorkForm.Valid | components/forms/WorkExperienceForm.tsx:7-15 | a draft passes exactly when job title, company, location and start date are all non-empty |
| WorkForm.OptionalFieldsFree | components/forms/WorkExperienceForm.tsx:12-14 | the end date, the role flag and the bullets never decide validity, and the blank defaults are refused |
| WorkForm.Submit | components/forms/WorkExperienceForm.tsx:99-115 | refused exactly when a required field is empty; fails exactly when the edit index is past the list; otherwise commits, leaves edit mode and refills the draft from the stored defaults (blank until an entry is loaded for editing). Create mode appends the entry under the fresh id. Edit mode keeps the length and the other ids' entries, and writes the draft under the indexed entry's id. The end date is "Present" for a current role, otherwise the entered date or "" |
| WorkForm.LoadForEdit | components/forms/WorkExperienceForm.tsx:117-124 | the draft and the stored defaults hold the entry's fields; `isCurrentRole` holds exactly when the end date is "Present"; edit mode points at the index |
| WorkForm.EditThenSubmitIsIdentity | components/forms/WorkExperienceForm.tsx:99-124 | opening a valid, consistent entry with an unshared id and submitting it untouched leaves the store unchanged; the draft keeps the loaded entry, in create mode |
| WorkForm.ResubmitAfterEditAppendsCopy | components/forms/WorkExperienceForm.tsx:99-124 | since the draft keeps the entry after an edit, submitting it again appends a copy of the entry under a new id |
| WorkForm.DeleteDuringEditRetargets | components/forms/WorkExperienceForm.tsx:101 | edit mode remembers a position, so a delete before the edited entry makes the submit overwrite the next entry instead |
| WorkForm.AddBulletPoint | components/forms/WorkExperienceForm.tsx:82-85 | one empty bullet is appended and the earlier bullets are kept |
| WorkForm.RemoveBulletPoint | components/forms/WorkExperienceForm.tsx:87-90 | exactly the bullet at the index goes and the rest shift down in order; an index outside the list changes nothing |
| WorkForm.RemoveUndoesAdd | components/forms/WorkExperienceForm.tsx:82-90 | removing the bullet just added restores the list |
| WorkForm.UpdateBulletPoint | components/forms/WorkExperienceForm.tsx:92-97 | only the bullet at the index changes, and it becomes the value |
| WorkForm.GenerateBulletPoints | components/forms/WorkExperienceForm.tsx:48-80 | a request is made exactly when job title and company are both non-empty; an ok reply replaces the description; any other outcome leaves the values unchanged |
| WorkForm.FailedCompletionClearsDescription | pages/api/generate-bullets.ts:19-21 | because the bullet endpoint answers ok with the empty fallback when the completion fails, the draft's description is then emptied |
| EducationForm.Valid | components/forms/EducationForm.tsx:7-14 | a draft passes exactly when degree, school, location and graduation date are all non-empty |
| EducationForm.OptionalFieldsFree | components/forms/EducationForm.tsx:12-13 | GPA and coursework never decide validity, and the blank defaults are refused |
| EducationForm.Submit | components/forms/EducationForm.tsx:40-54 | refused exactly when a required field is empty; fails exactly on a stale index; otherwise commits, leaves edit mode and refills the draft from the stored defaults. Create mode appends. Edit mode writes the draft under the indexed entry's id and leaves the other ids' entries alone |
| EducationForm.LoadForEdit | components/forms/EducationForm.tsx:56-60 | the draft and the stored defaults carry exactly the entry's fields, and edit mode points at the index |
| EducationForm.EditThenSubmitIsIdentity | components/forms/EducationForm.tsx:40-60 | opening a valid entry with an unshared id and submitting it untouched leaves the store unchanged; the draft keeps the loaded entry, in create mode |
| EducationForm.ResubmitAfterEditAppendsCopy | components/forms/EducationForm.tsx:40-60 | since the draft keeps the entry after an edit, submitting it again appends a copy of the entry under a new id |
| EducationForm.ListLines | components/forms/EducationForm.tsx:88-102 | the saved-entry lines: degree; school and location; a graduation line with a GPA suffix exactly when the GPA is non-empty; a coursework line exactly when coursework is non-empty |
| EducationForm.ListLinesMatchPreview | components/forms/EducationForm.tsx:88-102 | the form's list and the preview show an entry with the same degree and place line; the graduation line carries the preview's GPA line exactly when the preview has one; a fourth line exists exactly when the preview has a coursework line, with the same text |
| SkillsForm.AddSkillToList | components/forms/SkillsForm.tsx:46-53 | the trimmed input becomes a new last chip exactly when it is non-empty and not yet a chip; the form's skills then equal the chips and the input is cleared; otherwise nothing changes; a well-formed chip list stays well formed |
| SkillsForm.AppendKeepsWellFormed | components/forms/SkillsForm.tsx:47-48 | appending a new, non-empty, trimmed skill keeps the list free of blanks and duplicates |
| SkillsForm.RemoveSkillFromList | components/forms/SkillsForm.tsx:55-59 | no chip equal to the skill remains; every other chip stays, in order, with its count of copies; the form's skills become the remaining chips; well-formedness is kept |
| SkillsForm.Valid | components/forms/SkillsForm.tsx:7-10 | a draft passes exactly when a category is chosen and the form lists at least one skill |
| SkillsForm.CanSubmit | components/forms/SkillsForm.tsx:238 | the submit button is enabled exactly when the chip list is non-empty |
| SkillsForm.Submit | components/forms/SkillsForm.tsx:68-83 | refused exactly when the category or the form's skills are empty; fails on a stale index; otherwise commits the group of form values (appended, or written under the indexed group's id), refills the form from the stored defaults, empties the chips and keeps the skill input |
| SkillsForm.DisabledNeverCommits | components/forms/SkillsForm.tsx:238 | while the form's skills are the chip list, a draft the button disables is one the schema refuses; a commit always has a category and a skill |
| SkillsForm.LoadForEdit | components/forms/SkillsForm.tsx:85-90 | the group's category and skills become the form values, the stored defaults and the chips; edit mode points at the index; the skill input is untouched |
| SkillsForm.EditThenSubmitIsIdentity | components/forms/SkillsForm.tsx:68-90 | opening a valid group with an unshared id and submitting it untouched leaves the store unchanged; afterwards the form holds the group again but the chips are empty, so the button is disabled although the values would pass |
| PersonalInfoForm.Valid | components/forms/PersonalInfoForm.tsx:7-16 | a draft passes exactly when first name, last name, phone and location are non-empty and the email passes the email check |
| PersonalInfoForm.Open | components/forms/PersonalInfoForm.tsx:29 | the form opens on the stored record, so writing the opened draft back changes nothing |
| PersonalInfoForm.Submit | components/forms/PersonalInfoForm.tsx:7-36 | commits exactly when the schema accepts the draft; then the stored record is the draft, the step is 1 and the theme is kept |
| PersonalInfoForm.OptionalFieldsFree | components/forms/PersonalInfoForm.tsx:13-15 | LinkedIn, website and summary never affect validity |
| PersonalInfoForm.ContinueUnchanged | components/forms/PersonalInfoForm.tsx:29-36 | continuing with the stored record only moves to step 1 when that record is valid, and is refused otherwise |
| Layout.Select | components/ResumePreview.tsx:74-201 | the chosen sections follow the page order, each at most once, and a section is chosen exactly when its flag is set |
| Layout.HideEmptyState | components/ResumePDF.tsx:140-210 | switching off the empty-state notice only drops that section and keeps the others in order |
| Preview.ContactItems | components/ResumePreview.tsx:53-69 | at most five contact items, none empty; the email leads exactly when it is given; the row is empty exactly when all five fields are |
| Preview.WorkViewOf | components/ResumePreview.tsx:104-127 | title, place line and date range of the entry; a bullet list exactly when the description is non-empty, holding the bullets in stored order |
| Preview.EducationViewOf | components/ResumePreview.tsx:141-165 | a GPA line exactly when the GPA is non-empty; a coursework line exactly when coursework is non-empty; the texts these lines carry |
| Preview.BlockFor | components/ResumePreview.tsx:74-198 | each section's block: the summary paragraph exactly when there is a summary, otherwise the generate button; one view per entry, in stored order |
| Preview.Render | components/ResumePreview.tsx:48-201 | the header is the name line and contact items; the blocks are exactly the visible sections in page order; each block renders its section's data |
| Preview.SectionConditions | components/ResumePreview.tsx:74-201 | each section is on the page exactly under the component's condition, including the empty-state notice for a resume with no name and no entries |
| Preview.GenerateSummary | components/ResumePreview.tsx:14-37 | an ok reply stores its summary and changes nothing else; a failed or non-ok reply writes nothing |
| Preview.FailedSummaryKeepsOffer | pages/api/generate-summary.ts:19-21 | the endpoint answers ok with the empty fallback when the completion call fails; writing it leaves a state with an empty summary unchanged, and the generate button is still offered |
| Preview.GeneratedSummaryShown | components/ResumePreview.tsx:27-29 | after a non-empty summary is generated, the page shows it and no generate button |
| Pdf.ContactItems | components/ResumePDF.tsx:115-121 | the non-empty candidates in candidate order; the email leads exactly when it is non-empty |
| Pdf.WithSeparators | components/ResumePDF.tsx:132-135 | every item but the last carries the " •" separator; nothing leads and nothing trails |
| Pdf.ContactLine | components/ResumePDF.tsx:131-136 | read as one line, the separated items are the items joined by " • " |
| Pdf.WorkItemOf | components/ResumePDF.tsx:152-169 | one "•" row per description line, in stored order, with the entry's title, place and dates |
| Pdf.EducationItemOf | components/ResumePDF.tsx:178-194 | a GPA line exactly when the GPA is non-empty, and a "•" coursework row exactly when coursework is non-empty |
| Pdf.BlockFor | components/ResumePDF.tsx:141-210 | each section's block under its title, with its entries in stored order; skills as "category:" and the comma-joined list |
| Pdf.Render | components/ResumePDF.tsx:111-214 | the header is the name and the separated contact row; the blocks are exactly the sections with data, in page order |
| Pdf.SectionConditions | components/ResumePDF.tsx:141-210 | each section is present exactly when its data is non-empty, and there is never an empty-state block |
| Parity.ContactItemsAgree | components/ResumePDF.tsx:115-121 | the document's contact items are the preview's, in the same order |
| Parity.ContactRowAgrees | components/ResumePDF.tsx:127-137 | read as one line, the document's contact row is the preview's contact items joined by " • "; the names are equal |
| Parity.SectionsAgree | components/ResumePDF.tsx:140-210 | unless the preview offers summary generation for an empty summary, the document's sections are the preview's without the empty-state notice, in the same order |
| Parity.SummaryOfferDiffers | components/ResumePreview.tsx:74-83 | when generation is offered for an empty summary, the preview has a summary section and the document has none |
| Parity.WorkEntryAgrees | components/ResumePDF.tsx:152-169 | a work entry shows the same title, place and dates in both renderings, and the same bullets in the same order |
| Parity.EducationEntryAgrees | components/ResumePDF.tsx:178-194 | an education entry shows the same lines in both renderings; coursework appears in both or in neither |
| Parity.WorkBlocksAgree | components/ResumePDF.tsx:149-172 | both work sections list the same entries in stored order, with the same titles, dates and number of bullets |
| Parity.EducationBlocksAgree | components/ResumePDF.tsx:175-197 | both education sections list the same entries in stored order, with the same degree and GPA line, and coursework in both or neither |
| Parity.SkillBlocksAgree | components/ResumePDF.tsx:200-210 | for each group, the document's heading is the preview's category with a colon, and its list is the preview's chips joined by ", " |
| Download.FileName | components/PDFDownloadButton.tsx:11 | the name has no white space and ends in "_Resume.pdf"; names without white space are used as typed |
| Download.HasMinimumData | components/PDFDownloadButton.tsx:34 | the minimum data is present exactly when first name, last name and email are all non-empty |
| Download.SpacedFirstName | components/PDFDownloadButton.tsx:11 | a run of white space inside the first name becomes one "_" |
| Download.WordThenRun | components/PDFDownloadButton.tsx:11 | a word followed by a white-space run collapses to the word and one "_" |
| Download.View | components/PDFDownloadButton.tsx:34-56 | a disabled placeholder exactly when first name, last name or email is empty; otherwise the button is disabled, with the generating caption, exactly while an export runs |
| Download.Click | components/PDFDownloadButton.tsx:36-55 | a click starts an export exactly when the data suffices and no export is running |
| Download.FlagAfterClick | components/PDFDownloadButton.tsx:13-14 | a started export raises the flag; otherwise the flag is kept |
| Download.Settle | components/PDFDownloadButton.tsx:15-30 | the flag is lowered however the export ends; a file is saved exactly when rendering succeeded, holding the rendered document under the file name |
| Download.ExportCycle | components/PDFDownloadButton.tsx:13-34 | from an idle button, one export raises the flag exactly when the data suffices and leaves it lowered; a saved file ends in "_Resume.pdf" |
| Generation.ResumeContent | lib/openai.ts:25-29 | a failed call is an error, a null content is "", and any other content is returned as is |
| Generation.BulletLines | lib/openai.ts:46 | every bullet is non-empty and trimmed; the bullets are trimmed lines in line order; there is one bullet per non-blank line, and every non-blank line gives its trimmed text as a bullet |
| Generation.TrimThenDrop | lib/openai.ts:46 | dropping blank lines and then trimming equals trimming every line and then dropping the empty ones |
| Generation.OneLine | lib/openai.ts:46 | a text without line breaks gives its trimmed self, or no bullet when it is blank |
| Generation.GenerateBullets | lib/openai.ts:44-50 | a failed call gives no bullets; otherwise the bullet lines of the content |
| Generation.NullContentNoBullets | lib/openai.ts:25 | a null completion content yields no bullets |
| Generation.RecentExperience | lib/openai.ts:57 | the prompt names at most the first two roles, as "title at company", joined by ", " |
| Generation.OnlyFirstTwoMatter | lib/openai.ts:57 | experiences after the first two never reach the prompt |
| Generation.EducationLine | lib/openai.ts:58 | no education gives an empty line and one entry gives "degree from school" |
| Generation.EducationLineAppend | lib/openai.ts:58 | every entry reaches the prompt: one more entry adds ", degree from school" at the end |
| Generation.GenerateSummary | lib/openai.ts:62-67 | a failed call gives ""; otherwise the content, or "" for a null content |
| Text.Trim | lib/openai.ts:46 | the result has no surrounding white space and is no longer than the input |
| Text.TrimIsInfix | components/forms/SkillsForm.tsx:47 | the trimmed text is a slice of the input with only white space cut on either side |
| Text.TrimEmptyIffBlank | lib/openai.ts:46 | trimming gives "" exactly when the text is all white space |
| Text.TrimOfTrimmed | components/forms/SkillsForm.tsx:47 | trimming is idempotent on trimmed text |
| Text.Split | lib/openai.ts:46 | joining the pieces with the separator gives back the text, and no piece contains the separator |
| Text.SplitJoin | lib/openai.ts:46 | splitting a join of separator-free pieces gives the pieces back |
| Text.Join | lib/openai.ts:57-58 | reference definition of `Array.prototype.join`; its properties are stated by Text.SplitJoin and Text.JoinSnoc |
| Text.CollapseNoSpace | components/PDFDownloadButton.tsx:11 | replacing white-space runs by a non-space character leaves no white space |
| Text.CollapseSpaces | components/PDFDownloadButton.tsx:11 | reference definition of `replace(/\s+/g, c)`; its properties are stated by the Text.Collapse* lemmas |
| Text.CollapsePlain | components/PDFDownloadButton.tsx:11 | a text without white space is unchanged |
| Text.CollapseAppend | components/PDFDownloadButton.tsx:11 | collapsing distributes over a split point that is not followed by white space |
| Text.CollapseRun | components/PDFDownloadButton.tsx:11 | a non-empty run of white space collapses to the single join character |

## Left out

- Persistence: `persist` writes the store to browser storage under
  `resume-builder-storage` and restores it at start-up
  (store/resumeStore.ts:192-194). The model starts from `Store.Initial` and has
  no storage.
- Ids: `Date.now().toString()` is the `freshId` argument. Clock values and
  their uniqueness are not modelled.
- The network and the language model: `fetch`, the OpenAI client, the prompt
  wording, the model name and the sampling settings. Their outcomes are inputs.
- The API handlers in pages/api: their method and argument checks are not
  modelled. Only their visible effect is used: a 200 reply carrying what the
  library returned.
- PDF generation and the browser download. The blob, the object URL and the
  link click are an input (`RenderOutcome`) plus the `Saved` record.
- Styles, colours, icons, captions other than the download button's, the
  skill-category list of the select, and the Back/Continue navigation buttons.
- components/Layout.tsx, components/StepContainer.tsx, pages/_app.tsx,
  pages/index.tsx and next.config.js are not part of this model.
- The react-hook-form library is not part of this model. The editors follow
  its documented rule that `reset(values)` also replaces the stored default
  values unless `keepDefaultValues` is given, and that `reset()` restores them.
- zod and react-hook-form internals:
  - the email format check is the parameter `isEmail`;
  - a schema failure is the `Invalid` outcome;
  - field error messages are not modelled.
- Concurrency: overlapping clicks and requests, the in-flight flags
  `isGenerating` and `isGeneratingSummary` beyond the download button's, and
  the `alert` and `console.error` side effects.
- The work form's `bulletPoints` state: it is written but never read.
- The work form's list of saved entries (its markup) is not modelled; its
  delete action is `Store.RemoveWorkExperience`.
- WorkForm.UpdateBulletPoint: the model only covers indexes inside the list.
  The form only calls it from the rendered list, and an out-of-range index
  would extend the JavaScript array with holes.
- Pdf.ContactLine: the document lays its contact texts out as separate text
  nodes. The model reads them as one line joined by single spaces.
- Preview.ContactItems: the preview's link targets (`mailto:` and `href`) are
  not modelled, only the visible texts.
