# Kawasaki / PIMS clinical scoring — a Dafny model

This project models the core of a small clinical decision-support system. The system
scores paediatric patients for Kawasaki disease and for PIMS (Pediatric Inflammatory
Multisystem Syndrome). A patient record holds SNOMED condition codes, abnormally high
lab measurements and procedures. Each score is one of 0.0, 0.5, 0.75 and 1.0 and comes
with a list of reasons in favour and a list of missing criteria.

Around the scoring engine, the model covers:

- the back end that turns a patient form into a patient record, and that reports
  analysis summaries and decision reasons;
- the form decoder of the web front end;
- the concept-store helpers of the database manager: code normalisation, the
  code-to-SNOMED lookup, and allocation of fresh row ids;
- the ETL transforms that build the OMOP provider, location, observation-period,
  person and visit-occurrence tables from the source CSV tables.

Modules, one per file:

- `Wrappers` — `Option`.
- `Snomed` — the SNOMED code constants and the code lists of the clinical predicates.
- `Findings` — the clinical predicates (`has_fever`, `has_covid`, ...) as membership tests.
- `Scoring` — the age rule, the checklists and both decision tables as functions, with
  their properties.
- `PatientRecord` — the `Patient` class. Its methods update the record in place and are
  proved to compute exactly the `Scoring` functions.
- `PatientInterface` — the declared patient-data fields and the exchanged data shapes.
- `PersonForm` — decoding a submitted form into patient data.
- `Backend` — creating a patient from form data, and the `BackendManager` queries.
- `ConceptStore` — `rstrip("!+")`, the concept lookup, `_id_is_taken` and id generation.
- `Transform` — the ETL table transforms.

Both scoring methods clear and rebuild their reason lists. Their postconditions give
the new score and lists as functions of the record's codes and age alone. Scoring an
unchanged record twice therefore yields the same score and the same lists.

### Where the code and its tests or documentation disagree

The model follows the code in each of these cases except the last, where it follows the
evident intent (see "## Left out").

- The Kawasaki reason for an existing diagnosis: the PIMS tests
  (`Backend/test/test_patient.py:972`) expect `REASON_HAS_KAWASAKI`. `patient.py` does
  not define that constant; it records `REASON_KAWASAKI` (`patient.py:443-444`). The
  model records `Kawasaki`.
- The coagulopathy entry: the PIMS checklist always records coagulopathy, in one list or
  the other (`patient.py:461-465`). The tests count one missing entry fewer.
- Covid, fever, enanthem and a high CRP at age 5: the code counts only one side symptom
  here (the Kawasaki-symptom group, `patient.py:390-403`) and gives 0.75
  (`Scoring.PimsOneSideSymptomScenario`). A second side symptom such as pericarditis gives
  1.0 (`Scoring.PimsTwoSideSymptomsScenario`), as the side-criteria rule of the code at
  `patient.py:386-410` requires (`Scoring.CompletePimsCriteria`).
- The PIMS criteria: the docstring (`patient.py:362-367`) and the code (`patient.py:386-410`)
  differ in four ways. The docstring demands fever, where the code accepts fever or a
  Kawasaki diagnosis. The docstring asks for two of three side criteria (heart,
  gastro-intestinal, Kawasaki symptom), where the code counts four. The fourth is
  coagulopathy, which the docstring does not mention. The docstring's Kawasaki symptoms
  include lymphadenopathy and not exanthem, where the code checks exanthem, enanthem,
  conjunctivitis and swollen extremities.
- The PIMS middle bands: the docstring (`patient.py:358-360`) gives 0.75 for "at least half
  of the parameters" and 0.5 for at least one symptom. Outside the core criteria the code
  (`patient.py:412-419`) counts the seven symptom entries, with a Kawasaki diagnosis
  without fever counting once more, and gives 0.75 from three on
  (`Scoring.PimsMiddleBands`).
- The cardiac code list at `patient.py:183` ends with the enum member
  `SnomedConcepts.PERICARDIAL_EFFUSION` rather than its `.value`, so it never equals a
  code. The model leaves it out of the list, and `Findings.PericardialEffusionIsNotCardiac`
  states the consequence.
- Patient creation calls `Patient(...)` without the case date (`backend_interface.py:126`),
  which the constructor requires, and outside the `try`. As written, every call that gets
  past id allocation therefore raises `TypeError`. The model follows the evident intent
  instead and passes the case date in as a parameter.

## Model

| member | source | states |
|---|---|---|
| `Findings.AnyIn` | Backend/analysis/patient.py:100-110 | `any(x in ids for x in codes)`: true exactly when some code of the record is in the predicate's list |
| `Findings.PredicatesAreMonotone` | Backend/analysis/patient.py:100-244 | adding codes or measurements never turns a clinical predicate from true to false |
| `Findings.AppendingPresentCodeChangesNothing` | Backend/analysis/patient.py:65-72 | appending a code that is already present leaves every predicate unchanged |
| `Findings.PericardialEffusionIsNotCardiac` | Backend/analysis/patient.py:169-184 | a pericardial effusion never makes the cardiac predicate true, because the list holds the enum member and not its code |
| `Scoring.AgeCountsCompletedYears` | Backend/analysis/patient.py:92-98 | the age is at least n exactly when the n-th birthday is on or before the case date |
| `Scoring.AgeExamples` | Backend/test/test_patient.py:98-125 | ages 1, 10 and 100, and an unclamped age of -10 for a birthdate after the case date |
| `Scoring.ItemPlacement` | Backend/analysis/patient.py:301-353 | with distinct reasons, an item's reason is in the reasons list iff present and in the missing list iff absent |
| `Scoring.ChecklistPartition` | Backend/analysis/patient.py:246-299 | with an extra diagnosis reason: list lengths add up, each item lands in exactly one list, the diagnosis is a reason iff diagnosed |
| `Scoring.KawasakiScore` | Backend/analysis/patient.py:246-299 | the score is a band value; 1.0 with a diagnosis; 0.0 at age 8 or over without one; at most 0.5 without fever |
| `Scoring.CompleteKawasakiCriteria` | Backend/analysis/patient.py:278-282 | under eight and undiagnosed, the score is 1.0 iff fever is present and at most one of the other five symptoms is missing |
| `Scoring.NoKawasakiSymptomsScoresZero` | Backend/analysis/patient.py:252-254 | under eight and undiagnosed, the score is 0.0 exactly when none of the six symptoms is present, 0.75 exactly when fever and one to three other symptoms are present, and 0.5 exactly when some symptom is present but fever is missing or alone |
| `Scoring.KawasakiListsPartition` | Backend/analysis/patient.py:301-353 | the two Kawasaki lists split the seven checklist entries exactly; the diagnosis reason is listed iff diagnosed and never as missing |
| `Scoring.KawasakiScoreMonotone` | Backend/analysis/patient.py:246-299 | more codes never lower the Kawasaki score at the same age |
| `Scoring.AllKawasakiSymptoms` | Backend/analysis/patient.py:246-353 | all six symptoms, under eight, undiagnosed: score 1.0, seven reasons, nothing missing |
| `Scoring.AllSymptomCodesFound` | Backend/test/test_patient.py:289-301 | the six codes the tests add satisfy all six symptom predicates and are not a Kawasaki diagnosis |
| `Scoring.KawasakiAllSymptomsScenario` | Backend/test/test_patient.py:277-343 | the test patient with all symptoms at age 1: score 1.0, seven reasons, no missing entry |
| `Scoring.KawasakiFeverOnlyScenario` | Backend/test/test_patient.py:562-583 | fever alone at age 1 scores 0.5 |
| `Scoring.PimsScore` | Backend/analysis/patient.py:355-424 | a band value; 1.0 with a diagnosis; 0.0 at age 20 or over without one; at least 0.75 when the core criteria hold under 20; at most 0.75 otherwise |
| `Scoring.PimsListsPartition` | Backend/analysis/patient.py:426-485 | the two PIMS lists split the eight checklist entries exactly; the PIMS reason is listed iff diagnosed and never as missing |
| `Scoring.PimsChecklistDistinct` | Backend/analysis/patient.py:426-485 | the eight PIMS checklist entries have distinct reasons, none of them the PIMS diagnosis |
| `Scoring.PimsKawasakiEntry` | Backend/analysis/patient.py:443-453 | a Kawasaki diagnosis is a PIMS reason iff present; otherwise the symptom group is a reason iff one of its four symptoms is present, and missing iff none is |
| `Scoring.PimsSymptomCountMonotone` | Backend/analysis/patient.py:426-485 | more codes or measurements never lower the PIMS symptom count |
| `Scoring.CompletePimsCriteria` | Backend/analysis/patient.py:386-410 | undiagnosed and under 20, the PIMS score is 1.0 exactly when fever or Kawasaki, covid and raised inflammation markers hold and `PimsSideSymptomCount` (Kawasaki or a Kawasaki symptom, cardiac, gastro-intestinal, coagulopathy) is at least two |
| `Scoring.NoPimsSymptomsScoresZero` | Backend/analysis/patient.py:360-361 | undiagnosed and under 20, the PIMS score is 0.0 exactly when none of the seven PIMS symptom entries is present |
| `Scoring.PimsMiddleBands` | Backend/analysis/patient.py:412-419 | undiagnosed and under 20, the PIMS score is at least 0.75 exactly when the symptom count is three or more, and 0.5 exactly when it is one or two |
| `Scoring.PimsScoreMonotone` | Backend/analysis/patient.py:355-424 | more codes or measurements never lower the PIMS score at the same age |
| `Scoring.PimsOneSideSymptomScenario` | Backend/analysis/patient.py:387-410 | covid, fever, enanthem and high CRP at age 5 give 0.75: one side symptom is not enough |
| `Scoring.PimsTwoSideSymptomsScenario` | Backend/analysis/patient.py:387-410 | adding pericarditis to that patient gives 1.0 |
| `Scoring.PimsSingleSymptomScenario` | Backend/analysis/patient.py:412-419 | fever alone at age 5 gives 0.5 |
| `PatientRecord.Patient.constructor` | Backend/analysis/patient.py:35-59 | a new record holds the given id, name and dates, empty code lists, zero scores and empty reason lists |
| `PatientRecord.Patient.AddCondition` | Backend/analysis/patient.py:65-72 | the condition is appended, and only the condition list changes |
| `PatientRecord.Patient.AddHighMeasurement` | Backend/analysis/patient.py:74-81 | the measurement is appended, and only the measurement list changes |
| `PatientRecord.Patient.AddProcedure` | Backend/analysis/patient.py:83-90 | the procedure is appended, and only the procedure list changes |
| `PatientRecord.Patient.RecordKawasakiChecklist` | Backend/analysis/patient.py:312-353 | appends the reasons and missing entries of the seven-item checklist in order and returns the count of present symptoms after the age entry |
| `PatientRecord.Patient.CountKawasakiSymptoms` | Backend/analysis/patient.py:301-353 | returns the symptom count and appends the checklist's reasons and missing entries to the existing lists |
| `PatientRecord.Patient.CalculateKawasakiScore` | Backend/analysis/patient.py:246-299 | clears and rebuilds the Kawasaki lists and sets and returns the score exactly as `KawasakiScore` of the record's codes and age |
| `PatientRecord.Patient.RecordPimsChecklist` | Backend/analysis/patient.py:431-485 | appends the reasons and missing entries of the eight-item checklist in order and returns the count of present items after the age entry |
| `PatientRecord.Patient.CountPimsSymptoms` | Backend/analysis/patient.py:426-485 | returns the PIMS symptom count, including the extra count for a Kawasaki diagnosis without fever, and appends the checklist entries |
| `PatientRecord.Patient.CalculatePimsScore` | Backend/analysis/patient.py:355-424 | clears and rebuilds the PIMS lists and sets and returns the score exactly as `PimsScore` of the record's codes, measurements and age |
| `PatientInterface.FieldKeysDistinct` | Backend/interface.py:24-52 | no two declared patient-data fields share a key |
| `PersonForm.DecodeFields` | Frontend/blueprint_person.py:41-54 | `None` iff some date or text field is missing from the form; otherwise data for exactly the fields' keys, with submitted texts and flags set iff submitted |
| `PersonForm.GetPatientDataFromRequest` | Frontend/blueprint_person.py:41-54 | the same, over the declared patient-data fields: the keys are exactly the declared keys |
| `Backend.CodesMembership` | Backend/backend_interface.py:127-154 | a code is in the created condition list iff some flag mapped to it is set |
| `Backend.CodesCount` | Backend/backend_interface.py:127-154 | one code is appended per set flag |
| `Backend.AddFlagCode` | Backend/backend_interface.py:129-154 | one `if patient_data[key]` step: fails iff the key is absent, and otherwise extends the condition list by that flag's code |
| `Backend.AddFlagCodes` | Backend/backend_interface.py:127-158 | succeeds iff every flag key is present, and then the conditions are exactly the codes of the set flags in form order |
| `Backend.FeverRashFlagsRoundTrip` | Backend/backend_interface.py:131-136 | the created patient has fever, exanthem and enanthem iff the corresponding flags are set |
| `Backend.SwellingFlagsRoundTrip` | Backend/backend_interface.py:137-142 | swollen extremities, conjunctivitis and lymphadenopathy iff their flags are set |
| `Backend.SystemicFlagsRoundTrip` | Backend/backend_interface.py:127-150 | covid and gastro-intestinal iff their flags; effusion iff ascites, pericardial or pleural effusion is flagged |
| `Backend.HeartFlagsRoundTrip` | Backend/backend_interface.py:147-154 | pericardial effusion, pericarditis and myocarditis iff flagged; cardiac iff pericarditis or myocarditis; never a Kawasaki or PIMS diagnosis |
| `Backend.FlagTableKeysAreFlagFields` | Backend/interface.py:26-52 | the thirteen flags read at creation are exactly the declared flag fields, in declaration order |
| `Backend.DecodedFormFlags` | Frontend/blueprint_person.py:41-54 | decoded form data carries every flag the back end reads, each set iff its key was submitted |
| `Backend.FormKawasakiSymptoms` | Backend/backend_interface.py:129-154 | from submitted form to patient: each Kawasaki symptom predicate holds iff its key was submitted |
| `Backend.Summary` | Backend/backend_interface.py:229-233 | a summary carries the patient's name and both scores |
| `Backend.AnalysisTableKeys` | Backend/backend_interface.py:221-235 | the analysis dictionary's keys are exactly the patients' ids |
| `Backend.AnalysisTableLastWins` | Backend/backend_interface.py:221-235 | for an id, the entry is the summary of the last patient with that id |
| `Backend.ReasonsReport` | Backend/backend_interface.py:276-290 | the report names the requested disease and carries that disease's score and reasons |
| `Backend.BackendManager.CreatePatientFromData` | Backend/backend_interface.py:109-160 | `None` when no id could be allocated or a flag key is missing; otherwise a fresh patient with the id, name and dates, the flags' codes as conditions, no measurements or procedures, both scores 0.0 and all four reason lists empty |
| `Backend.BackendManager.AnalysisDataById` | Backend/backend_interface.py:221-235 | the loop builds exactly the analysis table of the patient list |
| `Backend.BackendManager.GetDecisionReason` | Backend/backend_interface.py:268-292 | `None` iff no patient has the id; otherwise the report of the first patient with that id for the requested disease |
| `ConceptStore.StripMarks` | Backend/common/database.py:159-160 | the result is a prefix of the code, does not end in `!` or `+`, and only those marks were removed |
| `ConceptStore.StripMarksUnique` | Backend/common/database.py:159-160 | those three properties determine the stripped code |
| `ConceptStore.StripMarksIdempotent` | Backend/common/database.py:159-160 | stripping twice equals stripping once |
| `ConceptStore.StripMarksKeepsInterior` | Backend/common/database.py:159-160 | marks inside a code survive; only the trailing run goes |
| `ConceptStore.FirstConcept` | Backend/common/database.py:165-168 | `None` iff no concept has the code in the vocabulary; otherwise the id of the first such row |
| `ConceptStore.FirstMapping` | Backend/common/database.py:170-173 | `None` iff the concept has no "Maps to" row; otherwise the target of the first such row |
| `ConceptStore.GetSnomedId` | Backend/common/database.py:151-182 | a non-zero result is the "Maps to" target of a concept with the stripped code in the vocabulary |
| `ConceptStore.SnomedIdIgnoresTrailingMarks` | Backend/common/database.py:151-182 | appending `!` and `+` marks to a code does not change its SNOMED id |
| `ConceptStore.UnknownCodeGivesZero` | Backend/common/database.py:165-178 | a code that no concept row of the vocabulary carries gives 0 |
| `ConceptStore.UnmappedCodeGivesZero` | Backend/common/database.py:165-178 | when the first concept row with the stripped code has no "Maps to" row, the result is 0, whatever later rows with that code map to |
| `ConceptStore.MappedCodeGivesFirstTarget` | Backend/common/database.py:165-173 | when the first concept row with the stripped code has a "Maps to" row, the result is the target of the first such row |
| `ConceptStore.SelectRows` | Backend/common/database.py:215-221 | the selected rows are exactly the positions holding the id, and none iff the id is absent |
| `ConceptStore.IdIsTaken` | Backend/common/database.py:215-221 | the id is taken iff it occurs in the table's id column |
| `ConceptStore.GenerateUniqueId` | Backend/common/database.py:197-213 | `None` iff every draw is taken; otherwise the first draw that is not taken |
| `ConceptStore.GeneratePatientId` | Backend/common/database.py:206-213 | a fresh person id in `[10000, 9999999)`, one of the draws and not in the person table |
| `ConceptStore.GenerateConditionOccurrenceId` | Backend/common/database.py:197-204 | a fresh condition-occurrence id in range, one of the draws and not in that table |
| `Transform.DropDuplicates` | ETLProcess/src/transform.py:19 | same elements as the input, no duplicates |
| `Transform.DropDuplicatesKeepsFirstOccurrenceOrder` | ETLProcess/src/transform.py:19 | the kept values appear in the order of their first occurrence |
| `Transform.ProviderColumn` | ETLProcess/src/transform.py:13-17 | person providers followed by case providers, row by row |
| `Transform.ProviderTable` | ETLProcess/src/transform.py:5-20 | distinct providers; every person and case provider is listed; every listed provider comes from some row |
| `Transform.ProviderTableOrder` | ETLProcess/src/transform.py:5-20 | providers are listed in order of first appearance, persons before cases |
| `Transform.LocationTable` | ETLProcess/src/transform.py:23-34 | one location per person row, with the patient id as location id and the row's city and zip |
| `Transform.GenderConcept` | ETLProcess/src/transform.py:82-83 | 8532 iff "w", 8507 iff "m", 0 iff neither |
| `Transform.PersonTable` | ETLProcess/src/transform.py:68-96 | one person per row, with the patient id as person and location id, the gender concept, the birth date parts and the fixed race and ethnicity concepts |
| `Transform.PersonLocationsExist` | ETLProcess/src/transform.py:80-81 | every person's location is a row of the location table with the person's city and zip |
| `Transform.PatientIds` | ETLProcess/src/transform.py:45 | the patient-id column of the cases |
| `Transform.EarliestStart` | ETLProcess/src/transform.py:52-53 | the start date of one of the patient's cases, no later than any of them |
| `Transform.LatestEnd` | ETLProcess/src/transform.py:52-54 | the end date of one of the patient's cases, no earlier than any of them |
| `Transform.GenerateObservationPeriodTable` | ETLProcess/src/transform.py:37-65 | the loop with its running id builds exactly one period per distinct patient, in first-appearance order |
| `Transform.ObservationPeriodsNumbered` | ETLProcess/src/transform.py:44-56 | period ids are 1..n, each has the EHR type, belongs to a patient with a case, and no patient has two |
| `Transform.ObservationPeriodsCoverCases` | ETLProcess/src/transform.py:44-56 | every patient with a case has a period |
| `Transform.CaseWithinObservationPeriod` | ETLProcess/src/transform.py:51-55 | each case lies within its patient's period |
| `Transform.Renamed` | ETLProcess/src/transform.py:106-109 | one row per case, in order; row i takes the case id as its visit id, and the case's provider, patient as person, start date and end date |
| `Transform.GenerateVisitOccurrenceTable` | ETLProcess/src/transform.py:99-118 | the renumbering loop yields the visit table: row i gets id i+1, the case's provider, person and dates, and the fixed visit and type concepts |
| `Transform.VisitsRenumbered` | ETLProcess/src/transform.py:110-112 | one visit per case with distinct ids 1..n |
| `Transform.VisitWithinObservationPeriod` | ETLProcess/src/transform.py:99-118 | every visit lies within an observation period of the same person |

## Left out

- Database I/O, SQL text and the connection are not modelled. The vocabulary tables and
  id columns are a `Database` value, and `fetchone` is the first matching row in
  sequence order.
- `ConceptStore.GetSnomedId`: a mapping whose target concept id is 0 cannot be told
  apart from "no mapping", as in the source.
- `ConceptStore.IdIsTaken`: an unknown table or column is a precondition. The source's
  query would fail on it.
- Random draws are a supplied sequence of candidates. When the sequence runs out the
  model returns `None`; the source's retry loop never ends in that case.
- `Backend.BackendManager.CreatePatientFromData`: the id allocation outcome is a
  parameter. `None` stands for the `AttributeError` of a missing database manager.
- `Backend.BackendManager.CreatePatientFromData`: name, birthdate and case date are
  parameters. The source reads name and birthdate before its `try`, so a missing one
  raises instead of returning `None`. `ValueError` and `AttributeError` inside the
  `try` cannot arise from a dictionary of values.
- `Backend.BackendManager.CreatePatientFromData`: follows the evident intent. As written,
  `Patient(...)` at `backend_interface.py:126` omits `case_date`, so every call that gets
  past id allocation raises `TypeError` and no patient is returned; the model does not
  capture that.
- Form values that are Python-truthy are modelled for flags and strings only. A text
  value counts as set when it is non-empty.
- `get_patient_data` (`backend_interface.py:237-266`) calls predicates that `Patient`
  does not define, such as `has_mouth_or_mucosa_inflammation` and `has_ascites`. It is
  not modelled. The round-trip lemmas state what a created patient's predicates are
  instead.
- `update_patient`, `add_patient`, `run_etl`, `run_analysis` and the reconciliation of
  stored conditions are not part of this model, nor is the singleton set-up of the
  back end.
- The ETL transforms work on parsed rows. Dates are `Date` values rather than CSV
  strings, and `pd.to_datetime` parsing is not modelled. ISO date strings order the
  same way.
- `Transform.PersonTable`: `dropna()` discards its result, so no row is removed. The
  model removes none. Missing values are not represented.
- `Transform.GenerateVisitOccurrenceTable`: the case table is assumed to have its
  default positional index, so `index + 1` is the row's position plus one.
- Only string genders and integer ids are modelled. Pandas' mixed-type columns are not.
- `Age()` uses unbounded integers. Python's arbitrary-precision `int` agrees.
- Logging calls are left out.
