/**
 * The data shapes exchanged between the web front end and the back end: the declared
 * fields of a patient form, the values a decoded form holds, the analysis summary and
 * the decision reasons of one patient.
 */
module PatientInterface {
  import opened Scoring

  /** Whether a declared field holds a date, a text or a yes/no flag. */
  datatype FieldKind = DateField | TextField | FlagField

  datatype Field = Field(key: string, kind: FieldKind)

  // The keys of patient data, as spelled in the data type
  const BIRTHDATE: string := "birthdate"
  const NAME: string := "name"
  const HAS_COVID: string := "hasCovid"
  const HAS_FEVER: string := "hasFever"
  const HAS_EXANTHEM: string := "hasExanthem"
  const HAS_ENANTHEM: string := "hasEnanthem"
  const HAS_SWOLLEN_EXTREMITIES: string := "hasSwollenExtremeties"
  const HAS_CONJUNCTIVITIS: string := "hasConjunctivitis"
  const HAS_SWOLLEN_LYMPHNODES: string := "hasSwollenLymphnodes"
  const HAS_GASTRO_INTESTINAL_CONDITION: string := "hasGastroIntestinalCondition"
  const HAS_ASCITES: string := "hasAscites"
  const HAS_PERICARDIAL_EFFUSIONS: string := "hasPericardialEffusions"
  const HAS_PLEURAL_EFFUSIONS: string := "hasPleuralEffusions"
  const HAS_PERICARDITIS: string := "hasPericarditis"
  const HAS_MYOCARDITIS: string := "hasMyocarditis"

  /** The declared patient-data fields, in declaration order. */
  const PatientDataFields: seq<Field> := [
    Field(BIRTHDATE, DateField),
    Field(NAME, TextField),
    Field(HAS_COVID, FlagField),
    Field(HAS_FEVER, FlagField),
    Field(HAS_EXANTHEM, FlagField),
    Field(HAS_ENANTHEM, FlagField),
    Field(HAS_SWOLLEN_EXTREMITIES, FlagField),
    Field(HAS_CONJUNCTIVITIS, FlagField),
    Field(HAS_SWOLLEN_LYMPHNODES, FlagField),
    Field(HAS_GASTRO_INTESTINAL_CONDITION, FlagField),
    Field(HAS_ASCITES, FlagField),
    Field(HAS_PERICARDIAL_EFFUSIONS, FlagField),
    Field(HAS_PLEURAL_EFFUSIONS, FlagField),
    Field(HAS_PERICARDITIS, FlagField),
    Field(HAS_MYOCARDITIS, FlagField)
  ]

  /** The keys of the declared fields. */
  function FieldKeys(): set<string>
  {
    set f | f in PatientDataFields :: f.key
  }

  /** A form value: the submitted text of a date or text field, or a flag. */
  datatype FieldValue = Text(text: string) | Flag(flag: bool)

  /** Patient data as a dictionary from field key to value. */
  type PatientData = map<string, FieldValue>

  /** The diseases the system scores. */
  datatype Disease = KawasakiDisease | PimsDisease

  /** One row of the analysis overview. */
  datatype AnalysisData = AnalysisData(name: string, probabilityPims: real, probabilityKawasaki: real)

  /** Why a disease was scored as it was: the score and the reasons in favour. */
  datatype DecisionReasons = DecisionReasons(disease: Disease, probability: real, pro: seq<Reason>)

  /** No two declared fields share a key, so a dictionary keyed by field holds one value per field. */
  lemma FieldKeysDistinct()
    ensures forall i, j :: 0 <= i < j < |PatientDataFields| ==> PatientDataFields[i].key != PatientDataFields[j].key
  {
  }
}
