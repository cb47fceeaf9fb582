/**
 * The clinical concept codes the scoring engine knows about (the `SnomedConcepts`
 * enumeration) and the fixed code lists each clinical predicate of `Patient`
 * tests against, including the literals written inline in those predicates.
 */
module Snomed {

  // SnomedConcepts enumeration values
  const FEVER := 437663
  const FEVER_WITH_CHILLS := 4164645
  const FEBRILE_CONVULSIONS := 444413
  const CONTINUOUS_FEVER := 4158330
  const ERUPTION := 140214
  const SKIN_OR_MUCOSA_FINDING_DUE_TO_VIRUS := 4212577
  const SKIN_OR_MUCOSA_FINDING_DUE_TO_OTHER_VIRUSES := 443724
  const SWELLING := 443257
  const SWELLING_UPPER_LIMB := 4168701
  const SWELLING_LOWER_LIMB := 4171919
  const OTHER_CONJUNCTIVITIS := 379019
  const MUCOPURULENT_CONJUNCTIVITIS := 376422
  const ACUTE_CONJUNCTIVITIS := 376707
  const LYMPHADENOPATHY := 315085
  const LOCALIZED_ENLARGED_LYMPH_NODES := 4168700
  const GENERALIZED_ENLARGED_LYMPH_NODES := 4165998
  const DISORDER_OF_ORAL_SOFT_TISSUE := 139057
  const DISORDER_OF_LIP := 135858
  const LESION_OF_ORAL_MUCOSA := 37016130
  const PERICARDITIS := 315293
  const MYOCARDITIS := 4331309
  const MYOCARDIAL_INFARCTION := 434376
  const NAUSEA_AND_VOMITING := 27674
  const ASCITES := 200528
  const PLEURAL_EFFUSION := 254061
  const PERICARDIAL_EFFUSION := 4108814
  // COVID_19 and COVID_19_IN_PERSONAL_HISTORY carry the same value, so Python's
  // Enum makes the second an alias of the first.
  const COVID_19 := 37311061
  const COVID_19_VIRUS_NOT_IDENTIFIED := 37311060
  const COVID_19_IN_PERSONAL_HISTORY := 37311061
  const POST_COVID := 705076
  const PIMS := 434821
  const KAWASAKI := 314381
  const PTT_BLOOD := 3013466
  const PTT_PLASMA := 3018677
  const D_DIMER := 3052648
  const PT := 3033658

  // The code list of each predicate, element by element as written
  const FeverIds: seq<int> := [FEVER, FEVER_WITH_CHILLS, FEBRILE_CONVULSIONS, CONTINUOUS_FEVER]
  const ExanthemIds: seq<int> :=
    [ERUPTION, SKIN_OR_MUCOSA_FINDING_DUE_TO_VIRUS, SKIN_OR_MUCOSA_FINDING_DUE_TO_OTHER_VIRUSES]
  const SwollenExtremitiesIds: seq<int> := [SWELLING, SWELLING_UPPER_LIMB, SWELLING_LOWER_LIMB]
  const ConjunctivitisIds: seq<int> :=
    [OTHER_CONJUNCTIVITIS, MUCOPURULENT_CONJUNCTIVITIS, ACUTE_CONJUNCTIVITIS]
  const LymphadenopathyIds: seq<int> :=
    [LYMPHADENOPATHY, LOCALIZED_ENLARGED_LYMPH_NODES, GENERALIZED_ENLARGED_LYMPH_NODES]
  const EnanthemIds: seq<int> :=
    [DISORDER_OF_ORAL_SOFT_TISSUE, DISORDER_OF_LIP, LESION_OF_ORAL_MUCOSA,
     SKIN_OR_MUCOSA_FINDING_DUE_TO_VIRUS, SKIN_OR_MUCOSA_FINDING_DUE_TO_OTHER_VIRUSES]
  /**
   * The cardiac list has a twelfth element, the enumeration member
   * PERICARDIAL_EFFUSION itself rather than its value. An enumeration member never
   * compares equal to an integer code, so that element can match nothing and is
   * left out here; `Findings.PericardialEffusionIsNotCardiac` states the consequence.
   */
  const CardiacIds: seq<int> :=
    [PERICARDITIS, 4217075, 320116,
     MYOCARDIAL_INFARCTION, 438170, 312327, 4270024, 312327,
     MYOCARDITIS, 4143969, 312653]
  const GastroIntestinalIds: seq<int> :=
    [NAUSEA_AND_VOMITING, 4182562, 200219, 4116811, 196523, 4091519, 4249551, 196151]
  /** LOINC measurement concepts: CRP (two methods), ESR, leukocytes, procalcitonin. */
  const InflammationLabIds: seq<int> := [3020460, 42870365, 3013707, 3000905, 3046279]
  const EffusionIds: seq<int> := [ASCITES, PLEURAL_EFFUSION, PERICARDIAL_EFFUSION]
  const CovidIds: seq<int> :=
    [COVID_19, COVID_19_VIRUS_NOT_IDENTIFIED, COVID_19_IN_PERSONAL_HISTORY, POST_COVID]
  const CoagulopathyIds: seq<int> := [PTT_BLOOD, PTT_PLASMA, D_DIMER, PT]
}
