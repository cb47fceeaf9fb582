/**
 * The clinical predicates of `Patient` (has_fever, has_covid, ...). Each one is a
 * pure membership test: true exactly when some code of the patient's conditions
 * (or, for the two laboratory predicates, of the abnormally high measurements)
 * belongs to that predicate's fixed code list.
 */
module Findings {
  import opened Snomed

  /** `any(x in ids for x in codes)`: some code of `codes` is listed in `ids`. */
  function AnyIn(codes: seq<int>, ids: seq<int>): (r: bool)
    ensures r <==> exists x :: x in codes && x in ids
  {
    if codes == [] then false
    else
      assert forall x :: x in codes <==> x == codes[0] || x in codes[1..];
      codes[0] in ids || AnyIn(codes[1..], ids)
  }

  predicate HasFever(conditions: seq<int>) { AnyIn(conditions, FeverIds) }
  predicate HasExanthem(conditions: seq<int>) { AnyIn(conditions, ExanthemIds) }
  predicate HasSwollenExtremities(conditions: seq<int>) { AnyIn(conditions, SwollenExtremitiesIds) }
  predicate HasConjunctivitis(conditions: seq<int>) { AnyIn(conditions, ConjunctivitisIds) }
  predicate HasLymphadenopathy(conditions: seq<int>) { AnyIn(conditions, LymphadenopathyIds) }
  predicate HasEnanthem(conditions: seq<int>) { AnyIn(conditions, EnanthemIds) }
  predicate HasCardiacCondition(conditions: seq<int>) { AnyIn(conditions, CardiacIds) }
  predicate HasGastroIntestinalCondition(conditions: seq<int>) { AnyIn(conditions, GastroIntestinalIds) }
  predicate HasInflammationLab(highMeasurements: seq<int>) { AnyIn(highMeasurements, InflammationLabIds) }
  predicate HasEffusion(conditions: seq<int>) { AnyIn(conditions, EffusionIds) }
  /**
   * COVID-19 and COVID-19 in personal history are one enumeration value, so a record
   * with either name counts as covid.
   */
  predicate HasCovid(conditions: seq<int>) { AnyIn(conditions, CovidIds) }
  predicate HasKawasaki(conditions: seq<int>) { KAWASAKI in conditions }
  predicate HasPims(conditions: seq<int>) { PIMS in conditions }
  predicate HasPericardialEffusions(conditions: seq<int>) { 4108814 in conditions }
  predicate HasPericarditis(conditions: seq<int>) { 315293 in conditions }
  predicate HasMyocarditis(conditions: seq<int>) { 4331309 in conditions }
  predicate HasCoagulopathy(highMeasurements: seq<int>) { AnyIn(highMeasurements, CoagulopathyIds) }

  /** A code list that contains every code of another finds whatever the other finds. */
  lemma AnyInGrows(a: seq<int>, b: seq<int>, ids: seq<int>)
    requires forall x :: x in a ==> x in b
    ensures AnyIn(a, ids) ==> AnyIn(b, ids)
  {
  }

  /** Every predicate holds of a list as soon as it holds of a list with fewer codes. */
  predicate AllPredicatesGrow(a: seq<int>, b: seq<int>, ma: seq<int>, mb: seq<int>)
  {
    && (HasFever(a) ==> HasFever(b))
    && (HasExanthem(a) ==> HasExanthem(b))
    && (HasSwollenExtremities(a) ==> HasSwollenExtremities(b))
    && (HasConjunctivitis(a) ==> HasConjunctivitis(b))
    && (HasLymphadenopathy(a) ==> HasLymphadenopathy(b))
    && (HasEnanthem(a) ==> HasEnanthem(b))
    && (HasCardiacCondition(a) ==> HasCardiacCondition(b))
    && (HasGastroIntestinalCondition(a) ==> HasGastroIntestinalCondition(b))
    && (HasInflammationLab(ma) ==> HasInflammationLab(mb))
    && (HasEffusion(a) ==> HasEffusion(b))
    && (HasCovid(a) ==> HasCovid(b))
    && (HasKawasaki(a) ==> HasKawasaki(b))
    && (HasPims(a) ==> HasPims(b))
    && (HasPericardialEffusions(a) ==> HasPericardialEffusions(b))
    && (HasPericarditis(a) ==> HasPericarditis(b))
    && (HasMyocarditis(a) ==> HasMyocarditis(b))
    && (HasCoagulopathy(ma) ==> HasCoagulopathy(mb))
  }

  /**
   * Presence-only semantics: the predicates look at which codes occur, never at
   * how often or in what order, and more codes can only make more predicates true.
   */
  lemma PredicatesAreMonotone(a: seq<int>, b: seq<int>, ma: seq<int>, mb: seq<int>)
    requires forall x :: x in a ==> x in b
    requires forall x :: x in ma ==> x in mb
    ensures AllPredicatesGrow(a, b, ma, mb)
  {
  }

  /** Appending a code that is already present changes no predicate. */
  lemma AppendingPresentCodeChangesNothing(conditions: seq<int>, highMeasurements: seq<int>, code: int)
    requires code in conditions
    ensures AllPredicatesGrow(conditions + [code], conditions, highMeasurements, highMeasurements)
    ensures AllPredicatesGrow(conditions, conditions + [code], highMeasurements, highMeasurements)
  {
    PredicatesAreMonotone(conditions + [code], conditions, highMeasurements, highMeasurements);
    PredicatesAreMonotone(conditions, conditions + [code], highMeasurements, highMeasurements);
  }

  /**
   * The pericardial effusion code never makes `HasCardiacCondition` true, although
   * the cardiac list was evidently meant to include it.
   */
  lemma PericardialEffusionIsNotCardiac(conditions: seq<int>)
    ensures HasCardiacCondition(conditions + [PERICARDIAL_EFFUSION]) == HasCardiacCondition(conditions)
    ensures !HasCardiacCondition([PERICARDIAL_EFFUSION])
  {
    assert forall x :: x in conditions + [PERICARDIAL_EFFUSION] <==> x in conditions || x == PERICARDIAL_EFFUSION;
  }
}
