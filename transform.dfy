/**
 * The OMOP table transforms of the ETL job: a source table is a sequence of rows, and
 * each transform builds the rows of one OMOP table from it. Only the columns the
 * transforms read are modelled; dates are already parsed.
 */
module Transform {
  import opened Scoring

  /** A row of the source person table (the columns the transforms read). */
  datatype PersonRow = PersonRow(providerId: int, patientId: int, gender: string, birthdate: Date,
                                 city: string, zip: string)

  /** A row of the source case table, whose five columns come in this order. */
  datatype CaseRow = CaseRow(caseId: int, providerId: int, patientId: int, startDate: Date, endDate: Date)

  // ---------------------------------------------------------------------------
  // Duplicate removal in first-occurrence order (`drop_duplicates`, `unique`)

  /** The values of `xs` without repetitions, each kept where it first occurs. */
  function DropDuplicates(xs: seq<int>): (r: seq<int>)
    ensures forall x :: x in r <==> x in xs
    ensures forall i, j :: 0 <= i < j < |r| ==> r[i] != r[j]
  {
    if xs == [] then []
    else
      var n := |xs| - 1;
      assert xs == xs[..n] + [xs[n]];
      var r := DropDuplicates(xs[..n]);
      if xs[n] in xs[..n] then r else r + [xs[n]]
  }

  /** The position where `x` first occurs in `xs`. */
  function FirstIndex(xs: seq<int>, x: int): (i: nat)
    requires x in xs
    ensures i < |xs| && xs[i] == x && x !in xs[..i]
  {
    var n := |xs| - 1;
    if x in xs[..n] then
      var i := FirstIndex(xs[..n], x);
      assert xs[..n][..i] == xs[..i];
      i
    else n
  }

  /** A value first seen in `xs[..n]` keeps its first position when `xs` grows. */
  lemma FirstIndexOfPrefix(xs: seq<int>, n: nat, x: int)
    requires n <= |xs| && x in xs[..n]
    ensures FirstIndex(xs, x) == FirstIndex(xs[..n], x)
  {
    var i := FirstIndex(xs[..n], x);
    var k := FirstIndex(xs, x);
    assert xs[..n][..i] == xs[..i];
  }

  /** The kept values appear in the order of their first occurrences. */
  lemma {:induction false} DropDuplicatesKeepsFirstOccurrenceOrder(xs: seq<int>)
    ensures forall i, j :: 0 <= i < j < |DropDuplicates(xs)| ==>
              FirstIndex(xs, DropDuplicates(xs)[i]) < FirstIndex(xs, DropDuplicates(xs)[j])
  {
    if xs != [] {
      var n := |xs| - 1;
      var init := xs[..n];
      DropDuplicatesKeepsFirstOccurrenceOrder(init);
      var r0 := DropDuplicates(init);
      var r := DropDuplicates(xs);
      forall i, j | 0 <= i < j < |r|
        ensures FirstIndex(xs, r[i]) < FirstIndex(xs, r[j])
      {
        assert r[i] in r0;
        FirstIndexOfPrefix(xs, n, r[i]);
        if j < |r0| {
          FirstIndexOfPrefix(xs, n, r[j]);
        } else {
          assert r[j] == xs[n] && xs[n] !in init;
        }
      }
    }
  }

  // ---------------------------------------------------------------------------
  // Provider table

  /** The provider id column of the persons followed by that of the cases. */
  function ProviderColumn(persons: seq<PersonRow>, cases: seq<CaseRow>): (ids: seq<int>)
    ensures |ids| == |persons| + |cases|
    ensures forall i :: 0 <= i < |persons| ==> ids[i] == persons[i].providerId
    ensures forall i :: 0 <= i < |cases| ==> ids[|persons| + i] == cases[i].providerId
  {
    seq(|persons|, i requires 0 <= i < |persons| => persons[i].providerId)
      + seq(|cases|, i requires 0 <= i < |cases| => cases[i].providerId)
  }

  /**
   * The provider table: the distinct provider ids of persons and cases, in the order
   * they first occur in the persons followed by the cases.
   */
  function ProviderTable(persons: seq<PersonRow>, cases: seq<CaseRow>): (r: seq<int>)
    ensures forall i, j :: 0 <= i < j < |r| ==> r[i] != r[j]
    ensures forall i :: 0 <= i < |persons| ==> persons[i].providerId in r
    ensures forall i :: 0 <= i < |cases| ==> cases[i].providerId in r
    ensures forall p :: p in r ==> (exists i :: 0 <= i < |persons| && persons[i].providerId == p)
                                   || (exists i :: 0 <= i < |cases| && cases[i].providerId == p)
  {
    var column := ProviderColumn(persons, cases);
    assert forall p :: p in column ==> exists k :: 0 <= k < |column| && column[k] == p;
    assert forall i :: 0 <= i < |persons| ==> persons[i].providerId in column by {
      forall i | 0 <= i < |persons| ensures persons[i].providerId in column {
        assert column[i] == persons[i].providerId;
      }
    }
    assert forall i :: 0 <= i < |cases| ==> cases[i].providerId in column by {
      forall i | 0 <= i < |cases| ensures cases[i].providerId in column {
        assert column[|persons| + i] == cases[i].providerId;
      }
    }
    DropDuplicates(column)
  }

  /** Providers keep the order in which they first appear among persons, then cases. */
  lemma ProviderTableOrder(persons: seq<PersonRow>, cases: seq<CaseRow>)
    ensures forall i, j :: 0 <= i < j < |ProviderTable(persons, cases)| ==>
              FirstIndex(ProviderColumn(persons, cases), ProviderTable(persons, cases)[i])
              < FirstIndex(ProviderColumn(persons, cases), ProviderTable(persons, cases)[j])
  {
    DropDuplicatesKeepsFirstOccurrenceOrder(ProviderColumn(persons, cases));
  }

  // ---------------------------------------------------------------------------
  // Location and person tables

  datatype Location = Location(locationId: int, city: string, zip: string)

  /** One location per person row, identified by the patient id, with city and zip copied. */
  function LocationTable(persons: seq<PersonRow>): (r: seq<Location>)
    ensures |r| == |persons|
    ensures forall i :: 0 <= i < |r| ==> r[i].locationId == persons[i].patientId
    ensures forall i :: 0 <= i < |r| ==> r[i].city == persons[i].city && r[i].zip == persons[i].zip
  {
    seq(|persons|, i requires 0 <= i < |persons| => Location(persons[i].patientId, persons[i].city, persons[i].zip))
  }

  const FEMALE_CONCEPT := 8532
  const MALE_CONCEPT := 8507
  const UNKNOWN_RACIAL_GROUP := 4218674

  /** The gender concept of a source gender: 'w' is female, 'm' male, anything else 0. */
  function GenderConcept(gender: string): (c: int)
    ensures c == FEMALE_CONCEPT <==> gender == "w"
    ensures c == MALE_CONCEPT <==> gender == "m"
    ensures c == 0 <==> gender != "w" && gender != "m"
  {
    if gender == "w" then FEMALE_CONCEPT else if gender == "m" then MALE_CONCEPT else 0
  }

  datatype Person = Person(
    providerId: int, personSourceValue: int, genderSourceValue: string, birthDatetime: Date,
    personId: int, locationId: int, genderConceptId: int,
    yearOfBirth: int, monthOfBirth: int, dayOfBirth: int,
    raceConceptId: int, ethnicityConceptId: int)

  function PersonOf(row: PersonRow): Person
  {
    Person(row.providerId, row.patientId, row.gender, row.birthdate,
           row.patientId, row.patientId, GenderConcept(row.gender),
           row.birthdate.year, row.birthdate.month, row.birthdate.day,
           UNKNOWN_RACIAL_GROUP, 0)
  }

  /**
   * The person table: one person per source row (no row is dropped), whose person and
   * location ids are the patient id, with the gender concept and the parts of the
   * birth date, an unknown race and ethnicity 0.
   */
  function PersonTable(persons: seq<PersonRow>): (r: seq<Person>)
    ensures |r| == |persons|
    ensures forall i :: 0 <= i < |r| ==>
              r[i].personId == persons[i].patientId && r[i].locationId == persons[i].patientId
              && r[i].personSourceValue == persons[i].patientId && r[i].providerId == persons[i].providerId
    ensures forall i :: 0 <= i < |r| ==>
              r[i].genderSourceValue == persons[i].gender && r[i].genderConceptId == GenderConcept(persons[i].gender)
    ensures forall i :: 0 <= i < |r| ==>
              r[i].raceConceptId == UNKNOWN_RACIAL_GROUP && r[i].ethnicityConceptId == 0
    ensures forall i :: 0 <= i < |r| ==>
              r[i].yearOfBirth == persons[i].birthdate.year && r[i].monthOfBirth == persons[i].birthdate.month
              && r[i].dayOfBirth == persons[i].birthdate.day
  {
    seq(|persons|, i requires 0 <= i < |persons| => PersonOf(persons[i]))
  }

  /**
   * Every person's location id names a location of the location table, and that
   * location carries the city and zip of the person's source row.
   */
  lemma PersonLocationsExist(persons: seq<PersonRow>)
    ensures forall i :: 0 <= i < |persons| ==>
              Location(PersonTable(persons)[i].locationId, persons[i].city, persons[i].zip) in LocationTable(persons)
  {
    forall i | 0 <= i < |persons|
      ensures Location(PersonTable(persons)[i].locationId, persons[i].city, persons[i].zip) in LocationTable(persons)
    {
      assert LocationTable(persons)[i] == Location(PersonTable(persons)[i].locationId, persons[i].city, persons[i].zip);
    }
  }

  // ---------------------------------------------------------------------------
  // Observation-period table

  const EHR_TYPE_CONCEPT := 32817

  /** The patient id column of the cases. */
  function PatientIds(cases: seq<CaseRow>): (ids: seq<int>)
    ensures |ids| == |cases| && forall i :: 0 <= i < |cases| ==> ids[i] == cases[i].patientId
  {
    if cases == [] then [] else PatientIds(cases[..|cases| - 1]) + [cases[|cases| - 1].patientId]
  }

  /** The earlier of two dates. */
  function EarlierDate(a: Date, b: Date): Date
  {
    if DateLeq(a, b) then a else b
  }

  /** The later of two dates. */
  function LaterDate(a: Date, b: Date): Date
  {
    if DateLeq(a, b) then b else a
  }

  /** The minimum start date over the cases of a patient. */
  function EarliestStart(cases: seq<CaseRow>, patientId: int): (d: Date)
    requires patientId in PatientIds(cases)
    ensures exists i :: 0 <= i < |cases| && cases[i].patientId == patientId && cases[i].startDate == d
    ensures forall i :: 0 <= i < |cases| && cases[i].patientId == patientId ==> DateLeq(d, cases[i].startDate)
  {
    var n := |cases| - 1;
    var init := cases[..n];
    assert PatientIds(cases) == PatientIds(init) + [cases[n].patientId];
    if patientId !in PatientIds(init) then
      assert forall i :: 0 <= i < n ==> PatientIds(init)[i] == cases[i].patientId;
      cases[n].startDate
    else
      var d := EarliestStart(init, patientId);
      assert forall i :: 0 <= i < n ==> init[i] == cases[i];
      if cases[n].patientId == patientId then EarlierDate(d, cases[n].startDate) else d
  }

  /** The maximum end date over the cases of a patient. */
  function LatestEnd(cases: seq<CaseRow>, patientId: int): (d: Date)
    requires patientId in PatientIds(cases)
    ensures exists i :: 0 <= i < |cases| && cases[i].patientId == patientId && cases[i].endDate == d
    ensures forall i :: 0 <= i < |cases| && cases[i].patientId == patientId ==> DateLeq(cases[i].endDate, d)
  {
    var n := |cases| - 1;
    var init := cases[..n];
    assert PatientIds(cases) == PatientIds(init) + [cases[n].patientId];
    if patientId !in PatientIds(init) then
      assert forall i :: 0 <= i < n ==> PatientIds(init)[i] == cases[i].patientId;
      cases[n].endDate
    else
      var d := LatestEnd(init, patientId);
      assert forall i :: 0 <= i < n ==> init[i] == cases[i];
      if cases[n].patientId == patientId then LaterDate(d, cases[n].endDate) else d
  }

  datatype ObservationPeriod = ObservationPeriod(
    observationPeriodId: int, personId: int, startDate: Date, endDate: Date, periodTypeConceptId: int)

  /** The period of a patient seen in the cases: first start to last end. */
  function PeriodOf(cases: seq<CaseRow>, patientId: int, id: int): ObservationPeriod
    requires patientId in PatientIds(cases)
  {
    ObservationPeriod(id, patientId, EarliestStart(cases, patientId), LatestEnd(cases, patientId), EHR_TYPE_CONCEPT)
  }

  /** One period per distinct patient, in order of first appearance, numbered from 1. */
  function ObservationPeriodTable(cases: seq<CaseRow>): seq<ObservationPeriod>
  {
    var ids := DropDuplicates(PatientIds(cases));
    seq(|ids|, j requires 0 <= j < |ids| => PeriodOf(cases, ids[j], j + 1))
  }

  /**
   * Builds the observation periods patient by patient, with a running period id that
   * starts at 1.
   */
  method GenerateObservationPeriodTable(cases: seq<CaseRow>) returns (periods: seq<ObservationPeriod>)
    ensures periods == ObservationPeriodTable(cases)
  {
    var uniquePatientIds := DropDuplicates(PatientIds(cases));
    periods := [];
    var observationPeriodId := 1;
    for k := 0 to |uniquePatientIds|
      invariant observationPeriodId == k + 1
      invariant periods == ObservationPeriodTable(cases)[..k]
    {
      var patientId := uniquePatientIds[k];
      assert patientId in uniquePatientIds;
      var startDate := EarliestStart(cases, patientId);
      var endDate := LatestEnd(cases, patientId);
      ObservationPeriodTableAt(cases, k);
      periods := periods + [ObservationPeriod(observationPeriodId, patientId, startDate, endDate, EHR_TYPE_CONCEPT)];
      observationPeriodId := observationPeriodId + 1;
    }
    ObservationPeriodTableAt(cases, -1);
  }

  /** The table has one period per distinct patient, the `k`th for the `k`th patient. */
  lemma ObservationPeriodTableAt(cases: seq<CaseRow>, k: int)
    ensures |ObservationPeriodTable(cases)| == |DropDuplicates(PatientIds(cases))|
    ensures 0 <= k < |ObservationPeriodTable(cases)| ==>
              DropDuplicates(PatientIds(cases))[k] in PatientIds(cases)
              && ObservationPeriodTable(cases)[k] == PeriodOf(cases, DropDuplicates(PatientIds(cases))[k], k + 1)
  {
    var ids := DropDuplicates(PatientIds(cases));
    var table := ObservationPeriodTable(cases);
    assert |table| == |ids|;
    if 0 <= k < |ids| {
      assert ids[k] in ids;
      assert table[k] == PeriodOf(cases, ids[k], k + 1);
    }
  }

  /**
   * The periods are numbered 1, 2, ..., n, each has the EHR type and belongs to a
   * patient with a case, and no patient has two.
   */
  lemma ObservationPeriodsNumbered(cases: seq<CaseRow>)
    ensures forall j :: 0 <= j < |ObservationPeriodTable(cases)| ==>
              ObservationPeriodTable(cases)[j].observationPeriodId == j + 1
              && ObservationPeriodTable(cases)[j].periodTypeConceptId == EHR_TYPE_CONCEPT
              && ObservationPeriodTable(cases)[j].personId in PatientIds(cases)
    ensures forall j, k :: 0 <= j < k < |ObservationPeriodTable(cases)| ==>
              ObservationPeriodTable(cases)[j].personId != ObservationPeriodTable(cases)[k].personId
  {
    var ids := DropDuplicates(PatientIds(cases));
    var table := ObservationPeriodTable(cases);
    assert |table| == |ids|;
    forall j | 0 <= j < |table|
      ensures table[j].observationPeriodId == j + 1 && table[j].personId == ids[j]
      ensures table[j].periodTypeConceptId == EHR_TYPE_CONCEPT && ids[j] in PatientIds(cases)
    {
      assert table[j] == PeriodOf(cases, ids[j], j + 1);
      assert ids[j] in ids;
    }
  }

  /** Some period of `periods` belongs to the person. */
  predicate HasPeriod(periods: seq<ObservationPeriod>, personId: int)
  {
    exists j :: 0 <= j < |periods| && periods[j].personId == personId
  }

  /** Every patient with a case has an observation period. */
  lemma ObservationPeriodsCoverCases(cases: seq<CaseRow>)
    ensures forall i :: 0 <= i < |cases| ==> HasPeriod(ObservationPeriodTable(cases), cases[i].patientId)
  {
    forall i | 0 <= i < |cases|
      ensures HasPeriod(ObservationPeriodTable(cases), cases[i].patientId)
    {
      CaseWithinObservationPeriod(cases, i);
    }
  }

  /** Every case of a patient lies inside that patient's observation period. */
  lemma CaseWithinObservationPeriod(cases: seq<CaseRow>, i: nat)
    requires i < |cases|
    ensures exists j :: 0 <= j < |ObservationPeriodTable(cases)|
                        && ObservationPeriodTable(cases)[j].personId == cases[i].patientId
                        && DateLeq(ObservationPeriodTable(cases)[j].startDate, cases[i].startDate)
                        && DateLeq(cases[i].endDate, ObservationPeriodTable(cases)[j].endDate)
  {
    var ids := DropDuplicates(PatientIds(cases));
    var p := cases[i].patientId;
    assert PatientIds(cases)[i] == p;
    assert p in ids;
    var j :| 0 <= j < |ids| && ids[j] == p;
    assert ObservationPeriodTable(cases)[j] == PeriodOf(cases, p, j + 1);
  }

  // ---------------------------------------------------------------------------
  // Visit-occurrence table

  const UNKNOWN_VISIT_CONCEPT := 32209

  /** A case row under the visit table's column names, before the concept columns exist. */
  datatype VisitRow = VisitRow(visitOccurrenceId: int, providerId: int, personId: int,
                               visitStartDate: Date, visitEndDate: Date)

  datatype VisitOccurrence = VisitOccurrence(
    visitOccurrenceId: int, providerId: int, personId: int, visitStartDate: Date, visitEndDate: Date,
    visitConceptId: int, visitTypeConceptId: int)

  /** The copied case table with its columns renamed. */
  function Renamed(cases: seq<CaseRow>): (rows: seq<VisitRow>)
    ensures |rows| == |cases|
    ensures forall i :: 0 <= i < |cases| ==>
              rows[i].visitOccurrenceId == cases[i].caseId && rows[i].providerId == cases[i].providerId
              && rows[i].personId == cases[i].patientId
              && rows[i].visitStartDate == cases[i].startDate && rows[i].visitEndDate == cases[i].endDate
  {
    seq(|cases|, i requires 0 <= i < |cases| =>
      VisitRow(cases[i].caseId, cases[i].providerId, cases[i].patientId, cases[i].startDate, cases[i].endDate))
  }

  /** The visit of a case at position `i`: numbered `i + 1`, unknown visit concept, EHR type. */
  function VisitOf(c: CaseRow, i: int): VisitOccurrence
  {
    VisitOccurrence(i + 1, c.providerId, c.patientId, c.startDate, c.endDate, UNKNOWN_VISIT_CONCEPT, EHR_TYPE_CONCEPT)
  }

  function VisitOccurrenceTable(cases: seq<CaseRow>): seq<VisitOccurrence>
  {
    seq(|cases|, i requires 0 <= i < |cases| => VisitOf(cases[i], i))
  }

  /**
   * Copies the case table under the visit column names, overwrites each row's visit id
   * with its position plus one, then adds the two concept columns.
   */
  method GenerateVisitOccurrenceTable(cases: seq<CaseRow>) returns (visits: seq<VisitOccurrence>)
    ensures visits == VisitOccurrenceTable(cases)
  {
    var rows := Renamed(cases);
    for index := 0 to |rows|
      invariant |rows| == |cases|
      invariant forall j :: 0 <= j < index ==> rows[j] == Renamed(cases)[j].(visitOccurrenceId := j + 1)
      invariant forall j :: index <= j < |rows| ==> rows[j] == Renamed(cases)[j]
    {
      rows := rows[index := rows[index].(visitOccurrenceId := index + 1)];
    }
    visits := seq(|rows|, i requires 0 <= i < |rows| =>
      VisitOccurrence(rows[i].visitOccurrenceId, rows[i].providerId, rows[i].personId,
                      rows[i].visitStartDate, rows[i].visitEndDate, UNKNOWN_VISIT_CONCEPT, EHR_TYPE_CONCEPT));
  }

  /**
   * One visit per case, in case order: the visit ids are 1, 2, ..., n, whatever the
   * case ids were, and provider, person and dates are the case's.
   */
  lemma VisitsRenumbered(cases: seq<CaseRow>)
    ensures |VisitOccurrenceTable(cases)| == |cases|
    ensures forall i, j :: 0 <= i < j < |cases| ==>
              VisitOccurrenceTable(cases)[i].visitOccurrenceId < VisitOccurrenceTable(cases)[j].visitOccurrenceId
    ensures forall i :: 0 <= i < |cases| ==>
              VisitOccurrenceTable(cases)[i].visitOccurrenceId == i + 1
              && VisitOccurrenceTable(cases)[i].personId == cases[i].patientId
              && VisitOccurrenceTable(cases)[i].providerId == cases[i].providerId
              && VisitOccurrenceTable(cases)[i].visitStartDate == cases[i].startDate
              && VisitOccurrenceTable(cases)[i].visitEndDate == cases[i].endDate
  {
  }

  /** Every visit lies inside the observation period of its person. */
  lemma VisitWithinObservationPeriod(cases: seq<CaseRow>, i: nat)
    requires i < |cases|
    ensures exists j :: 0 <= j < |ObservationPeriodTable(cases)|
                        && ObservationPeriodTable(cases)[j].personId == VisitOccurrenceTable(cases)[i].personId
                        && DateLeq(ObservationPeriodTable(cases)[j].startDate, VisitOccurrenceTable(cases)[i].visitStartDate)
                        && DateLeq(VisitOccurrenceTable(cases)[i].visitEndDate, ObservationPeriodTable(cases)[j].endDate)
  {
    CaseWithinObservationPeriod(cases, i);
  }
}
