/**
 * The back-end interface: creating a patient from decoded form data (one fixed code
 * per set flag), and the two lookups over the cached, already scored patients.
 */
module Backend {
  import opened Wrappers
  import opened Snomed
  import opened Findings
  import opened Scoring
  import opened PatientInterface
  import opened PatientRecord

  /** Python truthiness of a form value: a set flag, or a non-empty text. */
  predicate Truthy(v: FieldValue)
  {
    match v
    case Flag(b) => b
    case Text(s) => s != ""
  }

  /** The flag `key` is present and truthy. */
  predicate FlagOn(data: PatientData, key: string)
  {
    key in data && Truthy(data[key])
  }

  /** A form flag and the code a set flag adds to the patient's conditions. */
  datatype FlagCode = FlagCode(key: string, code: int)

  /** The flags in the order they are read, each with its code. */
  const FlagTable: seq<FlagCode> := [
    FlagCode(HAS_COVID, COVID_19),
    FlagCode(HAS_FEVER, FEVER),
    FlagCode(HAS_EXANTHEM, ERUPTION),
    FlagCode(HAS_ENANTHEM, DISORDER_OF_ORAL_SOFT_TISSUE),
    FlagCode(HAS_SWOLLEN_EXTREMITIES, SWELLING),
    FlagCode(HAS_CONJUNCTIVITIS, OTHER_CONJUNCTIVITIS),
    FlagCode(HAS_SWOLLEN_LYMPHNODES, LYMPHADENOPATHY),
    FlagCode(HAS_GASTRO_INTESTINAL_CONDITION, NAUSEA_AND_VOMITING),
    FlagCode(HAS_ASCITES, ASCITES),
    FlagCode(HAS_PERICARDIAL_EFFUSIONS, PERICARDIAL_EFFUSION),
    FlagCode(HAS_PLEURAL_EFFUSIONS, PLEURAL_EFFUSION),
    FlagCode(HAS_PERICARDITIS, PERICARDITIS),
    FlagCode(HAS_MYOCARDITIS, MYOCARDITIS)
  ]

  predicate HasAllFlags(table: seq<FlagCode>, data: PatientData)
  {
    forall i :: 0 <= i < |table| ==> table[i].key in data
  }

  /** The codes of the set flags, in table order. */
  function CodesOf(table: seq<FlagCode>, data: PatientData): seq<int>
    requires HasAllFlags(table, data)
  {
    if table == [] then []
    else
      var n := |table| - 1;
      CodesOf(table[..n], data) + (if Truthy(data[table[n].key]) then [table[n].code] else [])
  }

  /** The positions of the set flags. */
  function SetFlags(table: seq<FlagCode>, data: PatientData): set<int>
    requires HasAllFlags(table, data)
  {
    set i | 0 <= i < |table| && Truthy(data[table[i].key])
  }

  /** A code is added exactly when some set flag carries it. */
  lemma {:induction false} CodesMembership(table: seq<FlagCode>, data: PatientData, code: int)
    requires HasAllFlags(table, data)
    ensures code in CodesOf(table, data)
        <==> exists i :: 0 <= i < |table| && table[i].code == code && Truthy(data[table[i].key])
  {
    if table != [] {
      var n := |table| - 1;
      var init := table[..n];
      CodesMembership(init, data, code);
      if code in CodesOf(table, data) && code !in CodesOf(init, data) {
        assert table[n].code == code && Truthy(data[table[n].key]);
      }
      if exists i :: 0 <= i < |table| && table[i].code == code && Truthy(data[table[i].key]) {
        var i :| 0 <= i < |table| && table[i].code == code && Truthy(data[table[i].key]);
        if i < n {
          assert init[i] == table[i];
        }
      }
    }
  }

  /** One code per set flag: the created patient has as many conditions as there are set flags. */
  lemma {:induction false} CodesCount(table: seq<FlagCode>, data: PatientData)
    requires HasAllFlags(table, data)
    ensures |CodesOf(table, data)| == |SetFlags(table, data)|
  {
    if table != [] {
      var n := |table| - 1;
      var init := table[..n];
      CodesCount(init, data);
      var before := SetFlags(init, data);
      assert n !in before;
      if Truthy(data[table[n].key]) {
        assert SetFlags(table, data) == before + {n};
      } else {
        assert SetFlags(table, data) == before;
      }
    }
  }

  /** Appending one more flag's outcome: the snoc step of `CodesOf`. */
  lemma RecordFlag(done: seq<FlagCode>, entry: FlagCode, data: PatientData)
    requires HasAllFlags(done, data) && entry.key in data
    ensures HasAllFlags(done + [entry], data)
    ensures CodesOf(done + [entry], data)
         == CodesOf(done, data) + (if Truthy(data[entry.key]) then [entry.code] else [])
  {
    assert (done + [entry])[..|done|] == done;
  }

  /**
   * The block for flag `k` of the creation: a missing key fails (the source's
   * `KeyError`), a set flag appends its code, an unset flag appends nothing.
   */
  method AddFlagCode(p: Patient, table: seq<FlagCode>, data: PatientData, k: nat) returns (ok: bool)
    requires k < |table| && HasAllFlags(table[..k], data) && p.conditions == CodesOf(table[..k], data)
    modifies p`conditions
    ensures ok <==> table[k].key in data
    ensures !ok ==> !HasAllFlags(table, data)
    ensures ok ==> HasAllFlags(table[..k + 1], data) && p.conditions == CodesOf(table[..k + 1], data)
  {
    var entry := table[k];
    if entry.key !in data {
      return false;
    }
    assert table[..k + 1] == table[..k] + [entry];
    RecordFlag(table[..k], entry, data);
    if Truthy(data[entry.key]) {
      p.AddCondition(entry.code);
    }
    ok := true;
  }

  /** Reads the thirteen flags of `table` in order, stopping at the first missing one. */
  method AddFlagCodes(p: Patient, table: seq<FlagCode>, data: PatientData) returns (ok: bool)
    requires |table| == 13 && p.conditions == []
    modifies p`conditions
    ensures ok <==> HasAllFlags(table, data)
    ensures ok ==> p.conditions == CodesOf(table, data)
  {
    assert table[..0] == [];
    ok := AddFlagCode(p, table, data, 0);
    if !ok { return; }
    ok := AddFlagCode(p, table, data, 1);
    if !ok { return; }
    ok := AddFlagCode(p, table, data, 2);
    if !ok { return; }
    ok := AddFlagCode(p, table, data, 3);
    if !ok { return; }
    ok := AddFlagCode(p, table, data, 4);
    if !ok { return; }
    ok := AddFlagCode(p, table, data, 5);
    if !ok { return; }
    ok := AddFlagCode(p, table, data, 6);
    if !ok { return; }
    ok := AddFlagCode(p, table, data, 7);
    if !ok { return; }
    ok := AddFlagCode(p, table, data, 8);
    if !ok { return; }
    ok := AddFlagCode(p, table, data, 9);
    if !ok { return; }
    ok := AddFlagCode(p, table, data, 10);
    if !ok { return; }
    ok := AddFlagCode(p, table, data, 11);
    if !ok { return; }
    ok := AddFlagCode(p, table, data, 12);
    if !ok { return; }
    assert table[..13] == table;
  }

  /**
   * The codes carried by the flags at positions `ks` are exactly the codes of `table`
   * in `ids`, so a predicate testing `ids` holds of the created conditions exactly when
   * one of those flags is set.
   */
  lemma FlagsFound(table: seq<FlagCode>, data: PatientData, ids: seq<int>, ks: set<int>)
    requires HasAllFlags(table, data)
    requires forall k :: k in ks ==> 0 <= k < |table|
    requires forall i :: 0 <= i < |table| ==> (table[i].code in ids <==> i in ks)
    ensures AnyIn(CodesOf(table, data), ids) <==> exists k :: k in ks && Truthy(data[table[k].key])
  {
    var codes := CodesOf(table, data);
    if AnyIn(codes, ids) {
      var x :| x in codes && x in ids;
      CodesMembership(table, data, x);
      var i :| 0 <= i < |table| && table[i].code == x && Truthy(data[table[i].key]);
      assert i in ks;
    }
    if exists k :: k in ks && Truthy(data[table[k].key]) {
      var k :| k in ks && Truthy(data[table[k].key]);
      CodesMembership(table, data, table[k].code);
      assert table[k].code in codes && table[k].code in ids;
    }
  }

  /** A code carried by the flag at position `k` only is added exactly when that flag is set. */
  lemma FlagCodeFound(table: seq<FlagCode>, data: PatientData, code: int, k: nat)
    requires HasAllFlags(table, data) && k < |table|
    requires forall i :: 0 <= i < |table| ==> (table[i].code == code <==> i == k)
    ensures code in CodesOf(table, data) <==> Truthy(data[table[k].key])
  {
    CodesMembership(table, data, code);
  }

  /** The fever, exanthem and enanthem predicates of the created conditions read back their flags. */
  lemma FeverRashFlagsRoundTrip(data: PatientData)
    requires HasAllFlags(FlagTable, data)
    ensures HasFever(CodesOf(FlagTable, data)) == FlagOn(data, HAS_FEVER)
    ensures HasExanthem(CodesOf(FlagTable, data)) == FlagOn(data, HAS_EXANTHEM)
    ensures HasEnanthem(CodesOf(FlagTable, data)) == FlagOn(data, HAS_ENANTHEM)
  {
    var c := CodesOf(FlagTable, data);
    assert HasFever(c) == FlagOn(data, HAS_FEVER) by { FlagsFound(FlagTable, data, FeverIds, {1}); }
    assert HasExanthem(c) == FlagOn(data, HAS_EXANTHEM) by { FlagsFound(FlagTable, data, ExanthemIds, {2}); }
    assert HasEnanthem(c) == FlagOn(data, HAS_ENANTHEM) by { FlagsFound(FlagTable, data, EnanthemIds, {3}); }
  }

  /**
   * The swollen-extremities, conjunctivitis and lymph-node predicates of the created
   * conditions read back their flags.
   */
  lemma SwellingFlagsRoundTrip(data: PatientData)
    requires HasAllFlags(FlagTable, data)
    ensures HasSwollenExtremities(CodesOf(FlagTable, data)) == FlagOn(data, HAS_SWOLLEN_EXTREMITIES)
    ensures HasConjunctivitis(CodesOf(FlagTable, data)) == FlagOn(data, HAS_CONJUNCTIVITIS)
    ensures HasLymphadenopathy(CodesOf(FlagTable, data)) == FlagOn(data, HAS_SWOLLEN_LYMPHNODES)
  {
    var c := CodesOf(FlagTable, data);
    assert HasSwollenExtremities(c) == FlagOn(data, HAS_SWOLLEN_EXTREMITIES) by {
      FlagsFound(FlagTable, data, SwollenExtremitiesIds, {4});
    }
    assert HasConjunctivitis(c) == FlagOn(data, HAS_CONJUNCTIVITIS) by {
      FlagsFound(FlagTable, data, ConjunctivitisIds, {5});
    }
    assert HasLymphadenopathy(c) == FlagOn(data, HAS_SWOLLEN_LYMPHNODES) by {
      FlagsFound(FlagTable, data, LymphadenopathyIds, {6});
    }
  }

  /**
   * The covid and gastro-intestinal predicates of the created conditions read back
   * their flags; the effusion finding is the disjunction of its three flags.
   */
  lemma SystemicFlagsRoundTrip(data: PatientData)
    requires HasAllFlags(FlagTable, data)
    ensures HasCovid(CodesOf(FlagTable, data)) == FlagOn(data, HAS_COVID)
    ensures HasGastroIntestinalCondition(CodesOf(FlagTable, data))
         == FlagOn(data, HAS_GASTRO_INTESTINAL_CONDITION)
    ensures HasEffusion(CodesOf(FlagTable, data))
        <==> FlagOn(data, HAS_ASCITES) || FlagOn(data, HAS_PERICARDIAL_EFFUSIONS)
             || FlagOn(data, HAS_PLEURAL_EFFUSIONS)
  {
    var c := CodesOf(FlagTable, data);
    assert HasCovid(c) == FlagOn(data, HAS_COVID) by { FlagsFound(FlagTable, data, CovidIds, {0}); }
    assert HasGastroIntestinalCondition(c) == FlagOn(data, HAS_GASTRO_INTESTINAL_CONDITION) by {
      FlagsFound(FlagTable, data, GastroIntestinalIds, {7});
    }
    assert HasEffusion(c) <==> FlagOn(data, HAS_ASCITES) || FlagOn(data, HAS_PERICARDIAL_EFFUSIONS)
                               || FlagOn(data, HAS_PLEURAL_EFFUSIONS) by {
      FlagsFound(FlagTable, data, EffusionIds, {8, 9, 10});
    }
  }

  /**
   * The pericardial-effusion, pericarditis and myocarditis predicates of the created
   * conditions read back their flags, the cardiac finding is pericarditis or
   * myocarditis, and no form flag carries a Kawasaki or PIMS diagnosis.
   */
  lemma HeartFlagsRoundTrip(data: PatientData)
    requires HasAllFlags(FlagTable, data)
    ensures HasPericardialEffusions(CodesOf(FlagTable, data)) == FlagOn(data, HAS_PERICARDIAL_EFFUSIONS)
    ensures HasPericarditis(CodesOf(FlagTable, data)) == FlagOn(data, HAS_PERICARDITIS)
    ensures HasMyocarditis(CodesOf(FlagTable, data)) == FlagOn(data, HAS_MYOCARDITIS)
    ensures HasCardiacCondition(CodesOf(FlagTable, data))
        <==> FlagOn(data, HAS_PERICARDITIS) || FlagOn(data, HAS_MYOCARDITIS)
    ensures !HasKawasaki(CodesOf(FlagTable, data)) && !HasPims(CodesOf(FlagTable, data))
  {
    var c := CodesOf(FlagTable, data);
    assert HasPericardialEffusions(c) == FlagOn(data, HAS_PERICARDIAL_EFFUSIONS) by {
      FlagCodeFound(FlagTable, data, PERICARDIAL_EFFUSION, 9);
    }
    assert HasPericarditis(c) == FlagOn(data, HAS_PERICARDITIS) by {
      FlagCodeFound(FlagTable, data, PERICARDITIS, 11);
    }
    assert HasMyocarditis(c) == FlagOn(data, HAS_MYOCARDITIS) by {
      FlagCodeFound(FlagTable, data, MYOCARDITIS, 12);
    }
    assert HasCardiacCondition(c) <==> FlagOn(data, HAS_PERICARDITIS) || FlagOn(data, HAS_MYOCARDITIS) by {
      FlagsFound(FlagTable, data, CardiacIds, {11, 12});
    }
    assert !HasKawasaki(c) by { CodesMembership(FlagTable, data, KAWASAKI); }
    assert !HasPims(c) by { CodesMembership(FlagTable, data, PIMS); }
  }

  /** Every flag of the table is a declared flag field of the patient data. */
  lemma FlagTableKeysAreFlagFields()
    ensures forall i :: 0 <= i < |FlagTable| ==> PatientDataFields[i + 2] == Field(FlagTable[i].key, FlagField)
  {
  }

  /**
   * Data decoded from a form carries every flag of the table, and a flag is on exactly
   * when its key was submitted.
   */
  lemma DecodedFormFlags(form: map<string, string>, d: PatientData)
    requires forall f :: f in PatientDataFields && f.kind == FlagField ==> f.key in d && d[f.key] == Flag(f.key in form)
    ensures HasAllFlags(FlagTable, d)
    ensures forall i :: 0 <= i < |FlagTable| ==> (FlagOn(d, FlagTable[i].key) <==> FlagTable[i].key in form)
  {
    FlagTableKeysAreFlagFields();
    forall i | 0 <= i < |FlagTable|
      ensures FlagTable[i].key in d && d[FlagTable[i].key] == Flag(FlagTable[i].key in form)
    {
      var f := PatientDataFields[i + 2];
      assert f in PatientDataFields;
    }
  }

  /** The six Kawasaki symptom flags are declared flag fields. */
  lemma KawasakiFlagFieldsDeclared()
    ensures Field(HAS_FEVER, FlagField) in PatientDataFields
    ensures Field(HAS_EXANTHEM, FlagField) in PatientDataFields
    ensures Field(HAS_ENANTHEM, FlagField) in PatientDataFields
    ensures Field(HAS_SWOLLEN_EXTREMITIES, FlagField) in PatientDataFields
    ensures Field(HAS_CONJUNCTIVITIS, FlagField) in PatientDataFields
    ensures Field(HAS_SWOLLEN_LYMPHNODES, FlagField) in PatientDataFields
  {
    assert PatientDataFields[3] == Field(HAS_FEVER, FlagField);
    assert PatientDataFields[4] == Field(HAS_EXANTHEM, FlagField);
    assert PatientDataFields[5] == Field(HAS_ENANTHEM, FlagField);
    assert PatientDataFields[6] == Field(HAS_SWOLLEN_EXTREMITIES, FlagField);
    assert PatientDataFields[7] == Field(HAS_CONJUNCTIVITIS, FlagField);
    assert PatientDataFields[8] == Field(HAS_SWOLLEN_LYMPHNODES, FlagField);
  }

  /**
   * From the submitted form to the symptom predicates: for data decoded from a form,
   * each Kawasaki symptom of the created conditions holds exactly when its flag's key
   * was submitted.
   */
  lemma FormKawasakiSymptoms(form: map<string, string>, d: PatientData)
    requires forall f :: f in PatientDataFields && f.kind == FlagField ==> f.key in d && d[f.key] == Flag(f.key in form)
    ensures HasAllFlags(FlagTable, d)
    ensures HasFever(CodesOf(FlagTable, d)) <==> HAS_FEVER in form
    ensures HasExanthem(CodesOf(FlagTable, d)) <==> HAS_EXANTHEM in form
    ensures HasEnanthem(CodesOf(FlagTable, d)) <==> HAS_ENANTHEM in form
    ensures HasSwollenExtremities(CodesOf(FlagTable, d)) <==> HAS_SWOLLEN_EXTREMITIES in form
    ensures HasConjunctivitis(CodesOf(FlagTable, d)) <==> HAS_CONJUNCTIVITIS in form
    ensures HasLymphadenopathy(CodesOf(FlagTable, d)) <==> HAS_SWOLLEN_LYMPHNODES in form
  {
    DecodedFormFlags(form, d);
    KawasakiFlagFieldsDeclared();
    FeverRashFlagsRoundTrip(d);
    SwellingFlagsRoundTrip(d);
  }

  /** One of the patients the back end keeps in memory, as the overview lists it. */
  function Summary(p: Patient): (r: AnalysisData)
    reads p
    ensures r.name == p.name && r.probabilityPims == p.pimsScore && r.probabilityKawasaki == p.kawasakiScore
  {
    AnalysisData(p.name, p.pimsScore, p.kawasakiScore)
  }

  /** The overview of `ps` built in order, a later patient with the same id overwriting an earlier one. */
  function AnalysisTable(ps: seq<Patient>): map<int, AnalysisData>
    reads ps
  {
    if ps == [] then map[]
    else
      var n := |ps| - 1;
      AnalysisTable(ps[..n])[ps[n].id := Summary(ps[n])]
  }

  /** The overview has one entry per distinct patient id and no other. */
  lemma {:induction false} AnalysisTableKeys(ps: seq<Patient>)
    ensures AnalysisTable(ps).Keys == set i | 0 <= i < |ps| :: ps[i].id
  {
    if ps != [] {
      var n := |ps| - 1;
      AnalysisTableKeys(ps[..n]);
      assert forall i :: 0 <= i < n ==> ps[..n][i] == ps[i];
    }
  }

  /** The entry of an id summarises the last patient carrying that id. */
  lemma {:induction false} AnalysisTableLastWins(ps: seq<Patient>, i: nat)
    requires i < |ps| && forall j :: i < j < |ps| ==> ps[j].id != ps[i].id
    ensures ps[i].id in AnalysisTable(ps) && AnalysisTable(ps)[ps[i].id] == Summary(ps[i])
  {
    var n := |ps| - 1;
    if i < n {
      AnalysisTableLastWins(ps[..n], i);
    }
  }

  /** The reasons reported for `disease`: the matching score and reasons-for list of `p`. */
  function ReasonsReport(p: Patient, disease: Disease): (r: DecisionReasons)
    reads p
    ensures r.disease == disease
    ensures disease == KawasakiDisease ==> r.probability == p.kawasakiScore && r.pro == p.reasonsForKawasaki
    ensures disease == PimsDisease ==> r.probability == p.pimsScore && r.pro == p.reasonsForPims
  {
    match disease
    case KawasakiDisease => DecisionReasons(KawasakiDisease, p.kawasakiScore, p.reasonsForKawasaki)
    case PimsDisease => DecisionReasons(PimsDisease, p.pimsScore, p.reasonsForPims)
  }

  /** `i` is the first position of `ps` holding a patient with id `id`. */
  predicate FirstWithId(ps: seq<Patient>, id: int, i: int)
    reads ps
  {
    0 <= i < |ps| && ps[i].id == id && forall j :: 0 <= j < i ==> ps[j].id != id
  }

  /** The back end's in-memory cache of analysed patients. */
  class BackendManager {
    var patients: seq<Patient>

    constructor (patients: seq<Patient>)
      ensures this.patients == patients
    {
      this.patients := patients;
    }

    /**
     * Creates a patient with the allocated id (`None`: allocation failed) and one
     * condition per set flag, or `null` when allocation failed or a flag is missing.
     */
    method CreatePatientFromData(data: PatientData, allocatedId: Option<int>, name: string,
                                 birthdate: Date, caseDate: Date) returns (p: Patient?)
      ensures allocatedId.None? ==> p == null
      ensures allocatedId.Some? ==> (p != null <==> HasAllFlags(FlagTable, data))
      ensures p != null ==> fresh(p) && p.id == allocatedId.value && p.name == name
                            && p.birthdate == birthdate && p.caseDate == caseDate
      ensures p != null ==> p.conditions == CodesOf(FlagTable, data)
                            && p.highMeasurements == [] && p.procedures == []
      ensures p != null ==> p.kawasakiScore == 0.0 && p.pimsScore == 0.0
                            && p.reasonsForKawasaki == [] && p.missingForKawasaki == []
                            && p.reasonsForPims == [] && p.missingForPims == []
    {
      if allocatedId.None? {
        return null;
      }
      p := new Patient(allocatedId.value, name, birthdate, caseDate);
      var ok := AddFlagCodes(p, FlagTable, data);
      if !ok {
        return null;
      }
    }

    /** The overview: patient id to name and both scores, the last patient of an id winning. */
    method AnalysisDataById() returns (d: map<int, AnalysisData>)
      ensures d == AnalysisTable(patients)
    {
      d := map[];
      var i := 0;
      while i < |patients|
        invariant 0 <= i <= |patients|
        invariant d == AnalysisTable(patients[..i])
      {
        var p := patients[i];
        assert patients[..i + 1][..i] == patients[..i];
        d := d[p.id := AnalysisData(p.name, p.pimsScore, p.kawasakiScore)];
        i := i + 1;
      }
      assert patients[..i] == patients;
    }

    /**
     * The decision reasons of the first cached patient with the id for the disease, or
     * `None` when no cached patient has that id.
     */
    method GetDecisionReason(patientId: int, disease: Disease) returns (r: Option<DecisionReasons>)
      ensures r.None? <==> forall j :: 0 <= j < |patients| ==> patients[j].id != patientId
      ensures r.Some? ==> exists i :: FirstWithId(patients, patientId, i)
                                   && r.value == ReasonsReport(patients[i], disease)
    {
      var i := 0;
      while i < |patients|
        invariant 0 <= i <= |patients|
        invariant forall j :: 0 <= j < i ==> patients[j].id != patientId
      {
        var p := patients[i];
        if p.id == patientId {
          if disease == KawasakiDisease {
            r := Some(DecisionReasons(KawasakiDisease, p.kawasakiScore, p.reasonsForKawasaki));
          } else {
            r := Some(DecisionReasons(PimsDisease, p.pimsScore, p.reasonsForPims));
          }
          assert FirstWithId(patients, patientId, i);
          return;
        }
        i := i + 1;
      }
      r := None;
    }
  }
}
