/**
 * The patient object of the analysis back end: its code lists grow by appending, and
 * the two scoring methods rebuild the reason/missing lists and store the score. Each
 * method is proved to leave exactly the state that the functions of `Scoring` describe.
 * The `has_...` queries of the object are the predicates of `Findings` applied to
 * the object's `conditions` or `highMeasurements`.
 */
module PatientRecord {
  import opened Findings
  import opened Scoring

  class Patient {
    var id: int
    var name: string
    var birthdate: Date
    var caseDate: Date
    var conditions: seq<int>
    var highMeasurements: seq<int>
    var procedures: seq<int>
    var kawasakiScore: real
    var pimsScore: real
    var reasonsForKawasaki: seq<Reason>
    var missingForKawasaki: seq<Reason>
    var reasonsForPims: seq<Reason>
    var missingForPims: seq<Reason>

    /** A new patient has no codes, both scores 0.0 and empty reason/missing lists. */
    constructor (patientId: int, name: string, birthdate: Date, caseDate: Date)
      ensures id == patientId && this.name == name
      ensures this.birthdate == birthdate && this.caseDate == caseDate
      ensures conditions == [] && highMeasurements == [] && procedures == []
      ensures kawasakiScore == 0.0 && pimsScore == 0.0
      ensures reasonsForKawasaki == [] && missingForKawasaki == []
      ensures reasonsForPims == [] && missingForPims == []
    {
      id := patientId;
      this.name := name;
      this.birthdate := birthdate;
      this.caseDate := caseDate;
      conditions, highMeasurements, procedures := [], [], [];
      kawasakiScore, pimsScore := 0.0, 0.0;
      reasonsForKawasaki, missingForKawasaki := [], [];
      reasonsForPims, missingForPims := [], [];
    }

    method AddCondition(condition: int)
      modifies this`conditions
      ensures conditions == old(conditions) + [condition]
    {
      conditions := conditions + [condition];
    }

    method AddHighMeasurement(measurement: int)
      modifies this`highMeasurements
      ensures highMeasurements == old(highMeasurements) + [measurement]
    {
      highMeasurements := highMeasurements + [measurement];
    }

    method AddProcedure(procedure: int)
      modifies this`procedures
      ensures procedures == old(procedures) + [procedure]
    {
      procedures := procedures + [procedure];
    }

    /** Age in whole years on the case date. */
    function Age(): int
      reads this`birthdate, this`caseDate
    {
      CalculateAge(birthdate, caseDate)
    }

    /**
     * One block of the Kawasaki tally: the item's reason goes to the reasons list and
     * the count goes up by one if the item is present, else the reason goes to the
     * missing list. The ghost parameters say which checklist entries were recorded
     * before (`done`) on top of which lists (`r0`, `m0`), and which of them were counted.
     */
    method RecordKawasakiItem(item: Item, count: int, ghost r0: seq<Reason>, ghost m0: seq<Reason>,
                              ghost done: seq<Item>, ghost counted: seq<Item>) returns (n: int)
      requires reasonsForKawasaki == r0 + Reasons(done)
      requires missingForKawasaki == m0 + Missing(done)
      requires count == |Reasons(counted)|
      modifies this`reasonsForKawasaki, this`missingForKawasaki
      ensures n == |Reasons(counted + [item])|
      ensures reasonsForKawasaki == r0 + Reasons(done + [item])
      ensures missingForKawasaki == m0 + Missing(done + [item])
    {
      RecordItem(done, item);
      RecordItem(counted, item);
      n := count;
      if item.present {
        n := n + 1;
        reasonsForKawasaki := reasonsForKawasaki + [item.reason];
      } else {
        missingForKawasaki := missingForKawasaki + [item.reason];
      }
    }

    /**
     * Records a seven-entry checklist (the age entry, then six symptoms) entry by entry
     * and returns the number of present symptoms.
     */
    method RecordKawasakiChecklist(items: seq<Item>) returns (n: int)
      requires |items| == 7
      modifies this`reasonsForKawasaki, this`missingForKawasaki
      ensures n == |Reasons(items[1..])|
      ensures reasonsForKawasaki == old(reasonsForKawasaki) + Reasons(items)
      ensures missingForKawasaki == old(missingForKawasaki) + Missing(items)
    {
      ghost var r0, m0 := reasonsForKawasaki, missingForKawasaki;
      // the entries recorded so far, and those of them that are counted
      ghost var done: seq<Item>, counted: seq<Item> := [], [];
      var ignored := RecordKawasakiItem(items[0], 0, r0, m0, done, counted);  // age, listed but not counted
      done := done + [items[0]];
      n := 0;
      n := RecordKawasakiItem(items[1], n, r0, m0, done, counted);
      done, counted := done + [items[1]], counted + [items[1]];
      n := RecordKawasakiItem(items[2], n, r0, m0, done, counted);
      done, counted := done + [items[2]], counted + [items[2]];
      n := RecordKawasakiItem(items[3], n, r0, m0, done, counted);
      done, counted := done + [items[3]], counted + [items[3]];
      n := RecordKawasakiItem(items[4], n, r0, m0, done, counted);
      done, counted := done + [items[4]], counted + [items[4]];
      n := RecordKawasakiItem(items[5], n, r0, m0, done, counted);
      done, counted := done + [items[5]], counted + [items[5]];
      n := RecordKawasakiItem(items[6], n, r0, m0, done, counted);
      done, counted := done + [items[6]], counted + [items[6]];
      SevenEntries(items, done, counted);
    }

    /**
     * Appends the age entry and the six symptom entries to the Kawasaki lists (each
     * to the reasons list if present, else to the missing list) and returns the
     * number of symptoms present.
     */
    method CountKawasakiSymptoms() returns (n: int)
      modifies this`reasonsForKawasaki, this`missingForKawasaki
      ensures n == KawasakiSymptomCount(conditions)
      ensures reasonsForKawasaki == old(reasonsForKawasaki) + Reasons(KawasakiChecklist(conditions, Age()))
      ensures missingForKawasaki == old(missingForKawasaki) + Missing(KawasakiChecklist(conditions, Age()))
    {
      // age, fever, exanthem, swollen extremities, conjunctivitis, lymphadenopathy, enanthem
      var items := KawasakiChecklist(conditions, Age());
      n := RecordKawasakiChecklist(items);
    }

    /**
     * Rebuilds the Kawasaki reason/missing lists and stores and returns the Kawasaki score;
     * the new state is exactly the one the Kawasaki decision table describes.
     */
    method CalculateKawasakiScore() returns (score: real)
      modifies this`reasonsForKawasaki, this`missingForKawasaki, this`kawasakiScore
      ensures score == kawasakiScore == KawasakiScore(conditions, Age())
      ensures reasonsForKawasaki == KawasakiReasons(conditions, Age())
      ensures missingForKawasaki == KawasakiMissing(conditions, Age())
    {
      reasonsForKawasaki, missingForKawasaki := [], [];
      var numOfSymptoms := CountKawasakiSymptoms();
      // the code lists and the age do not change while the score is computed
      var c, age := conditions, Age();
      if HasKawasaki(c) {
        reasonsForKawasaki := reasonsForKawasaki + [Kawasaki];
        kawasakiScore := 1.0;
      } else if age >= 8 {
        kawasakiScore := 0.0;
      } else if HasFever(c) {
        if numOfSymptoms >= 5 {
          kawasakiScore := 1.0;
        } else if numOfSymptoms >= 2 {
          kawasakiScore := 0.75;
        } else {
          kawasakiScore := 0.5;
        }
      } else if numOfSymptoms > 0 {
        kawasakiScore := 0.5;
      } else {
        kawasakiScore := 0.0;
      }
      score := kawasakiScore;
    }

    /** One block of the PIMS tally; see `RecordKawasakiItem`. */
    method RecordPimsItem(item: Item, count: int, ghost r0: seq<Reason>, ghost m0: seq<Reason>,
                          ghost done: seq<Item>, ghost counted: seq<Item>) returns (n: int)
      requires reasonsForPims == r0 + Reasons(done)
      requires missingForPims == m0 + Missing(done)
      requires count == |Reasons(counted)|
      modifies this`reasonsForPims, this`missingForPims
      ensures n == |Reasons(counted + [item])|
      ensures reasonsForPims == r0 + Reasons(done + [item])
      ensures missingForPims == m0 + Missing(done + [item])
    {
      RecordItem(done, item);
      RecordItem(counted, item);
      n := count;
      if item.present {
        reasonsForPims := reasonsForPims + [item.reason];
        n := n + 1;
      } else {
        missingForPims := missingForPims + [item.reason];
      }
    }

    /**
     * Records an eight-entry checklist (the age entry, then seven symptoms) entry by entry
     * and returns the number of present symptoms.
     */
    method RecordPimsChecklist(items: seq<Item>) returns (n: int)
      requires |items| == 8
      modifies this`reasonsForPims, this`missingForPims
      ensures n == |Reasons(items[1..])|
      ensures reasonsForPims == old(reasonsForPims) + Reasons(items)
      ensures missingForPims == old(missingForPims) + Missing(items)
    {
      ghost var r0, m0 := reasonsForPims, missingForPims;
      ghost var done: seq<Item>, counted: seq<Item> := [], [];
      var ignored := RecordPimsItem(items[0], 0, r0, m0, done, counted);  // age, listed but not counted
      done := done + [items[0]];
      n := 0;
      n := RecordPimsItem(items[1], n, r0, m0, done, counted);
      done, counted := done + [items[1]], counted + [items[1]];
      n := RecordPimsItem(items[2], n, r0, m0, done, counted);
      done, counted := done + [items[2]], counted + [items[2]];
      n := RecordPimsItem(items[3], n, r0, m0, done, counted);
      done, counted := done + [items[3]], counted + [items[3]];
      n := RecordPimsItem(items[4], n, r0, m0, done, counted);
      done, counted := done + [items[4]], counted + [items[4]];
      n := RecordPimsItem(items[5], n, r0, m0, done, counted);
      done, counted := done + [items[5]], counted + [items[5]];
      n := RecordPimsItem(items[6], n, r0, m0, done, counted);
      done, counted := done + [items[6]], counted + [items[6]];
      n := RecordPimsItem(items[7], n, r0, m0, done, counted);
      done, counted := done + [items[7]], counted + [items[7]];
      EightEntries(items, done, counted);
    }

    /**
     * Appends the age entry and the seven PIMS symptom entries to the PIMS lists and
     * returns the symptom tally, in which a Kawasaki diagnosis without recorded fever
     * counts twice.
     */
    method CountPimsSymptoms() returns (n: int)
      modifies this`reasonsForPims, this`missingForPims
      ensures n == PimsSymptomCount(conditions, highMeasurements)
      ensures reasonsForPims == old(reasonsForPims) + Reasons(PimsChecklist(conditions, highMeasurements, Age()))
      ensures missingForPims == old(missingForPims) + Missing(PimsChecklist(conditions, highMeasurements, Age()))
    {
      // age, fever, Kawasaki diagnosis or symptom, cardiac, coagulopathy, gastro-intestinal, COVID-19, lab
      var items := PimsChecklist(conditions, highMeasurements, Age());
      n := RecordPimsChecklist(items);
      // a Kawasaki diagnosis implies fever
      if HasKawasaki(conditions) && !HasFever(conditions) {
        n := n + 1;
      }
    }

    /**
     * The side-symptom tally of the PIMS core branch: a Kawasaki diagnosis or Kawasaki
     * symptom, a cardiac condition, a gastro-intestinal condition and coagulopathy count
     * one each.
     */
    method CountPimsSideSymptoms() returns (k: int)
      ensures 0 <= k <= 4
      ensures k == PimsSideSymptomCount(conditions, highMeasurements)
    {
      var c, m := conditions, highMeasurements;
      k := 0;
      if HasKawasaki(c) {
        k := k + 1;
      } else if HasExanthem(c) || HasEnanthem(c) || HasConjunctivitis(c) || HasSwollenExtremities(c) {
        k := k + 1;
      }
      if HasCardiacCondition(c) {
        k := k + 1;
      }
      if HasGastroIntestinalCondition(c) {
        k := k + 1;
      }
      if HasCoagulopathy(m) {
        k := k + 1;
      }
    }

    /**
     * Rebuilds the PIMS reason/missing lists and stores and returns the PIMS score;
     * the new state is exactly the one the PIMS decision table describes.
     */
    method CalculatePimsScore() returns (score: real)
      modifies this`reasonsForPims, this`missingForPims, this`pimsScore
      ensures score == pimsScore == PimsScore(conditions, highMeasurements, Age())
      ensures reasonsForPims == PimsReasons(conditions, highMeasurements, Age())
      ensures missingForPims == PimsMissing(conditions, highMeasurements, Age())
    {
      reasonsForPims, missingForPims := [], [];
      var numOfSymptoms := CountPimsSymptoms();
      // the code lists and the age do not change while the score is computed
      var c, m, age := conditions, highMeasurements, Age();
      if HasPims(c) {
        reasonsForPims := reasonsForPims + [Pims];
        pimsScore := 1.0;
      } else if age >= 20 {
        pimsScore := 0.0;
      } else if (HasFever(c) || HasKawasaki(c)) && HasCovid(c) && HasInflammationLab(m) {
        var numOfSideSymptoms := CountPimsSideSymptoms();
        if numOfSideSymptoms >= 2 {
          pimsScore := 1.0;
        } else {
          pimsScore := 0.75;
        }
      } else if numOfSymptoms >= 3 {
        pimsScore := 0.75;
      } else if numOfSymptoms >= 1 {
        pimsScore := 0.5;
      } else {
        pimsScore := 0.0;
      }
      score := pimsScore;
    }
  }
}
