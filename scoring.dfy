/**
 * The specification of the scoring engine: the age rule, the reason/missing
 * checklists and the two decision tables, as functions of the patient's codes and
 * age. The methods of `PatientRecord.Patient` are proved to compute exactly these.
 */
module Scoring {
  import opened Snomed
  import opened Findings

  /** A calendar date as (year, month, day); no range checks, as the age rule needs none. */
  datatype Date = Date(year: int, month: int, day: int)

  /** `(a.month, a.day) < (b.month, b.day)`, Python's tuple comparison. */
  predicate EarlierInYear(a: Date, b: Date)
  {
    a.month < b.month || (a.month == b.month && a.day < b.day)
  }

  /** `a <= b` on dates, compared year first, then month, then day. */
  predicate DateLeq(a: Date, b: Date)
  {
    a.year < b.year || (a.year == b.year && !EarlierInYear(b, a))
  }

  /** Age in whole years on `caseDate`; negative or very large ages are returned as they are. */
  function CalculateAge(birthdate: Date, caseDate: Date): int
  {
    caseDate.year - birthdate.year - (if EarlierInYear(caseDate, birthdate) then 1 else 0)
  }

  /** The age is at least `n` exactly when the `n`-th birthday falls on or before the case date. */
  lemma AgeCountsCompletedYears(birthdate: Date, caseDate: Date, n: int)
    ensures CalculateAge(birthdate, caseDate) >= n
        <==> DateLeq(Date(birthdate.year + n, birthdate.month, birthdate.day), caseDate)
  {
  }

  /** The ages the test suite expects, including the unclamped negative one. */
  lemma AgeExamples()
    ensures CalculateAge(Date(2019, 1, 3), Date(2020, 2, 2)) == 1
    ensures CalculateAge(Date(2009, 2, 3), Date(2020, 2, 2)) == 10
    ensures CalculateAge(Date(1920, 2, 2), Date(2020, 2, 2)) == 100
    ensures CalculateAge(Date(2030, 1, 1), Date(2020, 2, 2)) == -10
  {
  }

  /** The reason strings; `Text` gives the German text each one stands for. */
  datatype Reason =
    | YoungerThanEight | YoungerThanTwenty | Fever | Exanthem | Enanthem
    | SwollenExtremities | Conjunctivitis | SwollenLymphnodes | CardialCondition
    | GastroIntestinalCondition | InflammationLab | Covid | Kawasaki | Pims
    | KawasakiSymptoms | Coagulopathy

  function Text(r: Reason): string
  {
    match r
    case YoungerThanEight => "0-7 Jahre alt"
    case YoungerThanTwenty => "0-19 Jahre alt"
    case Fever => "Fieber"
    case Exanthem => "Exanthem"
    case Enanthem => "Enanthem"
    case SwollenExtremities => "Geschwollene Extremitäten"
    case Conjunctivitis => "Konjunktivitis"
    case SwollenLymphnodes => "Lymphadenopathie"
    case CardialCondition => "Kardiale Erkrankung"
    case GastroIntestinalCondition => "Übelkeit, Erbrechen, Bauchschmerzen und/oder Durchfall"
    case InflammationLab => "Entzündungsparameter im Blut"
    case Covid => "Covid-19 Erkrankung"
    case Kawasaki => "Kawasaki-Syndrom"
    case Pims => "Pediatric Inflammatory Multisystem Syndrome (PIMS)"
    case KawasakiSymptoms => "Exanthem, Enanthem, Konjunktivitis oder geschwollene, gerötete Extremitäten"
    case Coagulopathy => "Gerinnungsstörung"
  }

  /** One checklist entry: its reason goes to the reasons list when present, else to the missing list. */
  datatype Item = Item(reason: Reason, present: bool)

  /** The reasons of the present items, in checklist order. */
  function Reasons(items: seq<Item>): seq<Reason>
  {
    if items == [] then []
    else
      var last := items[|items| - 1];
      Reasons(items[..|items| - 1]) + (if last.present then [last.reason] else [])
  }

  /** The reasons of the absent items, in checklist order. */
  function Missing(items: seq<Item>): seq<Reason>
  {
    if items == [] then []
    else
      var last := items[|items| - 1];
      Missing(items[..|items| - 1]) + (if last.present then [] else [last.reason])
  }

  predicate IsBand(score: real)
  {
    score == 0.0 || score == 0.5 || score == 0.75 || score == 1.0
  }

  predicate DistinctReasons(items: seq<Item>)
  {
    forall i, j :: 0 <= i < j < |items| ==> items[i].reason != items[j].reason
  }

  /** Recording one more item extends exactly one of the two lists by its reason. */
  lemma RecordItem(items: seq<Item>, item: Item)
    ensures Reasons(items + [item]) == Reasons(items) + (if item.present then [item.reason] else [])
    ensures Missing(items + [item]) == Missing(items) + (if item.present then [] else [item.reason])
  {
    assert (items + [item])[..|items|] == items;
  }

  /** A seven-entry checklist rebuilt entry by entry is the checklist; its last six entries are its tail. */
  lemma SevenEntries(items: seq<Item>, done: seq<Item>, tail: seq<Item>)
    requires |items| == 7
    requires done == [items[0]] + [items[1]] + [items[2]] + [items[3]] + [items[4]] + [items[5]] + [items[6]]
    requires tail == [] + [items[1]] + [items[2]] + [items[3]] + [items[4]] + [items[5]] + [items[6]]
    ensures done == items && tail == items[1..]
  {
  }

  /** The same for an eight-entry checklist. */
  lemma EightEntries(items: seq<Item>, done: seq<Item>, tail: seq<Item>)
    requires |items| == 8
    requires done == [items[0]] + [items[1]] + [items[2]] + [items[3]] + [items[4]] + [items[5]] + [items[6]] + [items[7]]
    requires tail == [] + [items[1]] + [items[2]] + [items[3]] + [items[4]] + [items[5]] + [items[6]] + [items[7]]
    ensures done == items && tail == items[1..]
  {
  }

  /** Every item lands in exactly one of the two lists. */
  lemma {:induction false} ListsSplitItems(items: seq<Item>)
    ensures |Reasons(items)| + |Missing(items)| == |items|
  {
    if items != [] {
      ListsSplitItems(items[..|items| - 1]);
    }
  }

  /** The number of present items, counted from the last one back. */
  function PresentCount(items: seq<Item>): nat
  {
    if items == [] then 0
    else PresentCount(items[..|items| - 1]) + (if items[|items| - 1].present then 1 else 0)
  }

  /** The reasons list holds one entry per present item. */
  lemma {:induction false} ReasonsCountPresent(items: seq<Item>)
    ensures |Reasons(items)| == PresentCount(items)
  {
    if items != [] {
      ReasonsCountPresent(items[..|items| - 1]);
    }
  }

  /** A reason is listed as present exactly when a present item carries it, and likewise for missing. */
  lemma ListMembership(items: seq<Item>, r: Reason)
    ensures r in Reasons(items) <==> exists j :: 0 <= j < |items| && items[j] == Item(r, true)
    ensures r in Missing(items) <==> exists j :: 0 <= j < |items| && items[j] == Item(r, false)
  {
    Carried(items, r, true);
    Carried(items, r, false);
  }

  /** `r` is in the list that items with presence `p` go to exactly when some item is `Item(r, p)`. */
  lemma {:induction false} Carried(items: seq<Item>, r: Reason, p: bool)
    ensures r in (if p then Reasons(items) else Missing(items))
        <==> exists j :: 0 <= j < |items| && items[j] == Item(r, p)
  {
    if items != [] {
      var n := |items| - 1;
      var init, last := items[..n], items[n];
      Carried(init, r, p);
      var list := if p then Reasons(items) else Missing(items);
      assert list == (if p then Reasons(init) else Missing(init)) + (if last.present == p then [last.reason] else []);
      if r in list {
        if last == Item(r, p) {
          assert items[n] == Item(r, p);
        } else {
          var j :| 0 <= j < |init| && init[j] == Item(r, p);
          assert items[j] == Item(r, p);
        }
      }
      if exists j :: 0 <= j < |items| && items[j] == Item(r, p) {
        var j :| 0 <= j < |items| && items[j] == Item(r, p);
        if j < n {
          assert init[j] == Item(r, p);
        }
      }
    }
  }

  /** With distinct reasons, an item's reason is in the reasons list iff present and in the missing list iff absent. */
  lemma ItemPlacement(items: seq<Item>, k: int)
    requires DistinctReasons(items)
    requires 0 <= k < |items|
    ensures items[k].reason in Reasons(items) <==> items[k].present
    ensures items[k].reason in Missing(items) <==> !items[k].present
  {
    ListMembership(items, items[k].reason);
  }

  /** If every present item of `a` is present in `b` at the same place, `b` lists at least as many reasons. */
  lemma {:induction false} MorePresentMoreReasons(a: seq<Item>, b: seq<Item>)
    requires |a| == |b|
    requires forall i :: 0 <= i < |a| && a[i].present ==> b[i].present
    ensures |Reasons(a)| <= |Reasons(b)|
  {
    if a != [] {
      MorePresentMoreReasons(a[..|a| - 1], b[..|b| - 1]);
    }
  }

  /**
   * For a checklist with distinct reasons followed by an optional diagnosis reason `d`
   * that no entry carries: every entry lands in exactly one list, and `d` is listed iff diagnosed.
   */
  lemma ChecklistPartition(items: seq<Item>, d: Reason, diagnosed: bool)
    requires DistinctReasons(items)
    requires forall k :: 0 <= k < |items| ==> items[k].reason != d
    ensures |Reasons(items) + (if diagnosed then [d] else [])| + |Missing(items)|
         == |items| + (if diagnosed then 1 else 0)
    ensures forall k :: 0 <= k < |items| ==>
      && (items[k].reason in Reasons(items) + (if diagnosed then [d] else []) <==> items[k].present)
      && (items[k].reason in Missing(items) <==> !items[k].present)
    ensures d in Reasons(items) + (if diagnosed then [d] else []) <==> diagnosed
    ensures d !in Missing(items)
  {
    ListsSplitItems(items);
    forall k | 0 <= k < |items|
      ensures items[k].reason in Reasons(items) <==> items[k].present
      ensures items[k].reason in Missing(items) <==> !items[k].present
    {
      ItemPlacement(items, k);
    }
    ListMembership(items, d);
  }

  // ---------------------------------------------------------------- Kawasaki

  /** The six Kawasaki symptoms in the order they are checked (fever first). */
  function KawasakiSymptomItems(conditions: seq<int>): seq<Item>
  {
    [ Item(Fever, HasFever(conditions)),
      Item(Exanthem, HasExanthem(conditions)),
      Item(SwollenExtremities, HasSwollenExtremities(conditions)),
      Item(Conjunctivitis, HasConjunctivitis(conditions)),
      Item(SwollenLymphnodes, HasLymphadenopathy(conditions)),
      Item(Enanthem, HasEnanthem(conditions)) ]
  }

  /** The age item followed by the six symptoms: the seven entries of the Kawasaki lists. */
  function KawasakiChecklist(conditions: seq<int>, age: int): seq<Item>
  {
    [Item(YoungerThanEight, age < 8)] + KawasakiSymptomItems(conditions)
  }

  /** The number of present Kawasaki symptoms, fever included. */
  function KawasakiSymptomCount(conditions: seq<int>): nat
  {
    |Reasons(KawasakiSymptomItems(conditions))|
  }

  /** The Kawasaki decision table. */
  function KawasakiScore(conditions: seq<int>, age: int): (r: real)
    ensures IsBand(r)
    ensures HasKawasaki(conditions) ==> r == 1.0
    ensures !HasKawasaki(conditions) && age >= 8 ==> r == 0.0
    ensures !HasKawasaki(conditions) && !HasFever(conditions) ==> r <= 0.5
  {
    var n := KawasakiSymptomCount(conditions);
    if HasKawasaki(conditions) then 1.0
    else if age >= 8 then 0.0
    else if HasFever(conditions) then
      (if n >= 5 then 1.0 else if n >= 2 then 0.75 else 0.5)
    else if n > 0 then 0.5
    else 0.0
  }

  function KawasakiReasons(conditions: seq<int>, age: int): seq<Reason>
  {
    Reasons(KawasakiChecklist(conditions, age)) + (if HasKawasaki(conditions) then [Kawasaki] else [])
  }

  function KawasakiMissing(conditions: seq<int>, age: int): seq<Reason>
  {
    Missing(KawasakiChecklist(conditions, age))
  }

  /**
   * Without a recorded diagnosis, a child under eight scores 1.0 exactly when fever is
   * present and at most one of the other five symptoms is missing.
   */
  lemma CompleteKawasakiCriteria(conditions: seq<int>, age: int)
    requires !HasKawasaki(conditions) && age < 8
    ensures KawasakiScore(conditions, age) == 1.0
        <==> HasFever(conditions) && |Missing(KawasakiSymptomItems(conditions))| <= 1
  {
    ListsSplitItems(KawasakiSymptomItems(conditions));
  }

  /**
   * The lower bands for an undiagnosed child under eight: 0.0 exactly when none of the six
   * symptoms is present, 0.75 (incomplete Kawasaki) exactly when fever and one to three of
   * the other five symptoms are present, and 0.5 exactly when some symptom is present but
   * fever is missing or is the only one.
   */
  lemma NoKawasakiSymptomsScoresZero(conditions: seq<int>, age: int)
    requires !HasKawasaki(conditions) && age < 8
    ensures KawasakiScore(conditions, age) == 0.0
        <==> forall k :: 0 <= k < 6 ==> !KawasakiSymptomItems(conditions)[k].present
    ensures KawasakiScore(conditions, age) == 0.75
        <==> HasFever(conditions) && 2 <= KawasakiSymptomCount(conditions) <= 4
    ensures KawasakiScore(conditions, age) == 0.5
        <==> (HasFever(conditions) && KawasakiSymptomCount(conditions) == 1)
             || (!HasFever(conditions) && KawasakiSymptomCount(conditions) >= 1)
  {
    var items := KawasakiSymptomItems(conditions);
    if forall k :: 0 <= k < 6 ==> !items[k].present {
      NothingPresentNoReasons(items);
      assert !items[0].present;
    } else {
      var k :| 0 <= k < 6 && items[k].present;
      ListMembership(items, items[k].reason);
      assert items[k] == Item(items[k].reason, true);
      assert |Reasons(items)| > 0;
    }
  }

  /** Each of the seven checklist entries is in exactly one list; the diagnosis reason is added iff diagnosed. */
  lemma KawasakiListsPartition(conditions: seq<int>, age: int)
    ensures |KawasakiReasons(conditions, age)| + |KawasakiMissing(conditions, age)|
         == 7 + (if HasKawasaki(conditions) then 1 else 0)
    ensures forall k :: 0 <= k < 7 ==>
      var item := KawasakiChecklist(conditions, age)[k];
      && (item.reason in KawasakiReasons(conditions, age) <==> item.present)
      && (item.reason in KawasakiMissing(conditions, age) <==> !item.present)
    ensures Kawasaki in KawasakiReasons(conditions, age) <==> HasKawasaki(conditions)
    ensures Kawasaki !in KawasakiMissing(conditions, age)
  {
    var items := KawasakiChecklist(conditions, age);
    assert DistinctReasons(items);
    ChecklistPartition(items, Kawasaki, HasKawasaki(conditions));
  }

  /** Adding codes never lowers the Kawasaki score. */
  lemma KawasakiScoreMonotone(a: seq<int>, b: seq<int>, age: int)
    requires forall x :: x in a ==> x in b
    ensures KawasakiScore(a, age) <= KawasakiScore(b, age)
  {
    KawasakiItemsGrow(a, b);
    MorePresentMoreReasons(KawasakiSymptomItems(a), KawasakiSymptomItems(b));
  }

  /** Entry by entry, every Kawasaki symptom present for the smaller code list is present for the larger. */
  lemma KawasakiItemsGrow(a: seq<int>, b: seq<int>)
    requires forall x :: x in a ==> x in b
    ensures forall i :: 0 <= i < 6 && KawasakiSymptomItems(a)[i].present ==> KawasakiSymptomItems(b)[i].present
    ensures HasKawasaki(a) ==> HasKawasaki(b)
  {
    AnyInGrows(a, b, FeverIds);
    AnyInGrows(a, b, ExanthemIds);
    AnyInGrows(a, b, SwollenExtremitiesIds);
    AnyInGrows(a, b, ConjunctivitisIds);
    AnyInGrows(a, b, LymphadenopathyIds);
    AnyInGrows(a, b, EnanthemIds);
  }

  /** The six codes the test suite gives its complete-Kawasaki patient make all six symptom predicates true. */
  lemma AllSymptomCodesFound(all: seq<int>)
    requires all == [FEVER, DISORDER_OF_LIP, OTHER_CONJUNCTIVITIS, LYMPHADENOPATHY, SWELLING_LOWER_LIMB, ERUPTION]
    ensures HasFever(all) && HasExanthem(all) && HasSwollenExtremities(all)
    ensures HasConjunctivitis(all) && HasLymphadenopathy(all) && HasEnanthem(all)
    ensures !HasKawasaki(all)
  {
    assert HasFever(all) by { assert FEVER in all && FEVER in FeverIds; }
    assert HasExanthem(all) by { assert ERUPTION in all && ERUPTION in ExanthemIds; }
    assert HasSwollenExtremities(all) by {
      assert SWELLING_LOWER_LIMB in all && SWELLING_LOWER_LIMB in SwollenExtremitiesIds;
    }
    assert HasConjunctivitis(all) by {
      assert OTHER_CONJUNCTIVITIS in all && OTHER_CONJUNCTIVITIS in ConjunctivitisIds;
    }
    assert HasLymphadenopathy(all) by {
      assert LYMPHADENOPATHY in all && LYMPHADENOPATHY in LymphadenopathyIds;
    }
    assert HasEnanthem(all) by { assert DISORDER_OF_LIP in all && DISORDER_OF_LIP in EnanthemIds; }
  }

  /** A child under eight without the diagnosis who shows all six symptoms scores 1.0 with nothing missing. */
  lemma AllKawasakiSymptoms(conditions: seq<int>, age: int)
    requires HasFever(conditions) && HasExanthem(conditions) && HasSwollenExtremities(conditions)
    requires HasConjunctivitis(conditions) && HasLymphadenopathy(conditions) && HasEnanthem(conditions)
    requires !HasKawasaki(conditions) && age < 8
    ensures KawasakiScore(conditions, age) == 1.0
    ensures |KawasakiReasons(conditions, age)| == 7
    ensures KawasakiMissing(conditions, age) == []
  {
    var symptoms := KawasakiSymptomItems(conditions);
    assert forall i :: 0 <= i < |symptoms| ==> symptoms[i].present;
    AllPresentNoneMissing(symptoms);
    ListsSplitItems(symptoms);
    var items := KawasakiChecklist(conditions, age);
    RecordFirst(items);
    assert items[1..] == symptoms;
  }

  /** The test suite's one-year-old with all six Kawasaki symptoms: score 1.0, seven reasons, nothing missing. */
  lemma KawasakiAllSymptomsScenario(all: seq<int>)
    requires all == [FEVER, DISORDER_OF_LIP, OTHER_CONJUNCTIVITIS, LYMPHADENOPATHY, SWELLING_LOWER_LIMB, ERUPTION]
    ensures KawasakiScore(all, 1) == 1.0
    ensures |KawasakiReasons(all, 1)| == 7
    ensures KawasakiMissing(all, 1) == []
  {
    AllSymptomCodesFound(all);
    AllKawasakiSymptoms(all, 1);
  }

  /** The test suite's one-year-old with fever only: score 0.5. */
  lemma KawasakiFeverOnlyScenario()
    ensures KawasakiScore([FEVER], 1) == 0.5
  {
    assert FEVER in FeverIds && KAWASAKI != FEVER;
    assert FEVER !in ExanthemIds && FEVER !in EnanthemIds && FEVER !in ConjunctivitisIds;
    assert FEVER !in LymphadenopathyIds && FEVER !in SwollenExtremitiesIds;
    NothingPresentNoReasons(KawasakiSymptomItems([FEVER])[1..]);
    RecordFirst(KawasakiSymptomItems([FEVER]));
  }

  lemma {:induction false} AllPresentNoneMissing(items: seq<Item>)
    requires forall i :: 0 <= i < |items| ==> items[i].present
    ensures Missing(items) == []
  {
    if items != [] {
      AllPresentNoneMissing(items[..|items| - 1]);
    }
  }

  lemma {:induction false} NothingPresentNoReasons(items: seq<Item>)
    requires forall i :: 0 <= i < |items| ==> !items[i].present
    ensures Reasons(items) == []
  {
    if items != [] {
      NothingPresentNoReasons(items[..|items| - 1]);
    }
  }

  /** Splitting off the first item. */
  lemma RecordFirst(items: seq<Item>)
    requires items != []
    ensures Reasons(items) == (if items[0].present then [items[0].reason] else []) + Reasons(items[1..])
    ensures Missing(items) == (if items[0].present then [] else [items[0].reason]) + Missing(items[1..])
  {
    ReasonsFirst(items);
    MissingFirst(items);
  }

  lemma {:induction false} ReasonsFirst(items: seq<Item>)
    requires items != []
    ensures Reasons(items) == (if items[0].present then [items[0].reason] else []) + Reasons(items[1..])
  {
    if |items| > 1 {
      var init, tail := items[..|items| - 1], items[1..];
      ReasonsFirst(init);
      assert init[0] == items[0];
      assert init[1..] == tail[..|tail| - 1];
      assert tail[|tail| - 1] == items[|items| - 1];
    } else {
      assert items[..0] == [] && items[1..] == [];
    }
  }

  lemma {:induction false} MissingFirst(items: seq<Item>)
    requires items != []
    ensures Missing(items) == (if items[0].present then [] else [items[0].reason]) + Missing(items[1..])
  {
    if |items| > 1 {
      var init, tail := items[..|items| - 1], items[1..];
      MissingFirst(init);
      assert init[0] == items[0];
      assert init[1..] == tail[..|tail| - 1];
      assert tail[|tail| - 1] == items[|items| - 1];
    } else {
      assert items[..0] == [] && items[1..] == [];
    }
  }

  // ---------------------------------------------------------------- PIMS

  /** Exanthem, enanthem, conjunctivitis or swollen extremities. */
  predicate HasKawasakiSymptom(conditions: seq<int>)
  {
    HasExanthem(conditions) || HasEnanthem(conditions)
    || HasConjunctivitis(conditions) || HasSwollenExtremities(conditions)
  }

  /**
   * The seven PIMS symptom entries in the order they are checked. A recorded Kawasaki
   * diagnosis takes the place of the Kawasaki-symptoms entry.
   */
  function PimsSymptomItems(conditions: seq<int>, highMeasurements: seq<int>): seq<Item>
  {
    [ Item(Fever, HasFever(conditions)),
      Item(if HasKawasaki(conditions) then Kawasaki else KawasakiSymptoms,
           HasKawasaki(conditions) || HasKawasakiSymptom(conditions)),
      Item(CardialCondition, HasCardiacCondition(conditions)),
      Item(Coagulopathy, HasCoagulopathy(highMeasurements)),
      Item(GastroIntestinalCondition, HasGastroIntestinalCondition(conditions)),
      Item(Covid, HasCovid(conditions)),
      Item(InflammationLab, HasInflammationLab(highMeasurements)) ]
  }

  /** The age item followed by the seven symptom entries: the eight entries of the PIMS lists. */
  function PimsChecklist(conditions: seq<int>, highMeasurements: seq<int>, age: int): seq<Item>
  {
    [Item(YoungerThanTwenty, age < 20)] + PimsSymptomItems(conditions, highMeasurements)
  }

  /** Present PIMS symptoms; a Kawasaki diagnosis without recorded fever counts once more, for the implied fever. */
  function PimsSymptomCount(conditions: seq<int>, highMeasurements: seq<int>): nat
  {
    |Reasons(PimsSymptomItems(conditions, highMeasurements))|
    + (if HasKawasaki(conditions) && !HasFever(conditions) then 1 else 0)
  }

  /** The side symptoms of the WHO criteria: Kawasaki (diagnosis or symptom), cardiac, gastro-intestinal, coagulopathy. */
  function PimsSideSymptomCount(conditions: seq<int>, highMeasurements: seq<int>): nat
  {
    (if HasKawasaki(conditions) || HasKawasakiSymptom(conditions) then 1 else 0)
    + (if HasCardiacCondition(conditions) then 1 else 0)
    + (if HasGastroIntestinalCondition(conditions) then 1 else 0)
    + (if HasCoagulopathy(highMeasurements) then 1 else 0)
  }

  /** Fever (or a Kawasaki diagnosis implying it), COVID-19 and raised inflammation markers. */
  predicate PimsCoreCriteria(conditions: seq<int>, highMeasurements: seq<int>)
  {
    (HasFever(conditions) || HasKawasaki(conditions)) && HasCovid(conditions)
    && HasInflammationLab(highMeasurements)
  }

  /** The PIMS decision table. */
  function PimsScore(conditions: seq<int>, highMeasurements: seq<int>, age: int): (r: real)
    ensures IsBand(r)
    ensures HasPims(conditions) ==> r == 1.0
    ensures !HasPims(conditions) && age >= 20 ==> r == 0.0
    ensures !HasPims(conditions) && age < 20 && PimsCoreCriteria(conditions, highMeasurements) ==> r >= 0.75
    ensures !HasPims(conditions) && !PimsCoreCriteria(conditions, highMeasurements) ==> r <= 0.75
  {
    var n := PimsSymptomCount(conditions, highMeasurements);
    if HasPims(conditions) then 1.0
    else if age >= 20 then 0.0
    else if PimsCoreCriteria(conditions, highMeasurements) then
      (if PimsSideSymptomCount(conditions, highMeasurements) >= 2 then 1.0 else 0.75)
    else if n >= 3 then 0.75
    else if n >= 1 then 0.5
    else 0.0
  }

  function PimsReasons(conditions: seq<int>, highMeasurements: seq<int>, age: int): seq<Reason>
  {
    Reasons(PimsChecklist(conditions, highMeasurements, age)) + (if HasPims(conditions) then [Pims] else [])
  }

  function PimsMissing(conditions: seq<int>, highMeasurements: seq<int>, age: int): seq<Reason>
  {
    Missing(PimsChecklist(conditions, highMeasurements, age))
  }

  /** Each of the eight checklist entries is in exactly one list; the diagnosis reason is added iff diagnosed. */
  lemma PimsListsPartition(conditions: seq<int>, highMeasurements: seq<int>, age: int)
    ensures |PimsReasons(conditions, highMeasurements, age)| + |PimsMissing(conditions, highMeasurements, age)|
         == 8 + (if HasPims(conditions) then 1 else 0)
    ensures forall k :: 0 <= k < 8 ==>
      var item := PimsChecklist(conditions, highMeasurements, age)[k];
      && (item.reason in PimsReasons(conditions, highMeasurements, age) <==> item.present)
      && (item.reason in PimsMissing(conditions, highMeasurements, age) <==> !item.present)
    ensures Pims in PimsReasons(conditions, highMeasurements, age) <==> HasPims(conditions)
    ensures Pims !in PimsMissing(conditions, highMeasurements, age)
  {
    PimsChecklistDistinct(conditions, highMeasurements, age);
    ChecklistPartition(PimsChecklist(conditions, highMeasurements, age), Pims, HasPims(conditions));
  }

  lemma PimsChecklistDistinct(conditions: seq<int>, highMeasurements: seq<int>, age: int)
    ensures DistinctReasons(PimsChecklist(conditions, highMeasurements, age))
    ensures forall k :: 0 <= k < 8 ==> PimsChecklist(conditions, highMeasurements, age)[k].reason != Pims
  {
    var items := PimsChecklist(conditions, highMeasurements, age);
    var entry := if HasKawasaki(conditions) then Kawasaki else KawasakiSymptoms;
    DistinctShape(items, [YoungerThanTwenty, Fever, entry, CardialCondition, Coagulopathy,
                          GastroIntestinalCondition, Covid, InflammationLab]);
  }

  /** A checklist whose reasons follow a list of distinct reasons has distinct reasons. */
  lemma DistinctShape(items: seq<Item>, rs: seq<Reason>)
    requires |items| == |rs|
    requires forall k :: 0 <= k < |items| ==> items[k].reason == rs[k]
    requires forall i, j :: 0 <= i < j < |rs| ==> rs[i] != rs[j]
    ensures DistinctReasons(items)
  {
  }

  /** When only item `k` can carry reason `r`, `r` is listed exactly where item `k` puts it. */
  lemma SoleCarrier(items: seq<Item>, k: int, r: Reason)
    requires 0 <= k < |items|
    requires forall j :: 0 <= j < |items| && j != k ==> items[j].reason != r
    ensures r in Reasons(items) <==> items[k] == Item(r, true)
    ensures r in Missing(items) <==> items[k] == Item(r, false)
  {
    ListMembership(items, r);
  }

  /** A recorded Kawasaki diagnosis replaces the Kawasaki-symptoms entry of the PIMS lists. */
  lemma PimsKawasakiEntry(conditions: seq<int>, highMeasurements: seq<int>, age: int)
    ensures Kawasaki in PimsReasons(conditions, highMeasurements, age) <==> HasKawasaki(conditions)
    ensures Kawasaki !in PimsMissing(conditions, highMeasurements, age)
    ensures KawasakiSymptoms in PimsReasons(conditions, highMeasurements, age)
         <==> !HasKawasaki(conditions) && HasKawasakiSymptom(conditions)
    ensures KawasakiSymptoms in PimsMissing(conditions, highMeasurements, age)
         <==> !HasKawasaki(conditions) && !HasKawasakiSymptom(conditions)
  {
    var items := PimsChecklist(conditions, highMeasurements, age);
    var kawasaki := HasKawasaki(conditions);
    assert items[2] == Item(if kawasaki then Kawasaki else KawasakiSymptoms,
                            kawasaki || HasKawasakiSymptom(conditions));
    assert forall j :: 0 <= j < |items| && j != 2 ==>
      items[j].reason != Kawasaki && items[j].reason != KawasakiSymptoms;
    SoleCarrier(items, 2, Kawasaki);
    SoleCarrier(items, 2, KawasakiSymptoms);
  }

  /** Entry by entry, every PIMS symptom present for the smaller code lists is present for the larger. */
  lemma PimsItemsGrow(a: seq<int>, b: seq<int>, ma: seq<int>, mb: seq<int>)
    requires forall x :: x in a ==> x in b
    requires forall x :: x in ma ==> x in mb
    ensures forall i :: 0 <= i < 7 && PimsSymptomItems(a, ma)[i].present ==> PimsSymptomItems(b, mb)[i].present
    ensures HasKawasaki(a) ==> HasKawasaki(b)
    ensures HasPims(a) ==> HasPims(b)
    ensures HasKawasakiSymptom(a) ==> HasKawasakiSymptom(b)
  {
    AnyInGrows(a, b, FeverIds);
    AnyInGrows(a, b, ExanthemIds);
    AnyInGrows(a, b, EnanthemIds);
    AnyInGrows(a, b, ConjunctivitisIds);
    AnyInGrows(a, b, SwollenExtremitiesIds);
    AnyInGrows(a, b, CardiacIds);
    AnyInGrows(a, b, GastroIntestinalIds);
    AnyInGrows(a, b, CovidIds);
    AnyInGrows(ma, mb, InflammationLabIds);
    AnyInGrows(ma, mb, CoagulopathyIds);
  }

  /** Adding codes or high measurements never lowers the PIMS symptom tally. */
  lemma PimsSymptomCountMonotone(a: seq<int>, b: seq<int>, ma: seq<int>, mb: seq<int>)
    requires forall x :: x in a ==> x in b
    requires forall x :: x in ma ==> x in mb
    ensures PimsSymptomCount(a, ma) <= PimsSymptomCount(b, mb)
  {
    var sa, sb := PimsSymptomItems(a, ma), PimsSymptomItems(b, mb);
    PimsItemsGrow(a, b, ma, mb);
    if HasKawasaki(a) && !HasFever(a) && HasFever(b) {
      // the implied fever of `a` is matched by the recorded fever of `b`
      var sa' := sa[0 := Item(Fever, true)];
      RecordFirst(sa);
      RecordFirst(sa');
      assert sa[1..] == sa'[1..];
      MorePresentMoreReasons(sa', sb);
    } else {
      assert sa[0].present ==> sb[0].present;
      MorePresentMoreReasons(sa, sb);
    }
  }

  /**
   * The WHO criteria for an undiagnosed patient under twenty: the score is 1.0 exactly
   * when fever (or a Kawasaki diagnosis), COVID-19 and raised inflammation markers are
   * present together with at least two of the four side criteria.
   */
  lemma CompletePimsCriteria(conditions: seq<int>, highMeasurements: seq<int>, age: int)
    requires !HasPims(conditions) && age < 20
    ensures PimsScore(conditions, highMeasurements, age) == 1.0
        <==> PimsCoreCriteria(conditions, highMeasurements) && PimsSideSymptomCount(conditions, highMeasurements) >= 2
  {
  }

  /**
   * An undiagnosed patient under twenty scores 0.0 exactly when none of the seven PIMS
   * symptom entries is present.
   */
  lemma NoPimsSymptomsScoresZero(conditions: seq<int>, highMeasurements: seq<int>, age: int)
    requires !HasPims(conditions) && age < 20
    ensures PimsScore(conditions, highMeasurements, age) == 0.0
        <==> forall k :: 0 <= k < 7 ==> !PimsSymptomItems(conditions, highMeasurements)[k].present
  {
    var items := PimsSymptomItems(conditions, highMeasurements);
    if forall k :: 0 <= k < 7 ==> !items[k].present {
      NothingPresentNoReasons(items);
      assert !items[0].present && !items[1].present;
    } else {
      var k :| 0 <= k < 7 && items[k].present;
      ListMembership(items, items[k].reason);
      assert items[k] == Item(items[k].reason, true);
      assert |Reasons(items)| > 0;
    }
  }

  /** The PIMS reasons list holds one entry per present symptom entry, of the seven. */
  lemma PimsReasonCount(conditions: seq<int>, highMeasurements: seq<int>)
    ensures |Reasons(PimsSymptomItems(conditions, highMeasurements))|
         == (if HasFever(conditions) then 1 else 0)
          + (if HasKawasaki(conditions) || HasKawasakiSymptom(conditions) then 1 else 0)
          + (if HasCardiacCondition(conditions) then 1 else 0)
          + (if HasCoagulopathy(highMeasurements) then 1 else 0)
          + (if HasGastroIntestinalCondition(conditions) then 1 else 0)
          + (if HasCovid(conditions) then 1 else 0)
          + (if HasInflammationLab(highMeasurements) then 1 else 0)
  {
    var items := PimsSymptomItems(conditions, highMeasurements);
    ReasonsCountPresent(items);
    assert items[..1][..0] == [];
    assert items[..2][..1] == items[..1];
    assert items[..3][..2] == items[..2];
    assert items[..4][..3] == items[..3];
    assert items[..5][..4] == items[..4];
    assert items[..6][..5] == items[..5];
    assert items[..6] == items[..|items| - 1];
    assert PresentCount(items[..1]) == (if items[0].present then 1 else 0);
    assert PresentCount(items[..2]) == PresentCount(items[..1]) + (if items[1].present then 1 else 0);
    assert PresentCount(items[..3]) == PresentCount(items[..2]) + (if items[2].present then 1 else 0);
    assert PresentCount(items[..4]) == PresentCount(items[..3]) + (if items[3].present then 1 else 0);
    assert PresentCount(items[..5]) == PresentCount(items[..4]) + (if items[4].present then 1 else 0);
    assert PresentCount(items[..6]) == PresentCount(items[..5]) + (if items[5].present then 1 else 0);
    assert PresentCount(items) == PresentCount(items[..6]) + (if items[6].present then 1 else 0);
  }

  /**
   * The count bands for an undiagnosed patient under twenty: the score is at least 0.75
   * exactly when three or more PIMS symptoms count, and 0.5 exactly when one or two do.
   */
  lemma PimsMiddleBands(conditions: seq<int>, highMeasurements: seq<int>, age: int)
    requires !HasPims(conditions) && age < 20
    ensures PimsScore(conditions, highMeasurements, age) >= 0.75 <==> PimsSymptomCount(conditions, highMeasurements) >= 3
    ensures PimsScore(conditions, highMeasurements, age) == 0.5 <==> 1 <= PimsSymptomCount(conditions, highMeasurements) < 3
  {
    PimsReasonCount(conditions, highMeasurements);
  }

  /** Adding codes or high measurements never lowers the PIMS score. */
  lemma PimsScoreMonotone(a: seq<int>, b: seq<int>, ma: seq<int>, mb: seq<int>, age: int)
    requires forall x :: x in a ==> x in b
    requires forall x :: x in ma ==> x in mb
    ensures PimsScore(a, ma, age) <= PimsScore(b, mb, age)
  {
    PimsItemsGrow(a, b, ma, mb);
    PimsSymptomCountMonotone(a, b, ma, mb);
    var sa, sb := PimsSymptomItems(a, ma), PimsSymptomItems(b, mb);
    assert sa[2].present ==> sb[2].present;
    assert sa[3].present ==> sb[3].present;
    assert sa[4].present ==> sb[4].present;
    assert PimsSideSymptomCount(a, ma) <= PimsSideSymptomCount(b, mb);
    assert sa[0].present ==> sb[0].present;
    assert sa[5].present ==> sb[5].present;
    assert sa[6].present ==> sb[6].present;
    assert PimsCoreCriteria(a, ma) ==> PimsCoreCriteria(b, mb);
  }

  /**
   * A five-year-old with COVID-19, fever, one Kawasaki symptom and a high CRP meets the
   * core criteria with one side symptom: 0.75.
   */
  lemma PimsOneSideSymptomScenario()
    ensures PimsScore([COVID_19, FEVER, DISORDER_OF_ORAL_SOFT_TISSUE], [3020460], 5) == 0.75
  {
    var c := [COVID_19, FEVER, DISORDER_OF_ORAL_SOFT_TISSUE];
    assert COVID_19 in CovidIds && FEVER in FeverIds && DISORDER_OF_ORAL_SOFT_TISSUE in EnanthemIds;
    assert PIMS !in c && KAWASAKI !in c;
    assert forall x :: x in c ==> x !in CardiacIds && x !in GastroIntestinalIds;
    assert 3020460 in InflammationLabIds && 3020460 !in CoagulopathyIds;
  }

  /** The same child with a cardiac condition as well has two side symptoms: 1.0. */
  lemma PimsTwoSideSymptomsScenario()
    ensures PimsScore([COVID_19, FEVER, DISORDER_OF_ORAL_SOFT_TISSUE, PERICARDITIS], [3020460], 5) == 1.0
  {
    var c := [COVID_19, FEVER, DISORDER_OF_ORAL_SOFT_TISSUE, PERICARDITIS];
    assert COVID_19 in CovidIds && FEVER in FeverIds && DISORDER_OF_ORAL_SOFT_TISSUE in EnanthemIds;
    assert PERICARDITIS in CardiacIds && PIMS !in c;
    assert 3020460 in InflammationLabIds;
  }

  /** A child whose only finding is fever scores 0.5 (one symptom, core criteria not met). */
  lemma PimsSingleSymptomScenario()
    ensures PimsScore([FEVER], [], 5) == 0.5
  {
    var f := [FEVER];
    assert FEVER in FeverIds && FEVER !in CovidIds && PIMS != FEVER && KAWASAKI != FEVER;
    assert FEVER !in ExanthemIds && FEVER !in EnanthemIds && FEVER !in ConjunctivitisIds;
    assert FEVER !in SwollenExtremitiesIds && FEVER !in CardiacIds && FEVER !in GastroIntestinalIds;
    var items := PimsSymptomItems(f, []);
    assert forall i :: 1 <= i < |items| ==> !items[i].present;
    NothingPresentNoReasons(items[1..]);
    RecordFirst(items);
  }
}
