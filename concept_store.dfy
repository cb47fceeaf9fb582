/**
 * The concept-store helpers of the database manager: normalising a source code before
 * it is looked up, mapping a (code, vocabulary) pair to its standard concept, and
 * drawing fresh row ids. The database is a value holding the rows the queries see;
 * the random draws are a supplied sequence of candidates.
 */
module ConceptStore {
  import opened Wrappers

  /** The characters stripped from the end of a code: they never occur in stored concept codes. */
  predicate IsMark(c: char)
  {
    c == '!' || c == '+'
  }

  /** The code with its trailing run of `!` and `+` removed (`rstrip("!+")`). */
  function StripMarks(code: string): (r: string)
    ensures |r| <= |code| && r == code[..|r|]
    ensures r == [] || !IsMark(r[|r| - 1])
    ensures forall k :: |r| <= k < |code| ==> IsMark(code[k])
  {
    if code != [] && IsMark(code[|code| - 1]) then StripMarks(code[..|code| - 1]) else code
  }


  /**
   * The three properties of `StripMarks` determine it: a prefix without a trailing
   * mark, followed only by marks, is the stripped code. In particular marks inside the
   * code are kept.
   */
  lemma {:induction false} StripMarksUnique(code: string, r: string)
    requires |r| <= |code| && r == code[..|r|]
    requires r == [] || !IsMark(r[|r| - 1])
    requires forall k :: |r| <= k < |code| ==> IsMark(code[k])
    ensures StripMarks(code) == r
  {
    if |r| < |code| {
      var init := code[..|code| - 1];
      assert init[..|r|] == r;
      StripMarksUnique(init, r);
    }
  }

  /** Stripping twice strips nothing more. */
  lemma StripMarksIdempotent(code: string)
    ensures StripMarks(StripMarks(code)) == StripMarks(code)
  {
    var r := StripMarks(code);
    assert r[..|r|] == r;
    StripMarksUnique(r, r);
  }

  /** The marks inside a code survive: a code ending in an ordinary character is left as it is. */
  lemma StripMarksKeepsInterior(prefix: string, c: char, marks: string)
    requires !IsMark(c) && forall k :: 0 <= k < |marks| ==> IsMark(marks[k])
    ensures StripMarks(prefix + [c] + marks) == prefix + [c]
  {
    var code := prefix + [c] + marks;
    assert code[..|prefix| + 1] == prefix + [c];
    StripMarksUnique(code, prefix + [c]);
  }

  /** A row of the `concept` table. */
  datatype Concept = Concept(conceptId: int, conceptCode: string, vocabularyId: string)

  /** A row of the `concept_relationship` table. */
  datatype Relationship = Relationship(conceptId1: int, relationshipId: string, conceptId2: int)

  /**
   * The rows the queries see: the vocabulary tables in the order the database returns
   * them, and the values of each (table, id column) pair.
   */
  datatype Database = Database(
    concepts: seq<Concept>,
    relationships: seq<Relationship>,
    columns: map<(string, string), seq<int>>)

  const MAPS_TO: string := "Maps to"

  /** The id of the first concept with this code in this vocabulary (`fetchone` of the first query). */
  function FirstConcept(concepts: seq<Concept>, code: string, vocabularyId: string): (r: Option<int>)
    ensures r.None? <==> forall i :: 0 <= i < |concepts| ==>
                           !(concepts[i].conceptCode == code && concepts[i].vocabularyId == vocabularyId)
    ensures r.Some? ==> exists i :: 0 <= i < |concepts| && concepts[i].conceptId == r.value
                                   && concepts[i].conceptCode == code && concepts[i].vocabularyId == vocabularyId
                                   && forall j :: 0 <= j < i ==>
                                        !(concepts[j].conceptCode == code && concepts[j].vocabularyId == vocabularyId)
  {
    if concepts == [] then None
    else if concepts[0].conceptCode == code && concepts[0].vocabularyId == vocabularyId then
      Some(concepts[0].conceptId)
    else
      var r := FirstConcept(concepts[1..], code, vocabularyId);
      assert forall i :: 1 <= i < |concepts| ==> concepts[i] == concepts[1..][i - 1];
      r
  }

  /** The target of the first "Maps to" relationship of a concept (`fetchone` of the second query). */
  function FirstMapping(relationships: seq<Relationship>, conceptId: int): (r: Option<int>)
    ensures r.None? <==> forall i :: 0 <= i < |relationships| ==>
                           !(relationships[i].relationshipId == MAPS_TO && relationships[i].conceptId1 == conceptId)
    ensures r.Some? ==> exists i :: 0 <= i < |relationships| && relationships[i].conceptId2 == r.value
                                   && relationships[i].relationshipId == MAPS_TO
                                   && relationships[i].conceptId1 == conceptId
                                   && forall j :: 0 <= j < i ==>
                                        !(relationships[j].relationshipId == MAPS_TO
                                          && relationships[j].conceptId1 == conceptId)
  {
    if relationships == [] then None
    else if relationships[0].relationshipId == MAPS_TO && relationships[0].conceptId1 == conceptId then
      Some(relationships[0].conceptId2)
    else
      var r := FirstMapping(relationships[1..], conceptId);
      assert forall i :: 1 <= i < |relationships| ==> relationships[i] == relationships[1..][i - 1];
      r
  }

  /**
   * The standard concept a source code maps to: the code is normalised, its concept
   * looked up, and that concept's "Maps to" target returned; 0 ("no matching
   * concept") when either lookup finds no row.
   */
  function GetSnomedId(db: Database, code: string, vocabularyId: string): (r: int)
    ensures r != 0 ==> exists i, j :: 0 <= i < |db.concepts| && 0 <= j < |db.relationships|
                         && db.concepts[i].conceptCode == StripMarks(code)
                         && db.concepts[i].vocabularyId == vocabularyId
                         && db.relationships[j].relationshipId == MAPS_TO
                         && db.relationships[j].conceptId1 == db.concepts[i].conceptId
                         && db.relationships[j].conceptId2 == r
  {
    match FirstConcept(db.concepts, StripMarks(code), vocabularyId)
    case None => 0
    case Some(c) =>
      match FirstMapping(db.relationships, c)
      case None => 0
      case Some(target) => target
  }

  /** Codes that differ only in their trailing marks map to the same concept. */
  lemma SnomedIdIgnoresTrailingMarks(db: Database, code: string, marks: string, vocabularyId: string)
    requires forall k :: 0 <= k < |marks| ==> IsMark(marks[k])
    ensures GetSnomedId(db, code + marks, vocabularyId) == GetSnomedId(db, code, vocabularyId)
  {
    var s := StripMarks(code);
    var full := code + marks;
    assert full[..|code|] == code;
    assert full[..|s|] == s;
    StripMarksUnique(full, s);
  }

  /** A code that no concept row of the vocabulary carries gives 0. */
  lemma UnknownCodeGivesZero(db: Database, code: string, vocabularyId: string)
    requires forall i :: 0 <= i < |db.concepts| ==>
               !(db.concepts[i].conceptCode == StripMarks(code) && db.concepts[i].vocabularyId == vocabularyId)
    ensures GetSnomedId(db, code, vocabularyId) == 0
  {
  }

  /**
   * When the first concept row carrying the stripped code (row `i`) has no "Maps to" row,
   * the result is 0, whatever later rows with the same code map to.
   */
  lemma UnmappedCodeGivesZero(db: Database, code: string, vocabularyId: string, i: int)
    requires 0 <= i < |db.concepts|
    requires db.concepts[i].conceptCode == StripMarks(code) && db.concepts[i].vocabularyId == vocabularyId
    requires forall j :: 0 <= j < i ==>
               !(db.concepts[j].conceptCode == StripMarks(code) && db.concepts[j].vocabularyId == vocabularyId)
    requires forall k :: 0 <= k < |db.relationships| ==>
               !(db.relationships[k].relationshipId == MAPS_TO
                 && db.relationships[k].conceptId1 == db.concepts[i].conceptId)
    ensures GetSnomedId(db, code, vocabularyId) == 0
  {
    var s := StripMarks(code);
    var first := FirstConcept(db.concepts, s, vocabularyId);
    assert first.Some?;
    var w :| 0 <= w < |db.concepts| && db.concepts[w].conceptId == first.value
             && db.concepts[w].conceptCode == s && db.concepts[w].vocabularyId == vocabularyId
             && forall j :: 0 <= j < w ==> !(db.concepts[j].conceptCode == s && db.concepts[j].vocabularyId == vocabularyId);
    assert w == i;
    assert FirstMapping(db.relationships, first.value).None?;
  }

  /**
   * When the first concept row carrying the stripped code (row `i`) has a "Maps to" row,
   * the result is the target of the first such row (row `k`).
   */
  lemma MappedCodeGivesFirstTarget(db: Database, code: string, vocabularyId: string, i: int, k: int)
    requires 0 <= i < |db.concepts|
    requires db.concepts[i].conceptCode == StripMarks(code) && db.concepts[i].vocabularyId == vocabularyId
    requires forall j :: 0 <= j < i ==>
               !(db.concepts[j].conceptCode == StripMarks(code) && db.concepts[j].vocabularyId == vocabularyId)
    requires 0 <= k < |db.relationships|
    requires db.relationships[k].relationshipId == MAPS_TO && db.relationships[k].conceptId1 == db.concepts[i].conceptId
    requires forall j :: 0 <= j < k ==>
               !(db.relationships[j].relationshipId == MAPS_TO
                 && db.relationships[j].conceptId1 == db.concepts[i].conceptId)
    ensures GetSnomedId(db, code, vocabularyId) == db.relationships[k].conceptId2
  {
    var s := StripMarks(code);
    var first := FirstConcept(db.concepts, s, vocabularyId);
    assert first.Some?;
    var w :| 0 <= w < |db.concepts| && db.concepts[w].conceptId == first.value
             && db.concepts[w].conceptCode == s && db.concepts[w].vocabularyId == vocabularyId
             && forall j :: 0 <= j < w ==> !(db.concepts[j].conceptCode == s && db.concepts[j].vocabularyId == vocabularyId);
    assert w == i;
    var id := db.concepts[i].conceptId;
    var target := FirstMapping(db.relationships, id);
    assert target.Some?;
    var v :| 0 <= v < |db.relationships| && db.relationships[v].conceptId2 == target.value
             && db.relationships[v].relationshipId == MAPS_TO && db.relationships[v].conceptId1 == id
             && forall j :: 0 <= j < v ==> !(db.relationships[j].relationshipId == MAPS_TO && db.relationships[j].conceptId1 == id);
    assert v == k;
  }

  /** The positions of the rows whose id column holds `id`: the result of the lookup query. */
  function SelectRows(values: seq<int>, id: int): (rows: seq<int>)
    ensures forall k :: k in rows <==> 0 <= k < |values| && values[k] == id
    ensures rows == [] <==> id !in values
  {
    if values == [] then []
    else
      var n := |values| - 1;
      assert values == values[..n] + [values[n]];
      SelectRows(values[..n], id) + (if values[n] == id then [n] else [])
  }

  /** `_id_is_taken`: the lookup of `id` in `table`.`field` returns at least one row. */
  function IdIsTaken(db: Database, table: string, field: string, id: int): (r: bool)
    requires (table, field) in db.columns
    ensures r <==> id in db.columns[(table, field)]
  {
    |SelectRows(db.columns[(table, field)], id)| > 0
  }

  /** The range `randrange(10000, 9999999)` draws from. */
  predicate InIdRange(id: int)
  {
    10000 <= id < 9999999
  }

  /**
   * Draws ids from `draws` until one is not taken in `table`.`field`. `None` when the
   * supplied draws run out first, which the source's unbounded retry never does.
   */
  method GenerateUniqueId(db: Database, table: string, field: string, draws: seq<int>) returns (r: Option<int>)
    requires (table, field) in db.columns
    ensures r.None? <==> forall k :: 0 <= k < |draws| ==> IdIsTaken(db, table, field, draws[k])
    ensures r.Some? ==> exists k :: 0 <= k < |draws| && draws[k] == r.value
                                  && !IdIsTaken(db, table, field, r.value)
                                  && forall j :: 0 <= j < k ==> IdIsTaken(db, table, field, draws[j])
  {
    if draws == [] {
      return None;
    }
    var newId := draws[0];
    var n := 1;
    while IdIsTaken(db, table, field, newId)
      invariant 1 <= n <= |draws| && newId == draws[n - 1]
      invariant forall j :: 0 <= j < n - 1 ==> IdIsTaken(db, table, field, draws[j])
      decreases |draws| - n
    {
      if n == |draws| {
        return None;
      }
      newId := draws[n];
      n := n + 1;
    }
    r := Some(newId);
  }

  /** A fresh id for the `person` table's `person_id` column. */
  method GeneratePatientId(db: Database, draws: seq<int>) returns (r: Option<int>)
    requires ("person", "person_id") in db.columns
    requires forall k :: 0 <= k < |draws| ==> InIdRange(draws[k])
    ensures r.Some? ==> InIdRange(r.value)
    ensures r.None? <==> forall k :: 0 <= k < |draws| ==> draws[k] in db.columns[("person", "person_id")]
    ensures r.Some? ==> r.value in draws && r.value !in db.columns[("person", "person_id")]
  {
    r := GenerateUniqueId(db, "person", "person_id", draws);
  }

  /** A fresh id for the `condition_occurrence` table's `condition_occurrence_id` column. */
  method GenerateConditionOccurrenceId(db: Database, draws: seq<int>) returns (r: Option<int>)
    requires ("condition_occurrence", "condition_occurrence_id") in db.columns
    requires forall k :: 0 <= k < |draws| ==> InIdRange(draws[k])
    ensures r.Some? ==> InIdRange(r.value)
    ensures r.None? <==> forall k :: 0 <= k < |draws| ==>
                           draws[k] in db.columns[("condition_occurrence", "condition_occurrence_id")]
    ensures r.Some? ==> r.value in draws
                        && r.value !in db.columns[("condition_occurrence", "condition_occurrence_id")]
  {
    r := GenerateUniqueId(db, "condition_occurrence", "condition_occurrence_id", draws);
  }
}
