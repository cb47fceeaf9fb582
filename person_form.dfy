/**
 * Decoding a submitted patient form into patient data. A form is the dictionary of
 * submitted keys and texts; a flag field is set exactly when its key was submitted,
 * whatever its text, and a missing date or text field rejects the whole form.
 */
module PersonForm {
  import opened Wrappers
  import opened PatientInterface

  /** The submitted form: key to submitted text (the first, if a key was sent twice). */
  type Form = map<string, string>

  /** The value a field takes in the decoded data. */
  function Decoded(f: Field, form: Form): FieldValue
    requires f.kind == FlagField || f.key in form
  {
    if f.kind == FlagField then Flag(f.key in form) else Text(form[f.key])
  }

  /** Some date or text field of `fields` was not submitted. */
  predicate MissesRequiredField(fields: seq<Field>, form: Form)
  {
    exists f :: f in fields && f.kind != FlagField && f.key !in form
  }

  predicate DistinctKeys(fields: seq<Field>)
  {
    forall i, j :: 0 <= i < j < |fields| ==> fields[i].key != fields[j].key
  }

  /**
   * Walks the fields in order, copying submitted date and text fields, setting each
   * flag to whether its key was submitted, and giving up at the first missing date or
   * text field. Keys of the form that are not fields are ignored.
   */
  method DecodeFields(fields: seq<Field>, form: Form) returns (r: Option<PatientData>)
    requires DistinctKeys(fields)
    ensures r.None? <==> MissesRequiredField(fields, form)
    ensures r.Some? ==> r.value.Keys == set f | f in fields :: f.key
    ensures r.Some? ==> forall f :: f in fields ==> r.value[f.key] == Decoded(f, form)
  {
    var data: PatientData := map[];
    var i := 0;
    while i < |fields|
      invariant 0 <= i <= |fields|
      invariant forall k :: k in data <==> exists j :: 0 <= j < i && fields[j].key == k
      invariant forall j :: 0 <= j < i ==> fields[j].kind == FlagField || fields[j].key in form
      invariant forall j :: 0 <= j < i ==> data[fields[j].key] == Decoded(fields[j], form)
    {
      var key, kind := fields[i].key, fields[i].kind;
      if key in form {
        if kind != FlagField {
          data := data[key := Text(form[key])];
        } else {
          data := data[key := Flag(true)];
        }
      } else if kind == FlagField {
        data := data[key := Flag(false)];
      } else {
        assert fields[i] in fields;
        return None;
      }
      i := i + 1;
    }
    forall f | f in fields
      ensures f.key in data && data[f.key] == Decoded(f, form)
    {
      var j :| 0 <= j < |fields| && fields[j] == f;
    }
    return Some(data);
  }

  /**
   * Decodes a submitted form against the declared patient-data fields: `None` exactly
   * when a date or text field is missing, otherwise data for exactly the declared keys.
   */
  method GetPatientDataFromRequest(form: Form) returns (r: Option<PatientData>)
    ensures r.None? <==> MissesRequiredField(PatientDataFields, form)
    ensures r.Some? ==> r.value.Keys == FieldKeys()
    ensures r.Some? ==> forall f :: f in PatientDataFields ==> r.value[f.key] == Decoded(f, form)
  {
    FieldKeysDistinct();
    r := DecodeFields(PatientDataFields, form);
  }
}
