/** components/ManualAddForm.tsx: a form with one input per field that adds
    a single record to the pending list, but only when something was
    entered. */
module ManualAddForm {
  import opened Wrappers
  import opened Types
  import opened JsString
  import opened Json

  /** `emptyRecord`: every field '', no id. */
  const EmptyRecord := MedicalRecord(None, "", "", "", "", "", "", "")

  /** `Object.values(record)`: the id when there is one, then the seven
      field texts in `FieldOrder`. */
  function Values(r: MedicalRecord): (vs: seq<Json>)
    ensures |vs| == (if r.id.Some? then 8 else 7)
    ensures r.id.Some? ==> vs[0] == JNum(r.id.value)
    ensures var off := |vs| - 7;
            forall f: Field :: vs[off + Position(f)] == JStr(r.Get(f))
    ensures var off := |vs| - 7;
            forall i :: off <= i < |vs| ==> vs[i] == JStr(r.Get(FieldOrder[i - off]))
  {
    var idPart := if r.id.Some? then [JNum(r.id.value)] else [];
    idPart + [JStr(r.disease), JStr(r.drug), JStr(r.medicine), JStr(r.tridose),
              JStr(r.pss), JStr(r.planet), JStr(r.author)]
  }

  /** The test applied to each value: a string counts when it is not blank
      after trimming, any other value when it is not `null`/`undefined`. */
  predicate Filled(v: Json)
  {
    if v.JStr? then Trim(v.s) != "" else !v.JNull?
  }

  /** `values.some(Filled)`. */
  function AnyFilled(vs: seq<Json>): bool
    decreases |vs|
  {
    vs != [] && (Filled(vs[0]) || AnyFilled(vs[1..]))
  }

  lemma {:induction false} AnyFilledIff(vs: seq<Json>)
    ensures AnyFilled(vs) <==> exists i :: 0 <= i < |vs| && Filled(vs[i])
    decreases |vs|
  {
    if vs != [] {
      AnyFilledIff(vs[1..]);
      if exists i :: 0 <= i < |vs| && Filled(vs[i]) {
        var i :| 0 <= i < |vs| && Filled(vs[i]);
        if i > 0 {
          assert vs[1..][i - 1] == vs[i];
        }
      }
      if exists i :: 0 <= i < |vs| - 1 && Filled(vs[1..][i]) {
        var i :| 0 <= i < |vs| - 1 && Filled(vs[1..][i]);
        assert vs[i + 1] == vs[1..][i];
      }
    }
  }

  /** `hasValue`. */
  predicate HasValue(r: MedicalRecord)
  {
    AnyFilled(Values(r))
  }

  /** A field that is not blank after trimming makes the form entered. */
  lemma FieldMakesEntered(r: MedicalRecord, f: Field)
    requires Trim(r.Get(f)) != ""
    ensures HasValue(r)
  {
    var vs := Values(r);
    AnyFilledIff(vs);
    assert Filled(vs[|vs| - 7 + Position(f)]);
  }

  /** An id makes the form entered. */
  lemma IdMakesEntered(r: MedicalRecord)
    requires r.id.Some?
    ensures HasValue(r)
  {
    var vs := Values(r);
    AnyFilledIff(vs);
    assert Filled(vs[0]);
  }

  /** Without an id, an entered form has a non-blank field. */
  lemma EnteredHasField(r: MedicalRecord)
    requires HasValue(r) && r.id.None?
    ensures exists f: Field :: Trim(r.Get(f)) != ""
  {
    var vs := Values(r);
    AnyFilledIff(vs);
    var i :| 0 <= i < |vs| && Filled(vs[i]);
    var f := FieldOrder[i];
    assert vs[i] == JStr(r.Get(f));
    assert Trim(r.Get(f)) != "";
  }

  /** A record counts as entered exactly when it has an id or some field
      that is not blank after trimming. */
  lemma HasValueIff(r: MedicalRecord)
    ensures HasValue(r) <==> r.id.Some? || exists f: Field :: Trim(r.Get(f)) != ""
  {
    if r.id.Some? {
      IdMakesEntered(r);
    } else if HasValue(r) {
      EnteredHasField(r);
    }
    if exists f: Field :: Trim(r.Get(f)) != "" {
      var f: Field :| Trim(r.Get(f)) != "";
      FieldMakesEntered(r, f);
    }
  }

  /** The empty form has nothing entered. */
  lemma EmptyRecordIsBlank()
    ensures EmptyRecord.id == None
    ensures forall f: Field :: EmptyRecord.Get(f) == ""
    ensures !HasValue(EmptyRecord)
  {
    HasValueIff(EmptyRecord);
  }

  /** Typing a non-blank value into any input makes the form addable. */
  lemma TypedValueMakesAddable(r: MedicalRecord, f: Field, v: string)
    requires Trim(v) != ""
    ensures HasValue(r.With(f, v))
  {
    HasValueIff(r.With(f, v));
  }

  class ManualAddForm {
    var records: seq<MedicalRecord>
    var formData: MedicalRecord

    constructor(records: seq<MedicalRecord>)
      ensures this.records == records && formData == EmptyRecord
    {
      this.records := records;
      formData := EmptyRecord;
    }

    /** `handleChange`: input `f` now holds `value`; the other inputs and
        the list keep what they had. */
    method HandleChange(f: Field, value: string)
      modifies this
      ensures formData.Get(f) == value
      ensures forall g: Field :: g != f ==> formData.Get(g) == old(formData).Get(g)
      ensures formData.id == old(formData).id
      ensures records == old(records)
    {
      formData := formData.With(f, value);
    }

    /** `handleAddRecord`: an entered form is appended as typed, untrimmed,
        and the form is cleared; a blank one changes nothing. */
    method HandleAddRecord()
      modifies this
      ensures HasValue(old(formData)) ==> records == old(records) + [old(formData)] && formData == EmptyRecord
      ensures !HasValue(old(formData)) ==> records == old(records) && formData == old(formData)
    {
      if HasValue(formData) {
        records := records + [formData];
        formData := EmptyRecord;
      }
    }
  }
}
