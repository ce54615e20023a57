/**
 * The education-details form. Every field is optional: an empty text or a
 * CGPA of 0 is never an error; a filled degree, college, research or
 * result needs three UTF-16 code units after trimming, a filled year four digits,
 * and a filled CGPA a value from 0 to 10.
 */
module UpdateEducationDetailForm {
  import opened Common
  import opened JsText
  import opened Patterns

  datatype Field =
    | UDegree | UCollege | UYear | UCGPA
    | PDegree | PCollege | PYear | PCGPA
    | PhdResearch | PhdCollege | PhdYear | PhdResult

  /** `Object.keys(formData)`: the fields in declaration order. */
  const Fields: seq<Field> :=
    [UDegree, UCollege, UYear, UCGPA, PDegree, PCollege, PYear, PCGPA,
     PhdResearch, PhdCollege, PhdYear, PhdResult]

  lemma FieldsListed(f: Field)
    ensures f in Fields
  {
  }

  /** A form value: the text of an input, or the number a CGPA input holds
      after `Number(...)`. */
  datatype Value = Text(s: string) | Number(x: real)

  predicate IsCgpa(f: Field) {
    f == UCGPA || f == PCGPA
  }

  predicate IsYear(f: Field) {
    f == UYear || f == PYear || f == PhdYear
  }

  /** CGPA fields hold numbers, every other field holds text. */
  predicate WellTyped(f: Field, v: Value) {
    IsCgpa(f) <==> v.Number?
  }

  /** `value === "" || value === 0`: the field counts as not filled in. */
  predicate IsUnset(v: Value) {
    v == Text("") || v == Number(0.0)
  }

  const MinThree: string := "Minimum 3 characters requires"
  const BadYear: string := "Enter valid 4 digit year"
  const BadCgpa: string := "CGPA must be between 0 and 10"

  /** The error one field gets for one value; the live check and the
      submit check apply the same rule. */
  function Rule(f: Field, v: Value): Option<string>
    requires WellTyped(f, v)
  {
    if IsUnset(v) then None
    else if IsCgpa(f) then
      if v.x < 0.0 || v.x > 10.0 then Some(BadCgpa) else None
    else if IsYear(f) then
      if FourDigitYear(Trim(v.s)) then None else Some(BadYear)
    else TextError(v.s)
  }

  /** A filled degree, college, research or result entry needs three code
      units after trimming. */
  function TextError(s: string): Option<string> {
    if Length(Trim(s)) < 3 then Some(MinThree) else None
  }

  /** An empty text or a zero CGPA is never an error, whatever the field. */
  lemma UnsetNeverErrors(f: Field, v: Value)
    requires WellTyped(f, v) && IsUnset(v)
    ensures Rule(f, v) == None
  {
  }

  /** A degree, college, research or result entry that is not empty but
      only white space is an error: trimming happens after the emptiness
      test, not before. */
  lemma WhitespaceOnlyIsError(f: Field, s: string)
    requires !IsCgpa(f) && !IsYear(f)
    requires s != "" && forall i | 0 <= i < |s| :: IsSpace(s[i])
    ensures Rule(f, Text(s)) == Some(MinThree)
  {
    BlankIffTrimsToEmpty(s);
  }

  /** A filled text field passes exactly when its trimmed text is at least
      three UTF-16 code units long. */
  lemma TextRule(f: Field, s: string)
    requires !IsCgpa(f) && !IsYear(f) && s != ""
    ensures Rule(f, Text(s)) == None <==> Length(Trim(s)) >= 3
    ensures Rule(f, Text(s)) != None ==> Rule(f, Text(s)) == Some(MinThree)
  {
  }

  /** A text with no surrounding white space and at least three code
      units passes a text field's rule. */
  lemma UnpaddedTextPasses(f: Field, s: string)
    requires !IsCgpa(f) && !IsYear(f)
    requires |s| >= 3 && !IsSpace(s[0]) && !IsSpace(s[|s| - 1])
    ensures Rule(f, Text(s)) == None
  {
    TrimKeepsUnpadded(s);
    TextRule(f, s);
  }

  /** A filled year passes exactly when its trimmed text is four digits. */
  lemma YearRule(f: Field, s: string)
    requires IsYear(f) && s != ""
    ensures Rule(f, Text(s)) == None <==> ExactDigits(Trim(s), 4)
    ensures Rule(f, Text(s)) != None ==> Rule(f, Text(s)) == Some(BadYear)
  {
  }

  /** A non-zero CGPA is an error exactly when it lies outside 0..10; both
      ends of the range are accepted. */
  lemma CgpaRule(f: Field, x: real)
    requires IsCgpa(f)
    ensures x != 0.0 ==> (Rule(f, Number(x)) == Some(BadCgpa) <==> x < 0.0 || x > 10.0)
    ensures Rule(f, Number(x)) != None ==> Rule(f, Number(x)) == Some(BadCgpa)
    ensures Rule(f, Number(10.0)) == None && Rule(f, Number(0.0)) == None
  {
  }

  /** The form's values as loaded: each field the server sent, or the
      empty default (`?? ""`, `?? 0`). */
  function Loaded(info: map<Field, Value>): (m: map<Field, Value>)
    ensures forall f :: f in m
    ensures forall f :: f in info ==> m[f] == info[f]
    ensures forall f :: f !in info ==> IsUnset(m[f])
  {
    map f: Field | true :: if f in info then info[f] else if IsCgpa(f) then Number(0.0) else Text("")
  }

  class Form {
    var formData: map<Field, Value>
    var errors: map<Field, Option<string>>

    /** Every field is present and holds the kind of value it should. */
    ghost predicate Valid()
      reads this
    {
      forall f :: f in formData && WellTyped(f, formData[f])
    }

    /** No field has an error recorded. */
    predicate NoErrors()
      reads this
    {
      forall f | f in errors :: errors[f] == None
    }

    constructor ()
      ensures Valid()
      ensures forall f :: IsUnset(formData[f])
      ensures errors == map[]
    {
      formData := Loaded(map[]);
      errors := map[];
    }

    /** The profile fetch fills the form; a failed fetch leaves it. */
    method Load(info: Option<map<Field, Value>>)
      requires info.Some? ==> forall f | f in info.value :: WellTyped(f, info.value[f])
      requires Valid()
      modifies this
      ensures Valid()
      ensures info.Some? ==> formData == Loaded(info.value)
      ensures info.None? ==> formData == old(formData)
      ensures errors == old(errors)
    {
      if info.Some? {
        formData := Loaded(info.value);
      }
    }

    /** An edit stores the value and re-checks that one field: no other
        field's value or error slot changes. */
    method HandleChange(f: Field, v: Value)
      requires Valid() && WellTyped(f, v)
      modifies this
      ensures Valid()
      ensures formData == old(formData)[f := v]
      ensures errors == old(errors)[f := Rule(f, v)]
      ensures forall g | g != f && g in old(errors) :: g in errors && errors[g] == old(errors)[g]
    {
      formData := formData[f := v];
      errors := errors[f := Rule(f, v)];
    }

    /** The submit check: every field is checked again from the current
        values into a fresh error map, which replaces the old one whatever
        it held; the result says whether no field has an error. */
    method ValidateForm() returns (ok: bool)
      requires Valid()
      modifies this
      ensures Valid() && formData == old(formData)
      ensures forall f :: f in errors && errors[f] == Rule(f, formData[f])
      ensures ok <==> forall f :: Rule(f, formData[f]) == None
      ensures ok <==> NoErrors()
    {
      var newErrors: map<Field, Option<string>> := map[];
      var i := 0;
      while i < |Fields|
        invariant 0 <= i <= |Fields|
        invariant forall j | 0 <= j < i :: Fields[j] in newErrors
        invariant forall f | f in newErrors :: newErrors[f] == Rule(f, formData[f])
      {
        var field := Fields[i];
        newErrors := newErrors[field := Rule(field, formData[field])];
        i := i + 1;
      }
      forall f
        ensures f in newErrors
      {
        FieldsListed(f);
      }
      errors := newErrors;
      ok := forall f | f in newErrors :: newErrors[f] == None;
    }

    /** Submission: nothing is sent unless the submit check passes. */
    method HandleSubmit(serverOk: bool) returns (outcome: SubmitOutcome)
      requires Valid()
      modifies this
      ensures Valid() && formData == old(formData)
      ensures forall f :: f in errors && errors[f] == Rule(f, formData[f])
      ensures outcome == Blocked <==> exists f :: Rule(f, formData[f]) != None
      ensures outcome != Blocked ==> (outcome == Saved <==> serverOk)
    {
      var ok := ValidateForm();
      if !ok {
        outcome := Blocked;
      } else if serverOk {
        outcome := Saved;
      } else {
        outcome := SaveFailed;
      }
    }
  }

  /** Only one group filled in, and filled in correctly, is accepted: the
      untouched groups raise nothing. */
  method OnlyUndergraduateFilled() returns (outcome: SubmitOutcome)
    ensures outcome == Saved
  {
    var degree := "BSc";
    UnpaddedTextPasses(UDegree, degree);
    var form := new Form();
    form.HandleChange(UDegree, Text(degree));
    form.HandleChange(UCGPA, Number(10.0));
    forall f
      ensures Rule(f, form.formData[f]) == None
    {
      if f == UDegree {
        assert form.formData[f] == Text(degree);
      } else if f != UCGPA {
        assert IsUnset(form.formData[f]);
      }
    }
    outcome := form.HandleSubmit(true);
  }

  /** A four-digit year typed with a space on each side is accepted: the
      year rule looks at the trimmed text. */
  lemma PaddedYearAccepted(year: string)
    requires ExactDigits(year, 4)
    ensures Rule(UYear, Text([' '] + year + [' '])) == None
  {
    assert !IsSpace(year[0]) && !IsSpace(year[3]);
    TrimPadded([' '], year, [' ']);
  }

  /** A degree of two characters and a space is too short exactly when
      both characters are single UTF-16 code units: the padding does not
      count towards the minimum, but a surrogate pair counts twice. */
  lemma PaddedDegreeTooShort(a: char, b: char)
    requires !IsSpace(a) && !IsSpace(b)
    ensures Rule(PDegree, Text([a, b, ' '])) == Some(MinThree) <==> a as int < 0x1_0000 && b as int < 0x1_0000
    ensures Rule(PDegree, Text([a, b, ' '])) == None <==> a as int >= 0x1_0000 || b as int >= 0x1_0000
  {
    var v := [a, b, ' '];
    assert Rule(PDegree, Text(v)) == TextError(v) by {
      assert v != "";
    }
    PaddedPairLength(a, b);
    assert TextError(v) == if CodeUnits(a) + CodeUnits(b) < 3 then Some(MinThree) else None;
  }
}
