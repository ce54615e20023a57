/**
 * The personal-details form: parents' names and contact numbers, address
 * and date of birth, all required. Its submit check does not use fresh
 * verdicts: it copies the error map as it stood before the submit, so the
 * outcome follows the last per-field checks made while typing.
 */
module UpdatePersonalDetailForm {
  import opened Common
  import opened JsText
  import opened Patterns
  import opened IsoDate

  datatype Field = FatherName | FatherContact | MotherName | MotherContact | Address | DateOfBirth

  /** `Object.keys(formData)`, in declaration order. */
  const Fields: seq<Field> := [FatherName, FatherContact, MotherName, MotherContact, Address, DateOfBirth]

  lemma FieldsListed(f: Field)
    ensures f in Fields
  {
  }

  const Required: string := "This field is required"
  const MinThree: string := "Minimum 3 characters required"
  const BadContact: string := "Enter a valid 10-digit number"
  const AddressRequired: string := "Address is required"
  const MinTen: string := "Minimum 10 characters required"
  const DobRequired: string := "Date of Birth is required"
  const DobFuture: string := "Date of Birth cannot be in the future"

  /** The per-field check. `today` is the day number of the current date;
      a birth date after it lies in the future. */
  function Rule(f: Field, v: string, today: int): Option<string> {
    match f
    case FatherName | MotherName =>
      if IsBlank(v) then Some(Required)
      else if Length(Trim(v)) < 3 then Some(MinThree)
      else None
    case FatherContact | MotherContact =>
      if IsBlank(v) then Some(Required)
      else if !ExactDigits(Trim(v), 10) then Some(BadContact)
      else None
    case Address =>
      if IsBlank(v) then Some(AddressRequired)
      else if Length(Trim(v)) < 10 then Some(MinTen)
      else None
    case DateOfBirth =>
      if v == "" then Some(DobRequired)
      else if DayKey(v).Some? && DayKey(v).value > today then Some(DobFuture)
      else None
  }

  /** Parent names: blank is "required", otherwise fewer than three
      UTF-16 code units after trimming is "minimum 3", otherwise accepted. */
  lemma NameRule(f: Field, v: string, today: int)
    requires f == FatherName || f == MotherName
    ensures Rule(f, v, today) == Some(Required) <==> forall i | 0 <= i < |v| :: IsSpace(v[i])
    ensures Rule(f, v, today) == Some(MinThree) <==> !IsBlank(v) && Length(Trim(v)) < 3
    ensures Rule(f, v, today) == None <==> Length(Trim(v)) >= 3
  {
    BlankIffTrimsToEmpty(v);
  }

  /** Contact numbers: accepted exactly when the trimmed text is ten ASCII
      digits. */
  lemma ContactRule(f: Field, v: string, today: int)
    requires f == FatherContact || f == MotherContact
    ensures Rule(f, v, today) == None <==> ExactDigits(Trim(v), 10)
  {
  }

  /** Address: accepted exactly when at least ten UTF-16 code units remain
      after trimming. */
  lemma AddressRule(v: string, today: int)
    ensures Rule(Address, v, today) == None <==> Length(Trim(v)) >= 10
  {
  }

  /** Date of birth: empty is "required"; a readable date after today is
      "in the future"; today itself, past dates and unreadable text pass. */
  lemma DateOfBirthRule(v: string, today: int)
    ensures Rule(DateOfBirth, v, today) == Some(DobRequired) <==> v == ""
    ensures Rule(DateOfBirth, v, today) == Some(DobFuture) <==> DayKey(v).Some? && DayKey(v).value > today
    ensures DayKey(v) == Some(today) ==> Rule(DateOfBirth, v, today) == None
  {
  }

  /** The stored date of birth as the form shows it: the text before the
      first "T" of an ISO timestamp, or empty when there is none. */
  function LoadedBirthDate(stored: Option<string>): (r: string)
    ensures stored.None? ==> r == ""
    ensures stored.Some? ==> r <= stored.value && 'T' !in r
    ensures stored.Some? && |r| < |stored.value| ==> stored.value[|r|] == 'T'
  {
    match stored
    case Some(s) => if s != "" then BeforeT(s) else ""
    case None => ""
  }

  /** A stored timestamp loads as its date part. */
  lemma LoadedTimestamp(date: string, time: string)
    requires 'T' !in date
    ensures LoadedBirthDate(Some(date + "T" + time)) == date
  {
    BeforeTSplits(date, time);
  }

  lemma {:induction false} BeforeTSplits(date: string, time: string)
    requires 'T' !in date
    ensures BeforeT(date + "T" + time) == date
  {
    if date == [] {
      assert (date + "T" + time)[0] == 'T';
    } else {
      assert (date + "T" + time)[1..] == date[1..] + "T" + time;
      BeforeTSplits(date[1..], time);
      assert [date[0]] + date[1..] == date;
    }
  }

  function Get(m: map<Field, Option<string>>, f: Field): Option<string> {
    if f in m then m[f] else None
  }

  class Form {
    var formData: map<Field, string>
    var errors: map<Field, Option<string>>

    ghost predicate Valid()
      reads this
    {
      forall f :: f in formData
    }

    constructor ()
      ensures Valid() && errors == map[]
      ensures forall f :: formData[f] == ""
    {
      formData := map f: Field | f in Fields :: "";
      errors := map[];
      new;
      forall f
        ensures f in formData
      {
        FieldsListed(f);
      }
    }

    /** The profile fetch (`None` when it fails, which changes nothing):
        each value the server sent or "" (`?? ""`), the date of birth cut
        at "T". */
    method Load(fetched: Option<map<Field, string>>)
      requires Valid()
      modifies this
      ensures Valid() && errors == old(errors)
      ensures fetched.None? ==> formData == old(formData)
      ensures fetched.Some? ==>
        forall f | f != DateOfBirth :: formData[f] == (if f in fetched.value then fetched.value[f] else "")
      ensures fetched.Some? ==>
        formData[DateOfBirth] == LoadedBirthDate(if DateOfBirth in fetched.value then Some(fetched.value[DateOfBirth]) else None)
    {
      if fetched.Some? {
        var info := fetched.value;
        formData := map f: Field | true ::
          if f == DateOfBirth then LoadedBirthDate(if f in info then Some(info[f]) else None)
          else if f in info then info[f] else "";
      }
    }

    /** An edit stores the value and records that field's verdict; every
        other slot is left as it was. */
    method HandleChange(f: Field, v: string, today: int)
      requires Valid()
      modifies this
      ensures Valid()
      ensures formData == old(formData)[f := v]
      ensures errors == old(errors)[f := Rule(f, v, today)]
    {
      formData := formData[f := v];
      errors := errors[f := Rule(f, v, today)];
    }

    /** The submit check. For each field a re-check is queued, but the
        copy taken for the new error map is the slot as it stood before the
        submit; the copy is then installed over whatever the queued
        re-checks wrote. So the new map is the old one with every field
        present, and the verdict is whether the old one held no error. */
    method ValidateForm(today: int) returns (ok: bool)
      requires Valid()
      modifies this
      ensures Valid() && formData == old(formData)
      ensures forall f :: f in errors && errors[f] == Get(old(errors), f)
      ensures ok <==> forall f :: Get(old(errors), f) == None
    {
      var snapshot := errors;
      var queued := errors;
      var newErrors: map<Field, Option<string>> := map[];
      var i := 0;
      while i < |Fields|
        invariant 0 <= i <= |Fields|
        invariant forall j | 0 <= j < i :: Fields[j] in newErrors
        invariant forall f | f in newErrors :: newErrors[f] == Get(snapshot, f)
      {
        var field := Fields[i];
        queued := queued[field := Rule(field, formData[field], today)];
        newErrors := newErrors[field := Get(snapshot, field)];
        i := i + 1;
      }
      forall f
        ensures f in newErrors
      {
        FieldsListed(f);
      }
      errors := queued;
      errors := newErrors;
      ok := forall f | f in newErrors :: newErrors[f] == None;
    }

    method HandleSubmit(today: int, serverOk: bool) returns (outcome: SubmitOutcome)
      requires Valid()
      modifies this
      ensures Valid() && formData == old(formData)
      ensures forall f :: f in errors && errors[f] == Get(old(errors), f)
      ensures outcome == Blocked <==> exists f :: Get(old(errors), f) != None
      ensures outcome != Blocked ==> (outcome == Saved <==> serverOk)
    {
      var ok := ValidateForm(today);
      if !ok {
        outcome := Blocked;
      } else if serverOk {
        outcome := Saved;
      } else {
        outcome := SaveFailed;
      }
    }
  }

  /** A form whose fields were never touched is saved with every required
      field empty, and a second submit does not catch it either: the
      re-checks queued by the submit never reach the error map. */
  method UntouchedFormIsSaved(today: int) returns (first: SubmitOutcome, second: SubmitOutcome)
    ensures first == Saved && second == Saved
  {
    var form := new Form();
    assert Rule(FatherName, form.formData[FatherName], today) == Some(Required);
    assert forall f :: Get(form.errors, f) == None;
    first := form.HandleSubmit(today, true);
    assert forall f :: Get(form.errors, f) == None;
    second := form.HandleSubmit(today, true);
  }

  /** An error shown while typing blocks the submit even though the
      submit check runs again, and fixing the field clears the way. */
  method ErrorThenFix(rejected: string, accepted: string, today: int) returns (blocked: SubmitOutcome, saved: SubmitOutcome)
    requires Length(Trim(rejected)) < 10 && Length(Trim(accepted)) >= 10
    ensures blocked == Blocked && saved == Saved
  {
    var form := new Form();
    AddressRule(rejected, today);
    AddressRule(accepted, today);
    form.HandleChange(Address, rejected, today);
    assert Get(form.errors, Address) != None;
    blocked := form.HandleSubmit(today, true);
    form.HandleChange(Address, accepted, today);
    assert forall f :: Get(form.errors, f) == None;
    saved := form.HandleSubmit(today, true);
  }
}
