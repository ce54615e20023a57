/**
 * The basic-details form (name, e-mail, contact number). Its submit check
 * recomputes every verdict from the current values into a fresh map that
 * holds only the fields in error.
 */
module UpdateBasicDetailForm {
  import opened Common
  import opened JsText
  import opened Patterns

  datatype Field = FirstName | LastName | Email | ContactNumber

  datatype Profile = Profile(firstName: string, lastName: string, email: string, contactNumber: string)

  const FirstNameRequired: string := "First name is required"
  const MinThree: string := "Minimum 3 characters required"
  const LastNameRequired: string := "Last name is required"
  const EmailRequired: string := "Email is required"
  const BadEmail: string := "Enter a valid email address"
  const ContactRequired: string := "Contact number is required"
  const BadContact: string := "Contact number must be 10 digits"

  /** The per-field check. Blankness is judged after trimming, but the
      length, e-mail and digit tests look at the value as typed. */
  function Rule(f: Field, v: string): Option<string> {
    match f
    case FirstName =>
      if IsBlank(v) then Some(FirstNameRequired)
      else if Length(v) < 3 then Some(MinThree)
      else None
    case LastName =>
      if IsBlank(v) then Some(LastNameRequired) else None
    case Email =>
      if IsBlank(v) then Some(EmailRequired)
      else if !LooseEmail(v) then Some(BadEmail)
      else None
    case ContactNumber =>
      if IsBlank(v) then Some(ContactRequired)
      else if !ExactDigits(v, 10) then Some(BadContact)
      else None
  }

  /** The live check records "" for a field without an error. */
  function LiveMessage(f: Field, v: string): string {
    Rule(f, v).GetOr("")
  }

  /** A first name's length is counted before trimming: a two-letter name
      padded with a space passes, and one without padding does not. */
  lemma FirstNameCountsPadding()
    ensures Rule(FirstName, " Al") == None
    ensures Rule(FirstName, "Al") == Some(MinThree)
  {
    assert !IsSpace(" Al"[1]);
    assert !IsSpace("Al"[0]);
    assert "Al" == ['A', 'l'];
    PairLength('A', 'l');
  }

  /** The contact number must be exactly ten ASCII digits as typed;
      surrounding spaces make it fail. */
  lemma ContactRule(v: string)
    ensures Rule(ContactNumber, v) == None <==> ExactDigits(v, 10)
  {
    if ExactDigits(v, 10) {
      assert !IsSpace(v[0]);
    }
  }

  /** The e-mail passes exactly when it matches the loose pattern; a
      match is never blank. */
  lemma EmailRule(v: string)
    ensures Rule(Email, v) == None <==> LooseEmail(v)
  {
    if LooseEmail(v) {
      var i, j :| 0 < i < |v| && 0 < j < |v| && i + 1 < j && j + 1 < |v| && v[i] == '@' && v[j] == '.';
      assert !IsSpace(v[i]);
    }
  }

  /** `m` holds `f`'s message exactly when `v` fails the check. */
  predicate Records(m: map<Field, string>, f: Field, v: string) {
    (f in m <==> Rule(f, v).Some?) && (f in m ==> m[f] == Rule(f, v).value)
  }

  function Get(p: Profile, f: Field): string {
    match f
    case FirstName => p.firstName
    case LastName => p.lastName
    case Email => p.email
    case ContactNumber => p.contactNumber
  }

  /** The submit check's own four tests, one after the other, each adding
      its field's message to a map that starts empty. */
  function SubmitErrors(p: Profile): map<Field, string> {
    var m0: map<Field, string> := map[];
    var m1 :=
      if IsBlank(p.firstName) then m0[FirstName := FirstNameRequired]
      else if Length(p.firstName) < 3 then m0[FirstName := MinThree]
      else m0;
    var m2 :=
      if IsBlank(p.lastName) then m1[LastName := LastNameRequired]
      else m1;
    var m3 :=
      if IsBlank(p.email) then m2[Email := EmailRequired]
      else if !LooseEmail(p.email) then m2[Email := BadEmail]
      else m2;
    if IsBlank(p.contactNumber) then m3[ContactNumber := ContactRequired]
    else if !ExactDigits(p.contactNumber, 10) then m3[ContactNumber := BadContact]
    else m3
  }

  lemma FirstRecorded(p: Profile)
    ensures Records(SubmitErrors(p), FirstName, p.firstName)
  {
  }

  lemma LastRecorded(p: Profile)
    ensures Records(SubmitErrors(p), LastName, p.lastName)
  {
  }

  lemma EmailRecorded(p: Profile)
    ensures Records(SubmitErrors(p), Email, p.email)
  {
  }

  lemma ContactRecorded(p: Profile)
    ensures Records(SubmitErrors(p), ContactNumber, p.contactNumber)
  {
  }

  /** The submit check, written separately in the source, gives every
      field exactly the message the live check gives it. */
  lemma SubmitMatchesLive(p: Profile)
    ensures forall f :: Records(SubmitErrors(p), f, Get(p, f))
  {
    var m := SubmitErrors(p);
    FirstRecorded(p);
    LastRecorded(p);
    EmailRecorded(p);
    ContactRecorded(p);
    forall f
      ensures Records(m, f, Get(p, f))
    {
      match f {
        case FirstName =>
        case LastName =>
        case Email =>
        case ContactNumber =>
      }
    }
  }

  class Form {
    var formData: Profile
    var errors: map<Field, string>

    constructor ()
      ensures formData == Profile("", "", "", "") && errors == map[]
    {
      formData := Profile("", "", "", "");
      errors := map[];
    }

    method Load(profile: Option<Profile>)
      modifies this
      ensures profile.Some? ==> formData == profile.value
      ensures profile.None? ==> formData == old(formData)
      ensures errors == old(errors)
    {
      if profile.Some? {
        formData := profile.value;
      }
    }

    /** An edit stores the value and records that field's message, "" when
        it passes; no other slot changes. */
    method HandleChange(f: Field, v: string)
      modifies this
      ensures Get(formData, f) == v
      ensures forall g | g != f :: Get(formData, g) == Get(old(formData), g)
      ensures errors == old(errors)[f := LiveMessage(f, v)]
    {
      match f {
        case FirstName => formData := formData.(firstName := v);
        case LastName => formData := formData.(lastName := v);
        case Email => formData := formData.(email := v);
        case ContactNumber => formData := formData.(contactNumber := v);
      }
      errors := errors[f := LiveMessage(f, v)];
    }

    /** The submit check: the fresh map of `SubmitErrors` replaces the
        error map; it passes when that map is empty. */
    method ValidateForm() returns (ok: bool)
      modifies this
      ensures formData == old(formData)
      ensures errors == SubmitErrors(formData)
      ensures forall f :: Records(errors, f, Get(formData, f))
      ensures ok <==> forall f :: Rule(f, Get(formData, f)) == None
    {
      errors := SubmitErrors(formData);
      ok := errors == map[];
      SubmitMatchesLive(formData);
      assert !ok ==> exists f :: Rule(f, Get(formData, f)) != None by {
        if !ok {
          var f :| f in errors;
          assert Rule(f, Get(formData, f)) != None;
        }
      }
    }

    method HandleSubmit(serverOk: bool) returns (outcome: SubmitOutcome)
      modifies this
      ensures formData == old(formData)
      ensures forall f :: Records(errors, f, Get(formData, f))
      ensures outcome == Blocked <==> exists f :: Rule(f, Get(formData, f)) != None
      ensures outcome != Blocked ==> (outcome == Saved <==> serverOk)
    {
      var ok := ValidateForm();
      if !ok {
        outcome := Blocked;
      } else if serverOk {
        outcome := Saved;
      } else {
        outcome := SaveFailed;
      }
    }
  }

  /** The submit check and the live check agree: after submitting, each
      field's slot holds what an edit to its current value would store
      ("" when it passes), and the submit passes exactly when every live
      message is empty. */
  lemma LiveAndSubmitAgree(p: Profile)
    ensures forall f :: (if f in SubmitErrors(p) then SubmitErrors(p)[f] else "") == LiveMessage(f, Get(p, f))
    ensures SubmitErrors(p) == map[] <==> forall f :: LiveMessage(f, Get(p, f)) == ""
  {
    SubmitMatchesLive(p);
    if SubmitErrors(p) != map[] {
      var f :| f in SubmitErrors(p);
      assert LiveMessage(f, Get(p, f)) != "";
    }
  }
}
