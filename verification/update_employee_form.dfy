/**
 * The edit-employee form. Like the personal-details form, its submit
 * check queues fresh per-field checks but returns, and installs, a copy
 * of the error map as it stood before the submit; a field that was never
 * edited is never judged.
 */
module UpdateEmployeeForm {
  import opened Common
  import opened JsText
  import opened Patterns

  datatype Field = FirstName | LastName | Email | ContactNumber | JoiningDate | Department | Position | Status

  /** `Object.keys(formData)`, in declaration order. */
  const Fields: seq<Field> := [FirstName, LastName, Email, ContactNumber, JoiningDate, Department, Position, Status]

  lemma FieldsListed(f: Field)
    ensures f in Fields
  {
  }

  const Required: string := "This field is required"
  const EmailRequired: string := "Email is required"
  const BadEmail: string := "Invalid email format"
  const BadContact: string := "Invalid contact number"

  function Rule(f: Field, v: string): Option<string> {
    match f
    case FirstName | LastName | Department | Position | Status =>
      if IsBlank(v) then Some(Required) else None
    case Email =>
      if IsBlank(v) then Some(EmailRequired)
      else if !StrictEmail(Trim(v)) then Some(BadEmail)
      else None
    case ContactNumber =>
      if v != "" && !DigitsBetween(Trim(v), 10, 15) then Some(BadContact) else None
    case JoiningDate => None
  }

  /** The joining date is never checked. */
  lemma JoiningDateNeverChecked(v: string)
    ensures Rule(JoiningDate, v) == None
  {
  }

  /** The contact number may be empty; otherwise its trimmed text must be
      ten to fifteen digits, so a value of spaces alone is rejected. */
  lemma ContactRule(v: string)
    ensures Rule(ContactNumber, "") == None
    ensures v != "" ==> (Rule(ContactNumber, v) == None <==> DigitsBetween(Trim(v), 10, 15))
    ensures v != "" && IsBlank(v) ==> Rule(ContactNumber, v) == Some(BadContact)
  {
    BlankIffTrimsToEmpty(v);
  }

  /** The e-mail passes exactly when its trimmed text matches the strict
      pattern (a local part, "@", a domain, "." and a top-level domain of
      two or more letters). */
  lemma EmailRule(v: string)
    ensures Rule(Email, v) == None <==> StrictEmailSpec(Trim(v))
  {
    StrictEmailCorrect(Trim(v));
    BlankIffTrimsToEmpty(v);
    if StrictEmail(Trim(v)) {
      assert Trim(v) != "";
    }
  }

  function Get(m: map<Field, Option<string>>, f: Field): Option<string> {
    if f in m then m[f] else None
  }

  class Form {
    var formData: map<Field, string>
    var errors: map<Field, Option<string>>
    var departments: seq<string>
    var positions: seq<string>
    var statuses: seq<string>

    ghost predicate Valid()
      reads this
    {
      forall f :: f in formData
    }

    constructor ()
      ensures Valid() && errors == map[]
      ensures forall f :: formData[f] == ""
      ensures departments == [] && positions == [] && statuses == []
    {
      formData := map f: Field | f in Fields :: "";
      errors := map[];
      departments, positions, statuses := [], [], [];
      new;
      forall f
        ensures f in formData
      {
        FieldsListed(f);
      }
    }

    /** The fetch: the three option lists (`None` when that request
        fails, which stops the load), then the employee's values (`None`
        when that request fails; `joiningDate` already cut to
        "yyyy-mm-dd"). The error map is not touched. */
    method Load(enums: Option<(seq<string>, seq<string>, seq<string>)>, employee: Option<map<Field, string>>)
      requires Valid()
      requires employee.Some? ==> forall f :: f in employee.value
      modifies this
      ensures Valid() && errors == old(errors)
      ensures enums.Some? ==> departments == enums.value.0 && positions == enums.value.1 && statuses == enums.value.2
      ensures enums.None? ==> departments == old(departments) && positions == old(positions) && statuses == old(statuses)
      ensures formData == (if enums.Some? && employee.Some? then employee.value else old(formData))
    {
      if enums.Some? {
        departments, positions, statuses := enums.value.0, enums.value.1, enums.value.2;
        if employee.Some? {
          formData := employee.value;
        }
      }
    }

    method HandleChange(f: Field, v: string)
      requires Valid()
      modifies this
      ensures Valid()
      ensures formData == old(formData)[f := v]
      ensures errors == old(errors)[f := Rule(f, v)]
      ensures departments == old(departments) && positions == old(positions) && statuses == old(statuses)
    {
      formData := formData[f := v];
      errors := errors[f := Rule(f, v)];
    }

    /** The submit check: the new map copies each field's slot from the
        map as it stood before the submit, and that copy is installed last,
        over the queued re-checks. */
    method ValidateForm() returns (ok: bool)
      requires Valid()
      modifies this
      ensures Valid() && formData == old(formData)
      ensures forall f :: f in errors && errors[f] == Get(old(errors), f)
      ensures ok <==> forall f :: Get(old(errors), f) == None
      ensures departments == old(departments) && positions == old(positions) && statuses == old(statuses)
    {
      var snapshot := errors;
      var queued := errors;
      var newErrors: map<Field, Option<string>> := map[];
      var i := 0;
      while i < |Fields|
        invariant 0 <= i <= |Fields|
        invariant forall j | 0 <= j < i :: Fields[j] in newErrors
        invariant forall f | f in newErrors :: newErrors[f] == Get(snapshot, f)
      {
        var field := Fields[i];
        queued := queued[field := Rule(field, formData[field])];
        newErrors := newErrors[field := Get(snapshot, field)];
        i := i + 1;
      }
      forall f
        ensures f in newErrors
      {
        FieldsListed(f);
      }
      errors := queued;
      errors := newErrors;
      ok := forall f | f in newErrors :: newErrors[f] == None;
    }

    method HandleSubmit(serverOk: bool) returns (outcome: SubmitOutcome)
      requires Valid()
      modifies this
      ensures Valid() && formData == old(formData)
      ensures forall f :: f in errors && errors[f] == Get(old(errors), f)
      ensures outcome == Blocked <==> exists f :: Get(old(errors), f) != None
      ensures outcome != Blocked ==> (outcome == Saved <==> serverOk)
    {
      var ok := ValidateForm();
      if !ok {
        outcome := Blocked;
      } else if serverOk {
        outcome := Saved;
      } else {
        outcome := SaveFailed;
      }
    }
  }

  /** A record loaded with a malformed e-mail and an empty first name is
      saved as it is when nothing is edited before submitting. */
  method LoadedRecordIsNotChecked(employee: map<Field, string>) returns (outcome: SubmitOutcome)
    requires forall f :: f in employee
    requires employee[FirstName] == "" && employee[Email] == "not-an-address"
    ensures Rule(FirstName, employee[FirstName]) == Some(Required)
    ensures outcome == Saved
  {
    var form := new Form();
    form.Load(Some(([], [], [])), Some(employee));
    assert forall f :: Get(form.errors, f) == None;
    outcome := form.HandleSubmit(true);
  }
}
