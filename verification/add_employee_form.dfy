/**
 * The add-employee form. Its live checks and its submit check are written
 * separately and differ: the submit check has no minimum length for the
 * first name, words the bad-e-mail message differently, and requires the
 * joining date only when the contact number is empty — it looks at the
 * contact number, not at the joining date.
 */
module AddEmployeeForm {
  import opened Common
  import opened JsText
  import opened Patterns

  datatype Field = FirstName | LastName | Email | ContactNumber | JoiningDate | Department | Position | Status

  datatype EmployeeData = EmployeeData(
    firstName: string, lastName: string, email: string, contactNumber: string,
    joiningDate: string, department: string, position: string, status: string)

  const Empty: EmployeeData := EmployeeData("", "", "", "", "", "", "", "")

  function Get(p: EmployeeData, f: Field): string {
    match f
    case FirstName => p.firstName
    case LastName => p.lastName
    case Email => p.email
    case ContactNumber => p.contactNumber
    case JoiningDate => p.joiningDate
    case Department => p.department
    case Position => p.position
    case Status => p.status
  }

  function Set(p: EmployeeData, f: Field, v: string): (q: EmployeeData)
    ensures Get(q, f) == v
    ensures forall g | g != f :: Get(q, g) == Get(p, g)
  {
    match f
    case FirstName => p.(firstName := v)
    case LastName => p.(lastName := v)
    case Email => p.(email := v)
    case ContactNumber => p.(contactNumber := v)
    case JoiningDate => p.(joiningDate := v)
    case Department => p.(department := v)
    case Position => p.(position := v)
    case Status => p.(status := v)
  }

  const FirstNameRequired: string := "First name is required"
  const MinThree: string := "Minimum 3 characters"
  const LastNameRequired: string := "Last name is required"
  const EmailRequired: string := "Email is required"
  const LiveBadEmail: string := "Enter a valid email address"
  const SubmitBadEmail: string := "Invalid email address"
  const BadContact: string := "Contact number must be 10 digits"
  const JoiningRequired: string := "Joining date is required"

  /** The live check; "" means no error. The contact number may be left
      empty, and the department, position and status are never checked. */
  function LiveMessage(f: Field, v: string): string {
    match f
    case FirstName =>
      if IsBlank(v) then FirstNameRequired else if Length(v) < 3 then MinThree else ""
    case LastName =>
      if IsBlank(v) then LastNameRequired else ""
    case Email =>
      if IsBlank(v) then EmailRequired else if !LooseEmail(v) then LiveBadEmail else ""
    case ContactNumber =>
      if v != "" && !ExactDigits(v, 10) then BadContact else ""
    case JoiningDate =>
      if v == "" then JoiningRequired else ""
    case Department | Position | Status => ""
  }

  /** The submit check: its own tests, one after the other, into a map
      that starts empty. */
  function SubmitErrors(p: EmployeeData): map<Field, string> {
    var m0: map<Field, string> := map[];
    var m1 := if IsBlank(p.firstName) then m0[FirstName := FirstNameRequired] else m0;
    var m2 := if IsBlank(p.lastName) then m1[LastName := LastNameRequired] else m1;
    var m3 :=
      if IsBlank(p.email) then m2[Email := EmailRequired]
      else if !LooseEmail(p.email) then m2[Email := SubmitBadEmail]
      else m2;
    var m4 := if p.contactNumber != "" && !ExactDigits(p.contactNumber, 10) then m3[ContactNumber := BadContact] else m3;
    if p.contactNumber == "" then m4[JoiningDate := JoiningRequired] else m4
  }

  lemma LooseEmailNotBlank(v: string)
    requires LooseEmail(v)
    ensures !IsBlank(v)
  {
    var i, j :| 0 < i < |v| && 0 < j < |v| && i + 1 < j && j + 1 < |v| && v[i] == '@' && v[j] == '.';
    assert !IsSpace(v[i]);
  }

  /** The submit check passes exactly when both names are not blank, the
      e-mail matches the loose pattern and the contact number is ten
      digits; the joining date plays no part. */
  lemma SubmitVerdict(p: EmployeeData)
    ensures SubmitErrors(p) == map[] <==>
      !IsBlank(p.firstName) && !IsBlank(p.lastName) && LooseEmail(p.email) && ExactDigits(p.contactNumber, 10)
  {
    if LooseEmail(p.email) {
      LooseEmailNotBlank(p.email);
    }
    var m := SubmitErrors(p);
    if IsBlank(p.firstName) {
      assert FirstName in m;
    } else if IsBlank(p.lastName) {
      assert LastName in m;
    } else if !LooseEmail(p.email) {
      assert Email in m;
    } else if p.contactNumber == "" {
      assert JoiningDate in m;
    } else if !ExactDigits(p.contactNumber, 10) {
      assert ContactNumber in m;
    }
  }

  /** Changing only the joining date never changes the submit check's
      outcome: an empty joining date with a contact number passes, and a
      filled one without a contact number is reported missing. */
  lemma JoiningDateIgnored(p: EmployeeData, date: string)
    ensures SubmitErrors(p.(joiningDate := date)) == SubmitErrors(p)
    ensures p.contactNumber == "" ==> SubmitErrors(p)[JoiningDate] == JoiningRequired
  {
  }

  /** A two-letter first name is an error while typing but is accepted by
      the submit check. */
  lemma ShortFirstNameAccepted(p: EmployeeData)
    requires p.firstName == "Al"
    ensures LiveMessage(FirstName, p.firstName) == MinThree
    ensures FirstName !in SubmitErrors(p)
  {
    assert !IsSpace(p.firstName[0]);
    assert p.firstName == ['A', 'l'];
    PairLength('A', 'l');
  }

  /** Where both checks report an e-mail error they word it differently. */
  lemma EmailMessagesDiffer(p: EmployeeData)
    requires !IsBlank(p.email) && !LooseEmail(p.email)
    ensures LiveMessage(Email, p.email) == LiveBadEmail
    ensures SubmitErrors(p)[Email] == SubmitBadEmail
    ensures LiveBadEmail != SubmitBadEmail
  {
  }

  /** The default pick of a drop-down: its first option (`list[0] || ""`). */
  function DefaultChoice(options: seq<string>): (c: string)
    ensures options != [] ==> c == options[0]
    ensures options == [] ==> c == ""
  {
    if options != [] && options[0] != "" then options[0] else ""
  }

  class Form {
    var formData: EmployeeData
    var errors: map<Field, string>
    var departments: seq<string>
    var positions: seq<string>
    var statuses: seq<string>

    constructor ()
      ensures formData == Empty && errors == map[]
      ensures departments == [] && positions == [] && statuses == []
    {
      formData := Empty;
      errors := map[];
      departments, positions, statuses := [], [], [];
    }

    /** The enum fetch (`None` when the request fails) fills the three
        lists and selects each list's first entry; the other fields keep
        what they hold. A failed fetch changes nothing. */
    method LoadEnums(enums: Option<(seq<string>, seq<string>, seq<string>)>)
      modifies this
      ensures enums.Some? ==>
        var (ds, ps, ss) := enums.value;
        departments == ds && positions == ps && statuses == ss &&
        formData == old(formData).(department := DefaultChoice(ds),
                                   position := DefaultChoice(ps),
                                   status := DefaultChoice(ss))
      ensures enums.None? ==>
        departments == old(departments) && positions == old(positions) && statuses == old(statuses) &&
        formData == old(formData)
      ensures errors == old(errors)
    {
      if enums.Some? {
        var (ds, ps, ss) := enums.value;
        departments, positions, statuses := ds, ps, ss;
        formData := formData.(department := DefaultChoice(ds), position := DefaultChoice(ps), status := DefaultChoice(ss));
      }
    }

    method HandleChange(f: Field, v: string)
      modifies this
      ensures formData == Set(old(formData), f, v)
      ensures errors == old(errors)[f := LiveMessage(f, v)]
      ensures departments == old(departments) && positions == old(positions) && statuses == old(statuses)
    {
      formData := Set(formData, f, v);
      errors := errors[f := LiveMessage(f, v)];
    }

    method ValidateForm() returns (ok: bool)
      modifies this
      ensures formData == old(formData)
      ensures errors == SubmitErrors(formData)
      ensures ok <==> errors == map[]
    {
      errors := SubmitErrors(formData);
      ok := errors == map[];
    }

    method HandleSubmit(serverOk: bool) returns (outcome: SubmitOutcome)
      modifies this
      ensures formData == old(formData)
      ensures errors == SubmitErrors(formData)
      ensures outcome == Blocked <==>
        !(!IsBlank(formData.firstName) && !IsBlank(formData.lastName) &&
          LooseEmail(formData.email) && ExactDigits(formData.contactNumber, 10))
      ensures outcome != Blocked ==> (outcome == Saved <==> serverOk)
    {
      var ok := ValidateForm();
      SubmitVerdict(formData);
      if !ok {
        outcome := Blocked;
      } else if serverOk {
        outcome := Saved;
      } else {
        outcome := SaveFailed;
      }
    }
  }
}
