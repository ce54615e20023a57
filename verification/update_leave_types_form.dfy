/**
 * The edit-leave-type form. Lengths count the trimmed text, and the
 * submit check judges the error slots as they stood before the submit.
 */
module UpdateLeaveTypesForm {
  import opened Common
  import opened JsText
  import AddLeaveTypesForm

  datatype Field = LeaveType | Description

  /** The order of `Object.keys(formData)`. */
  const Fields: seq<Field> := [LeaveType, Description]

  lemma FieldsListed(f: Field)
    ensures f in Fields
  {
  }

  datatype LeaveTypeData = LeaveTypeData(leaveType: string, description: string)

  const TypeRequired: string := "Leave Type is required"
  const MinThree: string := "Minimum 3 characters required"
  const DescriptionRequired: string := "Description is required"
  const MinFive: string := "Minimum 5 characters required"

  function Value(p: LeaveTypeData, f: Field): string {
    match f
    case LeaveType => p.leaveType
    case Description => p.description
  }

  /** One field's check; `None` is the `undefined` the slot then holds. */
  function Rule(f: Field, v: string): Option<string> {
    match f
    case LeaveType =>
      if IsBlank(v) then Some(TypeRequired) else if Length(Trim(v)) < 3 then Some(MinThree) else None
    case Description =>
      if IsBlank(v) then Some(DescriptionRequired) else if Length(Trim(v)) < 5 then Some(MinFive) else None
  }

  /** A value passes exactly when its trimmed text reaches the minimum;
      the blank case is the empty trimmed text. */
  lemma TrimmedRule(f: Field, v: string)
    ensures Rule(f, v) == None <==> Length(Trim(v)) >= (if f == LeaveType then 3 else 5)
    ensures IsBlank(v) <==> Rule(f, v) == Some(if f == LeaveType then TypeRequired else DescriptionRequired)
  {
    BlankIffTrimsToEmpty(v);
  }

  /** The two leave-type forms disagree on padded names: two characters
      and a space always pass the add form's length check, and fail this
      one's exactly when both characters are single UTF-16 code units. */
  lemma PaddedNameDiffers(a: char, b: char)
    requires !IsSpace(a) && !IsSpace(b)
    ensures AddLeaveTypesForm.LiveMessage(AddLeaveTypesForm.LeaveType, [a, b, ' ']) == ""
    ensures Rule(LeaveType, [a, b, ' ']) == Some(MinThree) <==> a as int < 0x1_0000 && b as int < 0x1_0000
    ensures Rule(LeaveType, [a, b, ' ']) == None <==> a as int >= 0x1_0000 || b as int >= 0x1_0000
  {
    var v := [a, b, ' '];
    PaddedPairLength(a, b);
    assert !IsBlank(v) by {
      assert !IsSpace(v[0]);
    }
    assert Rule(LeaveType, v) == if Length(Trim(v)) < 3 then Some(MinThree) else None;
    assert Length(v) >= 3;
  }


  function Get(m: map<Field, Option<string>>, f: Field): Option<string> {
    if f in m then m[f] else None
  }

  class Form {
    var formData: LeaveTypeData
    var errors: map<Field, Option<string>>

    constructor ()
      ensures formData == LeaveTypeData("", "") && errors == map[]
    {
      formData := LeaveTypeData("", "");
      errors := map[];
    }

    /** The record fetch; a failed fetch leaves the values as they were. */
    method Load(record: Option<LeaveTypeData>)
      modifies this
      ensures formData == (if record.Some? then record.value else old(formData))
      ensures errors == old(errors)
    {
      if record.Some? {
        formData := record.value;
      }
    }

    method HandleChange(f: Field, v: string)
      modifies this
      ensures formData == match f
        case LeaveType => old(formData).(leaveType := v)
        case Description => old(formData).(description := v)
      ensures errors == old(errors)[f := Rule(f, v)]
    {
      match f {
        case LeaveType => formData := formData.(leaveType := v);
        case Description => formData := formData.(description := v);
      }
      errors := errors[f := Rule(f, v)];
    }

    /** The submit check. Each field's re-check is queued, the new map
        copies the slot as it stood before the submit, and that copy is
        installed last; the verdict is whether the old slots held no
        error. */
    method ValidateForm() returns (ok: bool)
      modifies this
      ensures formData == old(formData)
      ensures forall f :: f in errors && errors[f] == Get(old(errors), f)
      ensures ok <==> forall f :: Get(old(errors), f) == None
    {
      var snapshot := errors;
      var queued := errors;
      var newErrors: map<Field, Option<string>> := map[];
      var i := 0;
      while i < |Fields|
        invariant 0 <= i <= |Fields|
        invariant forall j | 0 <= j < i :: Fields[j] in newErrors
        invariant forall f | f in newErrors :: newErrors[f] == Get(snapshot, f)
      {
        var field := Fields[i];
        queued := queued[field := Rule(field, Value(formData, field))];
        newErrors := newErrors[field := Get(snapshot, field)];
        i := i + 1;
      }
      forall f
        ensures f in newErrors
      {
        FieldsListed(f);
      }
      errors := queued;
      errors := newErrors;
      ok := forall f | f in newErrors :: newErrors[f] == None;
    }

    method HandleSubmit(serverOk: bool) returns (outcome: SubmitOutcome)
      modifies this
      ensures formData == old(formData)
      ensures forall f :: f in errors && errors[f] == Get(old(errors), f)
      ensures outcome == Blocked <==> exists f :: Get(old(errors), f) != None
      ensures outcome != Blocked ==> (outcome == Saved <==> serverOk)
    {
      var ok := ValidateForm();
      if !ok {
        outcome := Blocked;
      } else if serverOk {
        outcome := Saved;
      } else {
        outcome := SaveFailed;
      }
    }
  }

  /** A loaded record is never checked: one whose name and description are
      blank is sent as it is. */
  method BlankRecordIsSaved() returns (outcome: SubmitOutcome)
    ensures outcome == Saved
  {
    var form := new Form();
    form.Load(Some(LeaveTypeData("", "")));
    assert forall f :: Get(form.errors, f) == None;
    outcome := form.HandleSubmit(true);
  }

  /** A blank edit leaves its error in the slot, and the submit that
      follows is blocked. */
  method BlankEditBlocks(v: string) returns (outcome: SubmitOutcome)
    requires IsBlank(v)
    ensures outcome == Blocked
  {
    var form := new Form();
    form.HandleChange(Description, v);
    assert Get(form.errors, Description) != None;
    outcome := form.HandleSubmit(true);
  }
}
