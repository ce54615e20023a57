/**
 * The add-leave-type form: a name and a description, checked as typed
 * and again on submit. Lengths count the untrimmed text.
 */
module AddLeaveTypesForm {
  import opened Common
  import opened JsText

  datatype Field = LeaveType | Description

  datatype LeaveTypeData = LeaveTypeData(leaveType: string, description: string)

  const TypeRequired: string := "Leave type is required"
  const MinThree: string := "Minimum 3 characters required"
  const DescriptionRequired: string := "Description is required"
  const MinFive: string := "Minimum 5 characters required"

  function Get(p: LeaveTypeData, f: Field): string {
    match f
    case LeaveType => p.leaveType
    case Description => p.description
  }

  /** The live check; "" means no error (and is what the error slot then
      holds). */
  function LiveMessage(f: Field, v: string): string {
    match f
    case LeaveType =>
      if IsBlank(v) then TypeRequired else if Length(v) < 3 then MinThree else ""
    case Description =>
      if IsBlank(v) then DescriptionRequired else if Length(v) < 5 then MinFive else ""
  }

  /** A value passes exactly when it is not blank and its untrimmed length
      (in UTF-16 code units) reaches the minimum, so surrounding spaces
      count towards it. */
  lemma LiveRule(f: Field, v: string)
    ensures LiveMessage(f, v) == "" <==> !IsBlank(v) && Length(v) >= (if f == LeaveType then 3 else 5)
    ensures LiveMessage(f, v) == "" <==> Trim(v) != "" && Length(v) >= (if f == LeaveType then 3 else 5)
  {
    BlankIffTrimsToEmpty(v);
  }

  /** The submit check, into a map that starts empty. */
  function SubmitErrors(p: LeaveTypeData): map<Field, string> {
    var m0: map<Field, string> := map[];
    var m1 :=
      if IsBlank(p.leaveType) then m0[LeaveType := TypeRequired]
      else if Length(p.leaveType) < 3 then m0[LeaveType := MinThree]
      else m0;
    if IsBlank(p.description) then m1[Description := DescriptionRequired]
    else if Length(p.description) < 5 then m1[Description := MinFive]
    else m1
  }

  /** The submit check reports a field exactly when its live check would,
      with the same message, and passes only when neither does. */
  lemma SubmitMatchesLive(p: LeaveTypeData)
    ensures forall f ::
      (f in SubmitErrors(p) <==> LiveMessage(f, Get(p, f)) != "") &&
      (f in SubmitErrors(p) ==> SubmitErrors(p)[f] == LiveMessage(f, Get(p, f)))
    ensures SubmitErrors(p) == map[] <==> LiveMessage(LeaveType, p.leaveType) == "" && LiveMessage(Description, p.description) == ""
  {
    if LiveMessage(LeaveType, p.leaveType) != "" {
      assert LeaveType in SubmitErrors(p);
    } else if LiveMessage(Description, p.description) != "" {
      assert Description in SubmitErrors(p);
    }
  }

  class Form {
    var formData: LeaveTypeData
    var errors: map<Field, string>

    constructor ()
      ensures formData == LeaveTypeData("", "") && errors == map[]
    {
      formData := LeaveTypeData("", "");
      errors := map[];
    }

    method HandleChange(f: Field, v: string)
      modifies this
      ensures formData == match f
        case LeaveType => old(formData).(leaveType := v)
        case Description => old(formData).(description := v)
      ensures errors == old(errors)[f := LiveMessage(f, v)]
    {
      match f {
        case LeaveType => formData := formData.(leaveType := v);
        case Description => formData := formData.(description := v);
      }
      errors := errors[f := LiveMessage(f, v)];
    }

    method ValidateForm() returns (ok: bool)
      modifies this
      ensures formData == old(formData)
      ensures errors == SubmitErrors(formData)
      ensures ok <==> errors == map[]
    {
      errors := SubmitErrors(formData);
      ok := errors == map[];
    }

    method HandleSubmit(serverOk: bool) returns (outcome: SubmitOutcome)
      modifies this
      ensures formData == old(formData)
      ensures errors == SubmitErrors(formData)
      ensures outcome == Blocked <==> errors != map[]
      ensures outcome != Blocked ==> (outcome == Saved <==> serverOk)
    {
      var ok := ValidateForm();
      if !ok {
        outcome := Blocked;
      } else if serverOk {
        outcome := Saved;
      } else {
        outcome := SaveFailed;
      }
    }
  }
}
