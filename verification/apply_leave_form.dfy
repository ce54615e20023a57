/**
 * The apply-for-leave form: leave type, from and to dates (as the date
 * inputs give them, "yyyy-mm-dd" or empty) and a description. Dates are
 * compared as strings, as the source does.
 */
module ApplyLeaveForm {
  import opened Common
  import opened JsText
  import opened IsoDate

  datatype Field = LeaveTypeId | FromDate | ToDate | Description

  /** The form's values; `leaveTypeId` is `None` while it still holds the
      initial number 0, and the text of the chosen option afterwards. */
  datatype LeaveData = LeaveData(leaveTypeId: Option<string>, fromDate: string, toDate: string, description: string)

  const Initial: LeaveData := LeaveData(None, "", "", "")

  const FromRequired: string := "From date is required"
  const ToRequired: string := "To date is required"
  const ToBeforeFrom: string := "To date cannot be before From date"
  const DescriptionRequired: string := "Description is required"
  const MinFive: string := "Minimum 5 characters required"

  /** The live check of one field, given the from date held when the edit
      happens; "" means no error. The leave type is never checked. */
  function LiveMessage(f: Field, v: string, fromDate: string): string {
    match f
    case FromDate => if v == "" then FromRequired else ""
    case ToDate =>
      if v == "" then ToRequired
      else if fromDate != "" && LexLess(v, fromDate) then ToBeforeFrom
      else ""
    case Description =>
      if IsBlank(v) then DescriptionRequired
      else if Length(v) < 5 then MinFive
      else ""
    case LeaveTypeId => ""
  }

  /** The submit check's own tests, in order, into a map that starts
      empty. */
  function SubmitErrors(p: LeaveData): map<Field, string> {
    var m0: map<Field, string> := map[];
    var m1 := if p.fromDate == "" then m0[FromDate := FromRequired] else m0;
    var m2 :=
      if p.toDate == "" then m1[ToDate := ToRequired]
      else if p.fromDate != "" && LexLess(p.toDate, p.fromDate) then m1[ToDate := ToBeforeFrom]
      else m1;
    if IsBlank(p.description) then m2[Description := DescriptionRequired]
    else if Length(p.description) < 5 then m2[Description := MinFive]
    else m2
  }

  /** For values a date input produces, the to-date error is raised
      exactly when the to date is an earlier calendar day. */
  lemma ToBeforeFromIsEarlierDay(v: string, fromDate: string)
    requires IsDateText(v) && IsDateText(fromDate)
    ensures LiveMessage(ToDate, v, fromDate) == ToBeforeFrom <==> DayKey(v).value < DayKey(fromDate).value
  {
    DateTextOrder(v, fromDate);
  }

  function Get(p: LeaveData, f: Field): string
    requires f != LeaveTypeId
  {
    match f
    case FromDate => p.fromDate
    case ToDate => p.toDate
    case Description => p.description
  }

  /** The submit check agrees with the live check applied to the current
      values: each dated or described field carries exactly the live
      message when it has one, and the leave type never appears. */
  lemma SubmitMatchesLive(p: LeaveData)
    ensures LeaveTypeId !in SubmitErrors(p)
    ensures forall f | f != LeaveTypeId ::
      (f in SubmitErrors(p) <==> LiveMessage(f, Get(p, f), p.fromDate) != "") &&
      (f in SubmitErrors(p) ==> SubmitErrors(p)[f] == LiveMessage(f, Get(p, f), p.fromDate))
  {
  }

  /** The submit check passes exactly when both dates are set, the to date
      is not before the from date, and the description is five or more
      UTF-16 code units long and not blank. Equal dates pass. */
  lemma SubmitVerdict(p: LeaveData)
    ensures SubmitErrors(p) == map[] <==>
      p.fromDate != "" && p.toDate != "" && !LexLess(p.toDate, p.fromDate) &&
      !IsBlank(p.description) && Length(p.description) >= 5
    ensures p.fromDate == p.toDate && p.fromDate != "" ==> ToDate !in SubmitErrors(p)
  {
    LexLessIrreflexive(p.fromDate);
    var m := SubmitErrors(p);
    if p.fromDate == "" {
      assert FromDate in m;
    } else if p.toDate == "" || LexLess(p.toDate, p.fromDate) {
      assert ToDate in m;
    } else if IsBlank(p.description) || Length(p.description) < 5 {
      assert Description in m;
    }
  }

  class Form {
    var formData: LeaveData
    var errors: map<Field, string>
    var leaveTypes: seq<(int, string)>

    constructor ()
      ensures formData == Initial && errors == map[] && leaveTypes == []
    {
      formData := Initial;
      errors := map[];
      leaveTypes := [];
    }

    /** The leave-type fetch: `data` is `None` when the request fails,
        which changes nothing, and a reply without a list gives the empty
        list (`data || []`). */
    method LoadLeaveTypes(data: Option<Option<seq<(int, string)>>>)
      modifies this
      ensures leaveTypes == (if data.Some? then data.value.GetOr([]) else old(leaveTypes))
      ensures formData == old(formData) && errors == old(errors)
    {
      if data.Some? {
        leaveTypes := data.value.GetOr([]);
      }
    }

    /** An edit stores the value and records the live message for that
        field alone; a to-date verdict is judged against the from date
        held at that moment and is not revisited when the from date
        changes. */
    method HandleChange(f: Field, v: string)
      modifies this
      ensures errors == old(errors)[f := LiveMessage(f, v, old(formData).fromDate)]
      ensures formData == match f
        case LeaveTypeId => old(formData).(leaveTypeId := Some(v))
        case FromDate => old(formData).(fromDate := v)
        case ToDate => old(formData).(toDate := v)
        case Description => old(formData).(description := v)
      ensures leaveTypes == old(leaveTypes)
    {
      errors := errors[f := LiveMessage(f, v, formData.fromDate)];
      match f {
        case LeaveTypeId => formData := formData.(leaveTypeId := Some(v));
        case FromDate => formData := formData.(fromDate := v);
        case ToDate => formData := formData.(toDate := v);
        case Description => formData := formData.(description := v);
      }
    }

    method ValidateForm() returns (ok: bool)
      modifies this
      ensures formData == old(formData) && leaveTypes == old(leaveTypes)
      ensures errors == SubmitErrors(formData)
      ensures ok <==> errors == map[]
    {
      errors := SubmitErrors(formData);
      ok := errors == map[];
    }

    /** Submission: blocked by the submit check; after a successful
        request the values return to their initial state (the error map is
        left as the submit check set it, empty). */
    method HandleSubmit(serverOk: bool) returns (outcome: SubmitOutcome)
      modifies this
      ensures leaveTypes == old(leaveTypes)
      ensures errors == SubmitErrors(old(formData))
      ensures outcome == Blocked <==> SubmitErrors(old(formData)) != map[]
      ensures outcome == Saved <==> outcome != Blocked && serverOk
      ensures formData == (if outcome == Saved then Initial else old(formData))
    {
      var ok := ValidateForm();
      if !ok {
        outcome := Blocked;
      } else if serverOk {
        formData := Initial;
        outcome := Saved;
      } else {
        outcome := SaveFailed;
      }
    }
  }

  /** A to-date error raised while typing outlives the from date that
      caused it: with a to date before the first from date, and the from
      date then moved to a day not after the to date, the error is still
      shown, though the submit check no longer reports it and the leave is
      sent. */
  method StaleToDateError(firstFrom: string, to: string, laterFrom: string, description: string)
    returns (shown: string, outcome: SubmitOutcome)
    requires IsDateText(firstFrom) && IsDateText(to) && IsDateText(laterFrom)
    requires DayKey(to).value < DayKey(firstFrom).value
    requires DayKey(laterFrom).value <= DayKey(to).value
    requires !IsBlank(description) && |description| >= 5
    ensures shown == ToBeforeFrom
    ensures outcome == Saved
  {
    var form := new Form();
    form.HandleChange(FromDate, firstFrom);
    ToBeforeFromIsEarlierDay(to, firstFrom);
    form.HandleChange(ToDate, to);
    form.HandleChange(FromDate, laterFrom);
    form.HandleChange(Description, description);
    shown := form.errors[ToDate];
    ToBeforeFromIsEarlierDay(to, laterFrom);
    SubmitVerdict(form.formData);
    outcome := form.HandleSubmit(true);
  }
}
