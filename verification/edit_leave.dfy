/**
 * The edit-leave page: a leave's type, dates and status loaded from the
 * server, checked on save, and sent back only when the page was opened
 * for a leave id.
 */
module EditLeave {
  import opened Common
  import opened JsText
  import opened IsoDate

  datatype Field = LeaveTypeId | FromDate | ToDate | Status

  /** A leave as the server returns it; the dates are ISO timestamps. */
  datatype LeaveRecord = LeaveRecord(status: string, leaveTypeId: int, fromDate: string, toDate: string)

  datatype SaveOutcome = Invalid | Updated | UpdateFailed | NothingSent

  const StatusOptions: seq<string> := ["Pending", "Approved", "Rejected"]

  const SelectType: string := "Please select leave type"
  const FromRequired: string := "From date is required"
  const ToRequired: string := "To date is required"
  const ToBeforeFrom: string := "To date cannot be before from date"
  const SelectStatus: string := "Please select status"

  /** `!leaveTypeId`: no type loaded (`null`) and the placeholder option
      (whose empty value `Number` turns into 0) are both unselected. */
  predicate TypeChosen(leaveTypeId: Option<int>) {
    leaveTypeId.Some? && leaveTypeId.value != 0
  }

  /** The save check's errors for the page's values. */
  function SaveErrors(leaveTypeId: Option<int>, fromDate: string, toDate: string, status: string): map<Field, string> {
    var m0: map<Field, string> := map[];
    var m1 := if !TypeChosen(leaveTypeId) then m0[LeaveTypeId := SelectType] else m0;
    var m2 := if fromDate == "" then m1[FromDate := FromRequired] else m1;
    var m3 :=
      if toDate == "" then m2[ToDate := ToRequired]
      else if fromDate != "" && LexLess(toDate, fromDate) then m2[ToDate := ToBeforeFrom]
      else m2;
    if status == "" then m3[Status := SelectStatus] else m3
  }

  /** The save check passes exactly when a type is chosen, both dates are
      set with the to date not before the from date, and a status is
      chosen; each error names its own field's failure. */
  lemma SaveVerdict(leaveTypeId: Option<int>, fromDate: string, toDate: string, status: string)
    ensures SaveErrors(leaveTypeId, fromDate, toDate, status) == map[] <==>
      TypeChosen(leaveTypeId) && fromDate != "" && toDate != "" &&
      !LexLess(toDate, fromDate) && status != ""
    ensures LeaveTypeId in SaveErrors(leaveTypeId, fromDate, toDate, status) <==> !TypeChosen(leaveTypeId)
    ensures Status in SaveErrors(leaveTypeId, fromDate, toDate, status) <==> status == ""
    ensures FromDate in SaveErrors(leaveTypeId, fromDate, toDate, status) <==> fromDate == ""
    ensures ToDate in SaveErrors(leaveTypeId, fromDate, toDate, status) <==>
      toDate == "" || (fromDate != "" && LexLess(toDate, fromDate))
  {
    var m := SaveErrors(leaveTypeId, fromDate, toDate, status);
    if !TypeChosen(leaveTypeId) {
      assert LeaveTypeId in m;
    } else if fromDate == "" {
      assert FromDate in m;
    } else if toDate == "" || LexLess(toDate, fromDate) {
      assert ToDate in m;
    } else if status == "" {
      assert Status in m;
    }
  }

  /** For dates loaded from timestamps whose date parts are valid, the
      order error is raised exactly when the to date is an earlier
      calendar day; a leave ending on its first day is accepted. */
  lemma LoadedDatesOrder(leaveTypeId: Option<int>, fromStamp: string, toStamp: string, status: string)
    requires IsDateText(BeforeT(fromStamp)) && IsDateText(BeforeT(toStamp))
    ensures ToDate in SaveErrors(leaveTypeId, BeforeT(fromStamp), BeforeT(toStamp), status) <==>
      DayKey(BeforeT(toStamp)).value < DayKey(BeforeT(fromStamp)).value
  {
    DateTextOrder(BeforeT(toStamp), BeforeT(fromStamp));
    SaveVerdict(leaveTypeId, BeforeT(fromStamp), BeforeT(toStamp), status);
  }

  class Page {
    const id: Option<string>
    var leaveTypeId: Option<int>
    var fromDate: string
    var toDate: string
    var leaveTypes: seq<(int, string)>
    var status: string
    var errors: map<Field, string>
    var loading: bool

    constructor (id: Option<string>)
      ensures this.id == id
      ensures leaveTypeId == None && fromDate == "" && toDate == "" && status == ""
      ensures leaveTypes == [] && errors == map[] && loading
    {
      this.id := id;
      leaveTypeId := None;
      fromDate := "";
      toDate := "";
      leaveTypes := [];
      status := "";
      errors := map[];
      loading := true;
    }

    /** The load effect. `types` is the leave-type fetch and `leave` the
        leave fetch (`None` when the request fails). A failed type fetch
        stops before the leave is requested; the leave is requested only
        for an id; the dates keep the part before `T`. Loading ends in
        every case. */
    method Load(types: Option<seq<(int, string)>>, leave: Option<LeaveRecord>)
      modifies this
      ensures !loading && errors == old(errors)
      ensures leaveTypes == (if types.Some? then types.value else old(leaveTypes))
      ensures if types.Some? && id.Some? && leave.Some? then
          status == leave.value.status && leaveTypeId == Some(leave.value.leaveTypeId) &&
          fromDate == BeforeT(leave.value.fromDate) && toDate == BeforeT(leave.value.toDate)
        else
          status == old(status) && leaveTypeId == old(leaveTypeId) &&
          fromDate == old(fromDate) && toDate == old(toDate)
    {
      if types.Some? {
        leaveTypes := types.value;
        if id.Some? && leave.Some? {
          status := leave.value.status;
          leaveTypeId := Some(leave.value.leaveTypeId);
          fromDate := BeforeT(leave.value.fromDate);
          toDate := BeforeT(leave.value.toDate);
        }
      }
      loading := false;
    }

    /** Choosing an option of the type select: the placeholder (`None`)
        becomes 0, which counts as unselected. */
    method ChooseLeaveType(option: Option<int>)
      modifies this
      ensures leaveTypeId == Some(option.GetOr(0))
      ensures TypeChosen(leaveTypeId) <==> option.Some? && option.value != 0
      ensures fromDate == old(fromDate) && toDate == old(toDate) && status == old(status)
      ensures errors == old(errors) && leaveTypes == old(leaveTypes) && loading == old(loading)
    {
      leaveTypeId := Some(option.GetOr(0));
    }

    /** Choosing an option of the status select ("" is the placeholder). */
    method ChooseStatus(option: string)
      requires option == "" || option in StatusOptions
      modifies this
      ensures status == option
      ensures leaveTypeId == old(leaveTypeId) && fromDate == old(fromDate) && toDate == old(toDate)
      ensures errors == old(errors) && leaveTypes == old(leaveTypes) && loading == old(loading)
    {
      status := option;
    }

    method SetDates(from: string, to: string)
      modifies this
      ensures fromDate == from && toDate == to
      ensures leaveTypeId == old(leaveTypeId) && status == old(status)
      ensures errors == old(errors) && leaveTypes == old(leaveTypes) && loading == old(loading)
    {
      fromDate := from;
      toDate := to;
    }

    method ValidateForm() returns (ok: bool)
      modifies this
      ensures errors == SaveErrors(leaveTypeId, fromDate, toDate, status)
      ensures ok <==> errors == map[]
      ensures leaveTypeId == old(leaveTypeId) && fromDate == old(fromDate) && toDate == old(toDate)
      ensures status == old(status) && leaveTypes == old(leaveTypes) && loading == old(loading)
    {
      errors := SaveErrors(leaveTypeId, fromDate, toDate, status);
      ok := errors == map[];
    }

    /** Save: the check runs first; a passing check sends the update only
        when the page has a leave id, and otherwise nothing happens. */
    method HandleSave(serverOk: bool) returns (outcome: SaveOutcome)
      modifies this
      ensures errors == SaveErrors(leaveTypeId, fromDate, toDate, status)
      ensures outcome == Invalid <==> errors != map[]
      ensures outcome == NothingSent <==> errors == map[] && id.None?
      ensures outcome == Updated <==> errors == map[] && id.Some? && serverOk
      ensures leaveTypeId == old(leaveTypeId) && fromDate == old(fromDate) && toDate == old(toDate)
      ensures status == old(status) && leaveTypes == old(leaveTypes) && loading == old(loading)
    {
      var ok := ValidateForm();
      if !ok {
        outcome := Invalid;
      } else if id.None? {
        outcome := NothingSent;
      } else if serverOk {
        outcome := Updated;
      } else {
        outcome := UpdateFailed;
      }
    }
  }

  /** Opening the page for a stored leave and saving it untouched sends
      the update: a leave with a type, a status and dates in order passes
      the check as loaded. */
  method SaveUntouched(leaveId: string, leave: LeaveRecord) returns (outcome: SaveOutcome)
    requires leave.leaveTypeId != 0 && leave.status in StatusOptions
    requires IsDateText(BeforeT(leave.fromDate)) && IsDateText(BeforeT(leave.toDate))
    requires DayKey(BeforeT(leave.fromDate)).value <= DayKey(BeforeT(leave.toDate)).value
    ensures outcome == Updated
  {
    var page := new Page(Some(leaveId));
    page.Load(Some([]), Some(leave));
    DateTextOrder(page.toDate, page.fromDate);
    SaveVerdict(page.leaveTypeId, page.fromDate, page.toDate, page.status);
    outcome := page.HandleSave(true);
  }
}
