/**
 * The process-payroll form: an employee and a month are chosen, and the
 * payroll for that pair is requested.
 */
module ProcessPayrollForm {
  import opened Common

  /** An employee as offered in the select: the option value is the id. */
  datatype EmployeeChoice = EmployeeChoice(id: string, firstName: string, lastName: string)

  /** The payroll run the server is asked for. */
  datatype PayrollRequest = PayrollRequest(employeeId: string, month: string)

  class Form {
    var employees: seq<EmployeeChoice>
    var selectedEmployee: string
    var month: string

    constructor ()
      ensures employees == [] && selectedEmployee == "" && month == ""
    {
      employees := [];
      selectedEmployee := "";
      month := "";
    }

    /** The employee fetch: `fetched` is `None` when the request fails,
        and a reply without a list gives the empty list (`|| []`). */
    method LoadEmployees(fetched: Option<Option<seq<EmployeeChoice>>>)
      modifies this
      ensures employees == (if fetched.None? then old(employees) else fetched.value.GetOr([]))
      ensures selectedEmployee == old(selectedEmployee) && month == old(month)
    {
      if fetched.Some? {
        employees := fetched.value.GetOr([]);
      }
    }

    method Choose(employeeId: string, chosenMonth: string)
      modifies this
      ensures selectedEmployee == employeeId && month == chosenMonth
      ensures employees == old(employees)
    {
      selectedEmployee := employeeId;
      month := chosenMonth;
    }

    /** Submit: nothing is requested unless both an employee and a month
        are chosen; a processed payroll clears both, and a failed one
        keeps them for another try. */
    method HandleSubmit(serverOk: bool) returns (outcome: SubmitOutcome, sent: Option<PayrollRequest>)
      modifies this
      ensures employees == old(employees)
      ensures outcome == Blocked <==> old(selectedEmployee) == "" || old(month) == ""
      ensures sent == (if outcome == Blocked then None else Some(PayrollRequest(old(selectedEmployee), old(month))))
      ensures outcome != Blocked ==> (outcome == Saved <==> serverOk)
      ensures if outcome == Saved then selectedEmployee == "" && month == ""
        else selectedEmployee == old(selectedEmployee) && month == old(month)
    {
      if selectedEmployee == "" || month == "" {
        outcome := Blocked;
        sent := None;
        return;
      }
      sent := Some(PayrollRequest(selectedEmployee, month));
      if serverOk {
        selectedEmployee := "";
        month := "";
        outcome := Saved;
      } else {
        outcome := SaveFailed;
      }
    }
  }

  /** A processed payroll leaves both selections empty: the page then
      navigates away, and a further submit of the same form would be
      blocked and send nothing. */
  method SubmitTwice(employeeId: string, chosenMonth: string) returns (first: Option<PayrollRequest>, second: Option<PayrollRequest>)
    requires employeeId != "" && chosenMonth != ""
    ensures first == Some(PayrollRequest(employeeId, chosenMonth))
    ensures second == None
  {
    var form := new Form();
    form.Choose(employeeId, chosenMonth);
    var outcome;
    outcome, first := form.HandleSubmit(true);
    outcome, second := form.HandleSubmit(true);
  }
}
