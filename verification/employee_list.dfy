/**
 * The employee list screen: one fetched page of employees, narrowed by a
 * department, a status and a free-text search, with delete and the
 * Previous/Next pager.
 */
module EmployeeList {
  import opened Common
  import opened Lists
  import opened Pagination
  import opened SearchFilter

  datatype Employee = Employee(id: int, firstName: string, lastName: string, email: string, department: string, status: string)

  /** One page of the employee fetch and the enumeration fetch. */
  datatype EmployeePage = EmployeePage(employees: seq<Employee>, totalPages: int)
  datatype Enums = Enums(departments: Option<seq<string>>, statuses: Option<seq<string>>)

  const AllDepartments: string := "All Departments"
  const AllStatus: string := "All Status"
  const PageLimit: int := 5

  predicate DepartmentOk(e: Employee, department: string) {
    department == AllDepartments || e.department == department
  }

  predicate StatusOk(e: Employee, status: string) {
    status == AllStatus || e.status == status
  }

  predicate SearchOk(e: Employee, search: string) {
    !SearchActive(search) || MatchesSearch(e.firstName, e.lastName, e.email, search)
  }

  /** An employee is listed when it passes every active filter; the
      sentinel choices and a blank search switch their filter off. */
  predicate Passes(e: Employee, department: string, status: string, search: string) {
    DepartmentOk(e, department) && StatusOk(e, status) && SearchOk(e, search)
  }

  function PassesFn(department: string, status: string, search: string): Employee -> bool {
    e => Passes(e, department, status, search)
  }

  function DepartmentFn(department: string): Employee -> bool {
    e => DepartmentOk(e, department)
  }

  function DepartmentStatusFn(department: string, status: string): Employee -> bool {
    e => DepartmentOk(e, department) && StatusOk(e, status)
  }

  /** The filter effect: the department, status and search filters applied
      one after the other, each only when active. The result is the
      employees that pass every active filter, in their original order. */
  method ApplyFilters(employees: seq<Employee>, department: string, status: string, search: string)
    returns (filtered: seq<Employee>)
    ensures filtered == Filter(employees, PassesFn(department, status, search))
  {
    filtered := employees;
    if department != AllDepartments {
      var byDepartment := (e: Employee) => e.department == department;
      filtered := Filter(filtered, byDepartment);
      FilterExt(employees, byDepartment, DepartmentFn(department));
    } else {
      FilterKeepsAll(employees, DepartmentFn(department));
    }
    if status != AllStatus {
      var byStatus := (e: Employee) => e.status == status;
      filtered := Filter(filtered, byStatus);
      FilterFilter(employees, DepartmentFn(department), byStatus, DepartmentStatusFn(department, status));
    } else {
      FilterExt(employees, DepartmentFn(department), DepartmentStatusFn(department, status));
    }
    if SearchActive(search) {
      var bySearch := (e: Employee) => MatchesSearch(e.firstName, e.lastName, e.email, search);
      filtered := Filter(filtered, bySearch);
      FilterFilter(employees, DepartmentStatusFn(department, status), bySearch, PassesFn(department, status, search));
    } else {
      FilterExt(employees, DepartmentStatusFn(department, status), PassesFn(department, status, search));
    }
  }

  /** The listed employees keep the fetched order, and an employee is
      listed exactly when it was fetched and passes every active filter. */
  lemma FilteredList(employees: seq<Employee>, department: string, status: string, search: string)
    ensures IsSubseq(Filter(employees, PassesFn(department, status, search)), employees)
    ensures forall e :: e in Filter(employees, PassesFn(department, status, search)) <==>
      e in employees && Passes(e, department, status, search)
  {
    FilterIsSubseq(employees, PassesFn(department, status, search));
  }

  /** With both sentinels chosen and a blank search, every fetched
      employee is listed. */
  lemma NoFilterKeepsAll(employees: seq<Employee>, search: string)
    requires !SearchActive(search)
    ensures Filter(employees, PassesFn(AllDepartments, AllStatus, search)) == employees
  {
    FilterKeepsAll(employees, PassesFn(AllDepartments, AllStatus, search));
  }

  function NotId(id: int): Employee -> bool {
    (e: Employee) => e.id != id
  }

  /** Removal after a delete: exactly the employees with that id go, the
      others stay in order, and a missing id changes nothing. */
  lemma DeleteRemovesExactly(employees: seq<Employee>, id: int)
    ensures forall e :: e in Filter(employees, NotId(id)) <==> e in employees && e.id != id
    ensures IsSubseq(Filter(employees, NotId(id)), employees)
    ensures (forall e | e in employees :: e.id != id) ==> Filter(employees, NotId(id)) == employees
  {
    FilterIsSubseq(employees, NotId(id));
    if forall e | e in employees :: e.id != id {
      FilterKeepsAll(employees, NotId(id));
    }
  }

  class Page {
    var employees: seq<Employee>
    var filteredEmployees: seq<Employee>
    var departments: seq<string>
    var statuses: seq<string>
    var selectedDepartment: string
    var selectedStatus: string
    var search: string
    var loading: bool
    const pager: Pager

    /** After every effect has run, the shown list is the filtered one. */
    ghost predicate Valid()
      reads this
    {
      filteredEmployees == Filter(employees, PassesFn(selectedDepartment, selectedStatus, search))
    }

    constructor ()
      ensures Valid() && fresh(pager)
      ensures employees == [] && departments == [] && statuses == []
      ensures selectedDepartment == AllDepartments && selectedStatus == AllStatus && search == ""
      ensures loading && pager.page == 1 && pager.totalPages == 1 && pager.limit == PageLimit
    {
      employees := [];
      filteredEmployees := [];
      departments := [];
      statuses := [];
      selectedDepartment := AllDepartments;
      selectedStatus := AllStatus;
      search := "";
      loading := true;
      pager := new Pager(PageLimit);
    }

    /** The filter effect, run whenever the list or a filter changes. */
    method Refilter()
      modifies this
      ensures Valid()
      ensures employees == old(employees) && departments == old(departments) && statuses == old(statuses)
      ensures selectedDepartment == old(selectedDepartment) && selectedStatus == old(selectedStatus)
      ensures search == old(search) && loading == old(loading)
    {
      filteredEmployees := ApplyFilters(employees, selectedDepartment, selectedStatus, search);
    }

    /** The fetch for the current page together with the enumerations;
        if either request fails nothing is replaced. The option lists
        are the loaded ones behind their sentinel. */
    method Load(result: Option<(EmployeePage, Enums)>)
      modifies this, pager
      ensures Valid() && !loading
      ensures selectedDepartment == old(selectedDepartment) && selectedStatus == old(selectedStatus)
      ensures search == old(search) && pager.page == old(pager.page)
      ensures result.Some? ==>
        employees == result.value.0.employees && pager.totalPages == result.value.0.totalPages &&
        departments == [AllDepartments] + result.value.1.departments.GetOr([]) &&
        statuses == [AllStatus] + result.value.1.statuses.GetOr([])
      ensures result.None? ==>
        employees == old(employees) && pager.totalPages == old(pager.totalPages) &&
        departments == old(departments) && statuses == old(statuses)
    {
      if result.Some? {
        var (fetched, enums) := result.value;
        employees := fetched.employees;
        filteredEmployees := fetched.employees;
        pager.SetTotal(fetched.totalPages);
        departments := [AllDepartments] + enums.departments.GetOr([]);
        statuses := [AllStatus] + enums.statuses.GetOr([]);
      }
      loading := false;
      Refilter();
    }

    method SetSearch(v: string)
      modifies this
      ensures Valid() && search == v
      ensures employees == old(employees) && selectedDepartment == old(selectedDepartment) && selectedStatus == old(selectedStatus)
      ensures departments == old(departments) && statuses == old(statuses) && loading == old(loading)
    {
      search := v;
      Refilter();
    }

    method SelectDepartment(department: string)
      modifies this
      ensures Valid() && selectedDepartment == department
      ensures employees == old(employees) && search == old(search) && selectedStatus == old(selectedStatus)
      ensures departments == old(departments) && statuses == old(statuses) && loading == old(loading)
    {
      selectedDepartment := department;
      Refilter();
    }

    method SelectStatus(status: string)
      modifies this
      ensures Valid() && selectedStatus == status
      ensures employees == old(employees) && search == old(search) && selectedDepartment == old(selectedDepartment)
      ensures departments == old(departments) && statuses == old(statuses) && loading == old(loading)
    {
      selectedStatus := status;
      Refilter();
    }

    /** Delete: nothing happens unless the user confirms; a confirmed
        request that succeeds drops every employee with that id from the
        list, and a failed one leaves it. */
    method DeleteEmployee(id: int, confirmed: bool, serverOk: bool) returns (requested: bool)
      requires Valid()
      modifies this
      ensures Valid()
      ensures requested == confirmed
      ensures employees == (if confirmed && serverOk then Filter(old(employees), NotId(id)) else old(employees))
      ensures selectedDepartment == old(selectedDepartment) && selectedStatus == old(selectedStatus) && search == old(search)
      ensures departments == old(departments) && statuses == old(statuses) && loading == old(loading)
    {
      requested := false;
      if !confirmed {
        return;
      }
      requested := true;
      if serverOk {
        employees := Filter(employees, NotId(id));
        Refilter();
      }
    }
  }

  /** Deleting a listed employee removes it from the shown list as well,
      and the rest of the shown list is unchanged in order. */
  method DeleteShownEmployee(page: Page, id: int)
    requires page.Valid()
    modifies page
    ensures page.Valid()
    ensures page.filteredEmployees == Filter(old(page.filteredEmployees), NotId(id))
    ensures forall e :: e in page.filteredEmployees <==> e in old(page.filteredEmployees) && e.id != id
  {
    var _ := page.DeleteEmployee(id, true, true);
    var d, s, q := page.selectedDepartment, page.selectedStatus, page.search;
    FilterFilter(old(page.employees), NotId(id), PassesFn(d, s, q), (e: Employee) => e.id != id && Passes(e, d, s, q));
    FilterFilter(old(page.employees), PassesFn(d, s, q), NotId(id), (e: Employee) => e.id != id && Passes(e, d, s, q));
  }
}
