/**
 * The salary list screen: one fetched page of payroll records, narrowed
 * by the employee's department and a free-text search, with the
 * Previous/Next pager.
 */
module SalaryDetail {
  import opened Common
  import opened Lists
  import opened Pagination
  import opened SearchFilter

  datatype PayrollEmployee = PayrollEmployee(firstName: string, lastName: string, email: string, department: string)
  datatype Payroll = Payroll(id: int, employee: PayrollEmployee, payrollStatus: string)

  datatype PayrollPage = PayrollPage(payrolls: seq<Payroll>, totalPages: int)

  const AllDepartments: string := "All Departments"
  const PageLimit: int := 5

  predicate DepartmentOk(p: Payroll, department: string) {
    department == AllDepartments || p.employee.department == department
  }

  predicate SearchOk(p: Payroll, search: string) {
    !SearchActive(search) || MatchesSearch(p.employee.firstName, p.employee.lastName, p.employee.email, search)
  }

  predicate Passes(p: Payroll, department: string, search: string) {
    DepartmentOk(p, department) && SearchOk(p, search)
  }

  function PassesFn(department: string, search: string): Payroll -> bool {
    p => Passes(p, department, search)
  }

  function DepartmentFn(department: string): Payroll -> bool {
    p => DepartmentOk(p, department)
  }

  /** The filter effect: the department filter, then the search, each
      only when active; the result is the records passing both, in their
      fetched order. */
  method ApplyFilters(payrolls: seq<Payroll>, department: string, search: string) returns (filtered: seq<Payroll>)
    ensures filtered == Filter(payrolls, PassesFn(department, search))
  {
    filtered := payrolls;
    if department != AllDepartments {
      var byDepartment := (p: Payroll) => p.employee.department == department;
      filtered := Filter(filtered, byDepartment);
      FilterExt(payrolls, byDepartment, DepartmentFn(department));
    } else {
      FilterKeepsAll(payrolls, DepartmentFn(department));
    }
    if SearchActive(search) {
      var bySearch := (p: Payroll) => MatchesSearch(p.employee.firstName, p.employee.lastName, p.employee.email, search);
      filtered := Filter(filtered, bySearch);
      FilterFilter(payrolls, DepartmentFn(department), bySearch, PassesFn(department, search));
    } else {
      FilterExt(payrolls, DepartmentFn(department), PassesFn(department, search));
    }
  }

  /** The listed records keep the fetched order, and a record is listed
      exactly when it passes both active filters. */
  lemma FilteredList(payrolls: seq<Payroll>, department: string, search: string)
    ensures IsSubseq(Filter(payrolls, PassesFn(department, search)), payrolls)
    ensures forall p :: p in Filter(payrolls, PassesFn(department, search)) <==>
      p in payrolls && Passes(p, department, search)
  {
    FilterIsSubseq(payrolls, PassesFn(department, search));
  }

  class Page {
    var payrolls: seq<Payroll>
    var filteredPayrolls: seq<Payroll>
    var departments: seq<string>
    var selectedDepartment: string
    var search: string
    var loading: bool
    const pager: Pager

    ghost predicate Valid()
      reads this
    {
      filteredPayrolls == Filter(payrolls, PassesFn(selectedDepartment, search))
    }

    constructor ()
      ensures Valid() && fresh(pager)
      ensures payrolls == [] && departments == [] && selectedDepartment == AllDepartments && search == ""
      ensures loading && pager.page == 1 && pager.totalPages == 1 && pager.limit == PageLimit
    {
      payrolls := [];
      filteredPayrolls := [];
      departments := [];
      selectedDepartment := AllDepartments;
      search := "";
      loading := true;
      pager := new Pager(PageLimit);
    }

    method Refilter()
      modifies this
      ensures Valid()
      ensures payrolls == old(payrolls) && departments == old(departments)
      ensures selectedDepartment == old(selectedDepartment) && search == old(search) && loading == old(loading)
    {
      filteredPayrolls := ApplyFilters(payrolls, selectedDepartment, search);
    }

    /** The fetch for the current page together with the department list;
        if either request fails nothing is replaced. */
    method Load(result: Option<(PayrollPage, Option<seq<string>>)>)
      modifies this, pager
      ensures Valid() && !loading
      ensures selectedDepartment == old(selectedDepartment) && search == old(search) && pager.page == old(pager.page)
      ensures result.Some? ==>
        payrolls == result.value.0.payrolls && pager.totalPages == result.value.0.totalPages &&
        departments == [AllDepartments] + result.value.1.GetOr([])
      ensures result.None? ==>
        payrolls == old(payrolls) && pager.totalPages == old(pager.totalPages) && departments == old(departments)
    {
      if result.Some? {
        var (fetched, deptOptions) := result.value;
        payrolls := fetched.payrolls;
        filteredPayrolls := fetched.payrolls;
        pager.SetTotal(fetched.totalPages);
        departments := [AllDepartments] + deptOptions.GetOr([]);
      }
      loading := false;
      Refilter();
    }

    method SetSearch(v: string)
      modifies this
      ensures Valid() && search == v
      ensures payrolls == old(payrolls) && selectedDepartment == old(selectedDepartment)
      ensures departments == old(departments) && loading == old(loading)
    {
      search := v;
      Refilter();
    }

    method SelectDepartment(department: string)
      modifies this
      ensures Valid() && selectedDepartment == department
      ensures payrolls == old(payrolls) && search == old(search)
      ensures departments == old(departments) && loading == old(loading)
    {
      selectedDepartment := department;
      Refilter();
    }
  }

  /** Narrowing never adds rows: choosing a department after a search
      shows a sub-list, in the same order, of what the search alone
      showed, holding only that department's records. */
  method NarrowBySearchThenDepartment(page: Page, search: string, department: string)
    returns (afterSearch: seq<Payroll>, afterBoth: seq<Payroll>)
    requires page.Valid() && page.selectedDepartment == AllDepartments
    modifies page
    ensures afterBoth == page.filteredPayrolls
    ensures IsSubseq(afterBoth, afterSearch)
    ensures forall p | p in afterBoth :: p in afterSearch && DepartmentOk(p, department)
  {
    page.SetSearch(search);
    afterSearch := page.filteredPayrolls;
    page.SelectDepartment(department);
    afterBoth := page.filteredPayrolls;
    var searchOnly := (p: Payroll) => SearchOk(p, search);
    FilterExt(page.payrolls, PassesFn(AllDepartments, search), searchOnly);
    FilterFilter(page.payrolls, searchOnly, DepartmentFn(department), PassesFn(department, search));
    FilterIsSubseq(afterSearch, DepartmentFn(department));
  }
}
