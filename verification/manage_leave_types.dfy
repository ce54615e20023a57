/**
 * The leave-type table: every leave type, numbered from one, with a
 * confirmed delete.
 */
module ManageLeaveTypes {
  import opened Common
  import opened Lists
  import opened Pagination

  datatype LeaveType = LeaveType(id: int, leaveType: string, description: string)

  function NotId(id: int): LeaveType -> bool {
    (lt: LeaveType) => lt.id != id
  }

  /** The unpaginated table numbers its rows `index + 1`, which is the
      numbering of a first page of any size. */
  function RowNumber(index: nat): (n: int)
    ensures n >= 1
    ensures forall limit | limit >= 1 && index < limit :: n == Serial(1, limit, index)
  {
    index + 1
  }

  /** Removal after a delete: exactly the leave types with that id go,
      and the others stay in order. */
  lemma DeleteRemovesExactly(leaveTypes: seq<LeaveType>, id: int)
    ensures forall lt :: lt in Filter(leaveTypes, NotId(id)) <==> lt in leaveTypes && lt.id != id
    ensures IsSubseq(Filter(leaveTypes, NotId(id)), leaveTypes)
    ensures (forall lt | lt in leaveTypes :: lt.id != id) ==> Filter(leaveTypes, NotId(id)) == leaveTypes
  {
    FilterIsSubseq(leaveTypes, NotId(id));
    if forall lt | lt in leaveTypes :: lt.id != id {
      FilterKeepsAll(leaveTypes, NotId(id));
    }
  }

  class Page {
    var leaveTypes: seq<LeaveType>
    var loading: bool

    constructor ()
      ensures leaveTypes == [] && loading
    {
      leaveTypes := [];
      loading := true;
    }

    /** The fetch (`None` when it fails); loading ends either way. */
    method Load(fetched: Option<seq<LeaveType>>)
      modifies this
      ensures !loading
      ensures leaveTypes == (if fetched.Some? then fetched.value else old(leaveTypes))
    {
      if fetched.Some? {
        leaveTypes := fetched.value;
      }
      loading := false;
    }

    /** Delete: a declined confirm sends nothing and changes nothing; a
        confirmed delete that succeeds drops the leave types with that id,
        and one that fails leaves the list as it was. */
    method DeleteLeaveType(id: int, confirmed: bool, serverOk: bool) returns (requested: bool)
      modifies this
      ensures requested == confirmed
      ensures leaveTypes == (if confirmed && serverOk then Filter(old(leaveTypes), NotId(id)) else old(leaveTypes))
      ensures loading == old(loading)
    {
      requested := false;
      if !confirmed {
        return;
      }
      requested := true;
      if serverOk {
        leaveTypes := Filter(leaveTypes, NotId(id));
      }
    }
  }

  /** Deleting twice is deleting once: the second delete of the same id
      finds nothing left to remove. */
  method DeleteTwice(page: Page, id: int)
    modifies page
    ensures forall lt | lt in page.leaveTypes :: lt.id != id
    ensures page.leaveTypes == Filter(old(page.leaveTypes), NotId(id))
  {
    var _ := page.DeleteLeaveType(id, true, true);
    ghost var once := page.leaveTypes;
    var _ := page.DeleteLeaveType(id, true, true);
    DeleteRemovesExactly(once, id);
  }
}
