/**
 * The leave-management table: one fetched page of everybody's leaves,
 * numbered across pages, with a colour class per status.
 */
module ManageLeaves {
  import opened Common
  import opened JsText
  import opened Pagination

  datatype AdminLeave = AdminLeave(id: int, firstName: string, lastName: string, leaveType: string,
                                   fromDate: string, toDate: string, status: string)

  /** The reply of the page fetch; either part may be missing. */
  datatype LeavesReply = LeavesReply(leaves: Option<seq<AdminLeave>>, totalPages: Option<int>)

  const PageLimit: int := 5

  /** `data.totalPages || 1`: a missing or zero total counts as one page. */
  function TotalOrOne(totalPages: Option<int>): (r: int)
    ensures r != 0
    ensures totalPages.Some? && totalPages.value != 0 ==> r == totalPages.value
    ensures totalPages.None? || totalPages.value == 0 ==> r == 1
  {
    if totalPages.Some? && totalPages.value != 0 then totalPages.value else 1
  }

  /** The status text's colour class. */
  function StatusClass(status: string): (c: string)
    ensures c == "text-success" <==> status == "Approved"
    ensures c == "text-danger" <==> status == "Rejected"
    ensures c == "text-muted" <==> status != "Approved" && status != "Rejected"
  {
    if status == "Approved" then "text-success"
    else if status == "Rejected" then "text-danger"
    else "text-muted"
  }

  /** The date column: "" for an empty value, otherwise the date part of
      the value's ISO form. Parsing the value into that ISO form is done by
      the browser and is given here as `iso`. */
  function FormatDate(date: string, iso: string): (r: string)
    ensures date == "" ==> r == ""
    ensures date != "" ==> r <= iso && 'T' !in r
  {
    if date == "" then "" else BeforeT(iso)
  }

  /** The row numbers of one page of `count` rows. */
  function RowNumbers(page: int, limit: int, count: nat): (r: seq<int>)
    ensures |r| == count
  {
    seq(count, i requires 0 <= i < count => Serial(page, limit, i))
  }

  /** A full page's rows are numbered one apart, and the first row of the
      next page continues where the last row of this page stopped. */
  lemma RowNumbersContinue(page: int, limit: int)
    requires page >= 1 && limit >= 1
    ensures RowNumbers(page, limit, limit)[0] == (page - 1) * limit + 1
    ensures forall i | 0 <= i < limit - 1 :: RowNumbers(page, limit, limit)[i + 1] == RowNumbers(page, limit, limit)[i] + 1
    ensures RowNumbers(page + 1, limit, limit)[0] == RowNumbers(page, limit, limit)[limit - 1] + 1
  {
    forall i | 0 <= i < limit - 1
      ensures RowNumbers(page, limit, limit)[i + 1] == RowNumbers(page, limit, limit)[i] + 1
    {
      SerialsConsecutive(page, limit, i);
    }
    SerialsConsecutive(page, limit, limit - 1);
  }

  class Page {
    var leaves: seq<AdminLeave>
    var loading: bool
    const pager: Pager

    constructor ()
      ensures leaves == [] && loading && fresh(pager)
      ensures pager.page == 1 && pager.totalPages == 1 && pager.limit == PageLimit
    {
      leaves := [];
      loading := true;
      pager := new Pager(PageLimit);
    }

    /** The page fetch (`None` when it fails): the leaves default to the
        empty list and the total to one page; loading ends either way. */
    method Load(reply: Option<LeavesReply>)
      modifies this, pager
      ensures !loading && pager.page == old(pager.page)
      ensures reply.Some? ==> leaves == reply.value.leaves.GetOr([]) && pager.totalPages == TotalOrOne(reply.value.totalPages)
      ensures reply.None? ==> leaves == old(leaves) && pager.totalPages == old(pager.totalPages)
    {
      if reply.Some? {
        leaves := reply.value.leaves.GetOr([]);
        pager.SetTotal(TotalOrOne(reply.value.totalPages));
      }
      loading := false;
    }
  }

  /** An empty reply on page one leaves a single page, so both pager
      buttons are disabled: the defaults keep Next from running past an
      empty table. */
  method EmptyReplyDisablesPager() returns (prevDisabled: bool, nextDisabled: bool)
    ensures prevDisabled && nextDisabled
  {
    var page := new Page();
    page.Load(Some(LeavesReply(None, Some(0))));
    prevDisabled := PrevDisabled(page.pager.page);
    nextDisabled := NextDisabled(page.pager.page, page.pager.totalPages);
  }
}
