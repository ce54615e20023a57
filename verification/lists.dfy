/**
 * The sequence operations behind the list screens: `Array.prototype.filter`,
 * what it means to keep a list's order, and the Previous/Next pager and row
 * serial numbers shared by the paginated tables.
 */
module Lists {

  /** `s.filter(p)`: the elements of `s` that satisfy `p`, in order. */
  function Filter<T(==,!new)>(s: seq<T>, p: T -> bool): (r: seq<T>)
    ensures |r| <= |s|
    ensures forall x :: x in r <==> x in s && p(x)
  {
    if s == [] then []
    else if p(s[0]) then [s[0]] + Filter(s[1..], p)
    else Filter(s[1..], p)
  }

  /** `a` can be obtained from `b` by deleting elements: an order-preserving
      sub-sequence (matched greedily from the left). */
  predicate IsSubseq<T(==)>(a: seq<T>, b: seq<T>)
    decreases |b|
  {
    if a == [] then true
    else if b == [] then false
    else if a[0] == b[0] then IsSubseq(a[1..], b[1..])
    else IsSubseq(a, b[1..])
  }

  /** Putting one more element in front of the larger list keeps `a` a
      sub-sequence of it. */
  lemma {:induction false} SubseqCons<T>(a: seq<T>, b: seq<T>, x: T)
    requires IsSubseq(a, b)
    ensures IsSubseq(a, [x] + b)
    decreases |b|, 1
  {
    assert ([x] + b)[1..] == b;
    if a != [] && a[0] == x {
      SubseqTail(a, b);
    }
  }

  /** Dropping the first element of a sub-sequence keeps it a sub-sequence. */
  lemma {:induction false} SubseqTail<T>(a: seq<T>, b: seq<T>)
    requires a != [] && IsSubseq(a, b)
    ensures IsSubseq(a[1..], b)
    decreases |b|, 0
  {
    assert [b[0]] + b[1..] == b;
    if a[0] == b[0] {
      SubseqCons(a[1..], b[1..], b[0]);
    } else {
      SubseqTail(a, b[1..]);
      SubseqCons(a[1..], b[1..], b[0]);
    }
  }

  /** Filtering keeps the list's order: the result is a sub-sequence. */
  lemma {:induction false} FilterIsSubseq<T(!new)>(s: seq<T>, p: T -> bool)
    ensures IsSubseq(Filter(s, p), s)
    decreases |s|
  {
    if s != [] {
      FilterIsSubseq(s[1..], p);
      if p(s[0]) {
        assert Filter(s, p)[1..] == Filter(s[1..], p);
      } else {
        SubseqCons(Filter(s[1..], p), s[1..], s[0]);
        assert [s[0]] + s[1..] == s;
      }
    }
  }

  /** Two filters in a row keep what their conjunction keeps. */
  lemma {:induction false} FilterFilter<T(!new)>(s: seq<T>, p: T -> bool, q: T -> bool, pq: T -> bool)
    requires forall x :: pq(x) == (p(x) && q(x))
    ensures Filter(Filter(s, p), q) == Filter(s, pq)
    decreases |s|
  {
    if s != [] {
      FilterFilter(s[1..], p, q, pq);
      if p(s[0]) {
        assert Filter(s, p)[1..] == Filter(s[1..], p);
      }
    }
  }

  /** A filter whose predicate holds of every element changes nothing. */
  lemma {:induction false} FilterKeepsAll<T(!new)>(s: seq<T>, p: T -> bool)
    requires forall x | x in s :: p(x)
    ensures Filter(s, p) == s
    decreases |s|
  {
    if s != [] {
      FilterKeepsAll(s[1..], p);
      assert [s[0]] + s[1..] == s;
    }
  }

  /** Filters with predicates that agree on the list's elements agree. */
  lemma {:induction false} FilterExt<T(!new)>(s: seq<T>, p: T -> bool, q: T -> bool)
    requires forall x | x in s :: p(x) == q(x)
    ensures Filter(s, p) == Filter(s, q)
    decreases |s|
  {
    if s != [] {
      FilterExt(s[1..], p, q);
    }
  }
}

/**
 * The Previous/Next pager of the paginated tables (employees, salaries,
 * leaves): buttons disabled on the first and the last page, steps of one.
 */
module Pagination {

  predicate PrevDisabled(page: int) {
    page == 1
  }

  predicate NextDisabled(page: int, totalPages: int) {
    page == totalPages
  }

  class Pager {
    var page: int
    var totalPages: int
    const limit: int

    /** `useState(1)` for the page and the total, and the fixed `limit`. */
    constructor (limit: int)
      ensures page == 1 && totalPages == 1 && this.limit == limit
    {
      page := 1;
      totalPages := 1;
      this.limit := limit;
    }

    /** A fetched page reports its total. */
    method SetTotal(total: int)
      modifies this
      ensures totalPages == total && page == old(page)
    {
      totalPages := total;
    }

    /** The Previous button: clickable only when not on page 1. */
    method Previous()
      requires !PrevDisabled(page)
      modifies this
      ensures page == old(page) - 1 && totalPages == old(totalPages)
    {
      page := page - 1;
    }

    /** The Next button: clickable only when not on the last page. */
    method Next()
      requires !NextDisabled(page, totalPages)
      modifies this
      ensures page == old(page) + 1 && totalPages == old(totalPages)
    {
      page := page + 1;
    }
  }

  /** While the total is at least one, the enabled buttons keep the page
      within `1..totalPages`. */
  lemma StepsStayInRange(page: int, totalPages: int)
    requires 1 <= page <= totalPages
    ensures !PrevDisabled(page) ==> 1 <= page - 1 <= totalPages
    ensures !NextDisabled(page, totalPages) ==> 1 <= page + 1 <= totalPages
  {
  }

  /** A server total of zero leaves Next enabled on every page at or past 1,
      so the page can grow past the total. */
  lemma ZeroTotalNeverDisablesNext(page: int)
    requires page >= 1
    ensures !NextDisabled(page, 0) && !NextDisabled(page + 1, 0)
  {
  }

  /** The row number `(page - 1) * limit + index + 1`. */
  function Serial(page: int, limit: int, index: int): int {
    (page - 1) * limit + index + 1
  }

  /** Serial numbers start at 1 on page 1, continue from one page to the
      next without gap, and never repeat for rows within a page. */
  lemma SerialsConsecutive(page: int, limit: int, index: int)
    requires page >= 1 && limit >= 1 && 0 <= index < limit
    ensures Serial(page, limit, index) >= 1
    ensures index + 1 < limit ==> Serial(page, limit, index + 1) == Serial(page, limit, index) + 1
    ensures index == limit - 1 ==> Serial(page + 1, limit, 0) == Serial(page, limit, index) + 1
    ensures (page - 1) * limit < Serial(page, limit, index) <= page * limit
  {
  }

  /** A non-zero multiple of `limit` is at least `limit` away from zero. */
  lemma MultipleAwayFromZero(d: int, limit: int)
    requires limit >= 1
    ensures d >= 1 ==> d * limit >= limit
    ensures d <= -1 ==> d * limit <= -limit
  {
    if d >= 1 {
      assert (d - 1) * limit >= 0;
    }
    if d <= -1 {
      assert (-d - 1) * limit >= 0;
    }
  }

  /** Rows on different pages or positions get different numbers. */
  lemma SerialInjective(p1: int, i1: int, p2: int, i2: int, limit: int)
    requires limit >= 1 && 0 <= i1 < limit && 0 <= i2 < limit
    requires Serial(p1, limit, i1) == Serial(p2, limit, i2)
    ensures p1 == p2 && i1 == i2
  {
    MultipleAwayFromZero(p1 - p2, limit);
    assert (p1 - p2) * limit == i2 - i1;
  }
}
