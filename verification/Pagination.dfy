/** Listing jobs page by page: the handler's clamping, the store's clamping, and the window
    LIMIT/OFFSET cuts out of the filtered list. */
module Pagination {
  import opened Basics

  /** The result of the store's query: the window and the count, or the database's refusal of a
      negative offset. */
  datatype Listing<T> = Listing(jobs: seq<T>, total: nat) | Refused

  function ClampPage(page: int): int { if page < 1 then 1 else page }
  function ClampLimit(limit: int): int { if limit < 1 || limit > 100 then 20 else limit }

  /** The rows that pass the filter, in list order. */
  function Filter<T>(rows: seq<T>, keep: T -> bool): seq<T>
  {
    if rows == [] then []
    else (if keep(rows[0]) then [rows[0]] else []) + Filter(rows[1..], keep)
  }

  /** At most limit rows from offset on. */
  function Window<T>(rows: seq<T>, offset: nat, limit: nat): seq<T>
  {
    if offset >= |rows| then []
    else if offset + limit >= |rows| then rows[offset..]
    else rows[offset..offset + limit]
  }

  /** ListJobs over a fixed snapshot in creation order, newest first. Page and limit are 64-bit
      integers; so is their product, the offset. */
  method ListJobs<T>(rows: seq<T>, page: int, limit: int, keep: T -> bool) returns (r: Listing<T>)
    ensures r == ListSpec(rows, page, limit, keep)
  {
    var p, l := page, limit;
    if p < 1 {
      p := 1;
    }
    if l < 1 || l > 100 {
      l := 20;
    }
    var offset := Offset(p - 1, l);

    // The two queries: the count, and the window of the ordered, filtered rows.
    var matching := Filter(rows, keep);
    var total := |matching|;
    if offset < 0 {
      return Refused;
    }
    var window := Window(matching, offset, l);
    var jobs: seq<T> := [];
    for i := 0 to |window|
      invariant jobs == window[..i]
    {
      jobs := jobs + [window[i]];
    }
    r := Listing(jobs, total);
  }

  /** The rows before a page with the given number of pages before it, in 64-bit arithmetic. */
  function Offset(before: int, limit: int): int
  {
    Wrap64(before * limit)
  }

  function ListSpec<T>(rows: seq<T>, page: int, limit: int, keep: T -> bool): Listing<T>
  {
    var offset := Offset(ClampPage(page) - 1, ClampLimit(limit));
    var matching := Filter(rows, keep);
    if offset < 0 then Refused else Listing(Window(matching, offset, ClampLimit(limit)), |matching|)
  }

  /** The page a reader expects: rows (page-1)*limit to page*limit of the filtered list. */
  function TruePage<T>(matching: seq<T>, page: int, limit: int): seq<T>
    requires page >= 1 && limit >= 1
  {
    Window(matching, (page - 1) * limit, limit)
  }

  function Pages(total: nat, limit: nat): nat
    requires limit >= 1
  {
    (total + limit - 1) / limit
  }

  /** The store's answer for the page with i pages before it. */
  function StorePage<T>(rows: seq<T>, i: nat, limit: int, keep: T -> bool): Listing<T>
  {
    ListSpec(rows, i + 1, limit, keep)
  }

  /** The store's first n pages put together; nothing for a page it refuses. */
  function Joined<T>(rows: seq<T>, n: nat, limit: int, keep: T -> bool): seq<T>
  {
    if n == 0 then []
    else
      var last := StorePage(rows, n - 1, limit, keep);
      Joined(rows, n - 1, limit, keep) + (if last.Listing? then last.jobs else [])
  }

  // ---- Clamping -----------------------------------------------------------------------------

  /** The store's clamping changes nothing after the handler's, and both keep valid values. */
  lemma StoreClampIsNoOp<T>(rows: seq<T>, page: int, limit: int, keep: T -> bool)
    ensures ListSpec(rows, ClampPage(page), ClampLimit(limit), keep) == ListSpec(rows, page, limit, keep)
    ensures page >= 1 ==> ClampPage(page) == page
    ensures 1 <= limit <= 100 ==> ClampLimit(limit) == limit
  {
  }

  // ---- The partition ------------------------------------------------------------------------

  /** The first k rows, or all of them. */
  function UpTo<T>(rows: seq<T>, k: nat): seq<T>
  {
    if k >= |rows| then rows else rows[..k]
  }

  lemma OffsetFits(before: nat, limit: nat, offset: int)
    requires offset == before * limit < TWO_63
    ensures offset >= 0 && Offset(before, limit) == offset
  {
    Product(before, limit);
  }

  lemma Product(n: nat, limit: nat)
    ensures n * limit >= 0
    ensures n > 0 ==> n * limit == (n - 1) * limit + limit
  {
  }

  /** Without overflow the store's page is the true one. */
  lemma PageAt<T>(rows: seq<T>, i: nat, limit: int, keep: T -> bool, offset: int)
    requires 1 <= limit <= 100 && offset == i * limit < TWO_63
    ensures offset >= 0
    ensures StorePage(rows, i, limit, keep) == Listing(Window(Filter(rows, keep), offset, limit), |Filter(rows, keep)|)
  {
    OffsetFits(i, limit, offset);
  }

  /** The rows on n full pages, by repeated addition. */
  function Rows(n: nat, limit: nat): nat
  {
    if n == 0 then 0 else Rows(n - 1, limit) + limit
  }

  lemma {:induction false} RowsIsProduct(n: nat, limit: nat)
    ensures Rows(n, limit) == n * limit
  {
    if n > 0 {
      RowsIsProduct(n - 1, limit);
      Product(n, limit);
    }
  }

  lemma PageAtRows<T>(rows: seq<T>, i: nat, limit: int, keep: T -> bool)
    requires 1 <= limit <= 100 && Rows(i, limit) < TWO_63
    ensures StorePage(rows, i, limit, keep)
         == Listing(Window(Filter(rows, keep), Rows(i, limit), limit), |Filter(rows, keep)|)
  {
    RowsIsProduct(i, limit);
    PageAt(rows, i, limit, keep, Rows(i, limit));
  }

  /** The store's first n pages put together are the first n * limit matching rows. */
  lemma {:induction false} FirstPages<T>(rows: seq<T>, n: nat, limit: int, keep: T -> bool)
    requires 1 <= limit <= 100 && Rows(n, limit) - limit < TWO_63
    ensures Joined(rows, n, limit, keep) == UpTo(Filter(rows, keep), Rows(n, limit))
  {
    if n > 0 {
      FirstPages(rows, n - 1, limit, keep);
      PageAtRows(rows, n - 1, limit, keep);
      OneMorePage(Filter(rows, keep), Rows(n - 1, limit), limit);
    }
  }

  lemma OneMorePage<T>(rows: seq<T>, from: nat, limit: nat)
    ensures UpTo(rows, from) + Window(rows, from, limit) == UpTo(rows, from + limit)
  {
  }

  /** The pages of a list, and the rows they could hold. */
  lemma PagesCover(total: nat, limit: nat, room: int)
    requires limit >= 1 && room == Pages(total, limit) * limit
    ensures total <= room < total + limit
  {
  }

  /** Pages 1 to ceil(total / limit), as the store returns them for one snapshot, put together
      give the filtered list: nothing lost, repeated or reordered. A table has fewer than 2^63
      rows. */
  lemma PagesPartition<T>(rows: seq<T>, limit: int, keep: T -> bool)
    requires 1 <= limit <= 100 && |rows| < TWO_63
    ensures var n := Pages(|Filter(rows, keep)|, limit);
            && Joined(rows, n, limit, keep) == Filter(rows, keep)
            && forall i :: 0 <= i < n ==> StorePage(rows, i, limit, keep).Listing?
  {
    var total := |Filter(rows, keep)|;
    var n := Pages(total, limit);
    var room := n * limit;
    FilterShrinks(rows, keep);
    PagesCover(total, limit, room);
    RowsIsProduct(n, limit);
    FirstPages(rows, n, limit, keep);
    forall i | 0 <= i < n ensures StorePage(rows, i, limit, keep).Listing? {
      PageBefore(i, n, limit, room);
      PageAt(rows, i, limit, keep, i * limit);
    }
  }

  /** Those pages are the ones with rows: each of them has some, and every later page, as long
      as its offset does not overflow, is empty. */
  lemma PageHasRowsIff<T>(rows: seq<T>, i: nat, limit: int, keep: T -> bool)
    requires 1 <= limit <= 100 && i * limit < TWO_63
    ensures StorePage(rows, i, limit, keep).Listing?
    ensures StorePage(rows, i, limit, keep).jobs != [] <==> i < Pages(|Filter(rows, keep)|, limit)
  {
    var total := |Filter(rows, keep)|;
    var n := Pages(total, limit);
    PageAt(rows, i, limit, keep, i * limit);
    PagesCover(total, limit, n * limit);
    if i < n {
      PageBefore(i, n, limit, n * limit);
    } else {
      SmallerProduct(n, i, limit);
    }
  }

  lemma PageBefore(i: nat, n: nat, limit: nat, room: int)
    requires i < n && room == n * limit
    ensures i * limit <= room - limit
  {
    Product(n, limit);
    SmallerProduct(i, n - 1, limit);
  }

  lemma SmallerProduct(i: int, j: int, limit: nat)
    requires i <= j
    ensures i * limit <= j * limit
  {
  }

  lemma {:induction false} FilterShrinks<T>(rows: seq<T>, keep: T -> bool)
    ensures |Filter(rows, keep)| <= |rows|
  {
    if rows != [] {
      FilterShrinks(rows[1..], keep);
    }
  }

  // ---- The filter -----------------------------------------------------------------------------

  /** Filtering distributes over concatenation; of one row it keeps what passes, and of no rows
      nothing. With the order kept, this says which rows are listed. */
  lemma {:induction false} FilterConcat<T>(a: seq<T>, b: seq<T>, keep: T -> bool)
    ensures Filter(a + b, keep) == Filter(a, keep) + Filter(b, keep)
  {
    if a == [] {
      assert a + b == b;
    } else {
      assert (a + b)[1..] == a[1..] + b;
      FilterConcat(a[1..], b, keep);
      var head := if keep(a[0]) then [a[0]] else [];
      assert Filter(a + b, keep) == head + (Filter(a[1..], keep) + Filter(b, keep));
      assert Filter(a, keep) == head + Filter(a[1..], keep);
      Regroup(head, Filter(a[1..], keep), Filter(b, keep));
    }
  }

  lemma Regroup<T>(a: seq<T>, b: seq<T>, c: seq<T>)
    ensures a + (b + c) == (a + b) + c
  {
  }

  lemma FilterOne<T>(x: T, keep: T -> bool)
    ensures Filter([x], keep) == if keep(x) then [x] else []
    ensures Filter([], keep) == []
  {
    assert Filter([x], keep) == (if keep(x) then [x] else []) + Filter([x][1..], keep);
  }

  /** Every row that passes keeps its multiplicity, and no other is left. */
  lemma {:induction false} FilterLosesNothing<T>(rows: seq<T>, keep: T -> bool, x: T)
    ensures multiset(Filter(rows, keep))[x] == if keep(x) then multiset(rows)[x] else 0
  {
    if rows != [] {
      FilterLosesNothing(rows[1..], keep, x);
      assert rows == [rows[0]] + rows[1..];
      assert multiset([rows[0]] + rows[1..]) == multiset([rows[0]]) + multiset(rows[1..]);
    }
  }

  lemma {:induction false} FilterAll<T>(rows: seq<T>, keep: T -> bool)
    requires forall x :: x in rows ==> keep(x)
    ensures Filter(rows, keep) == rows
  {
    if rows != [] {
      FilterAll(rows[1..], keep);
      assert rows == [rows[0]] + rows[1..];
    }
  }

  /** The rows that pass. */
  ghost function Passing<T>(rows: seq<T>, keep: T -> bool): set<T>
  {
    set x | x in rows && keep(x)
  }

  /** Of distinct rows, as many are listed as pass. */
  lemma {:induction false} FilterCounts<T>(rows: seq<T>, keep: T -> bool)
    requires forall i, j :: 0 <= i < j < |rows| ==> rows[i] != rows[j]
    ensures |Filter(rows, keep)| == |Passing(rows, keep)|
  {
    if rows != [] {
      var rest, all := Passing(rows[1..], keep), Passing(rows, keep);
      FilterCounts(rows[1..], keep);
      assert rows[0] !in rest;
      if keep(rows[0]) {
        assert all == rest + {rows[0]};
      } else {
        assert all == rest;
      }
    }
  }

  lemma {:induction false} FilterKeeps<T>(rows: seq<T>, keep: T -> bool)
    ensures forall i :: 0 <= i < |Filter(rows, keep)| ==> keep(Filter(rows, keep)[i])
  {
    if rows != [] {
      FilterKeeps(rows[1..], keep);
    }
  }

  /** Whatever a page shows passes the filter. */
  lemma StorePageIsKept<T>(rows: seq<T>, page: int, limit: int, keep: T -> bool)
    ensures var r := ListSpec(rows, page, limit, keep);
            r.Listing? ==> forall i :: 0 <= i < |r.jobs| ==> keep(r.jobs[i])
  {
    FilterKeeps(rows, keep);
  }

  // ---- Pages past the end ---------------------------------------------------------------------

  /** A 64-bit page number can push the offset around: for every page and limit the caller may
      send, the answer is the true page if and only if the offset fits 63 bits, or wraps to one
      past the end of the list anyway. */
  lemma PageIsTrueIff<T>(rows: seq<T>, page: int, limit: int, keep: T -> bool)
    requires 1 <= page < TWO_63 && 1 <= limit <= 100 && |rows| < TWO_63
    ensures var matching := Filter(rows, keep);
            ListSpec(rows, page, limit, keep) == Listing(TruePage(matching, page, limit), |matching|)
            <==> (page - 1) * limit < TWO_63 || Wrap64((page - 1) * limit) >= |matching|
  {
    var before := page - 1;
    var far := before * limit;
    Product(before, limit);
    FilterShrinks(rows, keep);
    if far < TWO_63 {
      PageAt(rows, before, limit, keep, far);
    } else {
      FarPage(Filter(rows, keep), far, Offset(before, limit), limit);
    }
  }

  /** Past the end the true page is empty, and the window at a wrapped offset is empty too if
      and only if that lies past the end as well. */
  lemma FarPage<T>(matching: seq<T>, far: nat, offset: int, limit: nat)
    requires far >= |matching| && limit >= 1
    ensures Window(matching, far, limit) == []
    ensures offset >= 0 ==> (Window(matching, offset, limit) == [] <==> offset >= |matching|)
  {
  }

  /** Asked for this page of a single job, 100 to a page, the store returns the first page. */
  lemma FarPageReturnsFirst<T>(job: T)
    ensures ListSpec([job], 0x4000_0000_0000_0001, 100, (j: T) => true) == Listing([job], 1)
    ensures TruePage([job], 0x4000_0000_0000_0001, 100) == []
  {
    var keep := (j: T) => true;
    assert Filter([job], keep) == [job] + Filter([job][1..], keep);
    assert 0x4000_0000_0000_0000 * 100 == 25 * TWO_64;
    assert Wrap64(0x4000_0000_0000_0000 * 100) == 0;
  }
}
