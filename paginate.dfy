/**
 * Skip/take pagination of a query: page size and number default to 10 and 1
 * when not positive, the page is the slice the offset and size pick out, and
 * the total count is the whole query's length.
 */
module Paginate {
  import Arith
  import opened Wrappers

  const DefaultPageSize: int := 10
  const DefaultPageNumber: int := 1

  const TwoTo32: int := 0x1_0000_0000
  const Int32Min: int := -0x8000_0000
  const Int32Max: int := 0x7fff_ffff

  predicate IsInt32(x: int)
  {
    Int32Min <= x <= Int32Max
  }

  /** C#'s unchecked 32-bit arithmetic: the value wrapped into the `int` range. */
  function Wrap32(x: int): (r: int)
    ensures IsInt32(r)
    ensures IsInt32(x) ==> r == x
    ensures (r - x) % TwoTo32 == 0
  {
    (x - Int32Min) % TwoTo32 + Int32Min
  }

  function PageSize(pageSize: int): (r: int)
    ensures r >= 1
    ensures pageSize > 0 ==> r == pageSize
    ensures pageSize <= 0 ==> r == DefaultPageSize
  {
    if pageSize > 0 then pageSize else DefaultPageSize
  }

  function PageNumber(pageNumber: int): (r: int)
    ensures r >= 1
    ensures pageNumber > 0 ==> r == pageNumber
    ensures pageNumber <= 0 ==> r == DefaultPageNumber
  {
    if pageNumber > 0 then pageNumber else DefaultPageNumber
  }

  /** LINQ `Skip(n)`: a count of zero or less skips nothing. */
  function Skip<T>(s: seq<T>, n: int): (r: seq<T>)
    ensures n <= 0 ==> r == s
    ensures 0 <= n <= |s| ==> r == s[n..]
    ensures n >= |s| ==> r == []
  {
    if n <= 0 then s else if n >= |s| then [] else s[n..]
  }

  /** LINQ `Take(n)`: at most `n` items from the front. */
  function Take<T>(s: seq<T>, n: int): (r: seq<T>)
    ensures |r| <= |s| && (n >= 0 ==> |r| <= n)
    ensures 0 <= n <= |s| ==> r == s[..n]
    ensures n >= |s| ==> r == s
  {
    if n <= 0 then [] else if n >= |s| then s else s[..n]
  }

  datatype Page<T> = Page(items: seq<T>, totalCount: int)

  /** `a · b`, as `a` additions of `b`. */
  function Times(a: nat, b: int): int
  {
    if a == 0 then 0 else Times(a - 1, b) + b
  }

  lemma {:induction false} TimesIsProduct(a: nat, b: int)
    ensures Times(a, b) == a * b
  {
    if a > 0 {
      TimesIsProduct(a - 1, b);
      Arith.Distribute(a - 1, 1, b);
    }
  }

  lemma {:induction false} TimesNonNegative(a: nat, b: int)
    requires b >= 0
    ensures Times(a, b) >= 0
  {
    if a > 0 {
      TimesNonNegative(a - 1, b);
    }
  }

  /** The first item's position on a page: `(pageNumber − 1) · pageSize`, in whole numbers. */
  function Offset(pageSize: int, pageNumber: int): (r: int)
    ensures r >= 0
  {
    TimesNonNegative(PageNumber(pageNumber) - 1, PageSize(pageSize));
    Times(PageNumber(pageNumber) - 1, PageSize(pageSize))
  }

  /**
   * `PaginateAsync(query, pageSize, pageNumber)` with the offset computed
   * without overflow: the items from the offset, at most one page of them.
   */
  function Paginate<T>(query: seq<T>, pageSize: int, pageNumber: int): (r: Page<T>)
    ensures r.totalCount == |query|
    ensures |r.items| <= PageSize(pageSize)
    ensures var start := Offset(pageSize, pageNumber);
      (start >= |query| ==> r.items == [])
      && (start < |query| ==> r.items == query[start..Arith.Clamp(start + PageSize(pageSize), 0, |query|)])
  {
    var start := Offset(pageSize, pageNumber);
    Page(Take(Skip(query, start), PageSize(pageSize)), |query|)
  }

  /**
   * The same page as the source computes it: the offset is an `int` product,
   * which wraps. The query runs in the database, which refuses a negative
   * offset, so a product that wraps below 0 makes the request fail (`None`).
   */
  function PaginateAsWritten<T>(query: seq<T>, pageSize: int, pageNumber: int): (r: Option<Page<T>>)
    requires IsInt32(pageSize) && IsInt32(pageNumber)
    ensures var start := Wrap32(Offset(pageSize, pageNumber));
      (r.None? <==> start < 0)
      && (r.Some? ==>
            && r.value.totalCount == |query| && |r.value.items| <= PageSize(pageSize)
            && (start >= |query| ==> r.value.items == [])
            && (start < |query| ==> r.value.items == query[start..Arith.Clamp(start + PageSize(pageSize), 0, |query|)]))
  {
    var start := Wrap32(Offset(pageSize, pageNumber));
    if start < 0 then None
    else Some(Page(Take(Skip(query, start), PageSize(pageSize)), |query|))
  }

  /** While the offset fits an `int`, the source's page is the intended one. */
  lemma AsWrittenAgreesWithoutOverflow<T>(query: seq<T>, pageSize: int, pageNumber: int)
    requires IsInt32(pageSize) && IsInt32(pageNumber) && IsInt32(Offset(pageSize, pageNumber))
    ensures PaginateAsWritten(query, pageSize, pageNumber) == Some(Paginate(query, pageSize, pageNumber))
  {
  }

  /**
   * Page 1073741825 of size 4 lies far past the end of a five-item query and
   * should be empty, but its offset 4294967296 wraps to 0 and the source
   * returns the first page again.
   */
  lemma WrappedOffsetRepeatsFirstPage<T>(query: seq<T>)
    requires |query| == 5
    ensures Paginate(query, 4, 1073741825).items == []
    ensures PaginateAsWritten(query, 4, 1073741825) == Some(Page(query[..4], 5))
  {
    TimesIsProduct(1073741824, 4);
    assert Wrap32(Offset(4, 1073741825)) == 0;
  }

  /**
   * Page 536870913 of size 4 should be empty, but its offset 2147483648 wraps
   * to −2147483648 and the source's query fails instead.
   */
  lemma WrappedOffsetFailsQuery<T>(query: seq<T>)
    requires |query| == 5
    ensures Paginate(query, 4, 536870913).items == []
    ensures PaginateAsWritten(query, 4, 536870913).None?
  {
    TimesIsProduct(536870912, 4);
    assert Wrap32(Offset(4, 536870913)) == Int32Min;
  }

  /** The projecting overload: the selector applied to each item of the page, in order. */
  function PaginateProjected<T, R>(query: seq<T>, pageSize: int, pageNumber: int, selector: T -> R): (r: Page<R>)
    ensures var page := Paginate(query, pageSize, pageNumber);
      r.totalCount == page.totalCount && |r.items| == |page.items|
      && forall j :: 0 <= j < |r.items| ==> r.items[j] == selector(page.items[j])
  {
    var page := Paginate(query, pageSize, pageNumber);
    Page(seq(|page.items|, j requires 0 <= j < |page.items| => selector(page.items[j])), page.totalCount)
  }

  /** Pages 1..n of size `size`, one after another. */
  function Pages<T>(query: seq<T>, size: int, n: nat): seq<T>
  {
    if n == 0 then [] else Pages(query, size, n - 1) + Paginate(query, size, n).items
  }

  /** The next page starts one page size further on. */
  lemma OffsetStep(size: int, n: nat)
    requires size >= 1 && n >= 1
    ensures Offset(size, n + 1) == Offset(size, n) + size
  {
  }

  /** A page appended to the items before it reaches to where the next page starts. */
  lemma PageExtendsPrefix<T>(query: seq<T>, size: int, n: nat)
    requires size >= 1 && n >= 1
    ensures query[..Arith.Clamp(Offset(size, n), 0, |query|)] + Paginate(query, size, n).items
      == query[..Arith.Clamp(Offset(size, n + 1), 0, |query|)]
  {
    var k := Offset(size, n);
    OffsetStep(size, n);
    if k < |query| {
      var e := Arith.Clamp(k + size, 0, |query|);
      assert query[..k] + query[k..e] == query[..e];
    }
  }

  /** The first n pages are the query's items before page n + 1 starts (or all of it, when shorter). */
  lemma {:induction false} PagesArePrefix<T>(query: seq<T>, size: int, n: nat)
    requires size >= 1
    ensures Pages(query, size, n) == query[..Arith.Clamp(Offset(size, n + 1), 0, |query|)]
  {
    if n > 0 {
      PagesArePrefix(query, size, n - 1);
      PageExtendsPrefix(query, size, n);
    }
  }

  /** Reading pages 1..⌈len/size⌉ in turn gives back the whole query. */
  lemma PagesCoverQuery<T>(query: seq<T>, size: int)
    requires size >= 1
    ensures Pages(query, size, Arith.CeilDiv(|query|, size)) == query
  {
    var n := Arith.CeilDiv(|query|, size);
    PagesArePrefix(query, size, n);
    if n >= 1 {
      OffsetStep(size, n);
      TimesIsProduct(n - 1, size);
      Arith.Distribute(n - 1, 1, size);
    }
    assert query[..|query|] == query;
  }
}
