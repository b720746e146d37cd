/**
 * Page arithmetic of the two list handlers: limit = page_size and
 * offset = (page_id - 1) * page_size, computed in Go's int32.
 *
 * Binding bounds page_id below (>= 1) and page_size on both sides (5..10), but
 * page_id only by the int32 range, so the product can wrap around.
 */
module Paging {
  import opened Wrappers
  import opened Db

  const MaxInt32: int := 0x7fff_ffff
  const TwoTo32: int := 0x1_0000_0000

  /** The page bounds of the binding tags `page_id: min=1` and `page_size: min=5,max=10`. */
  predicate ValidPage(pageId: int32, pageSize: int32) {
    pageId >= 1 && 5 <= pageSize <= 10
  }

  /** Go's int32 result for the mathematical value x: the two's-complement value congruent to x modulo 2^32. */
  function Wrap32(x: int): (r: int32)
    ensures (r as int - x) % TwoTo32 == 0
    ensures -0x8000_0000 <= x <= MaxInt32 ==> r as int == x
  {
    var m := x % TwoTo32;
    if m <= MaxInt32 then m as int32 else (m - TwoTo32) as int32
  }

  /** The offset exactly as the handlers compute it: (page_id - 1) * page_size in int32. */
  function PageOffset(pageId: int32, pageSize: int32): (r: int32)
    ensures (r as int - (pageId as int - 1) * pageSize as int) % TwoTo32 == 0
    ensures (pageId as int - 1) * pageSize as int <= MaxInt32 && pageId >= 1 && pageSize >= 0 ==>
              r as int == (pageId as int - 1) * pageSize as int
  {
    Wrap32((pageId as int - 1) * pageSize as int)
  }

  /** The last page whose offset is representable in int32. */
  function LastPage(pageSize: int32): (r: int)
    requires 5 <= pageSize <= 10
    ensures (r - 1) * pageSize as int <= MaxInt32 < r * pageSize as int
  {
    MaxInt32 / pageSize as int + 1
  }

  /**
   * What an offset is for: the number of rows on the pages before page
   * `pageId`, each page holding `pageSize` rows.
   */
  function RowsBefore(pageId: int, pageSize: int): int
    decreases pageId
  {
    if pageId <= 1 then 0 else RowsBefore(pageId - 1, pageSize) + pageSize
  }

  /** The pages before page `pageId` hold (pageId - 1) * pageSize rows. */
  lemma {:induction false} RowsBeforeIsProduct(pageId: int, pageSize: int)
    requires pageId >= 1
    ensures RowsBefore(pageId, pageSize) == (pageId - 1) * pageSize
  {
    if pageId > 1 {
      RowsBeforeIsProduct(pageId - 1, pageSize);
    }
  }

  /**
   * Pages do not overlap: every row of page `pageId` (rows RowsBefore(pageId)
   * up to RowsBefore(pageId) + pageSize) comes before the first row of any
   * later page, and the next page starts right after it.
   */
  lemma {:induction false} PagesDisjoint(pageId: int, later: int, pageSize: int)
    requires 1 <= pageId < later && pageSize >= 0
    ensures RowsBefore(pageId, pageSize) + pageSize <= RowsBefore(later, pageSize)
    ensures later == pageId + 1 ==> RowsBefore(later, pageSize) == RowsBefore(pageId, pageSize) + pageSize
  {
    if later > pageId + 1 {
      PagesDisjoint(pageId, later - 1, pageSize);
    }
  }

  /** A multiple of a page size leaves no remainder. */
  lemma MultipleOf(k: int, n: int)
    requires 5 <= n <= 10
    ensures (k * n) % n == 0
  {
  }

  lemma MulMonotone(a: int, b: int, n: int)
    requires a <= b && n >= 0
    ensures a * n <= b * n
  {
    assert b * n - a * n == (b - a) * n;
  }

  /**
   * On a valid page the offset is exactly (page_id - 1) * page_size, a
   * non-negative multiple of the page size, precisely up to LastPage.
   */
  lemma PageOffsetExact(pageId: int32, pageSize: int32)
    requires ValidPage(pageId, pageSize)
    ensures pageId as int <= LastPage(pageSize) <==> PageOffset(pageId, pageSize) as int == (pageId as int - 1) * pageSize as int
    ensures pageId as int <= LastPage(pageSize) ==> PageOffset(pageId, pageSize) >= 0 && PageOffset(pageId, pageSize) as int % pageSize as int == 0
    ensures pageId as int <= LastPage(pageSize) ==> PageOffset(pageId, pageSize) as int == RowsBefore(pageId as int, pageSize as int)
  {
    RowsBeforeIsProduct(pageId as int, pageSize as int);
    var k, n := pageId as int - 1, pageSize as int;
    var last := LastPage(pageSize);
    if pageId as int <= last {
      MulMonotone(k, last - 1, n);
      MulMonotone(0, k, n);
      MultipleOf(k, n);
    } else {
      MulMonotone(last, k, n);
    }
  }

  /**
   * The wrap-around as written: page 2147483647 of size 10 gets offset -20,
   * and on the last int32 page of every valid size the offset is not
   * (page_id - 1) * page_size.
   */
  lemma PageOffsetOverflows(pageSize: int32)
    requires 5 <= pageSize <= 10
    ensures ValidPage(0x7fff_ffff, 10) && PageOffset(0x7fff_ffff, 10) == -20
    ensures PageOffset(0x7fff_ffff, pageSize) as int != (MaxInt32 - 1) * pageSize as int
  {
    PageOffsetExact(0x7fff_ffff, pageSize);
  }

  /**
   * The offset as intended: None when (page_id - 1) * page_size does not fit
   * in int32, otherwise that product.
   */
  function CheckedPageOffset(pageId: int32, pageSize: int32): (r: Option<int32>)
    requires ValidPage(pageId, pageSize)
    ensures r.Some? <==> (pageId as int - 1) * pageSize as int <= MaxInt32
    ensures r.Some? ==> r.value >= 0 && r.value as int == (pageId as int - 1) * pageSize as int
    ensures r.Some? ==> r.value as int % pageSize as int == 0
  {
    PageOffsetExact(pageId, pageSize);
    if pageId as int <= LastPage(pageSize) then Some(PageOffset(pageId, pageSize)) else None
  }
}
