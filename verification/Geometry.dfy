/** Page and segment arithmetic of a volume.

Sizes, offsets and page numbers are unbounded here; a volume of this store is far
below the 64 bits the program counts them in.
*/
module Geometries {

  const PAGE_SIZE_4KIB: nat := 4096
  const PAGE_SIZE_2MIB: nat := 0x20_0000
  const SEGMENT_PAGES_4KIB: nat := 16384
  const SEGMENT_PAGES_2MIB: nat := 256

  /** The granularity a volume's size is stated in. */
  const SECTOR_SIZE: nat := 4096

  function Min(a: nat, b: nat): nat { if a <= b then a else b }

  function Max(a: nat, b: nat): nat { if a >= b then a else b }

  datatype Geometry = Geometry(pageSize: nat, segmentPages: nat) {

    /** One of the two geometries a volume may have. */
    predicate Supported() {
      this == Geometry(PAGE_SIZE_4KIB, SEGMENT_PAGES_4KIB) || this == Geometry(PAGE_SIZE_2MIB, SEGMENT_PAGES_2MIB)
    }

    function PageOf(offset: nat): nat
      requires Supported()
    {
      offset / pageSize
    }

    function PageCount(size: nat): nat
      requires Supported()
    {
      (size + pageSize - 1) / pageSize
    }

    /** The bytes of one page within a volume of size bytes, zero past its end. */
    function PageSpan(size: nat, page: nat): nat
      requires Supported()
    {
      var start := page * pageSize;
      if start >= size then 0 else Min(pageSize, size - start)
    }

    function SegmentOf(page: nat): nat
      requires Supported()
    {
      page / segmentPages
    }

    function OffsetIn(page: nat): nat
      requires Supported()
    {
      page % segmentPages
    }

    function SegmentBase(number: nat): nat
      requires Supported()
    {
      number * segmentPages
    }

    function SegmentCount(size: nat): nat
      requires Supported()
    {
      (PageCount(size) + segmentPages - 1) / segmentPages
    }
  }

  /** A page number and its (segment, offset) pair are the same thing. */
  lemma SegmentSplit(g: Geometry, page: nat)
    requires g.Supported()
    ensures g.OffsetIn(page) < g.segmentPages
    ensures g.SegmentBase(g.SegmentOf(page)) + g.OffsetIn(page) == page
  {
    if g.pageSize == PAGE_SIZE_4KIB { assert g.segmentPages == 16384; } else { assert g.segmentPages == 256; }
  }

  lemma SegmentJoin(g: Geometry, number: nat, relative: nat)
    requires g.Supported() && relative < g.segmentPages
    ensures g.SegmentOf(g.SegmentBase(number) + relative) == number
    ensures g.OffsetIn(g.SegmentBase(number) + relative) == relative
  {
    if g.pageSize == PAGE_SIZE_4KIB { assert g.segmentPages == 16384; } else { assert g.segmentPages == 256; }
  }

  /** A page has bytes exactly when the volume counts it, and then its segment is one the volume counts. */
  lemma PageInVolume(g: Geometry, size: nat, page: nat)
    requires g.Supported()
    ensures g.PageSpan(size, page) > 0 <==> page < g.PageCount(size)
    ensures page < g.PageCount(size) ==> g.SegmentOf(page) < g.SegmentCount(size)
    ensures g.SegmentOf(page) >= g.SegmentCount(size) ==> page >= g.PageCount(size)
  {
    if g.pageSize == PAGE_SIZE_4KIB { assert g.segmentPages == 16384; } else { assert g.segmentPages == 256; }
  }

  /** A larger volume counts at least as many pages and segments. */
  lemma CountsMonotone(g: Geometry, small: nat, large: nat)
    requires g.Supported() && small <= large
    ensures g.PageCount(small) <= g.PageCount(large)
    ensures g.SegmentCount(small) <= g.SegmentCount(large)
  {
    if g.pageSize == PAGE_SIZE_4KIB { assert g.segmentPages == 16384; } else { assert g.segmentPages == 256; }
  }

  /** Only the segment of the last page can hold both pages the volume counts and pages past its end. */
  lemma OnlyLastSegmentStraddles(g: Geometry, size: nat, page: nat)
    requires g.Supported() && size > 0
    requires g.SegmentOf(page) < g.SegmentCount(size)
    ensures g.PageCount(size) > 0
    ensures page >= g.PageCount(size) ==> g.SegmentOf(page) == g.SegmentOf(g.PageCount(size) - 1)
  {
    if g.pageSize == PAGE_SIZE_4KIB { assert g.segmentPages == 16384; } else { assert g.segmentPages == 256; }
  }
}
