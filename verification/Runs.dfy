/** Reading a range of a volume as runs of pages, and the requests a run costs.

A read fills the caller's buffer in place, run by run. A page with no member reads as
zeroes, a member shorter than its page reads as zeroes past its end, and the bytes of a
page nobody wants are left as they were. Members that lie near each other in one part
are fetched by one request.

What a page's member holds is given, by page number: the cache, the disk and the parts
all serve the same bytes for one identity.
*/
module Runs {
  import opened Refs
  import opened Geometries
  import opened Roots

  const READ_THROUGH := 0x1_0000
  const MAXIMUM_READ_EXTENT := 0x40_0000
  const MAXIMUM_RUN_BYTES := 0x100_0000

  // ------------------------------------------------------------------------ reading

  /** The members of a volume's pages. */
  type Members = nat -> Option<seq<Byte>>

  /** One byte of a volume. */
  function ByteAt(g: Geometry, members: Members, position: nat): Byte
    requires g.Supported()
  {
    var page := g.PageOf(position);
    var within := position - page * g.pageSize;
    match members(page)
    case None => 0
    case Some(data) => if 0 <= within < |data| then data[within] else 0
  }

  /** Where the run holding a byte ends: so many whole pages on. */
  function RunLimit(g: Geometry, cursor: nat): nat
    requires g.Supported()
  {
    (g.PageOf(cursor) + Max(1, MAXIMUM_RUN_BYTES / g.pageSize)) * g.pageSize
  }

  /** A run ends past its byte, on a page boundary: no page is split between two runs. */
  lemma RunsSplitNoPage(g: Geometry, cursor: nat)
    requires g.Supported()
    ensures RunLimit(g, cursor) > cursor && RunLimit(g, cursor) % g.pageSize == 0
    ensures forall position :: cursor <= position && g.PageOf(position) == g.PageOf(cursor) ==>
      position < RunLimit(g, cursor)
  {
    if g.pageSize == PAGE_SIZE_4KIB { assert g.segmentPages == 16384; } else { assert g.segmentPages == 256; }
  }

  /** One page of a run: the byte of it the read starts at, and the bytes [from, to) of the buffer it fills. */
  datatype PageRead = PageRead(number: nat, within: nat, from: nat, to: nat)

  predicate Wants(wanted: Option<seq<bool>>, first: nat, page: nat) {
    wanted.None? || (first <= page < first + |wanted.value| && wanted.value[page - first])
  }

  /** What a byte of the buffer is once its page is read. */
  ghost predicate Filled(g: Geometry, members: Members, offset: nat, wanted: Option<seq<bool>>, first: nat,
                         before: seq<Byte>, now: Byte, i: nat)
    requires g.Supported() && i < |before|
  {
    now == if Wants(wanted, first, g.PageOf(offset + i)) then ByteAt(g, members, offset + i) else before[i]
  }

  /** Copies a member's bytes into its part of the buffer, and zeroes what is past its end. */
  method FillPage(dst: array<Byte>, page: PageRead, data: seq<Byte>)
    requires page.from <= page.to <= dst.Length
    modifies dst
    ensures forall i :: 0 <= i < dst.Length ==>
      dst[i] == if page.from <= i < page.to
                then (if page.within + (i - page.from) < |data| then data[page.within + (i - page.from)] else 0)
                else old(dst[i])
  {
    var i := page.from;
    while i < page.to
      invariant page.from <= i <= page.to
      invariant forall j :: 0 <= j < dst.Length ==>
        dst[j] == if page.from <= j < i
                  then (if page.within + (j - page.from) < |data| then data[page.within + (j - page.from)] else 0)
                  else old(dst[j])
    {
      dst[i] := if page.within + (i - page.from) < |data| then data[page.within + (i - page.from)] else 0;
      i := i + 1;
    }
  }

  /** A page of a run that has a member, and its place in the buffer. */
  ghost predicate Reads(g: Geometry, members: Members, offset: nat, wanted: Option<seq<bool>>, first: nat,
                        page: PageRead)
  {
    && members(page.number).Some? && page.from < page.to && Wants(wanted, first, page.number)
    && offset + page.from == page.number * g.pageSize + page.within
    && offset + page.to <= (page.number + 1) * g.pageSize
  }

  ghost predicate OnPage(g: Geometry, position: nat, page: nat) {
    page * g.pageSize <= position < (page + 1) * g.pageSize
  }

  lemma PageIs(g: Geometry, position: nat, page: nat)
    requires g.Supported() && OnPage(g, position, page)
    ensures g.PageOf(position) == page
  {
    if g.pageSize == PAGE_SIZE_4KIB { assert g.segmentPages == 16384; } else { assert g.segmentPages == 256; }
  }

  lemma PageHolds(g: Geometry, position: nat)
    requires g.Supported()
    ensures OnPage(g, position, g.PageOf(position))
  {
    if g.pageSize == PAGE_SIZE_4KIB { assert g.segmentPages == 16384; } else { assert g.segmentPages == 256; }
  }

  /** A byte a page of the run has still to fill. */
  ghost predicate Pending(run: seq<PageRead>, i: nat) { exists k :: 0 <= k < |run| && run[k].from <= i < run[k].to }

  ghost predicate Apart(run: seq<PageRead>) { forall j, k :: 0 <= j < k < |run| ==> run[j].to <= run[k].from }

  /** Resolves the pages of the buffer's [lo, hi): a wanted page with no member is zeroed, and one with a member is left
      to be read. */
  method ResolveRun(g: Geometry, size: nat, members: Members, offset: nat, dst: array<Byte>, lo: nat, hi: nat,
                    wanted: Option<seq<bool>>, first: nat)
    returns (run: seq<PageRead>)
    requires g.Supported() && lo <= hi <= dst.Length && offset + dst.Length <= size
    modifies dst
    ensures Apart(run)
    ensures forall k :: 0 <= k < |run| ==>
      lo <= run[k].from && run[k].to <= hi && Reads(g, members, offset, wanted, first, run[k])
    ensures forall i :: 0 <= i < lo || hi <= i < dst.Length ==> dst[i] == old(dst[i])
    ensures forall i :: lo <= i < hi ==>
      Pending(run, i) || Filled(g, members, offset, wanted, first, old(dst[..]), dst[i], i)
  {
    hide Geometry.PageOf, Geometry.PageSpan, ByteAt, Pending, Filled, Wants;
    run := [];
    var cursor := lo;
    ghost var before := dst[..];
    while cursor < hi
      invariant lo <= cursor <= hi && Apart(run) && forall k :: 0 <= k < |run| ==> run[k].to <= cursor
      invariant forall k :: 0 <= k < |run| ==>
        lo <= run[k].from && run[k].to <= hi && Reads(g, members, offset, wanted, first, run[k])
      invariant forall i :: 0 <= i < lo || cursor <= i < dst.Length ==> dst[i] == old(dst[i])
      invariant forall i :: lo <= i < cursor ==>
        Pending(run, i) || Filled(g, members, offset, wanted, first, before, dst[i], i)
      decreases hi - cursor
    {
      var number := g.PageOf(offset + cursor);
      var start, span := number * g.pageSize, g.PageSpan(size, number);
      PageHolds(g, offset + cursor);
      SpanOf(g, size, offset + cursor, number);
      var limit := Min(hi, start + span - offset);
      if !Wants(wanted, first, number) {
        Skipped(g, members, offset, wanted, first, before, dst[..], cursor, limit, number);
        cursor := limit;
      } else if members(number).Some? {
        var page := PageRead(number, offset + cursor - start, cursor, limit);
        PendingMore(run, page);
        run := run + [page];
        cursor := limit;
      } else {
        ghost var was := dst[..];
        FillPage(dst, PageRead(number, 0, cursor, limit), []);
        Zeroed(g, members, offset, wanted, first, before, dst[..], cursor, limit, number);
        cursor := limit;
      }
    }
  }

  lemma SpanOf(g: Geometry, size: nat, position: nat, page: nat)
    requires g.Supported() && OnPage(g, position, page) && position < size
    ensures page * g.pageSize + g.PageSpan(size, page) == Min(size, (page + 1) * g.pageSize) > position
  {
    assert (page + 1) * g.pageSize == page * g.pageSize + g.pageSize;
  }

  lemma PendingMore(run: seq<PageRead>, page: PageRead)
    ensures forall i: nat :: Pending(run, i) ==> Pending(run + [page], i)
    ensures forall i: nat :: page.from <= i < page.to ==> Pending(run + [page], i)
  {
    forall i: nat | Pending(run, i) ensures Pending(run + [page], i) {
      var k :| 0 <= k < |run| && run[k].from <= i < run[k].to;
      assert (run + [page])[k] == run[k];
    }
    assert (run + [page])[|run|] == page;
  }

  ghost predicate Within(g: Geometry, offset: nat, lo: nat, hi: nat, number: nat) {
    number * g.pageSize <= offset + lo && offset + hi <= (number + 1) * g.pageSize
  }

  lemma Skipped(g: Geometry, members: Members, offset: nat, wanted: Option<seq<bool>>, first: nat, before: seq<Byte>,
                now: seq<Byte>, lo: nat, hi: nat, number: nat)
    requires g.Supported() && lo <= hi <= |before| == |now| && !Wants(wanted, first, number)
    requires Within(g, offset, lo, hi, number)
    requires forall i :: lo <= i < hi ==> now[i] == before[i]
    ensures forall i :: lo <= i < hi ==> Filled(g, members, offset, wanted, first, before, now[i], i)
  {
    hide Geometry.PageOf;
    forall i | lo <= i < hi ensures Filled(g, members, offset, wanted, first, before, now[i], i) {
      PageIs(g, offset + i, number);
    }
  }

  lemma Zeroed(g: Geometry, members: Members, offset: nat, wanted: Option<seq<bool>>, first: nat, before: seq<Byte>,
               now: seq<Byte>, lo: nat, hi: nat, number: nat)
    requires g.Supported() && lo <= hi <= |before| == |now| && members(number).None? && Wants(wanted, first, number)
    requires Within(g, offset, lo, hi, number) && forall i :: lo <= i < hi ==> now[i] == 0
    ensures forall i :: lo <= i < hi ==> Filled(g, members, offset, wanted, first, before, now[i], i)
  {
    hide Geometry.PageOf;
    forall i | lo <= i < hi ensures Filled(g, members, offset, wanted, first, before, now[i], i) {
      PageIs(g, offset + i, number);
    }
  }

  /** Fills every page of a run. */
  method FillPages(g: Geometry, members: Members, offset: nat, dst: array<Byte>, run: seq<PageRead>,
                   wanted: Option<seq<bool>>, first: nat, ghost before: seq<Byte>)
    requires g.Supported() && |before| == dst.Length && Apart(run)
    requires forall k :: 0 <= k < |run| ==> run[k].to <= dst.Length && Reads(g, members, offset, wanted, first, run[k])
    modifies dst
    ensures forall i :: 0 <= i < dst.Length && Pending(run, i) ==>
      Filled(g, members, offset, wanted, first, before, dst[i], i)
    ensures forall i :: 0 <= i < dst.Length && !Pending(run, i) ==> dst[i] == old(dst[i])
  {
    var k := 0;
    assert run[..0] == [];
    while k < |run|
      invariant k <= |run|
      invariant forall i :: 0 <= i < dst.Length && Pending(run[..k], i) ==>
        Filled(g, members, offset, wanted, first, before, dst[i], i)
      invariant forall i :: 0 <= i < dst.Length && !Pending(run[..k], i) ==> dst[i] == old(dst[i])
    {
      hide Geometry.PageOf, ByteAt, Filled;
      ghost var was := dst[..];
      var page := run[k];
      FillPage(dst, page, members(page.number).value);
      ReadFills(g, members, offset, wanted, first, before, dst[..], page);
      assert run[..k + 1] == run[..k] + [page];
      PendingStep(run[..k], page);
      NotTwice(run, k);
      k := k + 1;
    }
    assert run[..|run|] == run;
  }

  lemma PendingStep(run: seq<PageRead>, page: PageRead)
    ensures forall i: nat :: Pending(run + [page], i) <==> Pending(run, i) || page.from <= i < page.to
  {
    PendingMore(run, page);
  }

  lemma NotTwice(run: seq<PageRead>, k: nat)
    requires Apart(run) && k < |run|
    ensures forall i: nat :: Pending(run[..k], i) ==> !(run[k].from <= i < run[k].to)
  {
  }

  lemma ReadFills(g: Geometry, members: Members, offset: nat, wanted: Option<seq<bool>>, first: nat, before: seq<Byte>,
                  now: seq<Byte>, page: PageRead)
    requires g.Supported() && |before| == |now| && page.to <= |now| && Reads(g, members, offset, wanted, first, page)
    requires forall i :: page.from <= i < page.to ==>
      now[i] == if page.within + (i - page.from) < |members(page.number).value|
                then members(page.number).value[page.within + (i - page.from)] else 0
    ensures forall i :: page.from <= i < page.to ==> Filled(g, members, offset, wanted, first, before, now[i], i)
  {
    hide Geometry.PageOf;
    forall i | page.from <= i < page.to ensures Filled(g, members, offset, wanted, first, before, now[i], i) {
      PageIs(g, offset + i, page.number);
    }
  }

  datatype ReadError = None | UnknownVolume | InvalidRange

  /** Reads a range, or the pages of it that are wanted, in place. Every byte of a wanted page is then the volume's, and
      every other byte is as it was; a read that is refused changes nothing. */
  method ReadPages(volumes: map<string, Volume>, name: string, members: Members, offset: nat, dst: array<Byte>,
                   wanted: Option<seq<bool>>)
    returns (error: ReadError)
    requires forall v :: v in volumes ==> volumes[v].geometry.Supported()
    modifies dst
    ensures error.UnknownVolume? <==> name !in volumes
    ensures error.InvalidRange? <==> name in volumes && !InRange(volumes[name], offset, dst.Length, wanted)
    ensures !error.None? ==> dst[..] == old(dst[..])
    ensures error.None? ==> forall i :: 0 <= i < dst.Length ==>
      Filled(volumes[name].geometry, members, offset, wanted, volumes[name].geometry.PageOf(offset), old(dst[..]),
             dst[i], i)
  {
    if name !in volumes {
      return UnknownVolume;
    }
    var volume := volumes[name];
    var g := volume.geometry;
    if offset > volume.size || dst.Length > volume.size - offset {
      return InvalidRange;
    }
    if dst.Length == 0 {
      return ReadError.None;
    }
    var first := g.PageOf(offset);
    if wanted.Some? && |wanted.value| != g.PageOf(offset + dst.Length - 1) - first + 1 {
      return InvalidRange;
    }
    ReadRuns(g, volume.size, members, offset, dst, wanted, first);
    return ReadError.None;
  }

  /** The range is the volume's, and what is wanted of it is said of each page it touches. */
  predicate InRange(volume: Volume, offset: nat, length: nat, wanted: Option<seq<bool>>)
    requires volume.geometry.Supported()
  {
    && offset + length <= volume.size
    && (length > 0 && wanted.Some? ==>
          |wanted.value| == volume.geometry.PageOf(offset + length - 1) - volume.geometry.PageOf(offset) + 1)
  }

  method ReadRuns(g: Geometry, size: nat, members: Members, offset: nat, dst: array<Byte>, wanted: Option<seq<bool>>,
                  first: nat)
    requires g.Supported() && offset + dst.Length <= size
    modifies dst
    ensures forall i :: 0 <= i < dst.Length ==> Filled(g, members, offset, wanted, first, old(dst[..]), dst[i], i)
  {
    hide Filled, Geometry.PageOf, RunLimit, Pending, Reads, Apart;
    ghost var before := dst[..];
    var cursor := 0;
    while cursor < dst.Length
      invariant cursor <= dst.Length
      invariant forall i :: 0 <= i < cursor ==> Filled(g, members, offset, wanted, first, before, dst[i], i)
      invariant forall i :: cursor <= i < dst.Length ==> dst[i] == before[i]
    {
      RunsSplitNoPage(g, offset + cursor);
      var limit := Min(dst.Length, RunLimit(g, offset + cursor) - offset);
      ReadRun(g, size, members, offset, dst, cursor, limit, wanted, first, before);
      cursor := limit;
    }
  }

  method ReadRun(g: Geometry, size: nat, members: Members, offset: nat, dst: array<Byte>, lo: nat, hi: nat,
                 wanted: Option<seq<bool>>, first: nat, ghost before: seq<Byte>)
    requires g.Supported() && lo <= hi <= dst.Length && offset + dst.Length <= size && |before| == dst.Length
    requires forall i :: lo <= i < hi ==> dst[i] == before[i]
    modifies dst
    ensures forall i :: lo <= i < hi ==> Filled(g, members, offset, wanted, first, before, dst[i], i)
    ensures forall i :: 0 <= i < lo || hi <= i < dst.Length ==> dst[i] == old(dst[i])
  {
    ghost var was := dst[..];
    var run := ResolveRun(g, size, members, offset, dst, lo, hi, wanted, first);
    ghost var resolved := dst[..];
    SameBefore(g, members, offset, wanted, first, was, before, dst[..], run, lo, hi);
    FillPages(g, members, offset, dst, run, wanted, first, before);
    assert forall i :: 0 <= i < dst.Length && (i < lo || hi <= i) ==> !Pending(run, i);
  }

  lemma SameBefore(g: Geometry, members: Members, offset: nat, wanted: Option<seq<bool>>, first: nat, was: seq<Byte>,
                   before: seq<Byte>, now: seq<Byte>, run: seq<PageRead>, lo: nat, hi: nat)
    requires g.Supported() && lo <= hi <= |was| == |before| == |now| && forall i :: lo <= i < hi ==> was[i] == before[i]
    requires forall i :: lo <= i < hi ==> Pending(run, i) || Filled(g, members, offset, wanted, first, was, now[i], i)
    ensures forall i :: lo <= i < hi ==> Pending(run, i) || Filled(g, members, offset, wanted, first, before, now[i], i)
  {
    hide Geometry.PageOf, ByteAt;
  }
}
