/** Where the bytes of a range of a volume live.

The extents of a range lie one after another and cover it exactly. A located page is an
extent of its own, under the identity of the page, and a run of pages that read as
zeroes is one extent however many segments it crosses.
*/
module Locating {
  import opened Refs
  import opened Geometries
  import opened Roots
  import opened PageTables

  /** A page's identity, or zeroes. */
  datatype Identity = Zero | Identity(ref: Ref, volume: string, page: nat)

  datatype Extent = Extent(offset: nat, length: nat, identity: Identity) {
    function End(): nat { offset + length }
  }

  /** The bytes [from, to) of a volume of pages of one size. */
  datatype Span = Span(from: nat, to: nat, pageSize: nat) {
    ghost predicate Valid() { from < to && pageSize > 0 }

    /** Where a page begins within the span: its own start, clipped. */
    function Edge(page: nat): nat { Max(from, Min(to, page * pageSize)) }

    /** The part of one page the span covers. */
    function Start(page: nat): nat { Max(from, page * pageSize) }

    function Stop(page: nat): nat { Min(to, (page + 1) * pageSize) }

    ghost predicate Meets(page: nat) { page * pageSize < to && from < (page + 1) * pageSize }
  }

  lemma EdgesOf(span: Span, page: nat)
    requires span.Valid() && span.Meets(page)
    ensures span.Start(page) == span.Edge(page) && span.Stop(page) == span.Edge(page + 1)
    ensures span.Edge(page) < span.Edge(page + 1)
  {
  }

  lemma EdgesRise(span: Span, a: nat, b: nat)
    requires span.Valid() && a <= b
    ensures span.Edge(a) <= span.Edge(b)
  {
    assert a * span.pageSize <= b * span.pageSize by { Mul(a, b, span.pageSize); }
  }

  lemma Mul(a: nat, b: nat, n: nat)
    requires a <= b
    ensures a * n <= b * n
  {
  }

  /** What each page of the volume is. */
  type View = nat -> Option<Ref>

  /** An extent says what the pages it covers are. */
  ghost predicate Says(span: Span, view: View, volume: string, e: Extent) {
    match e.identity
    case Identity(ref, name, page) =>
      name == volume && span.Meets(page) && view(page) == Some(ref) && e.offset == span.Edge(page) &&
        e.End() == span.Edge(page + 1)
    case Zero =>
      exists first, stop :: first < stop && e.offset == span.Edge(first) && e.End() == span.Edge(stop) &&
        AllZero(view, first, stop)
  }

  ghost predicate AllZero(view: View, first: nat, stop: nat) {
    forall page :: first <= page < stop ==> view(page).None?
  }

  /** Extents that cover [from, upto) one after another, none empty, each saying what it covers, with no two runs of
      zeroes side by side. */
  ghost predicate Covers(span: Span, view: View, volume: string, extents: seq<Extent>, upto: nat) {
    && (extents == [] ==> upto == span.from)
    && (extents != [] ==> extents[0].offset == span.from && extents[|extents| - 1].End() == upto)
    && (forall i :: 0 <= i < |extents| ==> extents[i].length > 0 && Says(span, view, volume, extents[i]))
    && (forall i :: 0 < i < |extents| ==> extents[i].offset == extents[i - 1].End())
    && (forall i :: 0 < i < |extents| ==> !(extents[i].identity.Zero? && extents[i - 1].identity.Zero?))
  }

  /** One located page more. */
  lemma CoverPage(span: Span, view: View, volume: string, extents: seq<Extent>, page: nat, ref: Ref)
    requires span.Valid() && Covers(span, view, volume, extents, span.Edge(page)) && span.Meets(page)
    requires view(page) == Some(ref)
    ensures var e := Extent(span.Start(page), span.Stop(page) - span.Start(page), Identity(ref, volume, page));
      Covers(span, view, volume, extents + [e], span.Edge(page + 1))
  {
    hide Span.Edge, Span.Start, Span.Stop;
    EdgesOf(span, page);
    var e := Extent(span.Start(page), span.Stop(page) - span.Start(page), Identity(ref, volume, page));
    assert Says(span, view, volume, e);
    CoverMore(span, view, volume, extents, e);
  }

  lemma CoverMore(span: Span, view: View, volume: string, extents: seq<Extent>, e: Extent)
    requires Covers(span, view, volume, extents, e.offset) && Says(span, view, volume, e) && e.length > 0
    requires !e.identity.Zero?
    ensures Covers(span, view, volume, extents + [e], e.End())
  {
    hide Says;
  }

  /** A run of zeroes more, merged with one the extents end with. */
  function WithHole(span: Span, extents: seq<Extent>, first: nat, stop: nat): seq<Extent>
    requires first < stop && span.Start(first) <= span.Stop(stop - 1)
  {
    var offset, length := span.Start(first), span.Stop(stop - 1) - span.Start(first);
    var n := |extents|;
    if n > 0 && extents[n - 1].identity.Zero? && extents[n - 1].End() == offset
    then extents[n - 1 := extents[n - 1].(length := extents[n - 1].length + length)]
    else extents + [Extent(offset, length, Zero)]
  }

  lemma HoleEdges(span: Span, first: nat, stop: nat)
    requires span.Valid() && first < stop && span.Meets(first) && span.Meets(stop - 1)
    ensures span.Start(first) == span.Edge(first) && span.Stop(stop - 1) == span.Edge(stop)
    ensures span.Edge(first) < span.Edge(stop)
  {
    EdgesOf(span, first);
    EdgesOf(span, stop - 1);
    EdgesRise(span, first + 1, stop);
  }

  lemma CoverHole(span: Span, view: View, volume: string, extents: seq<Extent>, first: nat, stop: nat)
    requires span.Valid() && Covers(span, view, volume, extents, span.Edge(first)) && first < stop
    requires span.Meets(first) && span.Meets(stop - 1) && AllZero(view, first, stop)
    ensures span.Start(first) <= span.Stop(stop - 1)
    ensures Covers(span, view, volume, WithHole(span, extents, first, stop), span.Edge(stop))
    ensures |WithHole(span, extents, first, stop)| <= |extents| + 1
  {
    hide Span.Edge, Span.Start, Span.Stop, Span.Meets;
    HoleEdges(span, first, stop);
    var n, after := |extents|, WithHole(span, extents, first, stop);
    if n > 0 && extents[n - 1].identity.Zero? {
      var was := extents[n - 1];
      var a, b :| a < b && was.offset == span.Edge(a) && was.End() == span.Edge(b) && AllZero(view, a, b);
      assert span.from <= span.Edge(a) by { FromEdge(span, a); }
      JoinZeroes(span, view, a, b, first, stop);
      assert Says(span, view, volume, after[n - 1]);
    } else {
      assert Says(span, view, volume, after[n]);
    }
  }

  /** Two runs of zeroes that meet are one. */
  lemma JoinZeroes(span: Span, view: View, a: nat, b: nat, first: nat, stop: nat)
    requires span.Valid() && a < b && first < stop && span.Edge(b) == span.Edge(first) && span.Edge(a) < span.Edge(b)
    requires AllZero(view, a, b) && AllZero(view, first, stop) && span.Meets(first) && span.from <= span.Edge(a)
    ensures exists c, d ::
      c < d && span.Edge(c) == span.Edge(a) && span.Edge(d) == span.Edge(stop) && AllZero(view, c, d)
  {
    SameEdge(span, b, first);
    assert AllZero(view, a, stop);
  }

  lemma FromEdge(span: Span, a: nat)
    ensures span.from <= span.Edge(a)
  {
  }

  lemma SameEdge(span: Span, a: nat, b: nat)
    requires span.Valid() && span.Edge(a) == span.Edge(b) && span.from < span.Edge(a) && span.Meets(b)
    ensures a == b
  {
    assert a * span.pageSize == b * span.pageSize;
    if a < b { Mul(a + 1, b, span.pageSize); }
    if b < a { Mul(b + 1, a, span.pageSize); }
  }

  // ---------------------------------------------------------------------- locating

  /** What a page of a segment's table is. */
  function PageOf(table: Table, base: nat, page: nat): Option<Ref>
    requires table.Valid()
  {
    if page < base then None
    else
      var at := table.At(page - base);
      if at.None? then None else Some(at.value.origin)
  }

  /** The extents the pages of a slice locate to, at most: one a located page, one a run of others, and one past the
      entries. */
  function ExtentsIn(located: seq<TableEntry>, pages: nat): nat {
    Runs(located, |located|) + if |located| < pages then 1 else 0
  }

  function Runs(located: seq<TableEntry>, n: nat): nat
    requires n <= |located|
  {
    if n == 0 then 0
    else Runs(located, n - 1) + if located[n - 1].ref != 0 || n == 1 || located[n - 2].ref != 0 then 1 else 0
  }

  /** A run of other pages adds one. */
  lemma {:induction false} RunAddsOne(located: seq<TableEntry>, at: nat, run: nat)
    requires at < run <= |located| && (forall i :: at <= i < run ==> located[i].ref == 0)
    requires (at > 0 ==> located[at - 1].ref != 0)
    ensures Runs(located, run) == Runs(located, at) + 1
    decreases run
  {
    if run > at + 1 { RunAddsOne(located, at, run - 1); }
  }

  /** Where the run of holes that begins at one entry ends. */
  method ZeroRun(located: seq<TableEntry>, at: nat) returns (run: nat)
    requires at < |located| && located[at].ref == 0
    ensures at < run <= |located| && (forall i :: at <= i < run ==> located[i].ref == 0)
    ensures run < |located| ==> located[run].ref != 0
  {
    run := at + 1;
    while run < |located| && located[run].ref == 0
      invariant at < run <= |located| && forall i :: at <= i < run ==> located[i].ref == 0
    {
      run := run + 1;
    }
  }

  /** The pages [first, stop) of one segment, appended to the extents of the pages before them. */
  method LocateIn(table: Table, extents: seq<Extent>, volume: string, base: nat, first: nat, stop: nat, span: Span,
                  ghost view: View)
    returns (out: seq<Extent>)
    requires table.Valid() && span.Valid() && base <= first < stop
    requires span.Meets(first) && span.Meets(stop - 1)
    requires forall page :: first <= page < stop ==> view(page) == PageOf(table, base, page)
    requires Covers(span, view, volume, extents, span.Edge(first))
    ensures Covers(span, view, volume, out, span.Edge(stop))
    ensures var n := |table.entries|;
      |out| <= |extents| + ExtentsIn(table.entries[Min(first - base, n)..Min(stop - base, n)], stop - first)
  {
    hide Covers, Says, Span.Edge, Span.Start, Span.Stop, Span.Meets, IsHighest;
    var n := |table.entries|;
    var located := table.entries[Min(first - base, n)..Min(stop - base, n)];
    out := extents;
    var at := 0;
    while at < |located|
      invariant at <= |located| && Covers(span, view, volume, out, span.Edge(first + at))
      invariant |out| <= |extents| + Runs(located, at)
      invariant 0 < at < |located| && located[at].ref == 0 ==> located[at - 1].ref != 0
    {
      var page := first + at;
      AllMeet(span, first, stop, page);
      var entry := located[at];
      assert entry == table.entries[page - base];
      if entry.ref == 0 {
        var run := ZeroRun(located, at);
        assert AllZero(view, page, first + run) by {
          forall p | page <= p < first + run
            ensures view(p).None?
          {
            assert located[p - first] == table.entries[p - base];
          }
        }
        AllMeet(span, first, stop, first + run - 1);
        CoverHole(span, view, volume, out, page, first + run);
        RunAddsOne(located, at, run);
        out := WithHole(span, out, page, first + run);
        at := run;
      } else {
        assert table.Names(entry);
        var origin := table.LocationOf(entry).origin;
        CoverPage(span, view, volume, out, page, origin);
        StartBeforeStop(span, page);
        out := out + [Extent(span.Start(page), span.Stop(page) - span.Start(page), Identity(origin, volume, page))];
        at := at + 1;
      }
    }
    var beyond := first + |located|;
    if beyond < stop {
      assert AllZero(view, beyond, stop);
      AllMeet(span, first, stop, beyond);
      CoverHole(span, view, volume, out, beyond, stop);
      out := WithHole(span, out, beyond, stop);
    }
  }

  lemma StartBeforeStop(span: Span, page: nat)
    requires span.Valid() && span.Meets(page)
    ensures span.Start(page) <= span.Stop(page)
  {
    EdgesOf(span, page);
  }

  lemma AllMeet(span: Span, first: nat, stop: nat, page: nat)
    requires span.Valid() && first <= page < stop && span.Meets(first) && span.Meets(stop - 1)
    ensures span.Meets(page)
  {
    Mul(first + 1, page + 1, span.pageSize);
    Mul(page, stop - 1, span.pageSize);
  }

  // ------------------------------------------------------------------ across segments

  datatype Located = UnknownVolume | InvalidRange | Extents(extents: seq<Extent>)

  const EMPTY_TABLE := Table([], [], [], [])

  /** A segment the root does not address is empty. */
  function TableFor(tables: map<nat, Table>, number: nat): Table {
    if number in tables then tables[number] else EMPTY_TABLE
  }

  ghost predicate AllValid(tables: map<nat, Table>) { forall number :: number in tables ==> tables[number].Valid() }

  /** What the pages of a volume are, by the tables of its segments. */
  ghost function ViewOf(g: Geometry, tables: map<nat, Table>): View
    requires g.Supported() && AllValid(tables)
  {
    (page: nat) => PageOf(TableFor(tables, g.SegmentOf(page)), g.SegmentBase(g.SegmentOf(page)), page)
  }

  /** Where the bytes of a range live. A range past the volume's end is refused, and one of no bytes is no extents. */
  method Locate(volumes: map<string, Volume>, name: string, tables: map<nat, Table>, offset: nat, length: nat)
    returns (r: Located)
    requires (forall v :: v in volumes ==> volumes[v].geometry.Supported()) && AllValid(tables)
    ensures r.UnknownVolume? <==> name !in volumes
    ensures r.InvalidRange? <==> name in volumes && offset + length > volumes[name].size
    ensures r.Extents? ==> (length == 0 <==> r.extents == [])
    ensures r.Extents? && length > 0 ==>
      Covers(Span(offset, offset + length, volumes[name].geometry.pageSize), ViewOf(volumes[name].geometry, tables),
             name,
             r.extents, offset + length)
  {
    if name !in volumes {
      return UnknownVolume;
    }
    var volume := volumes[name];
    if offset > volume.size || length > volume.size - offset {
      return InvalidRange;
    }
    if length == 0 {
      return Extents([]);
    }
    var extents := LocatePages(volume.geometry, name, tables, offset, length);
    r := Extents(extents);
  }

  method LocatePages(g: Geometry, name: string, tables: map<nat, Table>, offset: nat, length: nat)
    returns (extents: seq<Extent>)
    requires g.Supported() && AllValid(tables) && length > 0
    ensures Covers(Span(offset, offset + length, g.pageSize), ViewOf(g, tables), name, extents, offset + length)
    ensures extents != []
  {
    hide Covers, Says, Span.Edge, Span.Meets, AllValid, Table.Valid, PageOf, TableFor, ViewOf;
    var span := Span(offset, offset + length, g.pageSize);
    ghost var view := ViewOf(g, tables);
    var page, last := g.PageOf(offset), g.PageOf(offset + length - 1);
    Ends(g, span, page, last);
    extents := [];
    NothingCovered(span, view, name, page);
    while page <= last
      invariant g.PageOf(offset) <= page <= last + 1 && Covers(span, view, name, extents, span.Edge(page))
      decreases last + 1 - page
    {
      var number := g.SegmentOf(page);
      var base := g.SegmentBase(number);
      SegmentSplit(g, page);
      var stop := Min(last + 1, base + g.segmentPages);
      TableIsValid(tables, number);
      SegmentView(g, tables, number, page, stop);
      AllMeet(span, g.PageOf(offset), last + 1, page);
      AllMeet(span, g.PageOf(offset), last + 1, stop - 1);
      extents := LocateIn(TableFor(tables, number), extents, name, base, page, stop, span, view);
      page := stop;
    }
    Covered(span, view, name, extents);
  }

  lemma Ends(g: Geometry, span: Span, first: nat, last: nat)
    requires g.Supported() && span.Valid() && span.pageSize == g.pageSize && first == g.PageOf(span.from)
    requires last == g.PageOf(span.to - 1)
    ensures first <= last && span.Meets(first) && span.Meets(last)
    ensures span.Edge(first) == span.from && span.Edge(last + 1) == span.to
  {
    if g.pageSize == PAGE_SIZE_4KIB { assert g.segmentPages == 16384; } else { assert g.segmentPages == 256; }
  }

  lemma NothingCovered(span: Span, view: View, name: string, page: nat)
    requires span.Edge(page) == span.from
    ensures Covers(span, view, name, [], span.Edge(page))
  {
  }

  lemma Covered(span: Span, view: View, name: string, extents: seq<Extent>)
    requires span.Valid() && Covers(span, view, name, extents, span.to)
    ensures extents != []
  {
  }

  lemma TableIsValid(tables: map<nat, Table>, number: nat)
    requires AllValid(tables)
    ensures TableFor(tables, number).Valid()
  {
  }

  lemma SegmentView(g: Geometry, tables: map<nat, Table>, number: nat, first: nat, stop: nat)
    requires g.Supported() && AllValid(tables) && TableFor(tables, number).Valid()
    requires g.SegmentBase(number) <= first && stop <= g.SegmentBase(number) + g.segmentPages
    ensures forall page :: first <= page < stop ==>
      ViewOf(g, tables)(page) == PageOf(TableFor(tables, number), g.SegmentBase(number), page)
  {
    hide PageOf, TableFor;
    forall page: nat | first <= page < stop
      ensures ViewOf(g, tables)(page) == PageOf(TableFor(tables, number), g.SegmentBase(number), page)
    {
      SegmentJoin(g, number, page - g.SegmentBase(number));
    }
  }
}
