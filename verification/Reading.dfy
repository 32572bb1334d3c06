/** Reading and locating a published root.

Runs reads a range out of whatever members its pages have, and Locating finds a range in
whatever tables its segments have. Here both are of one root: the members are the pages
the root reads, and the tables are what its segments decode to.
*/
module Reading {
  import opened Geometries
  import opened Refs
  import opened Roots
  import opened PageTables
  import opened Survival
  import Locating
  import Reachability
  import Runs

  /** The members of a volume's pages, as a root reads them. */
  function MembersOf(store: Store, index: Index, name: string): Runs.Members
    requires name in index.volumes && index.volumes[name].geometry.Supported()
  {
    (page: nat) =>
      var found := PageAt(store, index, name, page);
      if found.Some? then Some(found.value.data) else None
  }

  /** One byte of a published volume: its page's, or zero where there is no page or the page is shorter. */
  function VolumeByte(store: Store, index: Index, name: string, position: nat): Byte
    requires name in index.volumes && index.volumes[name].geometry.Supported()
  {
    var g := index.volumes[name].geometry;
    var page := PageAt(store, index, name, g.PageOf(position));
    var within := position - g.PageOf(position) * g.pageSize;
    if page.Some? && 0 <= within < |page.value.data| then page.value.data[within] else 0
  }

  /** Reads a range of a published volume, or the pages of it that are wanted, in place. */
  method ReadVolume(store: Store, index: Index, name: string, offset: nat, dst: array<Byte>, wanted: Option<seq<bool>>)
    returns (error: Runs.ReadError)
    requires forall v :: v in index.volumes ==> index.volumes[v].geometry.Supported()
    modifies dst
    ensures error.UnknownVolume? <==> name !in index.volumes
    ensures error.InvalidRange? <==>
      name in index.volumes && !Runs.InRange(index.volumes[name], offset, dst.Length, wanted)
    ensures !error.None? ==> dst[..] == old(dst[..])
    ensures error.None? ==>
      var g := index.volumes[name].geometry;
      forall i :: 0 <= i < dst.Length ==>
        dst[i] == if Runs.Wants(wanted, g.PageOf(offset), g.PageOf(offset + i))
          then VolumeByte(store, index, name, offset + i)
                  else old(dst[i])
  {
    hide PageAt, Geometry.PageOf, Runs.Wants, Runs.InRange;
    if name !in index.volumes {
      return Runs.UnknownVolume;
    }
    error := Runs.ReadPages(index.volumes, name, MembersOf(store, index, name), offset, dst, wanted);
  }

  /** Every byte of a volume an index publishes stays what it was while somebody may read through the index. */
  lemma LiveBytesStay(worlds: seq<Reachability.World>, actions: seq<Reachability.Action>, stores: seq<Store>,
                      i: nat, j: nat, ref: Ref, name: string, position: nat)
    requires Reachability.IsRun(worlds, actions) && Reachability.ReleasesSpare(worlds, actions)
    requires IsStored(worlds, actions, stores) && i <= j < |worlds|
    requires ref in worlds[i].published && worlds[j].control.Live(ref)
    requires name in worlds[i].published[ref].volumes && worlds[i].published[ref].volumes[name].geometry.Supported()
    ensures VolumeByte(stores[j], worlds[i].published[ref], name, position) ==
            VolumeByte(stores[i], worlds[i].published[ref], name, position)
  {
    hide Reachability.IsRun, Reachability.ReleasesSpare, IsStored, WellFormed, PageAt, Geometry.PageOf;
    LiveReadsSame(worlds, actions, stores, i, j, ref);
  }

  // ------------------------------------------------------------------- locating

  /** The tables of a volume's segments, as the objects a root addresses decode to. */
  ghost predicate TablesOf(store: Store, index: Index, name: string, tables: map<nat, Table>) {
    && Locating.AllValid(tables)
    && (forall number: nat :: number in tables <==> SegmentKey(name, number) in index.segments)
    && forall number :: number in tables ==> tables[number].Meaning() == TableOf(store, index, SegmentKey(name, number))
  }

  /** The identity of each page of a volume, as a root reads it. */
  ghost function RootView(store: Store, index: Index, name: string): Locating.View
    requires name in index.volumes && index.volumes[name].geometry.Supported()
  {
    (page: nat) =>
      var found := PageAt(store, index, name, page);
      if found.Some? then Some(found.value.origin) else None
  }

  /** The identity a root has a page under, by where it lies. */
  ghost function OriginOf(at: Option<Location>): Option<Ref> { if at.Some? then Some(at.value.origin) else None }

  lemma TablesSay(store: Store, index: Index, name: string, tables: map<nat, Table>, page: nat)
    requires name in index.volumes && index.volumes[name].geometry.Supported() && TablesOf(store, index, name, tables)
    ensures Locating.ViewOf(index.volumes[name].geometry, tables)(page) == OriginOf(Locate(store, index, name, page))
  {
    hide Geometry.SegmentOf, Geometry.OffsetIn, Geometry.SegmentBase, Geometry.Supported, Table.Valid, Table.LocationOf;
    var g := index.volumes[name].geometry;
    SegmentSplit(g, page);
  }

  lemma RootSays(store: Store, index: Index, name: string, page: nat)
    requires WellFormed(store, index) && name in index.volumes
    ensures RootView(store, index, name)(page) == OriginOf(Locate(store, index, name, page))
  {
    hide Geometry.SegmentOf, Geometry.OffsetIn, Geometry.SegmentCount, Geometry.PageCount, Geometry.SegmentBase;
    hide ReadsOf;
    var key := SegmentKey(name, index.volumes[name].geometry.SegmentOf(page));
    if key in index.segments { assert SegmentReadable(store, index, key); }
  }

  /** What the tables say of a page is what the root reads of it. */
  lemma TablesView(store: Store, index: Index, name: string, tables: map<nat, Table>, page: nat)
    requires WellFormed(store, index) && name in index.volumes && TablesOf(store, index, name, tables)
    ensures Locating.ViewOf(index.volumes[name].geometry, tables)(page) == RootView(store, index, name)(page)
  {
    hide SegmentReadable, TablesOf, Locating.ViewOf, RootView, Locate;
    TablesSay(store, index, name, tables, page);
    RootSays(store, index, name, page);
  }

  lemma SaysSame(span: Locating.Span, a: Locating.View, b: Locating.View, volume: string, e: Locating.Extent)
    requires Locating.Says(span, a, volume, e) && forall page :: a(page) == b(page)
    ensures Locating.Says(span, b, volume, e)
  {
    hide Locating.Span.Edge, Locating.Span.Meets;
    if e.identity.Zero? {
      var first, stop :| first < stop && e.offset == span.Edge(first) && e.End() == span.Edge(stop)
                         && Locating.AllZero(a, first, stop);
      assert Locating.AllZero(b, first, stop);
    }
  }

  lemma CoversSame(span: Locating.Span, a: Locating.View, b: Locating.View, volume: string,
                   extents: seq<Locating.Extent>,
                   upto: nat)
    requires Locating.Covers(span, a, volume, extents, upto) && forall page :: a(page) == b(page)
    ensures Locating.Covers(span, b, volume, extents, upto)
  {
    hide Locating.Says;
    forall i | 0 <= i < |extents| ensures Locating.Says(span, b, volume, extents[i]) {
      SaysSame(span, a, b, volume, extents[i]);
    }
  }

  /** Where the bytes of a range of a published volume live: extents over every byte of it once, in order, each with the
      identity the root reads its page under, or a hole where the root reads none. */
  method LocateVolume(ghost store: Store, index: Index, name: string, tables: map<nat, Table>, offset: nat, length: nat)
    returns (r: Locating.Located)
    requires WellFormed(store, index) && TablesOf(store, index, name, tables)
    ensures r.UnknownVolume? <==> name !in index.volumes
    ensures r.InvalidRange? <==> name in index.volumes && offset + length > index.volumes[name].size
    ensures r.Extents? ==> (length == 0 <==> r.extents == [])
    ensures r.Extents? && length > 0 ==>
      Locating.Covers(Locating.Span(offset, offset + length, index.volumes[name].geometry.pageSize),
                      RootView(store, index, name), name, r.extents, offset + length)
  {
    hide Locating.Covers, Locating.ViewOf, RootView, SegmentReadable;
    r := Locating.Locate(index.volumes, name, tables, offset, length);
    if r.Extents? && length > 0 {
      var g := index.volumes[name].geometry;
      forall page: nat ensures Locating.ViewOf(g, tables)(page) == RootView(store, index, name)(page) {
        TablesView(store, index, name, tables, page);
      }
      CoversSame(Locating.Span(offset, offset + length, g.pageSize), Locating.ViewOf(g, tables),
                 RootView(store, index, name), name, r.extents, offset + length);
    }
  }
}
