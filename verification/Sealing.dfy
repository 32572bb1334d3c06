/** What the root a publication writes reads.

A publication is settled once its parts are durable and its segments are written.
These lemmas take it from there: the root reads exactly the table that was built,
every checkpoint it reads it names, and it is self-consistent.
*/
module Sealing {
  import opened Refs
  import opened Geometries
  import opened Roots
  import opened PartWriters
  import opened TableBuilding

  /** A publication at its end. base is the root before its segments are written and its entries pruned. */
  datatype Built = Built(
    store: Store,
    parent: Option<Index>,
    base: Index,
    working: map<SegmentKey, Segment>,
    dirty: set<SegmentKey>,
    members: map<MemberKey, Member>,
    rewriting: set<Ref>,
    tables: map<SegmentAddress, Segment>,
    segments: map<SegmentKey, SegmentEntry>,
    cost: CheckpointCost)
  {
    function Unpruned(): Index {
      base.(segments := segments, checkpoints := base.checkpoints[base.ref := cost])
    }

    /** The root as it is written. */
    function Root(): Index { Unpruned().(checkpoints := Retained(Unpruned())) }

    /** The store once the index object is in it. */
    function Left(): Store {
      Store(store.tables + tables, store.parts + members, store.roots[base.ref := Root()])
    }

    ghost function View(key: SegmentKey): Segment { TableBuilding.View(store, base, working, key) }

    ghost function ParentNames(): map<Ref, CheckpointCost> { if parent.Some? then parent.value.checkpoints else map[] }

    // The facts a publication has established by then.

    ghost predicate Configured() {
      && base.ref.sequence > 0
      && (parent.Some? ==> WellFormed(store, parent.value))
      && Fresh(store, parent, base.ref)
      && (forall volume :: volume in base.volumes ==> base.volumes[volume].geometry.Supported())
      && (parent.Some? ==>
            forall volume :: volume in parent.value.volumes ==>
              && volume in base.volumes
              && base.volumes[volume].geometry == parent.value.volumes[volume].geometry
              && base.volumes[volume].ephemeral == parent.value.volumes[volume].ephemeral)
      && base.segments == Inherited(parent, base.volumes)
      && base.checkpoints == Emptied(ParentNames(), rewriting, base.ref.sequence)
      && Own(base.ref, rewriting)
    }

    /** Every working copy is of readable pages, and one that did not change is the parent's. */
    ghost predicate Tabled() {
      && dirty <= working.Keys
      && (forall key :: key in working ==> Worked(store, parent, base, members, key, working[key], key in dirty))
    }

    /** No page is in a rewritten checkpoint, and every page is one its volume counts. */
    ghost predicate Cleared() {
      && (forall key, relative :: relative in View(key) ==> View(key)[relative].ref !in rewriting)
      && (forall volume, page: nat :: volume in base.volumes ==>
            var v := base.volumes[volume];
            v.geometry.Supported() && At(store, base, working, volume, page).Some? ==>
              page < v.geometry.PageCount(v.size))
    }

    /** Every member is in a part this checkpoint counts, and every changed segment is written. */
    ghost predicate Settled() {
      && (forall key :: key in members ==>
            key.ref == base.ref && key.part < cost.parts && key.offset + members[key].length <= MAXIMUM_PART_SIZE)
      && cost.emptied == 0
      && (forall at :: at in tables ==> at.ref == base.ref)
      && (forall key :: Written(base.segments, segments, tables, base.ref, dirty, working, key))
      && (base.state.Some? ==>
            Sound(store, parent, members, base.ref, base.state.value) && base.state.value.ref !in rewriting)
    }

    ghost predicate Finished() { Configured() && Tabled() && Cleared() && Settled() }
  }

  /** What was there stays as it was. */
  lemma LeftExtends(b: Built)
    requires b.Finished()
    ensures Extends(b.store, b.Left())
  {
  }

  lemma InheritedEntry(b: Built, key: SegmentKey)
    requires b.Finished() && key in b.base.segments
    ensures b.parent.Some? && key in b.parent.value.segments
    ensures b.base.segments[key] == b.parent.value.segments[key]
    ensures SegmentReadable(b.store, b.parent.value, key)
    ensures b.base.segments[key].at.ref != b.base.ref
    ensures key.volume in b.base.volumes
    ensures key.number < b.base.volumes[key.volume].geometry.SegmentCount(b.base.volumes[key.volume].size)
  {
    hide Built.Cleared, Built.Settled, Built.Tabled, Emptied, ReadsOf, Readable;
  }

  /** The root reads, of every segment, exactly what was built. */
  lemma RootReadsView(b: Built, key: SegmentKey)
    requires b.Finished()
    ensures TableOf(b.Left(), b.Root(), key) == b.View(key)
    ensures key in b.segments ==> b.segments[key].at in b.Left().tables && b.segments[key].uses == ReadsOf(b.View(key))
    ensures key in b.segments ==> b.View(key) != map[]
  {
    hide Built.Configured, Built.Cleared, ReadsOf, Retained, Sound, SegmentReadable;
    assert Written(b.base.segments, b.segments, b.tables, b.base.ref, b.dirty, b.working, key);
    if key in b.working { assert Worked(b.store, b.parent, b.base, b.members, key, b.working[key], key in b.dirty); }
    if key !in b.dirty && key in b.base.segments {
      InheritedEntry(b, key);
      InheritedTable(b, key);
    }
  }

  lemma InheritedTable(b: Built, key: SegmentKey)
    requires b.Finished() && key in b.base.segments
    ensures b.base.segments[key].at in b.store.tables
    ensures TableOf(b.store, b.base, key) == b.store.tables[b.base.segments[key].at] != map[]
    ensures b.base.segments[key].uses == ReadsOf(TableOf(b.store, b.base, key))
  {
    hide Built.Configured, Built.Cleared, Built.Settled, Built.Tabled, ReadsOf, Readable;
    InheritedEntry(b, key);
  }

  /** A page the table locates can be read through the root. */
  lemma PageReadable(b: Built, key: SegmentKey, relative: nat)
    requires b.Finished() && relative in b.View(key)
    ensures key.volume in b.base.volumes && !b.base.volumes[key.volume].ephemeral
    ensures relative < b.base.volumes[key.volume].geometry.segmentPages
    ensures Sound(b.store, b.parent, b.members, b.base.ref, b.View(key)[relative])
    ensures Fits(b.store, b.members, b.base.ref, b.View(key)[relative], b.base.volumes[key.volume].geometry.pageSize)
    ensures b.View(key)[relative].ref !in b.rewriting
  {
    hide Built.Configured, Built.Settled, Sound, Fits;
    if key in b.working {
      assert Worked(b.store, b.parent, b.base, b.members, key, b.working[key], key in b.dirty);
    } else {
      assert key in b.base.segments;
      InheritedPageReadable(b, key, relative);
    }
  }

  lemma InheritedPageReadable(b: Built, key: SegmentKey, relative: nat)
    requires b.Finished() && key in b.base.segments && relative in TableOf(b.store, b.base, key)
    ensures key.volume in b.base.volumes && !b.base.volumes[key.volume].ephemeral
    ensures relative < b.base.volumes[key.volume].geometry.segmentPages
    ensures Sound(b.store, b.parent, b.members, b.base.ref, TableOf(b.store, b.base, key)[relative])
    ensures Fits(b.store, b.members, b.base.ref, TableOf(b.store, b.base, key)[relative],
                 b.base.volumes[key.volume].geometry.pageSize)
  {
    hide Built.Cleared, Built.Settled, Built.Tabled, Emptied, ReadsOf, WellFormed, Inherited;
    InheritedEntry(b, key);
  }

  /** A new root names only what its parent named, and itself. */
  lemma RootNames(b: Built)
    requires b.Finished()
    ensures Named(b.Root()) <= b.ParentNames().Keys + {b.base.ref}
    ensures b.base.ref in Named(b.Root())
    ensures forall ref :: ref in b.rewriting && ref in b.ParentNames() ==> ref in Named(b.Root())
  {
    hide Built.Cleared, Built.Settled, Built.Tabled, WellFormed, Inherited, Fresh;
  }

  /** The checkpoints the root reads are its own, its segments' and their pages', and the state's. */
  lemma PageIsRead(b: Built, key: SegmentKey, relative: nat)
    requires b.Finished() && relative in b.View(key)
    ensures key in b.segments
    ensures b.View(key)[relative].ref in ReadCheckpoints(b.Unpruned())
  {
    hide Built.Configured, Built.Cleared, ReadsOf, Sound;
    RootReadsView(b, key);
    assert Written(b.base.segments, b.segments, b.tables, b.base.ref, b.dirty, b.working, key);
    if key in b.working { assert Worked(b.store, b.parent, b.base, b.members, key, b.working[key], key in b.dirty); }
    var ref := b.View(key)[relative].ref;
    ReadsName(b.View(key), ref);
    var i :| 0 <= i < |ReadsOf(b.View(key))| && ReadsOf(b.View(key))[i].ref == ref;
    assert b.Unpruned().segments[key].uses[i].ref == ref;
  }

  /** A member the root reads is named, with its part, and not among the emptied. */
  lemma LocationReadable(b: Built, at: Location)
    requires b.Finished()
    requires Sound(b.store, b.parent, b.members, b.base.ref, at) && at.ref !in b.rewriting
    requires at.ref in ReadCheckpoints(b.Unpruned())
    ensures Readable(b.Left(), b.Root().checkpoints, at)
  {
    hide Built.Cleared, Built.Tabled, WellFormed, Inherited, ReadCheckpoints, Written;
    assert at.ref in b.Unpruned().checkpoints;
    assert at.ref in b.Root().checkpoints && b.Root().checkpoints[at.ref] == b.Unpruned().checkpoints[at.ref];
  }

  /** Every segment the root addresses lies in its volume and locates pages the volume counts. */
  lemma SegmentInVolume(b: Built, key: SegmentKey, relative: nat)
    requires b.Finished() && relative in b.View(key)
    ensures key.volume in b.base.volumes
    ensures var v := b.base.volumes[key.volume];
            && v.geometry.Supported()
            && v.geometry.SegmentBase(key.number) + relative < v.geometry.PageCount(v.size)
            && key.number < v.geometry.SegmentCount(v.size)
  {
    hide Built.Settled, Built.Tabled, WellFormed, Inherited, Fresh, Emptied, Sound;
    hide Geometry.SegmentOf, Geometry.OffsetIn, Geometry.SegmentBase, Geometry.PageCount, Geometry.SegmentCount;
    PageReadable(b, key, relative);
    var v := b.base.volumes[key.volume];
    var page := v.geometry.SegmentBase(key.number) + relative;
    SegmentJoin(v.geometry, key.number, relative);
    assert At(b.store, b.base, b.working, key.volume, page).Some?;
    PageInVolume(v.geometry, v.size, page);
  }

  lemma SegmentStaysReadable(b: Built, key: SegmentKey)
    requires b.Finished() && key in b.segments
    ensures SegmentReadable(b.Left(), b.Root(), key)
  {
    hide Built.Configured, Built.Settled, Built.Tabled, Built.Cleared, ReadsOf, Readable, Sound, ReadCheckpoints, View;
    hide Geometry.SegmentOf, Geometry.OffsetIn, Geometry.SegmentBase, Geometry.PageCount, Geometry.SegmentCount;
    RootReadsView(b, key);
    var table := b.View(key);
    forall relative | relative in table
      ensures key.volume in b.base.volumes && !b.base.volumes[key.volume].ephemeral
      ensures SegmentRange(b, key, relative)
      ensures Readable(b.Left(), b.Root().checkpoints, table[relative]) && table[relative].Key() in b.Left().parts
      ensures |b.Left().parts[table[relative].Key()].data| <= b.base.volumes[key.volume].geometry.pageSize
    {
      PageReadable(b, key, relative);
      SegmentInVolume(b, key, relative);
      PageIsRead(b, key, relative);
      LocationReadable(b, table[relative]);
      StillFits(b, table[relative], b.base.volumes[key.volume].geometry.pageSize);
    }
    var some :| some in table;
    assert SegmentRange(b, key, some);
    AddressNamed(b, key);
  }

  lemma StillFits(b: Built, at: Location, pageSize: nat)
    requires b.Finished() && Sound(b.store, b.parent, b.members, b.base.ref, at)
    requires Fits(b.store, b.members, b.base.ref, at, pageSize)
    ensures at.Key() in b.Left().parts && |b.Left().parts[at.Key()].data| <= pageSize
  {
    hide Built.Configured, Built.Tabled, Built.Cleared;
  }

  ghost predicate SegmentRange(b: Built, key: SegmentKey, relative: nat)
    requires key.volume in b.base.volumes
  {
    var v := b.base.volumes[key.volume];
    && v.geometry.Supported()
    && relative < v.geometry.segmentPages
    && v.geometry.SegmentBase(key.number) + relative < v.geometry.PageCount(v.size)
    && key.number < v.geometry.SegmentCount(v.size)
  }

  /** The checkpoint whose index object holds a segment is named. */
  lemma AddressNamed(b: Built, key: SegmentKey)
    requires b.Finished() && key in b.segments
    ensures b.segments[key].at.ref in b.Root().checkpoints
  {
    hide Built.Cleared, Built.Tabled, WellFormed, Inherited, ReadsOf, Readable;
    var at := b.segments[key].at;
    assert Written(b.base.segments, b.segments, b.tables, b.base.ref, b.dirty, b.working, key);
    assert at.ref in ReadCheckpoints(b.Unpruned());
    if at.ref != b.base.ref { InheritedEntry(b, key); }
  }

  /** The root written is one every reader of the store can use. */
  lemma RootWellFormed(b: Built)
    requires b.Finished()
    ensures WellFormed(b.Left(), b.Root())
  {
    hide Built.Cleared, Built.Tabled, Inherited, ReadsOf, Readable, SegmentReadable, Written, Sound;
    RootNames(b);
    forall key | key in b.segments ensures SegmentReadable(b.Left(), b.Root(), key) { SegmentStaysReadable(b, key); }
    if b.base.state.Some? {
      assert b.base.state.value.ref in ReadCheckpoints(b.Unpruned());
      LocationReadable(b, b.base.state.value);
    }
    assert b.base.ref in ReadCheckpoints(b.Unpruned());
  }

  /** A page reads, through the root, as the table that was built has it. */
  lemma RootReadsPage(b: Built, volume: string, page: nat)
    requires b.Finished() && volume in b.base.volumes
    ensures b.base.volumes[volume].geometry.Supported()
    ensures Locate(b.Left(), b.Root(), volume, page) == At(b.store, b.base, b.working, volume, page)
    ensures var at := At(b.store, b.base, b.working, volume, page);
            PageAt(b.Left(), b.Root(), volume, page) ==
            if at.Some? then Some(Page(at.value.origin, DataAt(b.store, b.members, at.value))) else None
  {
    hide Built.Cleared, Built.Tabled, Built.Settled, WellFormed, Inherited, Emptied, Fresh, Readable;
    hide Geometry.SegmentOf, Geometry.OffsetIn;
    var key := KeyOf(b.base.volumes[volume].geometry, volume, page);
    RootReadsView(b, key);
    var at := At(b.store, b.base, b.working, volume, page);
    if at.Some? {
      PageReadable(b, key, b.base.volumes[volume].geometry.OffsetIn(page));
      SoundIsThere(b, at.value);
    }
  }

  lemma SoundIsThere(b: Built, at: Location)
    requires b.Finished() && Sound(b.store, b.parent, b.members, b.base.ref, at)
    ensures at.Key() in b.Left().parts
    ensures b.Left().parts[at.Key()].data == DataAt(b.store, b.members, at)
  {
    hide Built.Cleared, Built.Tabled, WellFormed, Inherited, Emptied, Written;
  }

  // -------------------------------------------------------- meaning is preserved

  /** How the table came about: the parent's kept pages and the edits, whose members were placed first, then compaction
      over both. */
  ghost predicate CameFrom(b: Built, edited: map<SegmentKey, Segment>, placed: map<MemberKey, Member>,
                           edits: set<PageKey>, source: Source)
  {
    && (forall volume :: volume in b.base.volumes ==> b.base.volumes[volume].geometry.Supported())
    && Grown(placed, b.members)
    && (forall key :: key in b.members ==> key.ref == b.base.ref)
    && (forall key ::
      Moved(b.store, b.members, b.base.ref, b.rewriting, View(b.store, b.base, edited, key), b.View(key)))
    && (forall page: PageKey :: page.volume in b.base.volumes ==> EditedPage(b, edited, placed, edits, source, page))
  }

  ghost predicate EditedPage(b: Built, edited: map<SegmentKey, Segment>, placed: map<MemberKey, Member>,
                             edits: set<PageKey>, source: Source, page: PageKey)
    requires page.volume in b.base.volumes && b.base.volumes[page.volume].geometry.Supported()
  {
    PageEdited(b, At(b.store, b.base, edited, page.volume, page.page), placed, edits, source, page)
  }

  ghost predicate PageEdited(b: Built, at: Option<Location>, placed: map<MemberKey, Member>, edits: set<PageKey>,
                             source: Source, page: PageKey)
    requires page.volume in b.base.volumes && b.base.volumes[page.volume].geometry.Supported()
  {
    if page in edits
    then Edited(b.base.volumes, source, placed, b.base.ref, page, at)
    else at == KeptAt(b.store, b.parent, b.base.volumes, page.volume, page.page)
  }

  /** A compacted table came from the edited one, which was read under the entries as they were before. */
  lemma CompactedCameFrom(b: Built, before: Index, edited: map<SegmentKey, Segment>, placed: map<MemberKey, Member>,
                          edits: set<PageKey>, source: Source)
    requires SameTables(before, b.base)
    requires forall volume :: volume in b.base.volumes ==> b.base.volumes[volume].geometry.Supported()
    requires Grown(placed, b.members) && forall key :: key in b.members ==> key.ref == b.base.ref
    requires forall key ::
      Moved(b.store, b.members, b.base.ref, b.rewriting, View(b.store, before, edited, key), b.View(key))
    requires forall page: PageKey :: page.volume in b.base.volumes ==>
               PageEdited(b, At(b.store, before, edited, page.volume, page.page), placed, edits, source, page)
    ensures CameFrom(b, edited, placed, edits, source)
  {
    hide Moved, PageEdited, View, At, Built.View;
    SameTablesRead(b.store, before, b.base, edited);
  }

  lemma MovedPage(b: Built, edited: map<SegmentKey, Segment>, volume: string, page: nat)
    requires volume in b.base.volumes && b.base.volumes[volume].geometry.Supported()
    requires forall key ::
               Moved(b.store, b.members, b.base.ref, b.rewriting, View(b.store, b.base, edited, key), b.View(key))
    ensures var was, now := At(b.store, b.base, edited, volume, page), At(b.store, b.base, b.working, volume, page);
            && (was.Some? <==> now.Some?)
            && (was.Some? ==> MovedAt(b.store, b.members, b.base.ref, b.rewriting, was.value, now.value))
  {
    hide Geometry.SegmentOf, Geometry.OffsetIn, MovedAt;
    var key := KeyOf(b.base.volumes[volume].geometry, volume, page);
    assert Moved(b.store, b.members, b.base.ref, b.rewriting, View(b.store, b.base, edited, key), b.View(key));
  }

  lemma KeptIsReadable(b: Built, volume: string, page: nat)
    requires b.Configured() && volume in b.base.volumes
    ensures b.base.volumes[volume].geometry.Supported()
    ensures var at := KeptAt(b.store, b.parent, b.base.volumes, volume, page);
            at.Some? ==>
              && b.parent.Some? && volume in b.parent.value.volumes
              && page < b.base.volumes[volume].geometry.PageCount(b.base.volumes[volume].size)
              && at == Locate(b.store, b.parent.value, volume, page)
              && Readable(b.store, b.parent.value.checkpoints, at.value)
              && at.value.ref != b.base.ref
  {
    hide Inherited, Emptied, ReadsOf, Geometry.SegmentOf, Geometry.OffsetIn;
    var at := KeptAt(b.store, b.parent, b.base.volumes, volume, page);
    if at.Some? {
      var key := SegmentKey(volume, b.parent.value.volumes[volume].geometry.SegmentOf(page));
      assert SegmentReadable(b.store, b.parent.value, key);
    }
  }

  /** Before compaction every page the table locates is sound and in its volume. */
  lemma EditedIsSound(b: Built, edited: map<SegmentKey, Segment>, placed: map<MemberKey, Member>,
                      edits: set<PageKey>, source: Source, page: PageKey)
    requires b.Configured() && page.volume in b.base.volumes && EditedPage(b, edited, placed, edits, source, page)
    ensures var at := At(b.store, b.base, edited, page.volume, page.page);
            at.Some? ==>
              && Sound(b.store, b.parent, placed, b.base.ref, at.value)
              && page.page < b.base.volumes[page.volume].geometry.PageCount(b.base.volumes[page.volume].size)
  {
    hide WellFormed, Inherited, Emptied, KeptAt, At;
    var v := b.base.volumes[page.volume];
    PageInVolume(v.geometry, v.size, page.page);
    if page !in edits { KeptIsReadable(b, page.volume, page.page); }
  }

  /** Compaction clears the rewritten checkpoints and leaves every page in its volume. */
  lemma CompactionClears(b: Built, edited: map<SegmentKey, Segment>, placed: map<MemberKey, Member>,
                         edits: set<PageKey>, source: Source)
    requires b.Configured() && CameFrom(b, edited, placed, edits, source)
    ensures b.Cleared()
  {
    hide Built.Configured, At, View;
    forall key, relative | relative in b.View(key) ensures b.View(key)[relative].ref !in b.rewriting {
      assert Moved(b.store, b.members, b.base.ref, b.rewriting, View(b.store, b.base, edited, key), b.View(key));
      assert Own(b.base.ref, b.rewriting) by { OwnIn(b); }
      assert MovedAt(b.store, b.members, b.base.ref, b.rewriting, View(b.store, b.base, edited, key)[relative],
                     b.View(key)[relative]);
    }
    forall volume, page: nat | volume in b.base.volumes
      ensures var v := b.base.volumes[volume];
              v.geometry.Supported() && At(b.store, b.base, b.working, volume, page).Some? ==>
                page < v.geometry.PageCount(v.size)
    {
      MovedPage(b, edited, volume, page);
      EditedIsSound(b, edited, placed, edits, source, PageKey(volume, page));
    }
  }

  lemma OwnIn(b: Built)
    requires b.Configured()
    ensures Own(b.base.ref, b.rewriting)
  {
  }

  /** Reading any page of the published root gives the source's bytes where it was edited, and the parent's otherwise,
      whatever compaction moved. */
  lemma MeaningPreserved(b: Built, edited: map<SegmentKey, Segment>, placed: map<MemberKey, Member>,
                         edits: set<PageKey>, source: Source, page: PageKey)
    requires b.Finished() && CameFrom(b, edited, placed, edits, source) && page.volume in b.base.volumes
    ensures b.parent.Some? && page.volume in b.parent.value.volumes ==>
              b.parent.value.volumes[page.volume].geometry.Supported()
    ensures PageAt(b.Left(), b.Root(), page.volume, page.page)
            == Expected(b.store, b.parent, b.base.volumes, b.base.ref, edits, source, page)
  {
    hide Built.Tabled, Built.Cleared, Built.Settled, WellFormed, Inherited, Emptied, Fresh, Moved, At, View;
    RootReadsPage(b, page.volume, page.page);
    MovedPage(b, edited, page.volume, page.page);
    EditedIsSound(b, edited, placed, edits, source, page);
    var was := At(b.store, b.base, edited, page.volume, page.page);
    var now := At(b.store, b.base, b.working, page.volume, page.page);
    ParentSupported(b);
    if was.Some? {
      MovedReadsSame(b.store, b.parent, placed, b.members, b.base.ref, b.rewriting, was.value, now.value);
    }
    if page !in edits {
      KeptIsReadable(b, page.volume, page.page);
      KeptReadsParent(b, page.volume, page.page);
      if was.Some? { NotPlaced(b, placed, was.value); }
    }
  }

  lemma ParentSupported(b: Built)
    requires b.Configured()
    ensures b.parent.Some? ==>
              forall volume :: volume in b.parent.value.volumes ==> b.parent.value.volumes[volume].geometry.Supported()
  {
  }

  lemma NotPlaced(b: Built, placed: map<MemberKey, Member>, at: Location)
    requires Grown(placed, b.members) && (forall key :: key in b.members ==> key.ref == b.base.ref)
    requires at.ref != b.base.ref && at.Key() in b.store.parts
    ensures DataAt(b.store, placed, at) == b.store.parts[at.Key()].data
  {
    assert at.Key() in placed ==> at.Key() in b.members;
  }

  lemma KeptReadsParent(b: Built, volume: string, page: nat)
    requires b.Configured() && volume in b.base.volumes
    ensures b.base.volumes[volume].geometry.Supported()
    ensures var v := b.base.volumes[volume];
            var at := KeptAt(b.store, b.parent, b.base.volumes, volume, page);
            if at.Some?
            then PageAt(b.store, b.parent.value, volume, page) ==
                 Some(Page(at.value.origin, b.store.parts[at.value.Key()].data))
            else b.parent.Some? && volume in b.parent.value.volumes && page < v.geometry.PageCount(v.size) ==>
                 PageAt(b.store, b.parent.value, volume, page) == None
  {
    hide Inherited, Emptied, Geometry.SegmentOf, Geometry.OffsetIn, Geometry.PageCount;
    ParentSupported(b);
    KeptIsReadable(b, volume, page);
  }

  /** A page the replaced view reads and this checkpoint neither edited nor cut off still has the part it lies in named:
      it stayed where it was, or its checkpoint is kept, emptied, for this one generation. */
  lemma ReplacedViewStaysNamed(b: Built, edited: map<SegmentKey, Segment>, placed: map<MemberKey, Member>,
                               edits: set<PageKey>, source: Source, page: PageKey)
    requires b.Finished() && CameFrom(b, edited, placed, edits, source)
    requires page.volume in b.base.volumes && page !in edits
    ensures var at := KeptAt(b.store, b.parent, b.base.volumes, page.volume, page.page);
            at.Some? ==> at.value.ref in Named(b.Root())
  {
    hide Built.Tabled, Built.Cleared, Built.Settled, WellFormed, Inherited, Emptied, Fresh, Moved, At, View;
    var at := KeptAt(b.store, b.parent, b.base.volumes, page.volume, page.page);
    if at.Some? {
      KeptIsReadable(b, page.volume, page.page);
      MovedPage(b, edited, page.volume, page.page);
      RootNames(b);
      if at.value.ref !in b.rewriting {
        RootReadsPage(b, page.volume, page.page);
        LocatedIsNamed(b, page.volume, page.page);
      }
    }
  }

  lemma LocatedIsNamed(b: Built, volume: string, page: nat)
    requires b.Finished() && volume in b.base.volumes
    ensures b.base.volumes[volume].geometry.Supported()
    ensures var at := At(b.store, b.base, b.working, volume, page); at.Some? ==> at.value.ref in Named(b.Root())
  {
    hide Built.Tabled, Built.Cleared, Built.Settled, WellFormed, Inherited, Emptied, Fresh;
    hide Geometry.SegmentOf, Geometry.OffsetIn, Sound, ReadCheckpoints;
    var g := b.base.volumes[volume].geometry;
    var at := At(b.store, b.base, b.working, volume, page);
    if at.Some? {
      PageReadable(b, KeyOf(g, volume, page), g.OffsetIn(page));
      PageIsRead(b, KeyOf(g, volume, page), g.OffsetIn(page));
      LocationReadable(b, at.value);
    }
  }

  /** What every publication leaves: an unchanged store but for its own objects, a self-consistent root of the new
      volumes that names nothing new but itself, every page reading as it must, and every part of the replaced view
      that a reader of it may still need named. */
  ghost predicate Committed(store: Store, parent: Option<Index>, volumes: map<string, Volume>, ref: Ref,
                            edits: set<PageKey>, source: Source, index: Index, left: Store)
  {
    && Extends(store, left) && AddsOnly(store, left, ref)
    && index.ref == ref && index.volumes == volumes
    && WellFormed(left, index)
    && Named(index) <= {ref} + (if parent.Some? then Named(parent.value) else {})
    && (parent.Some? ==>
          forall volume :: volume in parent.value.volumes ==> parent.value.volumes[volume].geometry.Supported())
    && (forall page: PageKey :: page.volume in volumes ==>
          PageAt(left, index, page.volume, page.page) == Expected(store, parent, volumes, ref, edits, source, page))
    && (forall page: PageKey :: page.volume in volumes && page !in edits ==>
          var at := KeptAt(store, parent, volumes, page.volume, page.page);
          at.Some? ==> at.value.ref in Named(index))
  }

  /** Writing the segments and counting the parts finishes a publication. */
  lemma Finishes(b: Built, tables: map<SegmentAddress, Segment>, segments: map<SegmentKey, SegmentEntry>,
                 cost: CheckpointCost, edited: map<SegmentKey, Segment>, placed: map<MemberKey, Member>,
                 edits: set<PageKey>, source: Source)
    requires b.Configured() && b.Tabled() && CameFrom(b, edited, placed, edits, source)
    requires b.(tables := tables, segments := segments, cost := cost).Settled()
    ensures var done := b.(tables := tables, segments := segments, cost := cost);
            done.Finished() && CameFrom(done, edited, placed, edits, source)
  {
    hide WellFormed, Fresh, Inherited, Emptied, Worked, Moved, Edited, KeptAt, At, Written;
    var done := b.(tables := tables, segments := segments, cost := cost);
    forall page: PageKey | page.volume in b.base.volumes
      ensures EditedPage(done, edited, placed, edits, source, page)
    {
      assert EditedPage(b, edited, placed, edits, source, page);
    }
    CompactionClears(done, edited, placed, edits, source);
  }

  lemma LeftAdds(b: Built)
    requires b.Settled()
    ensures AddsOnly(b.store, b.Left(), b.base.ref)
  {
    hide Written, Sound;
  }

  lemma FinishedIsCommitted(b: Built, edited: map<SegmentKey, Segment>, placed: map<MemberKey, Member>,
                            edits: set<PageKey>, source: Source)
    requires b.Finished() && CameFrom(b, edited, placed, edits, source)
    ensures Committed(b.store, b.parent, b.base.volumes, b.base.ref, edits, source, b.Root(), b.Left())
  {
    hide Built.Tabled, Built.Cleared, Built.Settled, WellFormed, Fresh, Inherited, Emptied, CameFrom, Expected, KeptAt;
    hide PageAt;
    LeftExtends(b);
    LeftAdds(b);
    RootWellFormed(b);
    RootNames(b);
    ParentSupported(b);
    forall page: PageKey | page.volume in b.base.volumes
      ensures PageAt(b.Left(), b.Root(), page.volume, page.page)
              == Expected(b.store, b.parent, b.base.volumes, b.base.ref, edits, source, page)
    {
      MeaningPreserved(b, edited, placed, edits, source, page);
    }
    forall page: PageKey | page.volume in b.base.volumes && page !in edits
      ensures var at := KeptAt(b.store, b.parent, b.base.volumes, page.volume, page.page);
              at.Some? ==> at.value.ref in Named(b.Root())
    {
      ReplacedViewStaysNamed(b, edited, placed, edits, source, page);
    }
  }

  /** A root made of legal parts is legal: its entries are its own and its parent's, and so are its segments. */
  lemma RootIsLegal(ids: Identities, b: Built)
    requires b.Finished() && (b.parent.Some? ==> Legal(ids, b.parent.value)) && ids(b.base.ref.vm)
    requires LegalVolumes(b.base.volumes) && b.base.vcpus <= MAXIMUM_VCPUS
    requires forall at :: at in b.tables ==> AddressOk(at)
    requires b.Root().state.Some? ==>
               ids(b.Root().state.value.origin.vm) && b.Root().state.value.origin.sequence != 0
    ensures Legal(ids, b.Root())
  {
    hide AddressOk, LegalVolumes, Built.Tabled, Built.Cleared, WellFormed, Inherited, Fresh, Emptied, ReadsOf;
    RootNames(b);
    forall key | key in b.segments ensures AddressOk(b.segments[key].at) {
      assert Written(b.base.segments, b.segments, b.tables, b.base.ref, b.dirty, b.working, key);
      if key in b.base.segments { InheritedEntry(b, key); }
    }
  }

  /** The state the root names is the one that was settled. */
  lemma RootState(b: Built)
    requires b.Finished()
    ensures StateAt(b.Left(), b.Root()) ==
            if b.base.state.Some?
            then Some(Page(b.base.state.value.origin, DataAt(b.store, b.members, b.base.state.value)))
            else None
  {
    hide Built.Configured, Built.Tabled, Built.Cleared, Sound, Written;
    if b.base.state.Some? { SoundIsThere(b, b.base.state.value); }
  }

  /** The checkpoints a compaction rewrote stay named for one generation, marked emptied by it. */
  lemma RewrittenAreEmptied(b: Built, ref: Ref)
    requires b.Finished() && ref in b.rewriting && ref in b.ParentNames()
    ensures ref.vm == b.base.ref.vm && ref != b.base.ref
    ensures ref in b.Root().checkpoints && b.Root().checkpoints[ref].emptied == b.base.ref.sequence
  {
    hide Built.Tabled, Built.Cleared, Built.Settled, WellFormed, Fresh, Inherited;
    RootNames(b);
  }
}
