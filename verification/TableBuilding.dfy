/** The page table a publication builds over its parent's, as values: what each phase
does to it, and what the root that is written reads afterwards.
*/
module TableBuilding {
  import opened Refs
  import opened Geometries
  import opened Roots
  import opened PartWriters
  import opened Liveness

  /** The contents of a page as of the checkpoint: volume, page and length, None where the read fails. */
  type Source = (string, nat, nat) -> Option<seq<Byte>>

  /** A source reads a page into a buffer of the page's bytes, and fills it. */
  ghost predicate Fills(source: Source) {
    forall volume, page, bytes :: source(volume, page, bytes).Some? ==> |source(volume, page, bytes).value| == bytes
  }

  // ------------------------------------------------------------------ zero pages

  ghost predicate AllZero(data: seq<Byte>) { forall i :: 0 <= i < |data| ==> data[i] == 0 }

  /** isZero: the first byte is zero, and the page equals itself shifted by a byte. */
  predicate IsZero(data: seq<Byte>) {
    |data| == 0 || (data[0] == 0 && data[1..] == data[..|data| - 1])
  }

  lemma {:induction false} ShiftedEqualIsConstant(data: seq<Byte>, i: nat)
    requires i < |data| && data[1..] == data[..|data| - 1]
    ensures data[i] == data[0]
  {
    if i > 0 {
      ShiftedEqualIsConstant(data, i - 1);
      assert data[1..][i - 1] == data[..|data| - 1][i - 1];
    }
  }

  /** Comparing the page with itself shifted finds exactly the pages of zeroes. */
  lemma IsZeroMeansAllZero(data: seq<Byte>)
    ensures IsZero(data) <==> AllZero(data)
  {
    if IsZero(data) {
      forall i | 0 <= i < |data| ensures data[i] == 0 { ShiftedEqualIsConstant(data, i); }
    }
    if AllZero(data) && |data| > 0 {
      assert data[1..] == data[..|data| - 1];
    }
  }

  // ------------------------------------------------------- the table being built

  /** A segment of the table being built: the working copy, or what the root still addresses. */
  ghost function View(store: Store, index: Index, working: map<SegmentKey, Segment>, key: SegmentKey): Segment {
    if key in working then working[key] else TableOf(store, index, key)
  }

  ghost function KeyOf(g: Geometry, volume: string, page: nat): SegmentKey
    requires g.Supported()
  {
    SegmentKey(volume, g.SegmentOf(page))
  }

  /** Where the table being built says one page lives. */
  ghost function At(store: Store, index: Index, working: map<SegmentKey, Segment>, volume: string, page: nat)
    : Option<Location>
    requires volume in index.volumes && index.volumes[volume].geometry.Supported()
  {
    var g := index.volumes[volume].geometry;
    var pages := View(store, index, working, KeyOf(g, volume, page));
    if g.OffsetIn(page) in pages then Some(pages[g.OffsetIn(page)]) else None
  }

  /** Where a page lives before any edit: where the parent has it, unless the new size cut it off. */
  ghost function KeptAt(store: Store, parent: Option<Index>, volumes: map<string, Volume>, volume: string, page: nat)
    : Option<Location>
    requires volume in volumes && volumes[volume].geometry.Supported()
  {
    if parent.Some? && volume in parent.value.volumes && parent.value.volumes[volume].geometry.Supported()
       && page < volumes[volume].geometry.PageCount(volumes[volume].size)
    then Locate(store, parent.value, volume, page)
    else None
  }

  lemma SplitUnique(g: Geometry, page: nat)
    requires g.Supported()
    ensures forall other: nat {:trigger g.OffsetIn(other)} ::
              g.SegmentOf(other) == g.SegmentOf(page) && g.OffsetIn(other) == g.OffsetIn(page) ==> other == page
  {
    SegmentSplit(g, page);
    forall other: nat | g.SegmentOf(other) == g.SegmentOf(page) && g.OffsetIn(other) == g.OffsetIn(page)
      ensures other == page
    {
      SegmentSplit(g, other);
    }
  }

  /** Changing one entry of one segment moves one page and no other. */
  lemma OnlyOnePage(store: Store, index: Index, before: map<SegmentKey, Segment>, after: map<SegmentKey, Segment>,
                    page: PageKey)
    requires forall volume :: volume in index.volumes ==> index.volumes[volume].geometry.Supported()
    requires page.volume in index.volumes
    requires var g := index.volumes[page.volume].geometry; var key := KeyOf(g, page.volume, page.page);
             && (forall other :: other != key ==> View(store, index, before, other) == View(store, index, after, other))
             && (var was, now := View(store, index, before, key), View(store, index, after, key);
                 forall r :: r != g.OffsetIn(page.page) ==> (r in now <==> r in was) && (r in now ==> now[r] == was[r]))
    ensures forall volume, number :: volume in index.volumes && PageKey(volume, number) != page ==>
              At(store, index, before, volume, number) == At(store, index, after, volume, number)
  {
    hide Geometry.SegmentOf, Geometry.OffsetIn, View;
    var g := index.volumes[page.volume].geometry;
    SplitUnique(g, page.page);
    forall volume, number | volume in index.volumes && PageKey(volume, number) != page
      ensures At(store, index, before, volume, number) == At(store, index, after, volume, number)
    {
      if KeyOf(index.volumes[volume].geometry, volume, number) == KeyOf(g, page.volume, page.page) {
        assert g.OffsetIn(number) != g.OffsetIn(page.page);
      }
    }
  }

  /** A location the new root will be able to read: one of its own members, or one its parent reads. */
  ghost predicate Sound(store: Store, parent: Option<Index>, members: map<MemberKey, Member>, ref: Ref, at: Location) {
    if at.ref == ref
    then
      && at.Key() in members
      && members[at.Key()].length == at.length > 0
      && at.origin.vm == ref.vm
    else parent.Some? && Readable(store, parent.value.checkpoints, at)
  }

  /** A member is no longer than a page of its volume. */
  ghost predicate Fits(store: Store, members: map<MemberKey, Member>, ref: Ref, at: Location, pageSize: nat) {
    if at.ref == ref then at.Key() in members ==> |members[at.Key()].data| <= pageSize
    else at.Key() in store.parts ==> |store.parts[at.Key()].data| <= pageSize
  }

  /** The bytes of a location, in the parent's objects or in the parts being written. */
  ghost function DataAt(store: Store, members: map<MemberKey, Member>, at: Location): seq<Byte> {
    if at.Key() in members then members[at.Key()].data
    else if at.Key() in store.parts then store.parts[at.Key()].data
    else []
  }

  /** Nothing in the store was written under a reference before. */
  ghost predicate Fresh(store: Store, parent: Option<Index>, ref: Ref) {
    && (forall at :: at in store.tables ==> at.ref != ref)
    && (forall key :: key in store.parts ==> key.ref != ref)
    && (parent.Some? ==> ref !in parent.value.checkpoints)
  }

  /** inherit: the parent's entries, less the segments a smaller size cut off whole. */
  function Inherited(parent: Option<Index>, volumes: map<string, Volume>): map<SegmentKey, SegmentEntry>
    requires forall volume :: volume in volumes ==> volumes[volume].geometry.Supported()
  {
    if parent.None? then map[]
    else
      map key | key in parent.value.segments && key.volume in volumes && key.volume in parent.value.volumes &&
                key.number < volumes[key.volume].geometry.SegmentCount(volumes[key.volume].size)
              :: parent.value.segments[key]
  }

  /** What holds of a working copy: in a volume checkpoints hold, of pages a root may read; as the root addresses
      it until it changes; and of this checkpoint's own pages alone where the parent has no such segment. */
  ghost predicate Worked(store: Store, parent: Option<Index>, index: Index, members: map<MemberKey, Member>,
                         key: SegmentKey, pages: Segment, changed: bool)
  {
    && key.volume in index.volumes && !index.volumes[key.volume].ephemeral
    && (forall relative :: relative in pages ==>
          && relative < index.volumes[key.volume].geometry.segmentPages
          && Sound(store, parent, members, index.ref, pages[relative])
          && Fits(store, members, index.ref, pages[relative], index.volumes[key.volume].geometry.pageSize))
    && (!changed ==> pages == TableOf(store, index, key))
    && (key !in index.segments ==> forall relative :: relative in pages ==> pages[relative].ref == index.ref)
  }

  /** A changed segment is not what its root addresses: a page of that is gone, or it has one of this checkpoint's. */
  ghost predicate Differs(store: Store, index: Index, key: SegmentKey, pages: Segment) {
    exists relative :: DiffersAt(TableOf(store, index, key), pages, index.ref, relative)
  }

  ghost predicate DiffersAt(was: Segment, pages: Segment, ref: Ref, relative: nat) {
    (relative in was && relative !in pages) || (relative in pages && pages[relative].ref == ref)
  }

  lemma WorkedGrows(store: Store, parent: Option<Index>, index: Index, before: map<MemberKey, Member>,
                    after: map<MemberKey, Member>, key: SegmentKey, pages: Segment, changed: bool)
    requires Worked(store, parent, index, before, key, pages, changed) && Grown(before, after)
    ensures Worked(store, parent, index, after, key, pages, changed)
  {
  }

  /** An edited page: of the source's bytes under the new checkpoint's identity, or a hole where they are all zero. */
  ghost predicate Edited(volumes: map<string, Volume>, source: Source, members: map<MemberKey, Member>, ref: Ref,
                         page: PageKey, at: Option<Location>)
    requires page.volume in volumes && volumes[page.volume].geometry.Supported()
  {
    var span := volumes[page.volume].geometry.PageSpan(volumes[page.volume].size, page.page);
    var data := source(page.volume, page.page, span);
    && span > 0
    && data.Some?
    && (if AllZero(data.value) then at == None else at.Some? && Placed(members, ref, ref, data.value, at.value))
  }

  /** A page lies in its volume and its source can be read. */
  predicate CanEdit(volumes: map<string, Volume>, source: Source, page: PageKey)
    requires page.volume in volumes && volumes[page.volume].geometry.Supported()
  {
    var span := volumes[page.volume].geometry.PageSpan(volumes[page.volume].size, page.page);
    span > 0 && source(page.volume, page.page, span).Some?
  }

  lemma EditedGrows(volumes: map<string, Volume>, source: Source, before: map<MemberKey, Member>,
                    after: map<MemberKey, Member>, ref: Ref, page: PageKey, at: Option<Location>)
    requires page.volume in volumes && volumes[page.volume].geometry.Supported()
    requires Edited(volumes, source, before, ref, page, at) && Grown(before, after)
    ensures Edited(volumes, source, after, ref, page, at)
  {
  }

  /** What compaction does to one segment: every page of a rewritten checkpoint is this checkpoint's member of the same
      bytes under the same identity, and every other page stays where it is. */
  ghost predicate Moved(store: Store, members: map<MemberKey, Member>, ref: Ref, rewriting: set<Ref>,
                        before: Segment, after: Segment)
  {
    && before.Keys == after.Keys
    && (forall relative :: relative in before ==>
        MovedAt(store, members, ref, rewriting, before[relative], after[relative]))
  }

  ghost predicate MovedAt(store: Store, members: map<MemberKey, Member>, ref: Ref, rewriting: set<Ref>,
                          before: Location, after: Location)
  {
    if before.ref in rewriting
    then before.Key() in store.parts && Placed(members, ref, before.origin, store.parts[before.Key()].data, after)
    else after == before
  }

  lemma {:induction false} NothingRead(pages: Segment, ref: Ref)
    requires forall relative :: relative in pages ==> pages[relative].ref != ref
    ensures BytesIn(pages, ref) == 0
    decreases |pages|
  {
    if pages != map[] {
      var relative :| relative in pages;
      BytesInRemove(pages, relative, ref);
      NothingRead(pages - {relative}, ref);
    }
  }

  lemma MovedGrows(store: Store, before: map<MemberKey, Member>, after: map<MemberKey, Member>, ref: Ref,
                   rewriting: set<Ref>, was: Segment, now: Segment)
    requires Moved(store, before, ref, rewriting, was, now) && Grown(before, after)
    ensures Moved(store, after, ref, rewriting, was, now)
  {
  }

  /** A segment with no page in a rewritten checkpoint is left as it is. */
  lemma MovedNothing(store: Store, members: map<MemberKey, Member>, ref: Ref, rewriting: set<Ref>, pages: Segment)
    requires forall relative :: relative in pages ==> pages[relative].ref !in rewriting
    ensures Moved(store, members, ref, rewriting, pages, pages)
  {
  }

  /** The checkpoints a compaction may empty: its own VM's, and not the one being published. */
  ghost predicate Own(ref: Ref, rewriting: set<Ref>) {
    forall other :: other in rewriting ==> other.vm == ref.vm && other != ref
  }

  /** What a compaction moves out of a segment is in the store, and no longer than a page. */
  lemma MovesPages(store: Store, parent: Option<Index>, index: Index, members: map<MemberKey, Member>,
                   rewriting: set<Ref>, key: SegmentKey, pages: Segment, changed: bool)
    requires Worked(store, parent, index, members, key, pages, changed) && Own(index.ref, rewriting)
    requires index.volumes[key.volume].geometry.Supported()
    ensures forall relative :: relative in pages && pages[relative].ref in rewriting ==>
              pages[relative].Key() in store.parts && |store.parts[pages[relative].Key()].data| <= PAGE_SIZE_2MIB
  {
    forall relative | relative in pages && pages[relative].ref in rewriting
      ensures pages[relative].Key() in store.parts && |store.parts[pages[relative].Key()].data| <= PAGE_SIZE_2MIB
    {
      assert Sound(store, parent, members, index.ref, pages[relative]);
    }
  }

  lemma MovedWorked(store: Store, parent: Option<Index>, index: Index, members: map<MemberKey, Member>,
                    rewriting: set<Ref>, key: SegmentKey, before: Segment, after: Segment, changed: bool)
    requires Worked(store, parent, index, members, key, before, changed) && key in index.segments
    requires Moved(store, members, index.ref, rewriting, before, after) && Own(index.ref, rewriting)
    ensures Worked(store, parent, index, members, key, after, true)
  {
    forall relative | relative in after
      ensures Sound(store, parent, members, index.ref, after[relative])
      ensures Fits(store, members, index.ref, after[relative], index.volumes[key.volume].geometry.pageSize)
    {
      assert Sound(store, parent, members, index.ref, before[relative]);
      assert MovedAt(store, members, index.ref, rewriting, before[relative], after[relative]);
    }
  }

  lemma DiffersStill(store: Store, index: Index, next: Index, key: SegmentKey, pages: Segment)
    requires SameTables(index, next) && Differs(store, index, key, pages)
    ensures Differs(store, next, key, pages)
  {
    assert TableOf(store, next, key) == TableOf(store, index, key);
  }

  lemma MovedDiffers(store: Store, index: Index, members: map<MemberKey, Member>, rewriting: set<Ref>, key: SegmentKey,
                     before: Segment, after: Segment, relative: nat)
    requires Moved(store, members, index.ref, rewriting, before, after)
    requires relative in before && before[relative].ref in rewriting
    ensures Differs(store, index, key, after)
  {
    assert MovedAt(store, members, index.ref, rewriting, before[relative], after[relative]);
    assert DiffersAt(TableOf(store, index, key), after, index.ref, relative);
  }

  /** A sound location in a checkpoint being rewritten is in the store. */
  lemma MovedIsStored(store: Store, parent: Option<Index>, members: map<MemberKey, Member>, ref: Ref,
                      rewriting: set<Ref>,
                      at: Location)
    requires Sound(store, parent, members, ref, at) && Own(ref, rewriting) && at.ref in rewriting
    ensures at.Key() in store.parts
  {
  }

  /** The entries of a root with the rewritten checkpoints marked emptied by this one. */
  function Emptied(checkpoints: map<Ref, CheckpointCost>, rewriting: set<Ref>, sequence: nat): map<Ref, CheckpointCost>
  {
    map ref | ref in checkpoints ::
      if ref in rewriting then checkpoints[ref].(emptied := sequence) else checkpoints[ref]
  }

  /** A compaction moves what a table and its state read out of some checkpoints, and records them emptied. */
  ghost predicate Compacts(store: Store, members: map<MemberKey, Member>, rewriting: set<Ref>, before: Index,
                           held: map<SegmentKey, Segment>, after: Index, working: map<SegmentKey, Segment>)
  {
    && after ==
      before.(checkpoints := Emptied(before.checkpoints, rewriting, before.ref.sequence), state := after.state)
    && (forall key :: Moved(store, members, before.ref, rewriting, View(store, before, held, key),
                            View(store, after, working, key)))
    && (after.state.Some? <==> before.state.Some?)
    && (after.state.Some? ==>
          MovedAt(store, members, before.ref, rewriting, before.state.value, after.state.value))
  }

  /** Emptying no checkpoint moves nothing. */
  lemma CompactsNothing(store: Store, members: map<MemberKey, Member>, index: Index, working: map<SegmentKey, Segment>)
    ensures Compacts(store, members, {}, index, working, index, working)
  {
    hide Moved, View;
    assert Emptied(index.checkpoints, {}, index.ref.sequence) == index.checkpoints;
    forall key
      ensures Moved(store, members, index.ref, {}, View(store, index, working, key), View(store, index, working, key))
    {
      MovedNothing(store, members, index.ref, {}, View(store, index, working, key));
    }
  }

  /** Two roots that address the same segments of the same volumes. */
  ghost predicate SameTables(a: Index, b: Index) {
    a.ref == b.ref && a.volumes == b.volumes && a.segments == b.segments
  }

  /** reads: what the root records for a segment. */
  method Reads(pages: Segment) returns (uses: seq<CheckpointUse>)
    ensures uses == ReadsOf(pages)
  {
    hide BytesIn, SortedRefs, RefsOf;
    var bytes := AddPages(map[], pages);
    assert forall ref :: Get(bytes, ref) == BytesIn(pages, ref);
    var refs := SortedRefs(RefsOf(pages));
    uses := seq(|refs|, i requires 0 <= i < |refs| => CheckpointUse(refs[i], Get(bytes, refs[i])));
  }

  /** What writing the changed segments leaves the root saying of one of them. */
  ghost predicate Written(before: map<SegmentKey, SegmentEntry>, after: map<SegmentKey, SegmentEntry>,
                          tables: map<SegmentAddress, Segment>, ref: Ref, dirty: set<SegmentKey>,
                          working: map<SegmentKey, Segment>, key: SegmentKey)
  {
    if key in dirty && key in working then
      if working[key] == map[] then key !in after
      else
        && key in after
        && after[key].at.ref == ref
        && after[key].at in tables
        && tables[after[key].at] == working[key]
        && after[key].uses == ReadsOf(working[key])
    else
      && (key in after <==> key in before)
      && (key in after ==> after[key] == before[key])
  }

  lemma NoneWritten(segments: map<SegmentKey, SegmentEntry>, tables: map<SegmentAddress, Segment>, ref: Ref,
                    working: map<SegmentKey, Segment>)
    ensures forall key :: Written(segments, segments, tables, ref, {}, working, key)
  {
  }

  /** One more changed segment is written at a new address, or loses its entry. */
  lemma OneMoreWritten(before: map<SegmentKey, SegmentEntry>, after: map<SegmentKey, SegmentEntry>,
                       tables: map<SegmentAddress, Segment>, ref: Ref, dirty: set<SegmentKey>,
                       working: map<SegmentKey, Segment>, key: SegmentKey, at: SegmentAddress)
    returns (next: map<SegmentKey, SegmentEntry>, stored: map<SegmentAddress, Segment>)
    requires key in working && at !in tables && at.ref == ref
    requires forall other :: Written(before, after, tables, ref, dirty, working, other)
    ensures next == if working[key] == map[] then after - {key}
                    else after[key := SegmentEntry(at, ReadsOf(working[key]))]
    ensures stored == if working[key] == map[] then tables else tables[at := working[key]]
    ensures forall other :: Written(before, next, stored, ref, dirty + {key}, working, other)
  {
    hide ReadsOf;
    var entry := SegmentEntry(at, ReadsOf(working[key]));
    next := if working[key] == map[] then after - {key} else after[key := entry];
    stored := if working[key] == map[] then tables else tables[at := working[key]];
    forall other ensures Written(before, next, stored, ref, dirty + {key}, working, other) {
      assert Written(before, after, tables, ref, dirty, working, other);
    }
  }

  // ------------------------------------------------------------ what it must read

  /** What a page of the published checkpoint must read as: the source's bytes under the new identity where it was
      edited, a hole where those are zeroes, and otherwise what the parent reads, up to the new size. */
  ghost function Expected(store: Store, parent: Option<Index>, volumes: map<string, Volume>, ref: Ref,
                          edits: set<PageKey>, source: Source, page: PageKey): Option<Page>
    requires page.volume in volumes && volumes[page.volume].geometry.Supported()
    requires parent.Some? && page.volume in parent.value.volumes ==>
               parent.value.volumes[page.volume].geometry.Supported()
  {
    var v := volumes[page.volume];
    if page in edits then
      var data := source(page.volume, page.page, v.geometry.PageSpan(v.size, page.page));
      if data.Some? && !AllZero(data.value) then Some(Page(ref, data.value)) else None
    else if parent.Some? && page.volume in parent.value.volumes && page.page < v.geometry.PageCount(v.size) then
      PageAt(store, parent.value, page.volume, page.page)
    else None
  }

  /** What the VMM state of the published checkpoint must be. */
  ghost function ExpectedState(store: Store, parent: Option<Index>, ref: Ref, state: Option<seq<Byte>>, drop: bool)
    : Option<Page>
  {
    if state.Some? then Some(Page(ref, state.value))
    else if drop || parent.None? then None
    else StateAt(store, parent.value)
  }

  ghost function StateAt(store: Store, index: Index): Option<Page> {
    if index.state.Some? && index.state.value.Key() in store.parts
    then Some(Page(index.state.value.origin, store.parts[index.state.value.Key()].data))
    else None
  }

  /** A moved location reads as the one it was moved from. */
  lemma MovedReadsSame(store: Store, parent: Option<Index>, before: map<MemberKey, Member>,
                       after: map<MemberKey, Member>, ref: Ref, rewriting: set<Ref>, was: Location, now: Location)
    requires Sound(store, parent, before, ref, was) && Grown(before, after) && Own(ref, rewriting)
    requires MovedAt(store, after, ref, rewriting, was, now)
    requires forall key :: key in after ==> key.ref == ref
    ensures now.origin == was.origin && DataAt(store, after, now) == DataAt(store, before, was)
    ensures Sound(store, parent, after, ref, now) && now.ref !in rewriting
  {
  }

  /** A sound location stays sound, and reads the same, while members are added. */
  lemma SoundGrows(store: Store, parent: Option<Index>, before: map<MemberKey, Member>, after: map<MemberKey, Member>,
                   ref: Ref, at: Location)
    requires Sound(store, parent, before, ref, at) && Grown(before, after)
    requires forall key :: key in after ==> key.ref == ref
    ensures Sound(store, parent, after, ref, at) && DataAt(store, after, at) == DataAt(store, before, at)
  {
  }

  lemma SameTablesRead(store: Store, a: Index, b: Index, working: map<SegmentKey, Segment>)
    requires SameTables(a, b)
    requires forall volume :: volume in a.volumes ==> a.volumes[volume].geometry.Supported()
    ensures forall key :: View(store, a, working, key) == View(store, b, working, key)
    ensures forall volume, page :: volume in a.volumes ==>
              At(store, a, working, volume, page) == At(store, b, working, volume, page)
  {
    hide Geometry.SegmentOf, Geometry.OffsetIn;
  }
}
