/** What a publication was asked for, and all it can come to.

A request says what is to be published over what. Which checkpoints the compaction
empties, where every page then lies, which segments change and how long the index object
becomes are said here in terms of the request alone: the phases of a commit are not
mentioned. Members may be placed in any order, so a request allows more than one outcome;
what it allows is finite, and a request all of whose outcomes are within their bounds is
small.
*/
module Requests {
  import opened Refs
  import opened Geometries
  import opened Roots
  import opened Sums
  import opened PartWriters
  import opened Liveness
  import opened TableBuilding
  import opened Sealing

  datatype Request = Request(
    store: Store,
    parent: Option<Index>,
    ref: Ref,
    volumes: map<string, Volume>,
    edits: set<PageKey>,
    protect: set<Ref>,
    state: Option<seq<Byte>>,
    dropState: bool,
    vcpus: nat,
    nested: bool)
  {
    ghost predicate Supported() { forall volume :: volume in volumes ==> volumes[volume].geometry.Supported() }

    /** The parent can be read, keeps its volumes, and was published under another reference. */
    ghost predicate Based() {
      && Supported()
      && (parent.Some? ==> WellFormed(store, parent.value))
      && Fresh(store, parent, ref)
      && (parent.Some? ==>
            forall volume :: volume in parent.value.volumes ==>
              && volume in volumes
              && volumes[volume].geometry == parent.value.volumes[volume].geometry
              && volumes[volume].ephemeral == parent.value.volumes[volume].ephemeral)
    }

    function Names(): map<Ref, CheckpointCost> { if parent.Some? then parent.value.checkpoints else map[] }

    /** The state kept of the parent. */
    function Inheriting(): Option<Location> {
      if state.None? && !dropState && parent.Some? then parent.value.state else None
    }

    /** What compaction must leave alone: each protected checkpoint and every one its index names. */
    function Spared(): set<Ref> {
      set kept, other | kept in protect && kept in store.roots && other in {kept} + Named(store.roots[kept]) :: other
    }

    /** A page of the parent that is neither cut off nor edited. */
    ghost predicate Keeps(key: SegmentKey, relative: nat)
      requires key.volume in volumes && volumes[key.volume].geometry.Supported()
    {
      var v := volumes[key.volume];
      var page := v.geometry.SegmentBase(key.number) + relative;
      page < v.geometry.PageCount(v.size) && PageKey(key.volume, page) !in edits
    }

    ghost function KeptIn(key: SegmentKey): Segment
      requires parent.Some? && key.volume in volumes && volumes[key.volume].geometry.Supported()
    {
      var table := TableOf(store, parent.value, key);
      map relative | relative in table && Keeps(key, relative) :: table[relative]
    }

    /** Every page of the parent that the publication leaves as it is. */
    ghost function Kept(): map<SegmentKey, Segment>
      requires Supported()
    {
      map key | key in Inherited(parent, volumes) :: KeptIn(key)
    }

    /** What the published checkpoint reads from each one its parent names, before any compaction. */
    ghost function LiveBytes(): map<Ref, nat>
      requires Supported()
    {
      map other | other in Names() ::
        SumBytes(Kept(), other) + if Inheriting().Some? then Weight(Inheriting().value, other) else 0
    }

    /** The most members that may be written: the edits, every kept page and a state. */
    ghost function MemberBound(): nat
      requires Supported()
    {
      1 + |edits| + Sum(Sizes(Kept()))
    }

    /** The segments that may be written: those the parent has, and those of the edits. */
    ghost function Touchable(): set<SegmentKey>
      requires Supported()
    {
      Inherited(parent, volumes).Keys +
      set page | page in edits && page.volume in volumes :: KeyOf(volumes[page.volume].geometry, page.volume, page.page)
    }
  }

  ghost function Sizes(views: map<SegmentKey, Segment>): map<SegmentKey, nat> { map key | key in views :: |views[key]| }

  // -------------------------------------------------------------- where pages lie

  /** Where a page lies at the end: an edited one in this checkpoint's parts or nowhere, a kept one where it was, unless
      its checkpoint was emptied. */
  ghost predicate PageLaid(r: Request, source: Source, b: Built, page: PageKey)
    requires r.Supported() && b.base.volumes == r.volumes && page.volume in r.volumes
  {
    var at := At(b.store, b.base, b.working, page.volume, page.page);
    var kept := KeptAt(r.store, r.parent, r.volumes, page.volume, page.page);
    if page in r.edits then Edited(r.volumes, source, b.members, r.ref, page, at)
    else
      && (at.Some? <==> kept.Some?)
      && (at.Some? ==> MovedAt(r.store, b.members, r.ref, b.rewriting, kept.value, at.value))
  }

  ghost predicate StateLaid(r: Request, b: Built) {
    var at := b.base.state;
    if r.state.Some? then at.Some? && Placed(b.members, r.ref, r.ref, r.state.value, at.value)
    else
      && (at.Some? <==> r.Inheriting().Some?)
      && (at.Some? ==> MovedAt(r.store, b.members, r.ref, b.rewriting, r.Inheriting().value, at.value))
  }

  /** The table a request comes to, before its segments are written. */
  ghost predicate Lays(r: Request, source: Source, format: Format, b: Built)
    requires r.Supported()
  {
    && b.store == r.store && b.parent == r.parent && b.base.ref == r.ref && b.base.volumes == r.volumes
    && b.base.vcpus == r.vcpus && b.base.nested == r.nested
    && b.base.segments == Inherited(r.parent, r.volumes)
    && b.base.checkpoints == Emptied(r.Names(), b.rewriting, r.ref.sequence)
    && Greedy(r.ref, r.Spared(), r.Names(), r.LiveBytes(), b.rewriting)
    && (forall page: PageKey :: page.volume in r.volumes ==> PageLaid(r, source, b, page))
    && (forall key, relative :: relative in b.View(key) ==> InSegment(r, key, relative))
    && StateLaid(r, b)
    && b.dirty <= b.working.Keys
    && (forall key :: key in b.dirty <==> b.View(key) != TableOf(b.store, b.base, key))
    && Packed(format, r.ref, b.members) && |b.members| <= r.MemberBound()
  }

  ghost predicate InSegment(r: Request, key: SegmentKey, relative: nat) {
    key.volume in r.volumes && relative < r.volumes[key.volume].geometry.segmentPages
  }

  // ------------------------------------------------------------ the index object

  /** The segments to be written, and how long their envelopes are. */
  ghost function Envelopes(format: Format, working: map<SegmentKey, Segment>, dirty: set<SegmentKey>)
    : map<SegmentKey, nat>
  {
    map key | key in dirty && key in working && working[key] != map[] :: format.segment(working[key]).envelope
  }

  /** Where the segments of an index object end. */
  ghost function EndOf(format: Format, working: map<SegmentKey, Segment>, dirty: set<SegmentKey>): nat {
    INDEX_RECORD_SIZE + Sum(Envelopes(format, working, dirty))
  }

  /** Every segment to be written is one an index object takes. */
  ghost predicate ShortSegments(format: Format, working: map<SegmentKey, Segment>, dirty: set<SegmentKey>) {
    forall key :: key in dirty && key in working && working[key] != map[] ==>
      format.segment(working[key]).message <= MAXIMUM_SEGMENT_SIZE
  }

  /** A segment of a checkpoint's index object, written before an offset. */
  predicate Inside(ref: Ref, at: SegmentAddress, end: nat) {
    && at.ref == ref && INDEX_RECORD_SIZE <= at.offset && 0 < at.length <= MAXIMUM_SEGMENT_EXTENT
    && at.offset + at.length <= end
  }

  predicate Disjoint(a: SegmentAddress, b: SegmentAddress) {
    a.offset + a.length <= b.offset || b.offset + b.length <= a.offset
  }

  /** Changed segments are as long as their envelopes, and apart from each other. */
  ghost predicate InTurn(format: Format, segments: map<SegmentKey, SegmentEntry>, working: map<SegmentKey, Segment>,
                         dirty: set<SegmentKey>)
  {
    var lengths := Envelopes(format, working, dirty);
    && (forall key :: key in lengths ==> key in segments && segments[key].at.length == lengths[key])
    && (forall a, b :: a in lengths && b in lengths && a != b ==> Disjoint(segments[a].at, segments[b].at))
  }

  /** The root and the object it ends are within their bounds. */
  predicate RootFits(format: Format, root: Index, end: nat) {
    && format.root(root).message <= format.maximumRoot
    && end + format.root(root).envelope + INDEX_RECORD_SIZE <= MAXIMUM_INDEX_SIZE
  }

  /** The changed segments lie one after another in the index object, apart from each other, and the checkpoint counts
      its parts. */
  ghost predicate WrittenOut(format: Format, b: Built) {
    && (forall key :: Written(b.base.segments, b.segments, b.tables, b.base.ref, b.dirty, b.working, key))
    && (forall at :: at in b.tables ==> Inside(b.base.ref, at, EndOf(format, b.working, b.dirty)))
    && InTurn(format, b.segments, b.working, b.dirty)
    && (forall key :: key in b.members ==> key.part < b.cost.parts)
    && b.cost.parts <= |b.members| && b.cost.bytes <= b.cost.parts * MAXIMUM_PART_SIZE && b.cost.emptied == 0
  }

  /** Everything is within its bound: the parts, the changed segments, the root and the object they are written to. */
  ghost predicate Fitted(format: Format, b: Built) {
    && PartsFit(format, b.members)
    && ShortSegments(format, b.working, b.dirty)
    && RootFits(format, b.Root(), EndOf(format, b.working, b.dirty))
  }

  lemma SparesOneMore(r: Request, kept: Ref)
    requires kept in r.store.roots
    ensures r.(protect := r.protect + {kept}).Spared() == r.Spared() + {kept} + Named(r.store.roots[kept])
  {
    hide Named;
    var more := r.(protect := r.protect + {kept});
    forall other | other in r.Spared() + {kept} + Named(r.store.roots[kept]) ensures other in more.Spared() {
      var from :| from in more.protect && from in r.store.roots && other in {from} + Named(r.store.roots[from]);
    }
    forall other | other in more.Spared() ensures other in r.Spared() + {kept} + Named(r.store.roots[kept]) {
      var from :| from in more.protect && from in r.store.roots && other in {from} + Named(r.store.roots[from]);
    }
  }

  // ----------------------------------------------------------- one segment at a time

  /** Every segment written so far ends by an offset. */
  ghost predicate InOrder(format: Format, segments: map<SegmentKey, SegmentEntry>, working: map<SegmentKey, Segment>,
                          done: set<SegmentKey>, end: nat)
  {
    forall key :: key in Envelopes(format, working, done) && key in segments ==>
      segments[key].at.offset + segments[key].at.length <= end
  }

  lemma NothingWritten(format: Format, segments: map<SegmentKey, SegmentEntry>, working: map<SegmentKey, Segment>)
    ensures EndOf(format, working, {}) == INDEX_RECORD_SIZE && ShortSegments(format, working, {})
    ensures InTurn(format, segments, working, {}) && InOrder(format, segments, working, {}, INDEX_RECORD_SIZE)
  {
    assert Envelopes(format, working, {}) == map[];
  }

  lemma OneMoreEnvelope(format: Format, working: map<SegmentKey, Segment>, done: set<SegmentKey>, key: SegmentKey)
    requires key in working && key !in done
    ensures var was, now := Envelopes(format, working, done), Envelopes(format, working, done + {key});
      if working[key] == map[] then now == was && EndOf(format, working, done + {key}) == EndOf(format, working, done)
      else
        var length := format.segment(working[key]).envelope;
        && key !in was && now == was[key := length]
        && EndOf(format, working, done + {key}) == EndOf(format, working, done) + length
  {
    hide Sum;
    var was, now := Envelopes(format, working, done), Envelopes(format, working, done + {key});
    if working[key] == map[] {
      assert now == was;
    } else {
      SumAdd(was, key, format.segment(working[key]).envelope);
      assert now == was[key := format.segment(working[key]).envelope];
    }
  }

  /** The next segment begins where the last one ended. */
  lemma OneMoreInTurn(format: Format, segments: map<SegmentKey, SegmentEntry>, working: map<SegmentKey, Segment>,
                      done: set<SegmentKey>, key: SegmentKey, end: nat, next: map<SegmentKey, SegmentEntry>)
    requires key in working && key !in done
    requires InTurn(format, segments, working, done) && InOrder(format, segments, working, done, end)
    requires next == if key in next then segments[key := next[key]] else segments - {key}
    requires key in next <==> working[key] != map[]
    requires key in next ==> next[key].at.offset == end && next[key].at.length == format.segment(working[key]).envelope
    ensures InTurn(format, next, working, done + {key})
    ensures InOrder(format, next, working, done + {key},
                    if working[key] == map[] then end else end + format.segment(working[key]).envelope)
  {
    hide Envelopes;
    OneMoreEnvelope(format, working, done, key);
    assert key !in Envelopes(format, working, done) by { NotYet(format, working, done, key); }
  }

  lemma NotYet(format: Format, working: map<SegmentKey, Segment>, done: set<SegmentKey>, key: SegmentKey)
    requires key !in done
    ensures key !in Envelopes(format, working, done)
  {
  }

  // ------------------------------------------------------- what a request may come to

  /** A page will be somewhere: a kept one, or an edited one that is not all zeroes. */
  ghost predicate MayHold(r: Request, source: Source, page: PageKey)
    requires r.Supported() && page.volume in r.volumes
  {
    if page in r.edits then
      CanEdit(r.volumes, source, page) && !AllZero(DataOf(r, source, page))
    else KeptAt(r.store, r.parent, r.volumes, page.volume, page.page).Some?
  }

  ghost function DataOf(r: Request, source: Source, page: PageKey): seq<Byte>
    requires r.Supported() && page.volume in r.volumes && CanEdit(r.volumes, source, page)
  {
    var v := r.volumes[page.volume];
    source(page.volume, page.page, v.geometry.PageSpan(v.size, page.page)).value
  }

  /** A place this checkpoint's parts may have for some bytes. */
  ghost predicate MayPlace(r: Request, format: Format, origin: Ref, data: seq<Byte>, at: Location)
    requires r.Supported()
  {
    && at.ref == r.ref && at.origin == origin && at.length == format.encode(data)
    && format.InHand(at.offset) && at.part < r.MemberBound()
  }

  ghost predicate MayMove(r: Request, format: Format, was: Location, at: Location)
    requires r.Supported()
  {
    at == was || (was.Key() in r.store.parts && MayPlace(r, format, was.origin, r.store.parts[was.Key()].data, at))
  }

  ghost predicate MayLie(r: Request, source: Source, format: Format, page: PageKey, at: Location)
    requires r.Supported() && page.volume in r.volumes
  {
    if page in r.edits then
      CanEdit(r.volumes, source, page) && MayPlace(r, format, r.ref, DataOf(r, source, page), at)
    else
      var kept := KeptAt(r.store, r.parent, r.volumes, page.volume, page.page);
      kept.Some? && MayMove(r, format, kept.value, at)
  }

  ghost function PageIn(r: Request, key: SegmentKey, relative: nat): PageKey
    requires r.Supported() && key.volume in r.volumes
  {
    PageKey(key.volume, r.volumes[key.volume].geometry.SegmentBase(key.number) + relative)
  }

  /** A segment the request may come to: exactly the pages that will be somewhere, each where it may lie. */
  ghost predicate MayWrite(r: Request, source: Source, format: Format, key: SegmentKey, held: Segment)
    requires r.Supported()
  {
    && key.volume in r.volumes && held != map[]
    && (forall relative: nat :: relative in held <==>
          InSegment(r, key, relative) && MayHold(r, source, PageIn(r, key, relative)))
    && (forall relative: nat :: relative in held ==>
          MayLie(r, source, format, PageIn(r, key, relative), held[relative]))
  }

  ghost predicate MayEnter(r: Request, source: Source, format: Format, key: SegmentKey, entry: SegmentEntry)
    requires r.Supported()
  {
    exists held :: MayWrite(r, source, format, key, held) && EntryFor(r, key, held, entry)
  }

  /** A segment keeps its entry of the parent, or has one of this checkpoint's index object. */
  ghost predicate EntryFor(r: Request, key: SegmentKey, held: Segment, entry: SegmentEntry)
    requires r.Supported()
  {
    || (key in Inherited(r.parent, r.volumes) && entry == Inherited(r.parent, r.volumes)[key])
    || (Inside(r.ref, entry.at, LongestEnd(r)) && entry.uses == ReadsOf(held))
  }

  ghost predicate MayCost(r: Request, other: Ref, cost: CheckpointCost)
    requires r.Supported()
  {
    if other == r.ref
    then cost.parts <= r.MemberBound() && cost.bytes <= cost.parts * MAXIMUM_PART_SIZE && cost.emptied == 0
    else other in r.Names() && cost in {r.Names()[other], r.Names()[other].(emptied := r.ref.sequence)}
  }

  ghost predicate MayState(r: Request, format: Format, at: Option<Location>)
    requires r.Supported()
  {
    if r.state.Some? then at.Some? && MayPlace(r, format, r.ref, r.state.value, at.value)
    else (at.Some? <==> r.Inheriting().Some?) && (at.Some? ==> MayMove(r, format, r.Inheriting().value, at.value))
  }

  /** A root the request may come to. */
  ghost predicate MayRoot(r: Request, source: Source, format: Format, index: Index)
    requires r.Supported()
  {
    && index.ref == r.ref && index.volumes == r.volumes && index.vcpus == r.vcpus && index.nested == r.nested
    && (forall key :: key in index.segments ==> MayEnter(r, source, format, key, index.segments[key]))
    && (forall key, held :: MayWrite(r, source, format, key, held) ==> key in index.segments)
    && (forall other :: other in index.checkpoints ==> MayCost(r, other, index.checkpoints[other]))
    && MayState(r, format, index.state)
  }

  /** Where the segments of the index object end at the latest. */
  ghost function LongestEnd(r: Request): nat
    requires r.Supported()
  {
    INDEX_RECORD_SIZE + |r.Touchable()| * MAXIMUM_SEGMENT_EXTENT
  }

  /** The state kept of the parent, if any, fits behind whatever a compaction may have in hand when it moves it. */
  ghost predicate StateFits(r: Request, format: Format) {
    r.Inheriting().Some? && r.Inheriting().value.Key() in r.store.parts ==>
      format.encode(r.store.parts[r.Inheriting().value.Key()].data) <= format.Slack()
  }

  /** Whatever the request comes to is within its bounds. */
  ghost predicate Small(r: Request, source: Source, format: Format)
    requires r.Supported()
  {
    && StateFits(r, format)
    && (forall key, held :: MayWrite(r, source, format, key, held) ==>
          format.segment(held).message <= MAXIMUM_SEGMENT_SIZE)
    && (forall index :: MayRoot(r, source, format, index) ==> RootFits(format, index, LongestEnd(r)))
  }

  // --------------------------------------------------------- before the compaction

  /** Where a page lies once the edits are written, and before any is moved. */
  ghost predicate PageWritten(r: Request, source: Source, members: map<MemberKey, Member>, root: Index,
                              held: map<SegmentKey, Segment>, page: PageKey)
    requires r.Supported() && root.volumes == r.volumes && page.volume in r.volumes
  {
    var at := At(r.store, root, held, page.volume, page.page);
    if page in r.edits then Edited(r.volumes, source, members, r.ref, page, at)
    else at == KeptAt(r.store, r.parent, r.volumes, page.volume, page.page)
  }

  ghost predicate PagesWritten(r: Request, source: Source, members: map<MemberKey, Member>, root: Index,
                               held: map<SegmentKey, Segment>)
    requires r.Supported() && root.volumes == r.volumes
  {
    forall page: PageKey :: page.volume in r.volumes ==> PageWritten(r, source, members, root, held, page)
  }

  /** The state before any is moved: its own, written first, or the parent's. */
  ghost predicate StateWritten(r: Request, members: map<MemberKey, Member>, at: Option<Location>) {
    if r.state.Some? then at.Some? && Placed(members, r.ref, r.ref, r.state.value, at.value) else at == r.Inheriting()
  }

  lemma StateIsLaid(r: Request, b: Built, placed: map<MemberKey, Member>, before: Option<Location>)
    requires StateWritten(r, placed, before) && Grown(placed, b.members) && Own(r.ref, b.rewriting)
    requires before.Some? <==> b.base.state.Some?
    requires before.Some? ==> MovedAt(r.store, b.members, r.ref, b.rewriting, before.value, b.base.state.value)
    ensures StateLaid(r, b)
  {
  }

  /** An entry of a segment is a page of the table. */
  lemma EntryIsPage(r: Request, store: Store, root: Index, held: map<SegmentKey, Segment>, key: SegmentKey,
                    relative: nat)
    requires r.Supported() && root.volumes == r.volumes && InSegment(r, key, relative)
    ensures var page, view := PageIn(r, key, relative), View(store, root, held, key);
      At(store, root, held, page.volume, page.page) == if relative in view then Some(view[relative]) else None
  {
    hide Geometry.SegmentOf, Geometry.OffsetIn, Geometry.SegmentBase;
    SegmentJoin(r.volumes[key.volume].geometry, key.number, relative);
  }

  /** A page of a segment the parent has is kept exactly where the segment keeps it. */
  lemma KeptEntry(r: Request, key: SegmentKey, relative: nat)
    requires r.Based() && r.parent.Some? && key in r.parent.value.segments && InSegment(r, key, relative)
    ensures var page := PageIn(r, key, relative);
      if page in r.edits then relative !in r.KeptIn(key)
      else
        KeptAt(r.store, r.parent, r.volumes, page.volume, page.page) ==
        if relative in r.KeptIn(key) then Some(r.KeptIn(key)[relative]) else None
    ensures relative in r.KeptIn(key) ==> r.KeptIn(key)[relative].ref != r.ref
  {
    hide Geometry.SegmentOf, Geometry.OffsetIn, Geometry.SegmentBase, Geometry.PageCount, Geometry.SegmentCount;
    hide ReadsOf;
    SegmentJoin(r.volumes[key.volume].geometry, key.number, relative);
    assert SegmentReadable(r.store, r.parent.value, key);
    if relative in r.KeptIn(key) { assert Readable(r.store, r.parent.value.checkpoints, r.KeptIn(key)[relative]); }
  }

  /** One entry of a segment: a kept page of the parent, or this checkpoint's own. */
  lemma EntryKept(r: Request, source: Source, members: map<MemberKey, Member>, root: Index,
                  held: map<SegmentKey, Segment>, key: SegmentKey, relative: nat)
    requires r.Based() && root.volumes == r.volumes && PagesWritten(r, source, members, root, held)
    requires r.parent.Some? && key in r.parent.value.segments && InSegment(r, key, relative)
    ensures var view := View(r.store, root, held, key);
      relative in r.KeptIn(key) <==> relative in view && view[relative].ref != r.ref
    ensures relative in r.KeptIn(key) ==> View(r.store, root, held, key)[relative] == r.KeptIn(key)[relative]
  {
    hide Geometry.SegmentBase, Geometry.PageSpan, WellFormed, Fresh, At, KeptAt, Request.KeptIn, View;
    KeptEntry(r, key, relative);
    EntryIsPage(r, r.store, root, held, key, relative);
    assert PageWritten(r, source, members, root, held, PageIn(r, key, relative));
  }

  /** What a segment reads from other checkpoints is what it keeps of the parent. */
  lemma ViewKept(r: Request, source: Source, members: map<MemberKey, Member>, root: Index,
                 held: map<SegmentKey, Segment>, key: SegmentKey, other: Ref)
    requires r.Based() && root.volumes == r.volumes && PagesWritten(r, source, members, root, held)
    requires key in Inherited(r.parent, r.volumes) && other != r.ref
    requires forall relative :: relative in View(r.store, root, held, key) ==> InSegment(r, key, relative)
    ensures BytesIn(View(r.store, root, held, key), other) == BytesIn(r.KeptIn(key), other)
    ensures var view := View(r.store, root, held, key);
      forall relative :: relative in view && view[relative].ref != r.ref ==> relative in r.KeptIn(key)
  {
    hide PagesWritten, View, Geometry.SegmentCount, Request.KeptIn, Fresh, ReadsOf;
    var view, kept := View(r.store, root, held, key), r.KeptIn(key);
    forall relative | relative in view || relative in kept
      ensures relative in kept <==> relative in view && view[relative].ref != r.ref
      ensures relative in kept ==> view[relative] == kept[relative]
    {
      if relative in kept { KeptInSegment(r, key, relative); }
      EntryKept(r, source, members, root, held, key, relative);
    }
    BytesInSame(view, kept, other);
  }

  lemma KeptInSegment(r: Request, key: SegmentKey, relative: nat)
    requires r.Based() && key in Inherited(r.parent, r.volumes) && relative in r.KeptIn(key)
    ensures InSegment(r, key, relative)
  {
    hide Geometry.SegmentCount, Geometry.PageCount, Geometry.SegmentBase, ReadsOf, Fresh;
    assert SegmentReadable(r.store, r.parent.value, key);
  }

  // ------------------------------------------------------------- and what it does

  lemma LaidFrom(r: Request, source: Source, b: Built, edited: map<SegmentKey, Segment>, placed: map<MemberKey, Member>,
                 page: PageKey)
    requires r.Supported() && b.store == r.store && b.parent == r.parent && b.base.ref == r.ref
    requires b.base.volumes == r.volumes && page.volume in r.volumes && b.Configured()
    requires CameFrom(b, edited, placed, r.edits, source)
    ensures PageLaid(r, source, b, page)
  {
    hide At, KeptAt, View, Built.View, Moved, Inherited, Emptied, WellFormed, Fresh;
    MovedPage(b, edited, page.volume, page.page);
    assert EditedPage(b, edited, placed, r.edits, source, page);
    if page in r.edits {
      var at := At(b.store, b.base, edited, page.volume, page.page);
      EditedGrows(r.volumes, source, placed, b.members, r.ref, page, at);
    }
  }

  /** The changed segments are exactly those that are not what the root addressed. */
  lemma DirtyIsChanged(b: Built, key: SegmentKey)
    requires b.Configured() && b.Tabled() && (key in b.dirty ==> Differs(b.store, b.base, key, b.working[key]))
    ensures key in b.dirty <==> b.View(key) != TableOf(b.store, b.base, key)
  {
    hide Emptied, Geometry.SegmentCount, ReadsOf;
    if key in b.working { assert Worked(b.store, b.parent, b.base, b.members, key, b.working[key], key in b.dirty); }
    if key in b.base.segments { assert SegmentReadable(b.store, b.parent.value, key); }
  }

  lemma EntriesInSegment(b: Built, key: SegmentKey, relative: nat)
    requires b.Configured() && b.Tabled() && relative in b.View(key)
    ensures key.volume in b.base.volumes && relative < b.base.volumes[key.volume].geometry.segmentPages
  {
    hide Emptied, Geometry.SegmentCount, Geometry.SegmentBase, Geometry.PageCount, ReadsOf, Sound, Fresh;
    if key in b.working {
      assert Worked(b.store, b.parent, b.base, b.members, key, b.working[key], key in b.dirty);
    } else {
      assert SegmentReadable(b.store, b.parent.value, key);
    }
  }

  /** A table that came about as the phases leave it is what the request comes to. */
  lemma BuiltLays(r: Request, source: Source, format: Format, b: Built, edited: map<SegmentKey, Segment>,
                  placed: map<MemberKey, Member>)
    requires r.Supported() && b.store == r.store && b.parent == r.parent && b.base.ref == r.ref
    requires b.base.volumes == r.volumes && b.base.vcpus == r.vcpus && b.base.nested == r.nested
    requires b.Configured() && b.Tabled() && CameFrom(b, edited, placed, r.edits, source)
    requires forall key :: key in b.dirty ==> Differs(b.store, b.base, key, b.working[key])
    requires Greedy(r.ref, r.Spared(), r.Names(), r.LiveBytes(), b.rewriting) && StateLaid(r, b)
    requires Packed(format, r.ref, b.members) && |b.members| <= r.MemberBound()
    ensures Lays(r, source, format, b)
  {
    hide Greedy, StateLaid, Packed, CameFrom, PageLaid, Differs, Emptied, Inherited, WellFormed, Fresh, Worked, TableOf;
    hide Request.LiveBytes, Request.MemberBound, Built.View;
    forall page: PageKey | page.volume in r.volumes ensures PageLaid(r, source, b, page) {
      LaidFrom(r, source, b, edited, placed, page);
    }
    forall key ensures key in b.dirty <==> b.View(key) != TableOf(b.store, b.base, key) { DirtyIsChanged(b, key); }
    forall key, relative | relative in b.View(key) ensures InSegment(r, key, relative) {
      EntriesInSegment(b, key, relative);
    }
  }

  /** A page that was placed lies where the request allows. */
  lemma PlacedMay(r: Request, format: Format, b: Built, origin: Ref, data: seq<Byte>, at: Location)
    requires r.Supported() && Packed(format, r.ref, b.members) && |b.members| <= r.MemberBound()
    requires Placed(b.members, r.ref, origin, data, at)
    ensures MayPlace(r, format, origin, data, at)
  {
    assert at.Key() in b.members;
  }

  lemma MovedMay(r: Request, format: Format, b: Built, was: Location, at: Location)
    requires r.Supported() && Packed(format, r.ref, b.members) && |b.members| <= r.MemberBound()
    requires MovedAt(r.store, b.members, r.ref, b.rewriting, was, at)
    ensures MayMove(r, format, was, at)
  {
    if was.ref in b.rewriting { PlacedMay(r, format, b, was.origin, r.store.parts[was.Key()].data, at); }
  }

  lemma LaidMay(r: Request, source: Source, format: Format, b: Built, page: PageKey)
    requires r.Supported() && b.base.volumes == r.volumes && page.volume in r.volumes
    requires PageLaid(r, source, b, page) && Packed(format, r.ref, b.members) && |b.members| <= r.MemberBound()
    ensures var at := At(b.store, b.base, b.working, page.volume, page.page);
      && (at.Some? <==> MayHold(r, source, page))
      && (at.Some? ==> MayLie(r, source, format, page, at.value))
  {
    hide At, KeptAt, Packed, Geometry.PageSpan;
    var at := At(b.store, b.base, b.working, page.volume, page.page);
    if page in r.edits {
      if at.Some? { PlacedMay(r, format, b, r.ref, DataOf(r, source, page), at.value); }
    } else if at.Some? {
      MovedMay(r, format, b, KeptAt(r.store, r.parent, r.volumes, page.volume, page.page).value, at.value);
    }
  }

  /** Every segment of the table is one the request may come to. */
  lemma ViewMay(r: Request, source: Source, format: Format, b: Built, key: SegmentKey)
    requires r.Supported() && Lays(r, source, format, b) && b.View(key) != map[]
    ensures MayWrite(r, source, format, key, b.View(key))
  {
    hide Greedy, Packed, StateLaid, Emptied, Inherited, At, Request.MemberBound, Request.LiveBytes, PageLaid, View;
    hide MayHold, MayLie;
    var some :| some in b.View(key);
    assert InSegment(r, key, some);
    forall relative: nat | InSegment(r, key, relative)
      ensures relative in b.View(key) <==> MayHold(r, source, PageIn(r, key, relative))
      ensures relative in b.View(key) ==> MayLie(r, source, format, PageIn(r, key, relative), b.View(key)[relative])
    {
      EntryIsPage(r, b.store, b.base, b.working, key, relative);
      assert PageLaid(r, source, b, PageIn(r, key, relative));
      LaidMay(r, source, format, b, PageIn(r, key, relative));
    }
  }

  /** A page that will be somewhere is in a segment that may be written. */
  lemma HoldsTouchable(r: Request, source: Source, page: PageKey)
    requires r.Based() && page.volume in r.volumes && MayHold(r, source, page)
    ensures KeyOf(r.volumes[page.volume].geometry, page.volume, page.page) in r.Touchable()
  {
    hide Geometry.SegmentOf, Geometry.OffsetIn, Geometry.PageCount, Geometry.SegmentCount, Geometry.PageSpan, ReadsOf;
    var v := r.volumes[page.volume];
    PageInVolume(v.geometry, v.size, page.page);
    if page !in r.edits {
      var key := KeyOf(v.geometry, page.volume, page.page);
      assert key in r.parent.value.segments;
      assert SegmentReadable(r.store, r.parent.value, key);
    }
  }

  lemma DirtyTouchable(r: Request, source: Source, format: Format, b: Built, key: SegmentKey)
    requires r.Based() && Lays(r, source, format, b) && key in Envelopes(format, b.working, b.dirty)
    ensures key in r.Touchable()
  {
    hide Greedy, Packed, StateLaid, Emptied, Inherited, At, Request.MemberBound, Request.LiveBytes, PageLaid;
    hide MayHold, MayLie, WellFormed, Fresh, Request.Touchable, Geometry.SegmentOf, Geometry.SegmentBase;
    ViewMay(r, source, format, b, key);
    var relative :| relative in b.View(key);
    var page := PageIn(r, key, relative);
    assert InSegment(r, key, relative) && MayHold(r, source, page);
    HoldsTouchable(r, source, page);
    SegmentJoin(r.volumes[key.volume].geometry, key.number, relative);
  }

  /** The segments end where the request says at the latest. */
  lemma EndWithin(r: Request, source: Source, format: Format, b: Built)
    requires r.Based() && format.Valid() && Lays(r, source, format, b) && ShortSegments(format, b.working, b.dirty)
    ensures EndOf(format, b.working, b.dirty) <= LongestEnd(r)
  {
    hide Lays, Request.Touchable, WellFormed, Fresh, Request.Supported;
    var lengths := Envelopes(format, b.working, b.dirty);
    forall key | key in lengths ensures key in r.Touchable() && lengths[key] <= MAXIMUM_SEGMENT_EXTENT {
      DirtyTouchable(r, source, format, b, key);
      assert format.segment(b.working[key]).Valid();
    }
    SumBounded(lengths, r.Touchable(), MAXIMUM_SEGMENT_EXTENT);
  }

  /** The entry a root has for a segment is one the request allows. */
  lemma EntryMay(r: Request, source: Source, format: Format, b: Built, key: SegmentKey)
    requires r.Based() && Lays(r, source, format, b) && WrittenOut(format, b)
    requires EndOf(format, b.working, b.dirty) <= LongestEnd(r)
    ensures key in b.segments <==> b.View(key) != map[]
    ensures key in b.segments ==> MayEnter(r, source, format, key, b.segments[key])
  {
    hide Greedy, Packed, StateLaid, Emptied, At, Request.MemberBound, Request.LiveBytes, PageLaid, ReadsOf;
    hide MayWrite, Fresh, EndOf, InTurn, LongestEnd;
    assert Written(b.base.segments, b.segments, b.tables, b.base.ref, b.dirty, b.working, key);
    if key in b.base.segments { assert SegmentReadable(r.store, r.parent.value, key); }
    assert key in b.segments <==> b.View(key) != map[];
    if key in b.segments {
      ViewMay(r, source, format, b, key);
      assert EntryFor(r, key, b.View(key), b.segments[key]);
    }
  }

  lemma CostMay(r: Request, source: Source, format: Format, b: Built, other: Ref)
    requires r.Based() && Lays(r, source, format, b) && WrittenOut(format, b) && other in b.Root().checkpoints
    ensures MayCost(r, other, b.Root().checkpoints[other])
  {
    hide Greedy, Packed, StateLaid, At, Request.MemberBound, Request.LiveBytes, PageLaid, ReadsOf, Inherited;
    hide WellFormed, Fresh, EndOf, InTurn, LongestEnd, Written, ReadCheckpoints;
  }

  lemma StateMay(r: Request, source: Source, format: Format, b: Built)
    requires r.Supported() && Lays(r, source, format, b)
    ensures MayState(r, format, b.base.state)
  {
    hide Greedy, Packed, At, Request.MemberBound, Request.LiveBytes, PageLaid, Inherited, Emptied;
    if r.state.Some? {
      PlacedMay(r, format, b, r.ref, r.state.value, b.base.state.value);
    } else if b.base.state.Some? {
      MovedMay(r, format, b, r.Inheriting().value, b.base.state.value);
    }
  }

  /** The root that is written is one the request may come to. */
  lemma RootMay(r: Request, source: Source, format: Format, b: Built)
    requires r.Based() && Lays(r, source, format, b) && WrittenOut(format, b)
    requires EndOf(format, b.working, b.dirty) <= LongestEnd(r)
    ensures MayRoot(r, source, format, b.Root())
  {
    hide WrittenOut, MayEnter, MayCost, MayState, Retained, MayHold, EndOf, LongestEnd, WellFormed, Fresh;
    hide Greedy, Packed, StateLaid, Request.MemberBound, Request.LiveBytes, Emptied, Inherited;
    StateMay(r, source, format, b);
    forall key ensures key in b.segments ==> MayEnter(r, source, format, key, b.segments[key]) {
      EntryMay(r, source, format, b, key);
    }
    forall other | other in b.Root().checkpoints ensures MayCost(r, other, b.Root().checkpoints[other]) {
      CostMay(r, source, format, b, other);
    }
    forall key, held | MayWrite(r, source, format, key, held) ensures key in b.segments {
      WritableIsThere(r, source, format, b, key, held);
      EntryMay(r, source, format, b, key);
    }
  }

  lemma WritableIsThere(r: Request, source: Source, format: Format, b: Built, key: SegmentKey, held: Segment)
    requires r.Supported() && Lays(r, source, format, b) && MayWrite(r, source, format, key, held)
    ensures b.View(key) != map[]
  {
    hide Greedy, Packed, StateLaid, Emptied, Inherited, At, Request.MemberBound, Request.LiveBytes, PageLaid, View;
    hide MayHold, MayLie;
    var relative :| relative in held;
    var page := PageIn(r, key, relative);
    assert MayHold(r, source, page) && InSegment(r, key, relative);
    EntryIsPage(r, b.store, b.base, b.working, key, relative);
    assert PageLaid(r, source, b, page);
    LaidMay(r, source, format, b, page);
  }

  /** A small request's segments are all ones an index object takes. */
  lemma SmallIsShort(r: Request, source: Source, format: Format, b: Built)
    requires r.Supported() && Lays(r, source, format, b) && Small(r, source, format)
    ensures ShortSegments(format, b.working, b.dirty)
  {
    hide MayWrite;
    forall key | key in b.dirty && key in b.working && b.working[key] != map[]
      ensures format.segment(b.working[key]).message <= MAXIMUM_SEGMENT_SIZE
    {
      ViewMay(r, source, format, b, key);
    }
  }

  /** A small request whose segments are written has a root that fits. */
  lemma SmallFits(r: Request, source: Source, format: Format, b: Built)
    requires r.Based() && format.Valid() && Lays(r, source, format, b) && Small(r, source, format)
    requires WrittenOut(format, b)
    ensures RootFits(format, b.Root(), EndOf(format, b.working, b.dirty))
  {
    hide Lays, WrittenOut, MayRoot, MayWrite, WellFormed, Fresh, Request.Supported, EndOf, LongestEnd, Built.Root;
    SmallIsShort(r, source, format, b);
    EndWithin(r, source, format, b);
    RootMay(r, source, format, b);
  }

  /** What a request comes to does not turn on where its segments are written. */
  lemma LaysStill(r: Request, source: Source, format: Format, b: Built, done: Built)
    requires r.Supported() && Lays(r, source, format, b)
    requires done == b.(tables := done.tables, segments := done.segments, cost := done.cost)
    ensures Lays(r, source, format, done)
  {
    hide Greedy, Packed, Emptied, Inherited, At, KeptAt, Edited, MovedAt, View, Request.MemberBound, Request.LiveBytes;
    hide TableOf;
    forall page: PageKey | page.volume in r.volumes ensures PageLaid(r, source, done, page) {
      assert PageLaid(r, source, b, page);
    }
    forall key ensures done.View(key) == b.View(key) {}
  }

  lemma WrittenInside(format: Format, b: Built)
    requires WrittenOut(format, b)
    ensures forall at :: at in b.tables ==> Inside(b.base.ref, at, EndOf(format, b.working, b.dirty))
  {
    hide Written, InTurn, EndOf;
  }

  /** A codec that spends no more than 64 bytes on a page never makes a segment too long, so a request is small under it
      when its state and its roots fit. */
  lemma ShortPagesAreSmall(r: Request, source: Source, format: Format)
    requires r.Supported() && StateFits(r, format)
    requires forall held :: format.segment(held).message <= 64 * |held|
    requires forall index :: MayRoot(r, source, format, index) ==> RootFits(format, index, LongestEnd(r))
    ensures Small(r, source, format)
  {
    hide MayRoot, MayLie, MayHold;
    forall key, held | MayWrite(r, source, format, key, held)
      ensures format.segment(held).message <= MAXIMUM_SEGMENT_SIZE
    {
      var pages := r.volumes[key.volume].geometry.segmentPages;
      assert forall relative :: relative in held ==> InSegment(r, key, relative);
      BelowSize(held.Keys, pages);
    }
  }

  lemma {:induction false} BelowSize(numbers: set<nat>, n: nat)
    requires forall x :: x in numbers ==> x < n
    ensures |numbers| <= n
    decreases n
  {
    if n == 0 {
      assert numbers == {};
    } else {
      BelowSize(numbers - {n - 1}, n - 1);
    }
  }

  /** Such a codec is the one that compresses nothing: a request is small under it when its state fits and its segments,
      each as long as one may be, fit one index object. */
  lemma PlainIsSmall(r: Request, source: Source)
    requires r.Supported() && StateFits(r, PlainFormat())
    requires LongestEnd(r) + ENVELOPE_HEADER + INDEX_RECORD_SIZE <= MAXIMUM_INDEX_SIZE
    ensures Small(r, source, PlainFormat())
  {
    hide MayRoot, LongestEnd, StateFits;
    ShortPagesAreSmall(r, source, PlainFormat());
  }

  lemma SmallStateFits(r: Request, source: Source, format: Format)
    requires r.Supported() && Small(r, source, format)
    ensures StateFits(r, format)
  {
  }

  /** A small request whose parts fit is within all its bounds. */
  lemma SmallSucceeds(r: Request, source: Source, format: Format, b: Built)
    requires r.Based() && format.Valid() && Lays(r, source, format, b) && Small(r, source, format)
    requires PartsFit(format, b.members)
    requires ShortSegments(format, b.working, b.dirty) ==> WrittenOut(format, b)
    ensures Fitted(format, b)
  {
    hide Lays, WrittenOut, MayRoot, MayWrite, WellFormed, Fresh, Request.Supported, EndOf, LongestEnd, Built.Root;
    hide PartsFit, ShortSegments, RootFits, Small, Format.Valid;
    SmallIsShort(r, source, format, b);
    SmallFits(r, source, format, b);
  }
}
