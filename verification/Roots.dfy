/** The root of a published checkpoint, the page-table segments it addresses, and
the objects both are read from.

A root names, per volume, where each segment of the page table lies, the
checkpoints those segments and their pages read from, and where the VMM state is.
Members of parts and segments of index objects are maps from their addresses:
encodings and checksums are oracles.
*/
module Roots {
  import opened Refs
  import opened Geometries

  type Byte = b: int | 0 <= b < 256

  // --------------------------------------------------------------------- shapes

  /** One encoded member of a part. origin is the checkpoint it was first published under. */
  datatype Location = Location(ref: Ref, origin: Ref, part: nat, offset: nat, length: nat) {
    function Key(): MemberKey { MemberKey(ref, part, offset) }
  }

  datatype MemberKey = MemberKey(ref: Ref, part: nat, offset: nat)

  /** What a part holds at an offset: the decoded bytes and the encoded length. */
  datatype Member = Member(data: seq<Byte>, length: nat)

  /** One range of a volume's page table, by page number relative to its first. */
  type Segment = map<nat, Location>

  datatype SegmentKey = SegmentKey(volume: string, number: nat)

  datatype PageKey = PageKey(volume: string, page: nat)

  datatype SegmentAddress = SegmentAddress(ref: Ref, offset: nat, length: nat)

  datatype CheckpointUse = CheckpointUse(ref: Ref, bytes: nat)

  datatype SegmentEntry = SegmentEntry(at: SegmentAddress, uses: seq<CheckpointUse>)

  /** emptied is zero, or the sequence of the checkpoint whose compaction emptied this one. */
  datatype CheckpointCost = CheckpointCost(parts: nat, bytes: nat, emptied: nat)

  datatype Volume = Volume(size: nat, geometry: Geometry, ephemeral: bool)

  datatype Index = Index(
    ref: Ref,
    volumes: map<string, Volume>,
    segments: map<SegmentKey, SegmentEntry>,
    checkpoints: map<Ref, CheckpointCost>,
    state: Option<Location>,
    vcpus: nat,
    nested: bool)

  /** The object store: segments by address, members by key, roots by reference. */
  datatype Store = Store(
    tables: map<SegmentAddress, Segment>,
    parts: map<MemberKey, Member>,
    roots: map<Ref, Index>)

  // -------------------------------------------------------------------- reading

  /** The segment a root addresses; one it does not address is empty. */
  function TableOf(store: Store, index: Index, key: SegmentKey): Segment {
    if key in index.segments && index.segments[key].at in store.tables
    then store.tables[index.segments[key].at]
    else map[]
  }

  /** Where one page lives, None for a page that reads as zeroes. */
  function Locate(store: Store, index: Index, volume: string, page: nat): Option<Location>
    requires volume in index.volumes && index.volumes[volume].geometry.Supported()
  {
    var g := index.volumes[volume].geometry;
    var table := TableOf(store, index, SegmentKey(volume, g.SegmentOf(page)));
    if g.OffsetIn(page) in table then Some(table[g.OffsetIn(page)]) else None
  }

  /** A page as a reader sees it: the checkpoint that is its identity, and its bytes. */
  datatype Page = Page(origin: Ref, data: seq<Byte>)

  function PageAt(store: Store, index: Index, volume: string, page: nat): Option<Page>
    requires volume in index.volumes && index.volumes[volume].geometry.Supported()
  {
    var at := Locate(store, index, volume, page);
    if at.Some? && at.value.Key() in store.parts
    then Some(Page(at.value.origin, store.parts[at.value.Key()].data))
    else None
  }

  /** Every checkpoint a root names, those it only spares included. */
  function Named(index: Index): set<Ref> { index.checkpoints.Keys }

  /** readCheckpoints: its own, each segment's, each page's and the state's. */
  function ReadCheckpoints(index: Index): set<Ref> {
    {index.ref}
    + (set key | key in index.segments :: index.segments[key].at.ref)
    + (set key, i | key in index.segments && 0 <= i < |index.segments[key].uses| :: index.segments[key].uses[i].ref)
    + (if index.state.Some? then {index.state.value.ref} else {})
  }

  /** retainReferencedCheckpoints: what nothing reads goes, unless this checkpoint's own compaction emptied it. */
  function Retained(index: Index): map<Ref, CheckpointCost> {
    map ref | ref in index.checkpoints &&
              (ref in ReadCheckpoints(index) || index.checkpoints[ref].emptied == index.ref.sequence)
            :: index.checkpoints[ref]
  }

  // ------------------------------------------------- what a segment's pages read

  function RefsOf(pages: Segment): set<Ref> { set relative | relative in pages :: pages[relative].ref }

  function Weight(at: Location, ref: Ref): nat { if at.ref == ref then at.length else 0 }

  /** The encoded bytes a segment's pages read from one checkpoint. */
  ghost function BytesIn(pages: Segment, ref: Ref): nat
    decreases |pages|
  {
    if pages == map[] then 0
    else
      var relative :| relative in pages;
      Weight(pages[relative], ref) + BytesIn(pages - {relative}, ref)
  }

  lemma {:induction false} BytesInRemove(pages: Segment, relative: nat, ref: Ref)
    requires relative in pages
    ensures BytesIn(pages, ref) == Weight(pages[relative], ref) + BytesIn(pages - {relative}, ref)
    decreases |pages|
  {
    var first :| first in pages &&
      BytesIn(pages, ref) == Weight(pages[first], ref) + BytesIn(pages - {first}, ref);
    if first != relative {
      BytesInRemove(pages - {first}, relative, ref);
      BytesInRemove(pages - {relative}, first, ref);
      assert pages - {first} - {relative} == pages - {relative} - {first};
    }
  }

  /** A checkpoint is read for no bytes exactly when no page lies in it. */
  lemma {:induction false} BytesInZero(pages: Segment, ref: Ref)
    requires forall relative :: relative in pages ==> pages[relative].length > 0
    ensures BytesIn(pages, ref) == 0 <==> ref !in RefsOf(pages)
    decreases |pages|
  {
    if pages != map[] {
      var relative :| relative in pages;
      BytesInRemove(pages, relative, ref);
      BytesInZero(pages - {relative}, ref);
      var rest := pages - {relative};
      assert forall other :: other in pages && other != relative ==> other in rest && rest[other] == pages[other];
    }
  }

  /** segment.reads: the checkpoints a segment's pages lie in, ascending, and the bytes they read from each. */
  ghost function ReadsOf(pages: Segment): (uses: seq<CheckpointUse>) {
    var refs := SortedRefs(RefsOf(pages));
    seq(|refs|, i requires 0 <= i < |refs| => CheckpointUse(refs[i], BytesIn(pages, refs[i])))
  }

  /** The bytes a list of uses records for one checkpoint. */
  ghost function BytesOf(uses: seq<CheckpointUse>, ref: Ref): nat {
    if uses == [] then 0
    else (if uses[0].ref == ref then uses[0].bytes else 0) + BytesOf(uses[1..], ref)
  }

  lemma {:induction false} BytesOfAbsent(uses: seq<CheckpointUse>, ref: Ref)
    requires forall i :: 0 <= i < |uses| ==> uses[i].ref != ref
    ensures BytesOf(uses, ref) == 0
  {
    if uses != [] { BytesOfAbsent(uses[1..], ref); }
  }

  lemma {:induction false} BytesOfPresent(uses: seq<CheckpointUse>, k: nat)
    requires k < |uses|
    requires forall i, j :: 0 <= i < j < |uses| ==> uses[i].ref != uses[j].ref
    ensures BytesOf(uses, uses[k].ref) == uses[k].bytes
  {
    if k == 0 {
      BytesOfAbsent(uses[1..], uses[0].ref);
    } else {
      assert uses[1..][k - 1] == uses[k];
      BytesOfPresent(uses[1..], k - 1);
    }
  }

  /** The reads a root records answer for the segment without opening it. */
  lemma ReadsAnswer(pages: Segment, ref: Ref)
    requires forall relative :: relative in pages ==> pages[relative].length > 0
    ensures BytesOf(ReadsOf(pages), ref) == BytesIn(pages, ref)
  {
    var refs := SortedRefs(RefsOf(pages));
    var uses := ReadsOf(pages);
    BytesInZero(pages, ref);
    if ref in refs {
      var k :| 0 <= k < |refs| && refs[k] == ref;
      forall i, j | 0 <= i < j < |uses| ensures uses[i].ref != uses[j].ref { RefLessTotal(refs[i], refs[j]); }
      BytesOfPresent(uses, k);
    } else {
      BytesOfAbsent(uses, ref);
    }
  }

  lemma ReadsName(pages: Segment, ref: Ref)
    ensures (exists i :: 0 <= i < |ReadsOf(pages)| && ReadsOf(pages)[i].ref == ref) <==> ref in RefsOf(pages)
  {
    var refs := SortedRefs(RefsOf(pages));
    if ref in RefsOf(pages) {
      var i :| 0 <= i < |refs| && refs[i] == ref;
      assert ReadsOf(pages)[i].ref == ref;
    }
  }

  // ----------------------------------------------------------- self-consistency

  const MAXIMUM_PART_SIZE: nat := 0x400_0000 + 0x20_0000 + 32 + 0x10_0000 + 32
  const MAXIMUM_SEGMENT_SIZE: nat := 0x10_0000
  const MAXIMUM_SEGMENT_EXTENT: nat := MAXIMUM_SEGMENT_SIZE + 32
  const MAXIMUM_INDEX_SIZE: nat := 0x4000_0000
  const INDEX_RECORD_SIZE: nat := 32
  const MAXIMUM_NAME := 255
  const MAXIMUM_VCPUS := 32

  predicate ValidName(name: string) {
    && 0 < |name| <= MAXIMUM_NAME && name != "." && name != ".."
    && forall i :: 0 <= i < |name| ==> name[i] != '/' && name[i] >= ' ' && name[i] != 0x7f as char
  }

  /** Which identities may name a VM. */
  type Identities = string -> bool

  /** A segment of an index object, past its record and within its bound. */
  predicate AddressOk(at: SegmentAddress) {
    && 0 < at.length <= MAXIMUM_SEGMENT_EXTENT && INDEX_RECORD_SIZE <= at.offset
    && at.offset + at.length <= MAXIMUM_INDEX_SIZE
  }

  ghost predicate LegalVolumes(volumes: map<string, Volume>) {
    forall name :: name in volumes ==> ValidName(name) && volumes[name].size % SECTOR_SIZE == 0
  }

  /** What a reader demands of a root besides that it is readable: its names, sizes, identities, addresses and
      counts. */
  ghost predicate Legal(ids: Identities, index: Index) {
    && (forall ref :: ref in index.checkpoints ==> ids(ref.vm) && ref.sequence != 0)
    && LegalVolumes(index.volumes)
    && (forall key :: key in index.segments ==> AddressOk(index.segments[key].at))
    && index.vcpus <= MAXIMUM_VCPUS
    && (index.state.Some? ==> ids(index.state.value.origin.vm) && index.state.value.origin.sequence != 0)
  }

  /** A member the root can read: named with enough parts, not emptied, of one VM with its origin, and there. */
  ghost predicate Readable(store: Store, checkpoints: map<Ref, CheckpointCost>, at: Location) {
    && at.ref in checkpoints
    && at.part < checkpoints[at.ref].parts
    && checkpoints[at.ref].emptied == 0
    && at.length > 0
    && at.offset + at.length <= MAXIMUM_PART_SIZE
    && at.origin.vm == at.ref.vm
    && at.Key() in store.parts
    && store.parts[at.Key()].length == at.length
  }

  /** A segment the root can read pages from. */
  ghost predicate SegmentReadable(store: Store, index: Index, key: SegmentKey)
    requires key in index.segments
  {
    && key.volume in index.volumes
    && var volume := index.volumes[key.volume];
    && volume.geometry.Supported()
    && !volume.ephemeral
    && key.number < volume.geometry.SegmentCount(volume.size)
    && var entry := index.segments[key];
    && entry.at.ref in index.checkpoints
    && entry.at in store.tables
    && var table := store.tables[entry.at];
    && table != map[]
    && entry.uses == ReadsOf(table)
    && (forall relative :: relative in table ==>
          && relative < volume.geometry.segmentPages
          && volume.geometry.SegmentBase(key.number) + relative < volume.geometry.PageCount(volume.size)
          && Readable(store, index.checkpoints, table[relative])
          && |store.parts[table[relative].Key()].data| <= volume.geometry.pageSize)
  }

  /** A root every reader of the store can use. */
  ghost predicate WellFormed(store: Store, index: Index) {
    && (forall volume :: volume in index.volumes ==> index.volumes[volume].geometry.Supported())
    && index.ref in index.checkpoints
    && index.checkpoints[index.ref].emptied == 0
    && index.ref.sequence > 0
    && (forall key :: key in index.segments ==> SegmentReadable(store, index, key))
    && (index.state.Some? ==> Readable(store, index.checkpoints, index.state.value))
  }

  /** Objects are immutable and only added by a publication: the store it leaves holds all the earlier one held. */
  ghost predicate Extends(store: Store, later: Store) {
    && (forall at :: at in store.tables ==> at in later.tables && later.tables[at] == store.tables[at])
    && (forall key :: key in store.parts ==> key in later.parts && later.parts[key] == store.parts[key])
  }

  /** The objects of a store are those of some checkpoints. */
  ghost predicate ObjectsOf(store: Store, refs: set<Ref>) {
    && (forall at :: at in store.tables ==> at.ref in refs)
    && (forall key :: key in store.parts ==> key.ref in refs)
    && store.roots.Keys <= refs
  }

  /** A publication writes objects of its own checkpoint only. */
  ghost predicate AddsOnly(store: Store, later: Store, ref: Ref) {
    && (forall at :: at in later.tables && at !in store.tables ==> at.ref == ref)
    && (forall key :: key in later.parts && key !in store.parts ==> key.ref == ref)
    && later.roots.Keys <= store.roots.Keys + {ref}
  }

  lemma ExtendsKeepsSegment(store: Store, later: Store, index: Index, key: SegmentKey)
    requires key in index.segments && SegmentReadable(store, index, key) && Extends(store, later)
    ensures SegmentReadable(later, index, key)
    ensures TableOf(later, index, key) == TableOf(store, index, key)
  {
    var table := store.tables[index.segments[key].at];
    forall relative | relative in table ensures Readable(later, index.checkpoints, table[relative]) {
      assert Readable(store, index.checkpoints, table[relative]);
    }
  }

  /** A root stays readable, and reads the same, while the store grows. */
  lemma ExtendsKeepsReading(store: Store, later: Store, index: Index)
    requires WellFormed(store, index) && Extends(store, later)
    ensures WellFormed(later, index)
  {
    forall key | key in index.segments ensures SegmentReadable(later, index, key) {
      ExtendsKeepsSegment(store, later, index, key);
    }
  }

  lemma ExtendsKeepsPage(store: Store, later: Store, index: Index, volume: string, page: nat)
    requires WellFormed(store, index) && Extends(store, later) && volume in index.volumes
    ensures PageAt(later, index, volume, page) == PageAt(store, index, volume, page)
  {
    hide Geometry.SegmentOf, SegmentReadable, PageAt;
    var key := SegmentKey(volume, index.volumes[volume].geometry.SegmentOf(page));
    if key in index.segments { assert SegmentReadable(store, index, key); }
    SegmentKeepsPage(store, later, index, volume, page);
  }

  lemma SegmentKeepsPage(store: Store, later: Store, index: Index, volume: string, page: nat)
    requires volume in index.volumes && index.volumes[volume].geometry.Supported() && Extends(store, later)
    requires var key := SegmentKey(volume, index.volumes[volume].geometry.SegmentOf(page));
      key in index.segments ==> SegmentReadable(store, index, key)
    ensures PageAt(later, index, volume, page) == PageAt(store, index, volume, page)
  {
    hide Geometry.SegmentOf, Geometry.OffsetIn, Geometry.SegmentCount, Geometry.PageCount, ReadsOf;
    var key := SegmentKey(volume, index.volumes[volume].geometry.SegmentOf(page));
    if key in index.segments {
      ExtendsKeepsSegment(store, later, index, key);
      var at := Locate(store, index, volume, page);
      if at.Some? { assert Readable(store, index.checkpoints, at.value); }
    }
  }
}
