/** A page-table segment decoded densely, and locating a range of a volume in its segments.

A table is one entry for every page up to the last the segment locates, so a lookup is
an index. Its meaning is the segment it was encoded from: a map from relative page
numbers to locations.
*/
module PageTables {
  import opened Refs
  import opened Geometries
  import opened Roots
  import Sums

  const MAXIMUM_SEGMENT_PAGES := SEGMENT_PAGES_4KIB
  const MAXIMUM_UINT32 := 0xffff_ffff

  /** One page's location. ref and origin are one more than positions in the table's lists; a ref of zero is no page,
      and an origin of zero the ref itself. */
  datatype TableEntry = TableEntry(offset: nat, length: nat, part: nat, ref: nat, origin: nat)

  const NO_ENTRY := TableEntry(0, 0, 0, 0, 0)

  /** parts is, for each ref, one more than the highest part a page names in it. */
  datatype Table = Table(refs: seq<Ref>, origins: seq<Ref>, entries: seq<TableEntry>, parts: seq<nat>) {
    ghost predicate Names(entry: TableEntry) {
      entry.ref != 0 ==> entry.ref <= |refs| && entry.origin <= |origins|
    }

    ghost predicate Valid() {
      && |parts| == |refs| && |entries| <= MAXIMUM_SEGMENT_PAGES
      && (forall i :: 0 <= i < |entries| ==> Names(entries[i]))
      && (forall r :: 0 <= r < |refs| ==> IsHighest(entries, r, parts[r]))
    }

    function LocationOf(entry: TableEntry): Location
      requires entry.ref != 0 && Names(entry)
    {
      var ref := refs[entry.ref - 1];
      Location(ref, if entry.origin ==
               0 then ref else origins[entry.origin - 1], entry.part, entry.offset, entry.length)
    }

    /** Where one page lives. */
    function At(relative: nat): Option<Location>
      requires Valid()
    {
      if relative >= |entries| || entries[relative].ref == 0 then None else Some(LocationOf(entries[relative]))
    }

    /** The segment the table is. */
    function Meaning(): Segment
      requires Valid()
    {
      map relative | 0 <= relative < |entries| && entries[relative].ref != 0 :: LocationOf(entries[relative])
    }
  }

  /** One more than the highest part entries name in a ref, or zero when none does. */
  ghost predicate IsHighest(entries: seq<TableEntry>, r: nat, parts: nat) {
    && (forall i :: 0 <= i < |entries| && entries[i].ref == r + 1 ==> entries[i].part < parts)
    && (parts > 0 ==> exists i :: 0 <= i < |entries| && entries[i].ref == r + 1 && entries[i].part == parts - 1)
  }

  // --------------------------------------------------------------------- messages

  datatype PageMessage = PageMessage(number: nat, checkpoint: nat, part: nat, offset: nat, length: nat, origin: nat)

  datatype SegmentMessage = SegmentMessage(pages: seq<PageMessage>, refs: seq<Ref>, origins: seq<Ref>)

  function IndexOf(refs: seq<Ref>, ref: Ref): (at: nat)
    ensures at <= |refs| && (at < |refs| ==> refs[at] == ref) && (ref in refs ==> at < |refs|)
  {
    if refs == [] then 0 else if refs[0] == ref then 0 else 1 + IndexOf(refs[1..], ref)
  }

  /** Origins other than the checkpoints their pages lie in. */
  function MovedOrigins(held: Segment): set<Ref> {
    set relative | relative in held && held[relative].origin != held[relative].ref :: held[relative].origin
  }

  function SlotOf(origins: seq<Ref>, at: Location): nat {
    if at.origin in origins then 1 + IndexOf(origins, at.origin) else 0
  }

  function MessageOf(held: Segment, refs: seq<Ref>, origins: seq<Ref>, relative: nat): PageMessage
    requires relative in held
  {
    var at := held[relative];
    PageMessage(relative, IndexOf(refs, at.ref), at.part, at.offset, at.length, SlotOf(origins, at))
  }

  /** The messages of a segment's pages below a number, in ascending order. */
  function PagesBelow(held: Segment, refs: seq<Ref>, origins: seq<Ref>, n: nat): seq<PageMessage> {
    if n == 0 then []
    else PagesBelow(held, refs, origins, n - 1) + if n - 1 in held then [MessageOf(held, refs, origins, n - 1)] else []
  }

  /** A segment's message: its pages in ascending order, and the checkpoints and origins they name likewise. */
  function EncodeSegment(held: Segment): SegmentMessage {
    var refs, origins := SortedRefs(RefsOf(held)), SortedRefs(MovedOrigins(held));
    SegmentMessage(PagesBelow(held, refs, origins, MAXIMUM_SEGMENT_PAGES), refs, origins)
  }

  /** What a publication may put in a segment. */
  ghost predicate Encodable(held: Segment) {
    forall relative :: relative in held ==>
      && relative < MAXIMUM_SEGMENT_PAGES && held[relative].length > 0
      && held[relative].offset + held[relative].length <= MAXIMUM_PART_SIZE && held[relative].part < MAXIMUM_UINT32
  }

  // ---------------------------------------------------------------------- decoding

  /** What is checked of a page before the lists are in. */
  predicate Plausible(page: PageMessage) {
    && page.number < MAXIMUM_SEGMENT_PAGES && page.checkpoint < MAXIMUM_UINT32 && page.part < MAXIMUM_UINT32
    && page.length > 0 && page.offset <= MAXIMUM_PART_SIZE && page.length <= MAXIMUM_PART_SIZE - page.offset
  }

  function EntryOf(page: PageMessage): TableEntry {
    TableEntry(page.offset, page.length, page.part, page.checkpoint + 1, page.origin)
  }

  /** The page names a checkpoint and an origin the segment lists. */
  predicate Listed(message: SegmentMessage, page: PageMessage) {
    page.checkpoint < |message.refs| && page.origin <= |message.origins|
  }

  ghost predicate Acceptable(message: SegmentMessage) {
    && (forall i :: 0 <= i < |message.pages| ==> Plausible(message.pages[i]) && Listed(message, message.pages[i]))
    && (forall i, j :: 0 <= i < j < |message.pages| ==> message.pages[i].number != message.pages[j].number)
  }

  /** The entries are the pages', and no others. */
  ghost predicate Holds(entries: seq<TableEntry>, pages: seq<PageMessage>) {
    && (forall i :: 0 <= i < |pages| ==> pages[i].number < |entries| && entries[pages[i].number] == EntryOf(pages[i]))
    && (forall n :: 0 <= n < |entries| && entries[n].ref != 0 ==> exists i :: 0 <= i < |pages| && pages[i].number == n)
  }

  /** A table ends at the last page it locates. */
  ghost predicate Tight(entries: seq<TableEntry>) { entries != [] ==> entries[|entries| - 1].ref != 0 }

  class TableBuilder {
    var entries: seq<TableEntry>

    constructor ()
      ensures entries == []
    {
      entries := [];
    }

    /** Puts one page in, once. The entries grow to it. */
    method Add(page: PageMessage) returns (ok: bool)
      requires |entries| <= MAXIMUM_SEGMENT_PAGES
      modifies this
      ensures |entries| <= MAXIMUM_SEGMENT_PAGES
      ensures ok <==> Plausible(page) && !(page.number < |old(entries)| && old(entries)[page.number].ref != 0)
      ensures ok && Tight(old(entries)) ==> Tight(entries)
      ensures ok ==>
        && |old(entries)| <= |entries| && page.number < |entries| && entries[page.number] == EntryOf(page)
        && (forall n :: 0 <= n < |entries| && n != page.number ==>
              entries[n] == if n < |old(entries)| then old(entries)[n] else NO_ENTRY)
    {
      if !Plausible(page) {
        return false;
      }
      if page.number + 1 > |entries| {
        entries := entries + seq(page.number + 1 - |entries|, _ => NO_ENTRY);
      }
      if entries[page.number].ref != 0 {
        return false;
      }
      entries := entries[page.number := EntryOf(page)];
      ok := true;
    }
  }

  /** Decodes a segment's message. It is refused exactly when a page is out of bounds, located twice, or names a
      checkpoint or origin that is not listed. */
  method Parse(message: SegmentMessage) returns (table: Option<Table>)
    ensures table.Some? <==> Acceptable(message)
    ensures table.Some? ==>
      && table.value.Valid() && table.value.refs == message.refs && table.value.origins == message.origins
      && Holds(table.value.entries, message.pages) && Tight(table.value.entries)
  {
    hide Holds, Acceptable, Plausible, Listed, IsHighest;
    var builder := new TableBuilder();
    HoldsNone();
    assert message.pages[..0] == [];
    var i := 0;
    while i < |message.pages|
      invariant i <= |message.pages| && |builder.entries| <= MAXIMUM_SEGMENT_PAGES
      invariant Holds(builder.entries, message.pages[..i]) && Tight(builder.entries)
      invariant forall j :: 0 <= j < i ==> Plausible(message.pages[j])
      invariant forall j, k :: 0 <= j < k < i ==> message.pages[j].number != message.pages[k].number
    {
      ghost var before, pages := builder.entries, message.pages[..i];
      var ok := builder.Add(message.pages[i]);
      if !ok {
        Refused(before, message, i);
        return None;
      }
      HoldsMore(before, builder.entries, pages, message.pages[i]);
      assert message.pages[..i + 1] == pages + [message.pages[i]];
      i := i + 1;
    }
    assert message.pages[..i] == message.pages;
    var listed, parts := Parts(builder.entries, |message.refs|, |message.origins|);
    if !listed {
      Unlisted(builder.entries, message);
      return None;
    }
    table := Some(Table(message.refs, message.origins, builder.entries, parts));
    AllListed(builder.entries, message);
    IsAcceptable(message);
  }

  lemma HoldsNone()
    ensures Holds([], [])
  {
  }

  lemma IsAcceptable(message: SegmentMessage)
    requires forall i :: 0 <= i < |message.pages| ==> Plausible(message.pages[i]) && Listed(message, message.pages[i])
    requires forall i, j :: 0 <= i < j < |message.pages| ==> message.pages[i].number != message.pages[j].number
    ensures Acceptable(message)
  {
  }

  /** The parts each ref's pages need, or that a page names what is not listed. */
  method Parts(entries: seq<TableEntry>, refs: nat, origins: nat) returns (ok: bool, parts: seq<nat>)
    ensures ok <==>
      forall i :: 0 <= i < |entries| && entries[i].ref != 0 ==> entries[i].ref <= refs && entries[i].origin <= origins
    ensures ok ==> |parts| == refs && forall r :: 0 <= r < refs ==> IsHighest(entries, r, parts[r])
  {
    parts := seq(refs, _ => 0);
    for i := 0 to |entries|
      invariant |parts| == refs && forall r :: 0 <= r < refs ==> IsHighest(entries[..i], r, parts[r])
      invariant forall j :: 0 <= j < i && entries[j].ref != 0 ==> entries[j].ref <= refs && entries[j].origin <= origins
    {
      var entry := entries[i];
      assert entries[..i + 1] == entries[..i] + [entry];
      ghost var before := parts;
      if entry.ref != 0 {
        if entry.ref > refs || entry.origin > origins {
          return false, [];
        }
        parts := parts[entry.ref - 1 := Max(parts[entry.ref - 1], entry.part + 1)];
      }
      forall r | 0 <= r < refs ensures IsHighest(entries[..i + 1], r, parts[r]) {
        HighestMore(entries[..i], entry, r, before[r]);
      }
    }
    assert entries[..|entries|] == entries;
    ok := true;
  }

  lemma HighestMore(entries: seq<TableEntry>, entry: TableEntry, r: nat, parts: nat)
    requires IsHighest(entries, r, parts)
    ensures IsHighest(entries + [entry], r, if entry.ref == r + 1 then Max(parts, entry.part + 1) else parts)
  {
    var more, after := entries + [entry], if entry.ref == r + 1 then Max(parts, entry.part + 1) else parts;
    if after > 0 {
      if after == parts {
        var i :| 0 <= i < |entries| && entries[i].ref == r + 1 && entries[i].part == parts - 1;
        assert more[i].ref == r + 1 && more[i].part == after - 1;
      } else {
        assert more[|entries|].part == after - 1;
      }
    }
  }

  lemma HoldsMore(before: seq<TableEntry>, after: seq<TableEntry>, pages: seq<PageMessage>, page: PageMessage)
    requires Holds(before, pages) && |before| <= |after| && page.number < |after| && after[page.number] == EntryOf(page)
    requires !(page.number < |before| && before[page.number].ref != 0)
    requires forall n :: 0 <= n < |after| && n != page.number ==>
      after[n] == if n < |before| then before[n] else NO_ENTRY
    ensures Holds(after, pages + [page])
    ensures forall j :: 0 <= j < |pages| ==> pages[j].number != page.number
  {
    forall n | 0 <= n < |after| && after[n].ref != 0
      ensures exists i :: 0 <= i < |pages + [page]| && (pages + [page])[i].number == n
    {
      if n == page.number {
        assert (pages + [page])[|pages|].number == n;
      } else {
        var i :| 0 <= i < |pages| && pages[i].number == n;
        assert (pages + [page])[i].number == n;
      }
    }
  }

  lemma Refused(before: seq<TableEntry>, message: SegmentMessage, i: nat)
    requires i < |message.pages| && Holds(before, message.pages[..i])
    requires !(Plausible(message.pages[i]) &&
               !(message.pages[i].number < |before| && before[message.pages[i].number].ref != 0))
    ensures !Acceptable(message)
  {
    if Plausible(message.pages[i]) {
      var j :| 0 <= j < i && message.pages[..i][j].number == message.pages[i].number;
      assert message.pages[j].number == message.pages[i].number;
    }
  }

  lemma Unlisted(entries: seq<TableEntry>, message: SegmentMessage)
    requires Holds(entries, message.pages)
    requires exists n ::
      && 0 <= n < |entries| && entries[n].ref != 0
      && !(entries[n].ref <= |message.refs| && entries[n].origin <= |message.origins|)
    ensures !Acceptable(message)
  {
    var n :| 0 <= n < |entries| && entries[n].ref != 0 &&
      !(entries[n].ref <= |message.refs| && entries[n].origin <= |message.origins|);
    var i :| 0 <= i < |message.pages| && message.pages[i].number == n;
    assert !Listed(message, message.pages[i]);
  }

  lemma AllListed(entries: seq<TableEntry>, message: SegmentMessage)
    requires Holds(entries, message.pages)
    requires forall n :: 0 <= n < |entries| && entries[n].ref != 0 ==>
      entries[n].ref <= |message.refs| && entries[n].origin <= |message.origins|
    ensures forall i :: 0 <= i < |message.pages| ==> Listed(message, message.pages[i])
  {
  }

  // -------------------------------------------------------------------- round trips

  ghost predicate IsPage(held: Segment, refs: seq<Ref>, origins: seq<Ref>, page: PageMessage) {
    page.number in held && page == MessageOf(held, refs, origins, page.number)
  }

  /** Messages of pages of a segment below a number, in order. */
  ghost predicate AreItsPages(held: Segment, refs: seq<Ref>, origins: seq<Ref>, n: nat, pages: seq<PageMessage>) {
    && (forall i :: 0 <= i < |pages| ==> pages[i].number < n && IsPage(held, refs, origins, pages[i]))
    && (forall i, j :: 0 <= i < j < |pages| ==> pages[i].number < pages[j].number)
  }

  /** Messages of all a segment's pages below a number, each once. */
  ghost predicate AreThePages(held: Segment, refs: seq<Ref>, origins: seq<Ref>, n: nat, pages: seq<PageMessage>) {
    && AreItsPages(held, refs, origins, n, pages)
    && (forall relative :: relative in held && relative < n ==>
        exists i :: 0 <= i < |pages| && pages[i].number == relative)
  }

  lemma {:induction false} PagesInOrder(held: Segment, refs: seq<Ref>, origins: seq<Ref>, n: nat)
    ensures AreItsPages(held, refs, origins, n, PagesBelow(held, refs, origins, n))
    decreases n
  {
    hide IsPage, MessageOf;
    if n > 0 {
      PagesInOrder(held, refs, origins, n - 1);
      var before, pages := PagesBelow(held, refs, origins, n - 1), PagesBelow(held, refs, origins, n);
      assert forall i :: 0 <= i < |before| ==> pages[i] == before[i];
      if n - 1 in held {
        MessageIsPage(held, refs, origins, n - 1);
        assert pages == before + [MessageOf(held, refs, origins, n - 1)];
      } else {
        assert pages == before;
      }
    }
  }

  lemma {:induction false} PageAmong(held: Segment, refs: seq<Ref>, origins: seq<Ref>, n: nat, relative: nat)
    returns (i: nat)
    requires relative in held && relative < n
    ensures i < |PagesBelow(held, refs, origins, n)| && PagesBelow(held, refs, origins, n)[i].number == relative
    decreases n
  {
    hide MessageOf;
    if relative == n - 1 {
      MessageIsPage(held, refs, origins, relative);
      i := |PagesBelow(held, refs, origins, n - 1)|;
    } else {
      i := PageAmong(held, refs, origins, n - 1, relative);
    }
  }

  lemma PagesAre(held: Segment, refs: seq<Ref>, origins: seq<Ref>, n: nat)
    ensures AreThePages(held, refs, origins, n, PagesBelow(held, refs, origins, n))
  {
    hide IsPage, PagesBelow;
    PagesInOrder(held, refs, origins, n);
    var pages := PagesBelow(held, refs, origins, n);
    forall relative | relative in held && relative < n
      ensures exists i :: 0 <= i < |pages| && pages[i].number == relative
    {
      var i := PageAmong(held, refs, origins, n, relative);
    }
  }

  lemma MessageIsPage(held: Segment, refs: seq<Ref>, origins: seq<Ref>, relative: nat)
    requires relative in held
    ensures IsPage(held, refs, origins, MessageOf(held, refs, origins, relative))
    ensures MessageOf(held, refs, origins, relative).number == relative
  {
  }

  lemma EncodedIsAcceptable(held: Segment)
    requires Encodable(held)
    requires |RefsOf(held)| < MAXIMUM_UINT32
    ensures Acceptable(EncodeSegment(held))
  {
    hide PagesBelow, SortedRefs, IndexOf, RefsOf, MovedOrigins;
    var message := EncodeSegment(held);
    PagesAre(held, message.refs, message.origins, MAXIMUM_SEGMENT_PAGES);
    forall i | 0 <= i < |message.pages| ensures Plausible(message.pages[i]) && Listed(message, message.pages[i]) {
      assert IsPage(held, message.refs, message.origins, message.pages[i]);
      RefIsListed(held, message.pages[i].number);
    }
  }

  lemma RefIsListed(held: Segment, relative: nat)
    requires relative in held
    ensures held[relative].ref in SortedRefs(RefsOf(held))
    ensures held[relative].origin !in SortedRefs(MovedOrigins(held)) ==> held[relative].origin == held[relative].ref
  {
    hide SortedRefs;
    assert held[relative].ref in RefsOf(held);
    if held[relative].origin != held[relative].ref { assert held[relative].origin in MovedOrigins(held); }
  }

  /** A segment has no more checkpoints than pages. */
  lemma {:induction false} FewRefs(held: Segment)
    ensures |RefsOf(held)| <= |held|
    decreases |held|
  {
    if held != map[] {
      var relative :| relative in held;
      var rest := held - {relative};
      FewRefs(rest);
      forall ref | ref in RefsOf(held) ensures ref in RefsOf(rest) + {held[relative].ref} {
        var other :| other in held && held[other].ref == ref;
        if other != relative { assert rest[other].ref == ref; }
      }
      Sums.SubsetSize(RefsOf(held), RefsOf(rest) + {held[relative].ref});
      assert |rest| == |held| - 1;
    }
  }

  lemma {:induction false} FewPages(held: Segment, n: nat)
    requires forall relative :: relative in held ==> relative < n
    ensures |held| <= n
    decreases n
  {
    if n == 0 {
      assert held == map[];
    } else if n - 1 in held {
      FewPages(held - {n - 1}, n - 1);
      assert |held - {n - 1}| == |held| - 1;
    } else {
      FewPages(held, n - 1);
    }
  }

  /** Every segment a publication may write is encoded to a message that decodes. */
  lemma EncodingDecodes(held: Segment)
    requires Encodable(held)
    ensures Acceptable(EncodeSegment(held))
  {
    FewRefs(held);
    FewPages(held, MAXIMUM_SEGMENT_PAGES);
    EncodedIsAcceptable(held);
  }

  /** What decodes from a segment's message means the segment. */
  lemma SegmentRoundTrip(held: Segment, table: Table)
    requires Encodable(held) && table.Valid()
    requires table.refs == EncodeSegment(held).refs && table.origins == EncodeSegment(held).origins
    requires Holds(table.entries, EncodeSegment(held).pages)
    ensures table.Meaning() == held
  {
    hide EncodeSegment, Holds, IsHighest, Encodable, Table.Meaning;
    forall relative | relative in held
      ensures relative in table.Meaning() && table.Meaning()[relative] == held[relative]
    {
      PageRoundTrip(held, table, relative);
    }
    forall relative | relative in table.Meaning() ensures relative in held {
      OnlyItsPages(held, table, relative);
    }
  }

  lemma PageRoundTrip(held: Segment, table: Table, relative: nat)
    requires Encodable(held) && table.Valid() && relative in held
    requires table.refs == EncodeSegment(held).refs && table.origins == EncodeSegment(held).origins
    requires Holds(table.entries, EncodeSegment(held).pages)
    ensures relative in table.Meaning() && table.Meaning()[relative] == held[relative]
  {
    hide PagesBelow, SortedRefs, IndexOf, RefsOf, MovedOrigins, MessageOf, EntryOf, IsHighest, Encodable;
    var message := EncodeSegment(held);
    PagesAre(held, message.refs, message.origins, MAXIMUM_SEGMENT_PAGES);
    InRange(held, relative);
    var i :| 0 <= i < |message.pages| && message.pages[i].number == relative;
    assert IsPage(held, message.refs, message.origins, message.pages[i]);
    EntryMeans(held, table, message.refs, message.origins, relative);
  }

  lemma OnlyItsPages(held: Segment, table: Table, relative: nat)
    requires table.Valid() && Holds(table.entries, EncodeSegment(held).pages) && relative in table.Meaning()
    ensures relative in held
  {
    hide PagesBelow, SortedRefs, IndexOf, RefsOf, MovedOrigins, MessageOf, EntryOf, IsHighest;
    var message := EncodeSegment(held);
    PagesAre(held, message.refs, message.origins, MAXIMUM_SEGMENT_PAGES);
    var i :| 0 <= i < |message.pages| && message.pages[i].number == relative;
    assert IsPage(held, message.refs, message.origins, message.pages[i]);
  }

  lemma InRange(held: Segment, relative: nat)
    requires Encodable(held) && relative in held
    ensures relative < MAXIMUM_SEGMENT_PAGES
  {
  }

  lemma EntryMeans(held: Segment, table: Table, refs: seq<Ref>, origins: seq<Ref>, relative: nat)
    requires relative in held && refs == SortedRefs(RefsOf(held)) && origins == SortedRefs(MovedOrigins(held))
    requires table.refs == refs && table.origins == origins
    ensures var entry := EntryOf(MessageOf(held, refs, origins, relative));
      entry.ref != 0 && table.Names(entry) && table.LocationOf(entry) == held[relative]
  {
    hide SortedRefs, IndexOf, RefsOf, MovedOrigins;
    RefIsListed(held, relative);
  }

  /** The segment a publication may change, read off the table. */
  method Mutable(table: Table) returns (held: Segment)
    requires table.Valid()
    ensures held == table.Meaning()
  {
    held := map[];
    for relative := 0 to |table.entries|
      invariant held == map r | 0 <= r < relative && table.entries[r].ref != 0 :: table.LocationOf(table.entries[r])
    {
      var at := table.At(relative);
      if at.Some? {
        held := held[relative := at.value];
      }
    }
  }

  // ------------------------------------------------------------------ checking a root

  /** A root refuses exactly the tables with a page past its geometry's segment, or a page in a checkpoint it does not
      name with that many parts. */
  method CheckTable(index: Index, volume: string, table: Table) returns (ok: bool)
    requires table.Valid()
    ensures ok <==>
      && volume in index.volumes && |table.entries| <= index.volumes[volume].geometry.segmentPages
      && forall relative :: relative in table.Meaning() ==>
           var at := table.Meaning()[relative]; at.ref in index.checkpoints && at.part < index.checkpoints[at.ref].parts
  {
    if volume !in index.volumes {
      return false;
    }
    if |table.entries| > index.volumes[volume].geometry.segmentPages {
      return false;
    }
    for r := 0 to |table.refs|
      invariant forall s :: 0 <= s < r && table.parts[s] != 0 ==>
        table.refs[s] in index.checkpoints && table.parts[s] <= index.checkpoints[table.refs[s]].parts
    {
      if table.parts[r] != 0 {
        if table.refs[r] !in index.checkpoints || table.parts[r] > index.checkpoints[table.refs[r]].parts {
          HighestIsRead(table, r);
          return false;
        }
      }
    }
    ok := true;
    forall relative | relative in table.Meaning()
      ensures var at := table.Meaning()[relative];
        at.ref in index.checkpoints && at.part < index.checkpoints[at.ref].parts
    {
      var entry := table.entries[relative];
      assert IsHighest(table.entries, entry.ref - 1, table.parts[entry.ref - 1]);
    }
  }

  lemma HighestIsRead(table: Table, r: nat)
    requires table.Valid() && r < |table.refs| && table.parts[r] != 0
    ensures exists relative :: relative in table.Meaning() && table.Meaning()[relative].ref == table.refs[r]
                               && table.Meaning()[relative].part == table.parts[r] - 1
  {
    assert IsHighest(table.entries, r, table.parts[r]);
    var i :| 0 <= i < |table.entries| && table.entries[i].ref == r + 1 && table.entries[i].part == table.parts[r] - 1;
    assert i in table.Meaning();
  }

  /** Every root that is consistent with itself accepts the table of each segment it addresses. */
  lemma RootAcceptsItsTables(store: Store, index: Index, key: SegmentKey, table: Table)
    requires WellFormed(store, index) && key in index.segments && table.Valid() && Tight(table.entries)
    requires table.Meaning() == TableOf(store, index, key)
    ensures key.volume in index.volumes && |table.entries| <= index.volumes[key.volume].geometry.segmentPages
    ensures forall relative :: relative in table.Meaning() ==>
      var at := table.Meaning()[relative]; at.ref in index.checkpoints && at.part < index.checkpoints[at.ref].parts
  {
    hide Table.Valid, Table.Names, ReadsOf, IsHighest;
    assert SegmentReadable(store, index, key);
    var held := store.tables[index.segments[key].at];
    if table.entries != [] {
      LastIsLocated(table);
      assert |table.entries| - 1 in held;
    }
    forall relative | relative in table.Meaning()
      ensures var at := table.Meaning()[relative];
        at.ref in index.checkpoints && at.part < index.checkpoints[at.ref].parts
    {
      assert Readable(store, index.checkpoints, held[relative]);
    }
  }

  lemma LastIsLocated(table: Table)
    requires table.Valid() && Tight(table.entries) && table.entries != []
    ensures |table.entries| - 1 in table.Meaning()
  {
  }

  /** And what it addresses can be encoded, where its checkpoints have fewer parts than 32 bits count. */
  lemma RootsAreEncodable(store: Store, index: Index, key: SegmentKey)
    requires WellFormed(store, index) && key in index.segments
    requires forall ref :: ref in index.checkpoints ==> index.checkpoints[ref].parts <= MAXIMUM_UINT32
    ensures Encodable(TableOf(store, index, key))
  {
    assert SegmentReadable(store, index, key);
    var held := store.tables[index.segments[key].at];
    forall relative | relative in held
      ensures relative < MAXIMUM_SEGMENT_PAGES && held[relative].length > 0
        && held[relative].offset + held[relative].length <= MAXIMUM_PART_SIZE && held[relative].part < MAXIMUM_UINT32
    {
      assert Readable(store, index.checkpoints, held[relative]);
    }
  }
}
