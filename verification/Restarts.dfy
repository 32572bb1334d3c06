/** Rebuilding the disk's index from its regions' tables.

A restart reads the regions back newest first and names each item no newer region has
named, so what it finds for a key is the first entry of it in the newest region that
has one. While the cache runs, the copy it uses is the newest region's last. The two
agree exactly when no region names a key twice.
*/
module Restarts {
  import opened Bitmaps
  import opened WindowEntries
  import opened DiskIndexes
  import Slots

  /** One item a region's table names. */
  datatype TableItem = TableItem(key: ItemKey, offset: nat, length: nat)

  /** A table is refused unless every item it names is one that could have been stored. */
  ghost predicate Storable(item: TableItem) {
    item.key.page < WINDOW_PAGES && item.key.stripe < MAXIMUM_STRIPES && item.length < LENGTH_UNIT
  }

  datatype TableRegion = TableRegion(slot: nat, base: nat, items: seq<TableItem>)

  ghost predicate AllStorable(region: TableRegion) { forall i :: 0 <= i < |region.items| ==> Storable(region.items[i]) }

  function CopyOf(region: TableRegion, item: TableItem): Copy {
    Copy(item.key, Place(region.slot, region.base + item.offset, item.length))
  }

  // ------------------------------------------------------------- what a restart finds

  /** The copies after a region's first n items are read back. */
  ghost function AfterItems(copies: set<Copy>, region: TableRegion, n: nat): set<Copy>
    requires n <= |region.items|
  {
    if n == 0 then copies
    else
      var before, item := AfterItems(copies, region, n - 1), region.items[n - 1];
      if Holds(before, item.key) then before else before + {CopyOf(region, item)}
  }

  /** The copies after regions are read back in turn. */
  ghost function AfterRegions(order: seq<TableRegion>): set<Copy> {
    if order == [] then {}
    else
      var last := order[|order| - 1];
      AfterItems(AfterRegions(order[..|order| - 1]), last, |last.items|)
  }

  ghost predicate Names(region: TableRegion, key: ItemKey) {
    exists i :: 0 <= i < |region.items| && region.items[i].key == key
  }

  /** The first entry of its key in its region. */
  ghost predicate FirstAt(region: TableRegion, i: nat) {
    i < |region.items| && forall j :: 0 <= j < i ==> region.items[j].key != region.items[i].key
  }

  ghost predicate IsEntry(region: TableRegion, i: nat, copy: Copy) {
    i < |region.items| && CopyOf(region, region.items[i]) == copy
  }

  lemma {:induction false} ItemsFind(copies: set<Copy>, region: TableRegion, n: nat, copy: Copy)
    requires n <= |region.items|
    ensures copy in AfterItems(copies, region, n) <==>
      || copy in copies
      || (!Holds(copies, copy.key) && exists i :: 0 <= i < n && FirstAt(region, i) && IsEntry(region, i, copy))
    ensures Holds(AfterItems(copies, region, n), copy.key) <==>
      Holds(copies, copy.key) || exists i :: 0 <= i < n && region.items[i].key == copy.key
    decreases n
  {
    if n > 0 {
      ItemsFind(copies, region, n - 1, copy);
      var before, item := AfterItems(copies, region, n - 1), region.items[n - 1];
      ItemsFind(copies, region, n - 1, CopyOf(region, item));
      ItemStep(copies, before, region, n - 1, copy);
    }
  }

  /** One more item read back. */
  lemma ItemStep(copies: set<Copy>, before: set<Copy>, region: TableRegion, n: nat, copy: Copy)
    requires n < |region.items|
    requires copy in before <==>
      copy in copies ||
        (!Holds(copies, copy.key) && exists i :: 0 <= i < n && FirstAt(region, i) && IsEntry(region, i, copy))
    requires Holds(before, copy.key) <==>
      Holds(copies, copy.key) || exists i :: 0 <= i < n && region.items[i].key == copy.key
    requires Holds(before, region.items[n].key) <==>
      Holds(copies, region.items[n].key) || exists i :: 0 <= i < n && region.items[i].key == region.items[n].key
    ensures var after :=
      if Holds(before, region.items[n].key) then before else before + {CopyOf(region, region.items[n])};
      && (copy in after <==>
            copy in copies ||
              (&& !Holds(copies, copy.key)
               && exists i :: 0 <= i < n + 1 && FirstAt(region, i) && IsEntry(region, i, copy)))
      && (Holds(after, copy.key) <==>
            Holds(copies, copy.key) || exists i :: 0 <= i < n + 1 && region.items[i].key == copy.key)
  {
    var item := region.items[n];
    var taken := CopyOf(region, item);
    var after := if Holds(before, item.key) then before else before + {taken};
    assert FirstAt(region, n) <==> !exists i :: 0 <= i < n && region.items[i].key == item.key;
    if !Holds(before, item.key) {
      assert taken in after && taken == Copy(item.key, taken.place);
      assert Holds(after, copy.key) <==> Holds(before, copy.key) || copy.key == item.key;
    }
  }

  /** Read back first: no region before it names the key. */
  ghost predicate NamedFirstBy(order: seq<TableRegion>, r: nat, key: ItemKey) {
    r < |order| && Names(order[r], key) && forall q :: 0 <= q < r ==> !Names(order[q], key)
  }

  ghost predicate Finds(order: seq<TableRegion>, r: nat, i: nat, copy: Copy) {
    NamedFirstBy(order, r, copy.key) && FirstAt(order[r], i) && IsEntry(order[r], i, copy)
  }

  /** What is found for a key is the first entry of it in the first region read back that has one. */
  lemma {:induction false} RegionsFind(order: seq<TableRegion>, copy: Copy)
    ensures copy in AfterRegions(order) <==>
      exists r, i :: Finds(order, r, i, copy)
    ensures Holds(AfterRegions(order), copy.key) <==> exists r :: 0 <= r < |order| && Names(order[r], copy.key)
  {
    if order == [] {
      assert !Holds({}, copy.key);
    } else {
      var front, last := order[..|order| - 1], order[|order| - 1];
      RegionsFind(front, copy);
      ItemsFind(AfterRegions(front), last, |last.items|, copy);
      RegionStep(order, AfterRegions(front), copy);
    }
  }

  lemma RegionStep(order: seq<TableRegion>, before: set<Copy>, copy: Copy)
    requires order != []
    requires var front := order[..|order| - 1];
      && (copy in before <==>
            exists r, i :: Finds(front, r, i, copy))
      && (Holds(before, copy.key) <==> exists r :: 0 <= r < |front| && Names(front[r], copy.key))
    ensures var last := order[|order| - 1];
      && ((|| copy in before
           || (&& !Holds(before, copy.key)
               && exists i :: 0 <= i < |last.items| && FirstAt(last, i) && IsEntry(last, i, copy))) <==>
            exists r, i :: Finds(order, r, i, copy))
      && (Holds(before, copy.key) || Names(last, copy.key) <==>
          exists r :: 0 <= r < |order| && Names(order[r], copy.key))
  {
    hide FirstAt;
    var n := |order| - 1;
    var front, last, key := order[..n], order[n], copy.key;
    assert forall r :: 0 <= r < n ==> front[r] == order[r];
    assert forall i: nat :: IsEntry(last, i, copy) ==> Names(last, key);
    assert NamedFirstBy(order, n, key) <==> Names(last, key) && !Holds(before, key);
    forall r: nat, i: nat | r < n ensures Finds(front, r, i, copy) <==> Finds(order, r, i, copy) {
    }
    assert copy in before ==> exists r, i :: Finds(order, r, i, copy);
    forall i: nat | i < |last.items| && FirstAt(last, i) && IsEntry(last, i, copy) && !Holds(before, key)
      ensures Finds(order, n, i, copy)
    {
    }
  }

  // ------------------------------------------------------------- what the cache uses

  /** The log as it runs: its regions' tables, oldest first, and the copies the index uses. */
  datatype Log = Log(regions: seq<TableRegion>, live: set<Copy>)

  ghost predicate LastAt(region: TableRegion, i: nat) {
    i < |region.items| && forall j :: i < j < |region.items| ==> region.items[j].key != region.items[i].key
  }

  /** Entries of one region lie one after another, and regions in slots of their own. */
  ghost predicate LaidOut(regions: seq<TableRegion>) {
    && (forall r :: 0 <= r < |regions| ==> Spread(regions[r]))
    && (forall q, r :: 0 <= q < r < |regions| ==> regions[q].slot != regions[r].slot)
  }

  ghost predicate Spread(region: TableRegion) {
    forall i, j :: 0 <= i < j < |region.items| ==> region.items[i].offset < region.items[j].offset
  }

  ghost predicate LiesAt(regions: seq<TableRegion>, r: nat, i: nat, copy: Copy) {
    && r < |regions| && IsEntry(regions[r], i, copy) && LastAt(regions[r], i)
    && forall q :: r < q < |regions| ==> !Names(regions[q], copy.key)
  }

  /** The copy in use is the last entry of its key in the newest region that names it. */
  ghost predicate Newest(regions: seq<TableRegion>, copy: Copy) { exists r, i :: LiesAt(regions, r, i, copy) }

  ghost predicate LogInv(log: Log) {
    LaidOut(log.regions) && OneEach(log.live) && forall copy :: copy in log.live ==> Newest(log.regions, copy)
  }

  ghost function Opened(log: Log, slot: nat, base: nat): Log {
    log.(regions := log.regions + [TableRegion(slot, base, [])])
  }

  /** An item laid at the end of the newest region, and named in the index. */
  ghost function Filled(log: Log, item: TableItem): Log
    requires log.regions != []
  {
    var n := |log.regions| - 1;
    var region := log.regions[n].(items := log.regions[n].items + [item]);
    Log(log.regions[n := region], log.live + {CopyOf(region, item)})
  }

  ghost predicate CanFill(log: Log, item: TableItem) {
    log.regions != [] && EndsBefore(log.regions[|log.regions| - 1], item.offset)
  }

  ghost predicate EndsBefore(region: TableRegion, offset: nat) {
    forall i :: 0 <= i < |region.items| ==> region.items[i].offset < offset
  }

  ghost function Forgotten(log: Log, copy: Copy): Log { log.(live := log.live - {copy}) }

  /** A second chance: a live copy is laid again, and its first copy is about to go. */
  ghost function Rescued(log: Log, copy: Copy, item: TableItem): Log
    requires log.regions != []
  {
    Filled(Forgotten(log, copy), item)
  }

  ghost function Evicted(log: Log): Log
    requires log.regions != []
  {
    Log(log.regions[1..], set copy | copy in log.live && copy.place.region != log.regions[0].slot)
  }

  lemma OpenedKeeps(log: Log, slot: nat, base: nat)
    requires LogInv(log) && forall r :: 0 <= r < |log.regions| ==> log.regions[r].slot != slot
    ensures LogInv(Opened(log, slot, base))
  {
    var after := Opened(log, slot, base);
    forall copy | copy in log.live ensures Newest(after.regions, copy) {
      var r: nat, i: nat :| LiesAt(log.regions, r, i, copy);
      assert LiesAt(after.regions, r, i, copy);
    }
  }

  /** A fill names only what the index does not hold. */
  lemma FilledKeeps(log: Log, item: TableItem)
    requires LogInv(log) && CanFill(log, item) && !Holds(log.live, item.key)
    ensures LogInv(Filled(log, item))
  {
    var after, n := Filled(log, item), |log.regions| - 1;
    var was, region := log.regions[n], after.regions[n];
    assert LiesAt(after.regions, n, |was.items|, CopyOf(region, item));
    forall copy | copy in log.live ensures Newest(after.regions, copy) {
      var r: nat, i: nat :| LiesAt(log.regions, r, i, copy);
      assert copy.key != item.key by { assert copy == Copy(copy.key, copy.place); }
      assert forall key :: key != item.key ==> (Names(region, key) ==> Names(was, key));
      assert LiesAt(after.regions, r, i, copy);
    }
    assert OneEach(after.live) by {
      assert forall copy :: copy in log.live ==> copy == Copy(copy.key, copy.place);
    }
  }

  lemma ForgottenKeeps(log: Log, copy: Copy)
    requires LogInv(log)
    ensures LogInv(Forgotten(log, copy))
  {
  }

  lemma RescuedKeeps(log: Log, copy: Copy, item: TableItem)
    requires LogInv(log) && copy in log.live && item.key == copy.key && CanFill(log, item)
    ensures LogInv(Rescued(log, copy, item))
  {
    hide LogInv;
    ForgottenKeeps(log, copy);
    assert !Holds(Forgotten(log, copy).live, item.key) by { OnlyCopy(log, copy); }
    FilledKeeps(Forgotten(log, copy), item);
  }

  lemma OnlyCopy(log: Log, copy: Copy)
    requires LogInv(log) && copy in log.live
    ensures !Holds(log.live - {copy}, copy.key)
  {
  }

  lemma EvictedKeeps(log: Log)
    requires LogInv(log) && log.regions != []
    ensures LogInv(Evicted(log))
  {
    var after := Evicted(log);
    forall copy | copy in after.live ensures Newest(after.regions, copy) {
      var r: nat, i: nat :| LiesAt(log.regions, r, i, copy);
      assert r > 0;
      assert LiesAt(after.regions, r - 1, i, copy);
    }
  }

  // ------------------------------------------------------------------ the two agree

  /** The tables are read back newest first. */
  ghost function Reversed(regions: seq<TableRegion>): seq<TableRegion> {
    seq(|regions|, i requires 0 <= i < |regions| => regions[|regions| - 1 - i])
  }

  ghost predicate NamesOnce(region: TableRegion, key: ItemKey) {
    forall i, j ::
      0 <= i < |region.items| && 0 <= j < |region.items| && region.items[i].key == region.items[j].key == key ==> i == j
  }

  /** After a clean shutdown the restart finds a copy the cache used, where it used it, exactly when the copy's region
      names its key once. */
  lemma RestartFindsIff(log: Log, copy: Copy, r: nat, i: nat)
    requires LogInv(log) && copy in log.live && LiesAt(log.regions, r, i, copy)
    ensures copy in AfterRegions(Reversed(log.regions)) <==> NamesOnce(log.regions[r], copy.key)
  {
    hide AfterRegions;
    var order, region := Reversed(log.regions), log.regions[r];
    var at := |log.regions| - 1 - r;
    RegionsFind(order, copy);
    assert Names(region, copy.key);
    assert order[at] == region;
    assert forall q :: 0 <= q < at ==> order[q] == log.regions[|log.regions| - 1 - q];
    assert NamedFirstBy(order, at, copy.key);
    if NamesOnce(region, copy.key) {
      assert Finds(order, at, i, copy);
    }
    if copy in AfterRegions(order) {
      var s: nat, j: nat :| Finds(order, s, j, copy);
      assert s == at;
      assert i == j;
    }
  }

  /** Whatever the cache used, the restart finds something for: nothing becomes a miss. */
  lemma RestartLosesNothing(log: Log, copy: Copy)
    requires LogInv(log) && copy in log.live
    ensures Holds(AfterRegions(Reversed(log.regions)), copy.key)
  {
    hide AfterRegions;
    var r: nat, i: nat :| LiesAt(log.regions, r, i, copy);
    RegionsFind(Reversed(log.regions), copy);
    assert Names(log.regions[r], copy.key);
    assert Reversed(log.regions)[|log.regions| - 1 - r] == log.regions[r];
  }

  // --------------------------------------------------------------------- runs

  datatype LogAction =
    | Open(slot: nat, base: nat)
    | Fill(item: TableItem)
    | Forget(copy: Copy)
    | Rescue(copy: Copy, item: TableItem)
    | Evict

  ghost predicate CanLog(log: Log, a: LogAction) {
    match a
    case Open(slot, _) => forall r :: 0 <= r < |log.regions| ==> log.regions[r].slot != slot
    case Fill(item) => CanFill(log, item) && !Holds(log.live, item.key)
    case Forget(_) => true
    case Rescue(copy, item) => copy in log.live && item.key == copy.key && CanFill(log, item)
    case Evict => log.regions != []
  }

  ghost function AfterAction(log: Log, a: LogAction): Log
    requires CanLog(log, a)
  {
    match a
    case Open(slot, base) => Opened(log, slot, base)
    case Fill(item) => Filled(log, item)
    case Forget(copy) => Forgotten(log, copy)
    case Rescue(copy, item) => Rescued(log, copy, item)
    case Evict => Evicted(log)
  }

  /** A log from empty, through any opens, fills, losses, rescues and evictions. */
  ghost predicate IsLogRun(logs: seq<Log>, actions: seq<LogAction>) {
    && |logs| == |actions| + 1 && logs[0] == Log([], {})
    && forall i :: 0 <= i < |actions| ==> CanLog(logs[i], actions[i]) && logs[i + 1] == AfterAction(logs[i], actions[i])
  }

  lemma {:induction false} LogRunKeeps(logs: seq<Log>, actions: seq<LogAction>, n: nat)
    requires IsLogRun(logs, actions) && n < |logs|
    ensures LogInv(logs[n])
    decreases n
  {
    hide LogInv, Holds, CanFill, Opened, Filled, Forgotten, Rescued, Evicted;
    if n == 0 {
      EmptyLog();
    } else {
      LogRunKeeps(logs, actions, n - 1);
      var log, a := logs[n - 1], actions[n - 1];
      assert logs[n - 1 + 1] == AfterAction(log, a);
      match a
      case Open(slot, base) => OpenedKeeps(log, slot, base);
      case Fill(item) => FilledKeeps(log, item);
      case Forget(copy) => ForgottenKeeps(log, copy);
      case Rescue(copy, item) => RescuedKeeps(log, copy, item);
      case Evict => EvictedKeeps(log);
    }
  }

  /** A log whose one region holds an item that was lost and kept again. */
  lemma RefillInPlace(key: ItemKey) returns (log: Log)
    ensures var region := TableRegion(0, 0, [TableItem(key, 0, 1), TableItem(key, 100, 1)]);
      log == Log([region], {CopyOf(region, region.items[1])}) && LogInv(log)
  {
    hide LogInv;
    var first, second := TableItem(key, 0, 1), TableItem(key, 100, 1);
    var none := Log([], {});
    assert LogInv(none) by { EmptyLog(); }
    OpenedKeeps(none, 0, 0);
    var empty := Opened(none, 0, 0);
    FilledKeeps(empty, first);
    var filled := Filled(empty, first);
    var lost := CopyOf(filled.regions[0], first);
    ForgottenKeeps(filled, lost);
    assert Forgotten(filled, lost).live == {};
    FilledKeeps(Forgotten(filled, lost), second);
    log := Filled(Forgotten(filled, lost), second);
    assert filled.regions[0].items == [first];
    assert log.regions[0].items == [first, second];
    assert log.regions == [TableRegion(0, 0, [first, second])];
  }

  lemma EmptyLog()
    ensures LogInv(Log([], {}))
  {
  }

  /** An item lost and kept again in the same open region is named twice by its table, and the restart takes the copy
      that was lost. */
  lemma RefilledInPlaceIsLost(key: ItemKey) returns (log: Log, copy: Copy, lost: Copy)
    ensures LogInv(log) && copy in log.live && lost !in log.live && lost.key == copy.key == key
    ensures copy !in AfterRegions(Reversed(log.regions)) && lost in AfterRegions(Reversed(log.regions))
  {
    hide AfterRegions, LogInv;
    log := RefillInPlace(key);
    var region := log.regions[0];
    lost, copy := CopyOf(region, region.items[0]), CopyOf(region, region.items[1]);
    assert LiesAt(log.regions, 0, 1, copy);
    RestartFindsIff(log, copy, 0, 1);
    assert region.items[0].key == region.items[1].key;
    RegionsFind(Reversed(log.regions), lost);
    assert Reversed(log.regions)[0] == region && Names(region, key);
    assert Finds(Reversed(log.regions), 0, 0, lost);
  }

  // ------------------------------------------------------------- reading regions back

  datatype Trailer = Trailed(sequence: nat) | TornTrailer | NoTrailer | UnreadableTrailer

  datatype TableRead = TableOf(generation: nat, items: seq<TableItem>) | TornTable | UnreadableTable

  /** What the disk gives back of one slot: its trailer, its table, and its items scanned from their headers. */
  datatype SlotRead = SlotRead(trailer: Trailer, table: TableRead, scanned: seq<TableItem>)

  /** A region found, with the sequence its trailer says. */
  datatype Found = Found(slot: nat, sequence: nat)

  ghost predicate NewestFirst(s: seq<Found>) { forall i, j :: 0 <= i < j < |s| ==> s[i].sequence >= s[j].sequence }

  function SlotsOf(s: seq<Found>): seq<nat> { seq(|s|, i requires 0 <= i < |s| => s[i].slot) }

  function InsertNewest(s: seq<Found>, x: Found): seq<Found> {
    if s == [] || x.sequence >= s[0].sequence then [x] + s else [s[0]] + InsertNewest(s[1..], x)
  }

  lemma {:induction false} InsertNewestHolds(s: seq<Found>, x: Found)
    ensures multiset(InsertNewest(s, x)) == multiset(s) + multiset{x}
  {
    if s != [] && x.sequence < s[0].sequence {
      InsertNewestHolds(s[1..], x);
      assert s == [s[0]] + s[1..];
    }
  }

  lemma {:induction false} InsertNewestIs(s: seq<Found>, x: Found)
    requires NewestFirst(s)
    ensures NewestFirst(InsertNewest(s, x)) && multiset(InsertNewest(s, x)) == multiset(s) + multiset{x}
  {
    InsertNewestHolds(s, x);
    if s != [] && x.sequence < s[0].sequence {
      var rest := s[1..];
      InsertNewestIs(rest, x);
      var after := InsertNewest(rest, x);
      forall i | 0 <= i < |after| ensures after[i].sequence <= s[0].sequence {
        assert after[i] in multiset(rest) + multiset{x};
        if after[i] != x {
          var k :| 0 <= k < |rest| && rest[k] == after[i];
          assert rest[k] == s[k + 1];
        }
      }
    }
  }

  /** Newest first, so the index keeps the newest copy of an item. */
  method SortNewest(s: seq<Found>) returns (sorted: seq<Found>)
    ensures NewestFirst(sorted) && multiset(sorted) == multiset(s)
  {
    sorted := [];
    for i := 0 to |s|
      invariant NewestFirst(sorted) && multiset(sorted) == multiset(s[..i])
    {
      InsertNewestIs(sorted, s[i]);
      sorted := InsertNewest(sorted, s[i]);
      assert s[..i + 1] == s[..i] + [s[i]];
    }
    assert s[..|s|] == s;
  }

  /** What a restart has decided about a slot. */
  datatype Fate = Tabled | Torn | Kept | Gone

  ghost predicate Once(s: seq<nat>) { forall i, j :: 0 <= i < j < |s| ==> s[i] != s[j] }

  /** A list has exactly the slots of one fate, each once. */
  ghost predicate Lists(fate: map<nat, Fate>, s: seq<nat>, kind: Fate) {
    Once(s) && forall slot :: slot in s <==> slot in fate && fate[slot] == kind
  }

  lemma Taken(fate: map<nat, Fate>, s: seq<nat>, kind: Fate, to: Fate)
    requires s != [] && Lists(fate, s, kind) && to != kind
    ensures Lists(fate[s[0] := to], s[1..], kind) && s[0] in fate && fate[s[0]] == kind
  {
    assert s == [s[0]] + s[1..];
    assert s[0] in s;
  }

  lemma Given(fate: map<nat, Fate>, s: seq<nat>, slot: nat, to: Fate)
    requires Lists(fate, s, to) && slot in fate && fate[slot] != to
    ensures Lists(fate[slot := to], s + [slot], to)
  {
    assert slot !in s;
  }

  /** A slot nothing was known of. */
  lemma ListedNew(fate: map<nat, Fate>, tabled: seq<nat>, torn: seq<nat>, gone: seq<nat>, slot: nat, to: Fate)
    requires Lists(fate, tabled, Tabled) && Lists(fate, torn, Torn) && Lists(fate, gone, Gone) && Lists(fate, [], Kept)
    requires slot !in fate && to != Kept
    ensures var after := fate[slot := to];
      && Lists(after, if to == Tabled then tabled + [slot] else tabled, Tabled)
      && Lists(after, if to == Torn then torn + [slot] else torn, Torn)
      && Lists(after, if to == Gone then gone + [slot] else gone, Gone) && Lists(after, [], Kept)
  {
  }

  lemma Untouched(fate: map<nat, Fate>, s: seq<nat>, kind: Fate, slot: nat, to: Fate)
    requires Lists(fate, s, kind) && slot in fate && fate[slot] != kind && to != kind
    ensures Lists(fate[slot := to], s, kind)
  {
  }

  ghost predicate AllReadable(slots: seq<SlotRead>) {
    forall slot :: 0 <= slot < |slots| ==> ReadsStorable(slots[slot])
  }

  ghost predicate ReadsStorable(read: SlotRead) {
    && (forall i :: 0 <= i < |read.scanned| ==> Storable(read.scanned[i]))
    && (read.table.TableOf? ==> forall i :: 0 <= i < |read.table.items| ==> Storable(read.table.items[i]))
  }

  /** A whole table of this file's. */
  predicate HasTable(read: SlotRead, generation: nat) { read.table.TableOf? && read.table.generation == generation }

  function Base(slot: nat, regionBytes: nat): nat { (slot + 1) * regionBytes }

  function TabledRegion(slots: seq<SlotRead>, slot: nat, regionBytes: nat): TableRegion
    requires slot < |slots|
  {
    TableRegion(slot, Base(slot, regionBytes), if slots[slot].table.TableOf? then slots[slot].table.items else [])
  }

  function ScannedRegion(slots: seq<SlotRead>, slot: nat, regionBytes: nat): TableRegion
    requires slot < |slots|
  {
    TableRegion(slot, Base(slot, regionBytes), slots[slot].scanned)
  }

  /** The regions with whole tables, in the order given. */
  ghost function TablesOf(slots: seq<SlotRead>, found: seq<Found>, generation: nat,
                          regionBytes: nat): seq<TableRegion>
  {
    if found == [] then []
    else
      var before, slot := TablesOf(slots, found[..|found| - 1], generation, regionBytes), found[|found| - 1].slot;
      if slot < |slots| && HasTable(slots[slot], generation) then before + [TabledRegion(slots, slot, regionBytes)]
        else before
  }

  ghost function ScansOf(slots: seq<SlotRead>, torn: seq<nat>, regionBytes: nat): seq<TableRegion> {
    if torn == [] then []
    else
      var before, slot := ScansOf(slots, torn[..|torn| - 1], regionBytes), torn[|torn| - 1];
      if slot < |slots| then before + [ScannedRegion(slots, slot, regionBytes)] else before
  }

  ghost predicate Within(copies: set<Copy>, slots: seq<nat>) {
    forall copy :: copy in copies ==> copy.place.region in slots
  }

  lemma {:induction false} AddsItsOwn(copies: set<Copy>, region: TableRegion, n: nat, copy: Copy)
    requires n <= |region.items| && copy in AfterItems(copies, region, n)
    ensures copy in copies || copy.place.region == region.slot
    decreases n
  {
    if n > 0 && copy in AfterItems(copies, region, n - 1) { AddsItsOwn(copies, region, n - 1, copy); }
  }

  lemma OneMore(order: seq<TableRegion>, region: TableRegion)
    ensures AfterRegions(order + [region]) == AfterItems(AfterRegions(order), region, |region.items|)
  {
    assert (order + [region])[..|order|] == order;
  }

  ghost predicate NoneIn(copies: set<Copy>, slot: nat) { forall copy :: copy in copies ==> copy.place.region != slot }

  class Recovery {
    const index: DiskIndex
    const indexLimit: nat
    var full: bool

    ghost predicate Valid()
      reads this, index, index.known
    {
      index.Valid()
    }

    constructor (index: DiskIndex, indexLimit: nat)
      ensures this.index == index && this.indexLimit == indexLimit && !full
    {
      this.index, this.indexLimit, full := index, indexLimit, false;
    }

    /** Names a region's items the index does not have yet. A region that takes the index past its bound, or names
        nothing new, is not kept, and leaves the index as it was. */
    method Keep(region: TableRegion) returns (kept: bool)
      requires Valid() && !full && AllStorable(region) && NoneIn(index.copies, region.slot)
      modifies this`full, index, index.known
      ensures Valid() && old(index.known) <= index.known && fresh(index.known - old(index.known))
      ensures index.copies == if full then old(index.copies) else AfterItems(old(index.copies), region, |region.items|)
      ensures kept <==> index.copies != old(index.copies)
      ensures kept ==> !full
      ensures !full ==> index.used <= indexLimit
    {
      hide DiskIndex.Sound, DiskIndex.AllLive;
      var named := NameItems(region);
      if index.used > indexLimit {
        OnlyAdds(old(index.copies), region, |region.items|);
        index.DropRegion(region.slot);
        full := true;
        return false;
      }
      if !named {
        return false;
      }
      kept := true;
    }

    /** One region more: kept, or left out, and the copies stay within the kept. */
    method KeepWithin(region: TableRegion, kept: seq<nat>) returns (taken: bool)
      requires Valid() && !full && AllStorable(region) && Within(index.copies, kept) && region.slot !in kept
      modifies this`full, index, index.known
      ensures Valid() && old(index.known) <= index.known && fresh(index.known - old(index.known))
      ensures index.copies == if full then old(index.copies) else AfterItems(old(index.copies), region, |region.items|)
      ensures taken ==> !full && Within(index.copies, kept + [region.slot])
      ensures !taken ==> Within(index.copies, kept)
    {
      hide DiskIndex.Sound, DiskIndex.AllLive;
      assert NoneIn(index.copies, region.slot);
      taken := Keep(region);
      if taken {
        forall copy | copy in index.copies ensures copy.place.region in kept + [region.slot] {
          AddsItsOwn(old(index.copies), region, |region.items|, copy);
        }
      }
    }

    /** Reads the regions with trailers back, newest first. */
    method ReadTables(slots: seq<SlotRead>, generation: nat, regionBytes: nat, tables: seq<Found>, torn0: seq<nat>,
                      gone0: seq<nat>, ghost fate0: map<nat, Fate>)
      returns (kept: seq<Found>, torn: seq<nat>, gone: seq<nat>, ghost fate: map<nat, Fate>)
      requires Valid() && !full && index.copies == {} && AllReadable(slots) && NewestFirst(tables)
      requires (forall slot :: slot in fate0 ==> slot < |slots|) && Lists(fate0, SlotsOf(tables), Tabled)
      requires Lists(fate0, torn0, Torn) && Lists(fate0, gone0, Gone) && Lists(fate0, [], Kept)
      modifies this`full, index, index.known
      ensures Valid() && old(index.known) <= index.known && fresh(index.known - old(index.known))
      ensures fate.Keys == fate0.Keys && Lists(fate, [], Tabled) && NewestFirst(kept)
      ensures Lists(fate, SlotsOf(kept), Kept) && Lists(fate, torn, Torn) && Lists(fate, gone, Gone)
      ensures !full ==> index.copies == AfterRegions(TablesOf(slots, tables, generation, regionBytes))
      ensures Within(index.copies, SlotsOf(kept))
      ensures forall slot :: slot in torn ==> slot in torn0 || (slot < |slots| && slots[slot].table.TornTable?)
    {
      hide DiskIndex.Sound, DiskIndex.AllLive, Lists, Within, AfterRegions, TablesOf, HasTable, AfterItems;
      kept, torn, gone, fate := [], torn0, gone0, fate0;
      NothingYet(slots, generation, regionBytes, index.copies);
      assert SlotsOf(tables)[0..] == SlotsOf(tables) && SlotsOf(kept) == [] && tables[..0] == [];
      for i := 0 to |tables|
        invariant Valid() && old(index.known) <= index.known && fresh(index.known - old(index.known))
        invariant fate.Keys == fate0.Keys && Lists(fate, SlotsOf(tables)[i..], Tabled)
        invariant Lists(fate, SlotsOf(kept), Kept) && Lists(fate, torn, Torn) && Lists(fate, gone, Gone)
        invariant NewestFirst(kept) && (forall k :: 0 <= k < |kept| ==> kept[k] in tables[..i])
        invariant !full ==> index.copies == AfterRegions(TablesOf(slots, tables[..i], generation, regionBytes))
        invariant Within(index.copies, SlotsOf(kept))
        invariant forall slot :: slot in torn ==> slot in torn0 || (slot < |slots| && slots[slot].table.TornTable?)
      {
        var found := tables[i];
        var rest := SlotsOf(tables)[i..];
        assert rest[0] == found.slot && rest[1..] == SlotsOf(tables)[i + 1..];
        assert tables[..i + 1] == tables[..i] + [found];
        ghost var was := fate;
        var taken, again := false, false;
        IsTabled(fate, rest, |slots|);
        if !full {
          TablesStep(slots, tables[..i], found, generation, regionBytes);
          if HasTable(slots[found.slot], generation) {
            NotKept(fate, SlotsOf(kept), found.slot);
            TableStorable(slots, found.slot, regionBytes);
            OneMore(TablesOf(slots, tables[..i], generation, regionBytes),
                    TabledRegion(slots, found.slot, regionBytes));
            taken := KeepWithin(TabledRegion(slots, found.slot, regionBytes), SlotsOf(kept));
          } else {
            again := slots[found.slot].table.TornTable?;
          }
        }
        if taken {
          MoveTo(was, rest, SlotsOf(kept), Kept, torn, Torn, gone, Gone);
          assert SlotsOf(kept + [found]) == SlotsOf(kept) + [found.slot];
          KeepsOrder(tables, i, kept);
          kept, fate := kept + [found], was[found.slot := Kept];
        } else if again {
          MoveTo(was, rest, torn, Torn, SlotsOf(kept), Kept, gone, Gone);
          torn, fate := torn + [found.slot], was[found.slot := Torn];
        } else {
          MoveTo(was, rest, gone, Gone, SlotsOf(kept), Kept, torn, Torn);
          gone, fate := gone + [found.slot], was[found.slot := Gone];
        }
        assert forall k :: 0 <= k < |kept| ==> kept[k] in tables[..i + 1];
      }
      assert tables[..|tables|] == tables && SlotsOf(tables)[|tables|..] == [];
    }

    /** Reads the torn regions back by scanning them, in slot order. */
    method ScanTorn(slots: seq<SlotRead>, regionBytes: nat, torn: seq<nat>, kept0: seq<nat>, gone0: seq<nat>,
                    ghost before: seq<TableRegion>, ghost fate0: map<nat, Fate>)
      returns (scanned: seq<nat>, gone: seq<nat>, ghost fate: map<nat, Fate>)
      requires Valid() && AllReadable(slots) && (!full ==> index.copies == AfterRegions(before))
      requires Within(index.copies, kept0)
      requires (forall slot :: slot in fate0 ==> slot < |slots|) && Lists(fate0, torn, Torn)
      requires Lists(fate0, [], Tabled) && Lists(fate0, gone0, Gone) && Lists(fate0, kept0, Kept)
      modifies this`full, index, index.known
      ensures Valid() && old(index.known) <= index.known && fresh(index.known - old(index.known))
      ensures fate.Keys == fate0.Keys && Lists(fate, [], Tabled) && Lists(fate, [], Torn)
      ensures Lists(fate, kept0 + scanned, Kept) && Lists(fate, gone, Gone)
      ensures !full ==> index.copies == AfterRegions(before + ScansOf(slots, torn, regionBytes))
      ensures old(full) ==> full
      ensures forall i :: 0 <= i < |scanned| ==> scanned[i] in torn
    {
      hide DiskIndex.Sound, DiskIndex.AllLive, Lists, Within, AfterRegions, ScansOf, AfterItems;
      scanned, gone, fate := [], gone0, fate0;
      assert torn[0..] == torn && kept0 + [] == kept0 && torn[..0] == [];
      NoScans(slots, regionBytes, before);
      for i := 0 to |torn|
        invariant Valid() && old(index.known) <= index.known && fresh(index.known - old(index.known))
        invariant fate.Keys == fate0.Keys && Lists(fate, torn[i..], Torn) && Lists(fate, [], Tabled)
        invariant Lists(fate, kept0 + scanned, Kept) && Lists(fate, gone, Gone)
        invariant !full ==> index.copies == AfterRegions(before + ScansOf(slots, torn[..i], regionBytes))
        invariant Within(index.copies, kept0 + scanned) && (old(full) ==> full)
        invariant forall k :: 0 <= k < |scanned| ==> scanned[k] in torn
      {
        var slot, rest := torn[i], torn[i..];
        assert rest[0] == slot && rest[1..] == torn[i + 1..] && torn[..i + 1] == torn[..i] + [slot];
        ghost var was := fate;
        var taken := false;
        IsTorn(fate, rest, |slots|);
        if !full {
          ScansStep(slots, torn[..i], slot, regionBytes);
          NotKept(fate, kept0 + scanned, slot);
          TableStorable(slots, slot, regionBytes);
          ghost var order := before + ScansOf(slots, torn[..i], regionBytes);
          OneMore(order, ScannedRegion(slots, slot, regionBytes));
          assert order + [ScannedRegion(slots, slot, regionBytes)] ==
            before + ScansOf(slots, torn[..i + 1], regionBytes);
          taken := KeepWithin(ScannedRegion(slots, slot, regionBytes), kept0 + scanned);
        }
        assert kept0 + scanned + [slot] == kept0 + (scanned + [slot]);
        if taken {
          MoveTorn(was, rest, kept0 + scanned, Kept, gone, Gone);
          scanned, fate := scanned + [slot], was[slot := Kept];
        } else {
          MoveTorn(was, rest, gone, Gone, kept0 + scanned, Kept);
          gone, fate := gone + [slot], was[slot := Gone];
        }
      }
      assert torn[..|torn|] == torn && torn[|torn|..] == [];
    }

    /** Reads the regions of a file back. Every slot is then either a kept region's or free; the kept regions are in log
        order, the torn ones first; and the index finds what reading every region back finds, unless it reached its
        bound. */
    method ReadRegions(slots: seq<SlotRead>, generation: nat, regionBytes: nat)
      returns (scanned: seq<nat>, fromTables: seq<Found>, free: seq<nat>, ghost tables: seq<Found>,
               ghost torn: seq<nat>)
      requires Valid() && !full && index.copies == {} && AllReadable(slots)
      modifies this`full, index, index.known
      ensures Valid()
      ensures Once(scanned + SlotsOf(fromTables)) && Slots.Rising(free)
      ensures forall slot :: slot in scanned + SlotsOf(fromTables) ==> slot < |slots|
      ensures forall slot: nat :: slot in free <==> slot < |slots| && slot !in scanned + SlotsOf(fromTables)
      ensures OldestFirst(fromTables)
      ensures NewestFirst(tables) && TrailersOf(slots, tables)
      ensures NoneTorn(slots) ==> torn == []
      ensures !full ==>
        index.copies ==
          AfterRegions(TablesOf(slots, tables, generation, regionBytes) + ScansOf(slots, torn, regionBytes))
    {
      hide DiskIndex.Sound, DiskIndex.AllLive, AfterRegions, ScansOf, TablesOf, Within;
      var found, tornFirst, gone;
      ghost var fate;
      found, tornFirst, gone, fate := Classify(slots);
      assert tornFirst == [] || !NoneTorn(slots) by { NoneAreTorn(slots, tornFirst, []); }
      var newest := SortNewest(found);
      SortedLists(fate, found, newest);
      SortedTrailers(slots, found, newest);
      var kept, tornAll;
      kept, tornAll, gone, fate := ReadTables(slots, generation, regionBytes, newest, tornFirst, gone, fate);
      tables := newest;
      var inOrder := SortSlots(tornAll);
      SameSlots(fate, tornAll, inOrder, Torn);
      NoneAreTorn(slots, tornFirst, inOrder);
      torn := inOrder;
      scanned, gone, fate := ScanTorn(slots, regionBytes, inOrder, SlotsOf(kept), gone,
                                      TablesOf(slots, newest, generation, regionBytes), fate);
      fromTables := Backwards(kept);
      free := SortSlots(gone);
      Settled(fate, |slots|, SlotsOf(kept), scanned, SlotsOf(fromTables), gone);
    }

    /** A restart over the file a clean shutdown left after any run of the log: it finds a live copy exactly when the
        copy's region names its key once, and finds something for every live key. */
    method Restart(slots: seq<SlotRead>, generation: nat, regionBytes: nat, ghost logs: seq<Log>,
                   ghost actions: seq<LogAction>, ghost sequences: seq<nat>)
      requires Valid() && !full && index.copies == {} && AllReadable(slots) && NoneTorn(slots)
      requires IsLogRun(logs, actions) && LeftClean(slots, logs[|actions|], sequences, generation, regionBytes)
      modifies this`full, index, index.known
      ensures Valid()
      ensures !full ==> forall copy, r: nat, i: nat :: UsedAt(logs[|actions|], copy, r, i) ==>
        (copy in index.copies <==> NamesOnce(logs[|actions|].regions[r], copy.key))
      ensures !full ==> forall copy :: copy in logs[|actions|].live ==> Holds(index.copies, copy.key)
    {
      hide DiskIndex.Sound, DiskIndex.AllLive, AfterRegions, TablesOf, ScansOf, LogInv, LeftClean, CanLog, AfterAction;
      ghost var log := logs[|actions|];
      LogRunKeeps(logs, actions, |actions|);
      ghost var tables, torn;
      var scanned, fromTables, free;
      scanned, fromTables, free, tables, torn := ReadRegions(slots, generation, regionBytes);
      if !full { CleanCopies(slots, log, sequences, generation, regionBytes, tables, torn); }
    }

    method NameItems(region: TableRegion) returns (named: bool)
      requires Valid() && AllStorable(region)
      modifies index, index.known
      ensures Valid() && old(index.known) <= index.known && fresh(index.known - old(index.known))
      ensures index.copies == AfterItems(old(index.copies), region, |region.items|)
      ensures named <==> index.copies != old(index.copies)
    {
      hide DiskIndex.Sound, DiskIndex.AllLive;
      named := false;
      for i := 0 to |region.items|
        invariant Valid() && old(index.known) <= index.known && fresh(index.known - old(index.known))
        invariant index.copies == AfterItems(old(index.copies), region, i)
        invariant old(index.copies) <= index.copies && (named <==> index.copies != old(index.copies))
      {
        var item := region.items[i];
        assert Storable(item);
        var found, _, _, _, _ := index.Lookup(item.key);
        if !found {
          assert CopyOf(region, item) !in index.copies;
          index.Insert(item.key, region.slot, region.base + item.offset, item.length);
          named := true;
        }
      }
    }
  }

  /** Reading a region back adds copies of it alone. */
  lemma {:induction false} OnlyAdds(copies: set<Copy>, region: TableRegion, n: nat)
    requires n <= |region.items| && NoneIn(copies, region.slot)
    ensures (set copy | copy in AfterItems(copies, region, n) && copy.place.region != region.slot) == copies
    decreases n
  {
    if n > 0 { OnlyAdds(copies, region, n - 1); }
  }

  lemma NothingYet(slots: seq<SlotRead>, generation: nat, regionBytes: nat, copies: set<Copy>)
    requires copies == {}
    ensures copies == AfterRegions(TablesOf(slots, [], generation, regionBytes)) && Within(copies, [])
  {
  }

  lemma IsTabled(fate: map<nat, Fate>, rest: seq<nat>, n: nat)
    requires rest != [] && Lists(fate, rest, Tabled) && forall slot :: slot in fate ==> slot < n
    ensures rest[0] in fate && fate[rest[0]] == Tabled && rest[0] < n
  {
    assert rest[0] in rest;
  }

  lemma NotKept(fate: map<nat, Fate>, kept: seq<nat>, slot: nat)
    requires Lists(fate, kept, Kept) && slot in fate && fate[slot] != Kept
    ensures slot !in kept
  {
  }

  lemma TableStorable(slots: seq<SlotRead>, slot: nat, regionBytes: nat)
    requires AllReadable(slots) && slot < |slots|
    ensures AllStorable(TabledRegion(slots, slot, regionBytes)) && AllStorable(ScannedRegion(slots, slot, regionBytes))
  {
    assert ReadsStorable(slots[slot]);
  }

  lemma TablesStep(slots: seq<SlotRead>, found: seq<Found>, next: Found, generation: nat, regionBytes: nat)
    requires next.slot < |slots|
    ensures TablesOf(slots, found + [next], generation, regionBytes) ==
      if HasTable(slots[next.slot], generation)
      then TablesOf(slots, found, generation, regionBytes) + [TabledRegion(slots, next.slot, regionBytes)]
      else TablesOf(slots, found, generation, regionBytes)
  {
    assert (found + [next])[..|found|] == found;
  }

  /** The next slot of a list moves to another, and the lists of the other fates stay as they are. */
  lemma MoveTo(fate: map<nat, Fate>, rest: seq<nat>, list: seq<nat>, to: Fate, a: seq<nat>, kindA: Fate, b: seq<nat>,
               kindB: Fate)
    requires rest != [] && Lists(fate, rest, Tabled) && Lists(fate, list, to) && Lists(fate, a, kindA)
    requires Lists(fate, b, kindB)
    requires to != Tabled && kindA != Tabled && kindB != Tabled && to != kindA && to != kindB
    ensures var after := fate[rest[0] := to];
      && after.Keys == fate.Keys && Lists(after, rest[1..], Tabled) && Lists(after, list + [rest[0]], to)
      && Lists(after, a, kindA) && Lists(after, b, kindB)
  {
    hide Lists;
    Taken(fate, rest, Tabled, to);
    Given(fate, list, rest[0], to);
    Untouched(fate, a, kindA, rest[0], to);
    Untouched(fate, b, kindB, rest[0], to);
  }

  lemma KeepsOrder(tables: seq<Found>, i: nat, kept: seq<Found>)
    requires NewestFirst(tables) && i < |tables| && NewestFirst(kept) && forall k :: 0 <= k < |kept| ==>
      kept[k] in tables[..i]
    ensures NewestFirst(kept + [tables[i]])
  {
    forall k | 0 <= k < |kept| ensures kept[k].sequence >= tables[i].sequence {
      assert kept[k] in tables[..i];
      var j :| 0 <= j < |tables[..i]| && tables[..i][j] == kept[k];
    }
  }

  lemma NoScans(slots: seq<SlotRead>, regionBytes: nat, before: seq<TableRegion>)
    ensures before + ScansOf(slots, [], regionBytes) == before
  {
  }

  lemma IsTorn(fate: map<nat, Fate>, rest: seq<nat>, n: nat)
    requires rest != [] && Lists(fate, rest, Torn) && forall slot :: slot in fate ==> slot < n
    ensures rest[0] in fate && fate[rest[0]] == Torn && rest[0] < n
  {
    assert rest[0] in rest;
  }

  lemma ScansStep(slots: seq<SlotRead>, torn: seq<nat>, slot: nat, regionBytes: nat)
    requires slot < |slots|
    ensures ScansOf(slots, torn + [slot], regionBytes) ==
      ScansOf(slots, torn, regionBytes) + [ScannedRegion(slots, slot, regionBytes)]
  {
    assert (torn + [slot])[..|torn|] == torn;
  }

  lemma MoveTorn(fate: map<nat, Fate>, rest: seq<nat>, list: seq<nat>, to: Fate, other: seq<nat>, kind: Fate)
    requires rest != [] && Lists(fate, rest, Torn) && Lists(fate, [], Tabled) && Lists(fate, list, to)
    requires Lists(fate, other, kind)
    requires to != Torn && to != Tabled && kind != Torn && to != kind
    ensures var after := fate[rest[0] := to];
      && after.Keys == fate.Keys && Lists(after, rest[1..], Torn) && Lists(after, [], Tabled)
      && Lists(after, list + [rest[0]], to) && Lists(after, other, kind)
  {
    hide Lists;
    Taken(fate, rest, Torn, to);
    Given(fate, list, rest[0], to);
    Untouched(fate, other, kind, rest[0], to);
    Untouched(fate, [], Tabled, rest[0], to);
  }

  // ------------------------------------------------------------------- classifying

  ghost predicate OldestFirst(s: seq<Found>) { forall i, j :: 0 <= i < j < |s| ==> s[i].sequence <= s[j].sequence }

  ghost predicate NoneTorn(slots: seq<SlotRead>) {
    forall slot :: 0 <= slot < |slots| ==> !slots[slot].trailer.TornTrailer? && !slots[slot].table.TornTable?
  }

  /** Exactly the slots with trailers, each once, with the sequences their trailers say. */
  ghost predicate TrailersOf(slots: seq<SlotRead>, found: seq<Found>) {
    && (forall i :: 0 <= i < |found| ==>
        found[i].slot < |slots| && slots[found[i].slot].trailer == Trailed(found[i].sequence))
    && (forall slot :: 0 <= slot < |slots| && slots[slot].trailer.Trailed? ==> slot in SlotsOf(found))
    && Once(SlotsOf(found))
  }

  ghost predicate TrailersBelow(slots: seq<SlotRead>, found: seq<Found>, n: nat)
    requires n <= |slots|
  {
    && (forall i :: 0 <= i < |found| ==>
        found[i].slot < n && slots[found[i].slot].trailer == Trailed(found[i].sequence))
    && (forall slot :: 0 <= slot < n && slots[slot].trailer.Trailed? ==> slot in SlotsOf(found))
  }

  lemma NoTrailers(slots: seq<SlotRead>)
    ensures TrailersBelow(slots, [], 0) && forall kind :: Lists(map[], SlotsOf([]), kind) && Lists(map[], [], kind)
  {
  }

  lemma AllTrailers(slots: seq<SlotRead>, found: seq<Found>, fate: map<nat, Fate>)
    requires TrailersBelow(slots, found, |slots|) && Lists(fate, SlotsOf(found), Tabled)
    ensures TrailersOf(slots, found)
  {
  }

  lemma SlotsMore(found: seq<Found>, next: Found)
    ensures SlotsOf(found + [next]) == SlotsOf(found) + [next.slot]
  {
  }

  lemma TrailerNext(slots: seq<SlotRead>, found: seq<Found>, n: nat)
    requires n < |slots| && TrailersBelow(slots, found, n)
    ensures match slots[n].trailer
      case Trailed(sequence) => TrailersBelow(slots, found + [Found(n, sequence)], n + 1)
      case _ => TrailersBelow(slots, found, n + 1)
  {
    if slots[n].trailer.Trailed? {
      assert SlotsOf(found + [Found(n, slots[n].trailer.sequence)]) == SlotsOf(found) + [n];
    }
  }

  /** Reads every slot's trailer. A slot with none is left free, whether it was given back or was open when the host
      stopped. */
  method Classify(slots: seq<SlotRead>)
    returns (tables: seq<Found>, torn: seq<nat>, gone: seq<nat>, ghost fate: map<nat, Fate>)
    ensures forall slot: nat :: slot in fate <==> slot < |slots|
    ensures Lists(fate, SlotsOf(tables), Tabled) && Lists(fate, torn, Torn) && Lists(fate, gone, Gone)
    ensures Lists(fate, [], Kept)
    ensures TrailersOf(slots, tables)
    ensures forall slot :: slot in torn ==> slot < |slots| && slots[slot].trailer.TornTrailer?
  {
    hide Lists, TrailersBelow, TrailersOf, SlotsOf;
    tables, torn, gone, fate := [], [], [], map[];
    NoTrailers(slots);
    for slot := 0 to |slots|
      invariant forall s: nat :: s in fate <==> s < slot
      invariant Lists(fate, SlotsOf(tables), Tabled) && Lists(fate, torn, Torn) && Lists(fate, gone, Gone)
      invariant Lists(fate, [], Kept)
      invariant TrailersBelow(slots, tables, slot)
      invariant forall s :: s in torn ==> s < |slots| && slots[s].trailer.TornTrailer?
    {
      TrailerNext(slots, tables, slot);
      match slots[slot].trailer
      case Trailed(sequence) =>
        SlotsMore(tables, Found(slot, sequence));
        ListedNew(fate, SlotsOf(tables), torn, gone, slot, Tabled);
        tables, fate := tables + [Found(slot, sequence)], fate[slot := Tabled];
      case TornTrailer =>
        ListedNew(fate, SlotsOf(tables), torn, gone, slot, Torn);
        torn, fate := torn + [slot], fate[slot := Torn];
      case _ =>
        ListedNew(fate, SlotsOf(tables), torn, gone, slot, Gone);
        gone, fate := gone + [slot], fate[slot := Gone];
    }
    AllTrailers(slots, tables, fate);
  }

  lemma NoneAreTorn(slots: seq<SlotRead>, first: seq<nat>, all: seq<nat>)
    requires forall slot :: slot in first ==> slot < |slots| && slots[slot].trailer.TornTrailer?
    requires forall slot :: slot in all ==> slot in first || (slot < |slots| && slots[slot].table.TornTable?)
    ensures NoneTorn(slots) ==> first == [] && all == []
  {
    if first != [] { assert first[0] in first; }
    if all != [] { assert all[0] in all; }
  }

  lemma SortedLists(fate: map<nat, Fate>, found: seq<Found>, sorted: seq<Found>)
    requires Lists(fate, SlotsOf(found), Tabled) && multiset(sorted) == multiset(found)
    ensures Lists(fate, SlotsOf(sorted), Tabled)
  {
    SameMembers(found, sorted);
    SortedOnce(found, sorted);
  }

  lemma SameMembers(a: seq<Found>, b: seq<Found>)
    requires multiset(a) == multiset(b)
    ensures |a| == |b| && (forall x :: x in a <==> x in b) && forall slot :: slot in SlotsOf(a) <==> slot in SlotsOf(b)
  {
    assert |multiset(a)| == |a| && |multiset(b)| == |b|;
    assert forall x :: x in a <==> x in multiset(a);
    assert forall x :: x in b <==> x in multiset(b);
    forall slot | slot in SlotsOf(a) ensures slot in SlotsOf(b) {
      var i :| 0 <= i < |a| && a[i].slot == slot;
      assert a[i] in b;
      var j :| 0 <= j < |b| && b[j] == a[i];
      assert SlotsOf(b)[j] == slot;
    }
    forall slot | slot in SlotsOf(b) ensures slot in SlotsOf(a) {
      var i :| 0 <= i < |b| && b[i].slot == slot;
      assert b[i] in a;
      var j :| 0 <= j < |a| && a[j] == b[i];
      assert SlotsOf(a)[j] == slot;
    }
  }

  lemma SortedOnce(a: seq<Found>, b: seq<Found>)
    requires multiset(a) == multiset(b) && Once(SlotsOf(a))
    ensures Once(SlotsOf(b))
  {
    SameMembers(a, b);
    forall i, j | 0 <= i < j < |b| ensures b[i].slot != b[j].slot {
      if b[i].slot == b[j].slot {
        assert b[i] in a && b[j] in a;
        var k :| 0 <= k < |a| && a[k] == b[i];
        var l :| 0 <= l < |a| && a[l] == b[j];
        assert SlotsOf(a)[k] == SlotsOf(a)[l];
        assert b[i] == b[j];
        TwiceHas(b, i, j);
        OnceHas(a, k);
      }
    }
  }

  lemma TwiceHas(s: seq<Found>, i: nat, j: nat)
    requires i < j < |s| && s[i] == s[j]
    ensures multiset(s)[s[i]] >= 2
  {
    assert s == s[..j] + [s[j]] + s[j + 1..];
    assert s[i] in s[..j];
  }

  lemma OnceHas(s: seq<Found>, k: nat)
    requires k < |s| && Once(SlotsOf(s))
    ensures multiset(s)[s[k]] == 1
  {
    assert s == s[..k] + [s[k]] + s[k + 1..];
    assert forall i :: 0 <= i < |s| && i != k ==> s[i] != s[k] by {
      assert forall i :: 0 <= i < |s| ==> SlotsOf(s)[i] == s[i].slot;
    }
    assert s[k] !in s[..k] && s[k] !in s[k + 1..];
  }

  lemma SortedTrailers(slots: seq<SlotRead>, found: seq<Found>, sorted: seq<Found>)
    requires TrailersOf(slots, found) && multiset(sorted) == multiset(found)
    ensures TrailersOf(slots, sorted)
  {
    SameMembers(found, sorted);
    SortedOnce(found, sorted);
    forall i | 0 <= i < |sorted|
      ensures sorted[i].slot < |slots| && slots[sorted[i].slot].trailer == Trailed(sorted[i].sequence)
    {
      assert sorted[i] in found;
    }
  }

  /** Slots in ascending order. */
  method SortSlots(s: seq<nat>) returns (sorted: seq<nat>)
    requires Once(s)
    ensures Slots.Rising(sorted) && forall slot :: slot in sorted <==> slot in s
  {
    sorted := [];
    for i := 0 to |s|
      invariant Slots.Rising(sorted) && forall slot :: slot in sorted <==> slot in s[..i]
    {
      assert s[i] !in s[..i];
      Slots.InsertSlotIs(sorted, s[i]);
      sorted := Slots.InsertSlot(sorted, s[i]);
      assert s[..i + 1] == s[..i] + [s[i]];
    }
    assert s[..|s|] == s;
  }

  lemma SameSlots(fate: map<nat, Fate>, a: seq<nat>, b: seq<nat>, kind: Fate)
    requires Lists(fate, a, kind) && Slots.Rising(b) && forall slot :: slot in b <==> slot in a
    ensures Lists(fate, b, kind)
  {
  }

  method Backwards(s: seq<Found>) returns (t: seq<Found>)
    requires NewestFirst(s)
    ensures OldestFirst(t) && |t| == |s| && forall i :: 0 <= i < |s| ==> t[i] == s[|s| - 1 - i]
  {
    t := [];
    for i := 0 to |s|
      invariant |t| == i && forall j :: 0 <= j < i ==> t[j] == s[i - 1 - j]
    {
      t := [s[i]] + t;
    }
  }

  /** With every slot decided, the kept and the free are all of them. */
  lemma Settled(fate: map<nat, Fate>, n: nat, kept: seq<nat>, scanned: seq<nat>, backwards: seq<nat>, gone: seq<nat>)
    requires (forall slot: nat :: slot in fate <==> slot < n) && Lists(fate, [], Tabled) && Lists(fate, [], Torn)
    requires Lists(fate, kept + scanned, Kept) && Lists(fate, gone, Gone)
    requires |backwards| == |kept| && forall i :: 0 <= i < |kept| ==> backwards[i] == kept[|kept| - 1 - i]
    ensures Once(scanned + backwards)
    ensures forall slot :: slot in scanned + backwards <==> slot in kept + scanned
    ensures forall slot :: slot in scanned + backwards ==> slot < n
    ensures forall slot: nat :: slot in gone <==> slot < n && slot !in scanned + backwards
  {
    forall slot ensures slot in backwards <==> slot in kept {
      if slot in kept {
        var i :| 0 <= i < |kept| && kept[i] == slot;
        assert backwards[|kept| - 1 - i] == slot;
      }
    }
    var all := kept + scanned;
    forall i, j | 0 <= i < j < |scanned + backwards| ensures (scanned + backwards)[i] != (scanned + backwards)[j] {
      var k := if i < |scanned| then |kept| + i else |kept| - 1 - (i - |scanned|);
      var l := if j < |scanned| then |kept| + j else |kept| - 1 - (j - |scanned|);
      assert all[k] == (scanned + backwards)[i] && all[l] == (scanned + backwards)[j] && k != l;
    }
  }

  // --------------------------------------------------------------- a clean shutdown

  /** The file a clean shutdown leaves: every region of the log has its table, under rising sequence numbers, and no
      other slot has one. */
  ghost predicate LeftClean(slots: seq<SlotRead>, log: Log, sequences: seq<nat>, generation: nat, regionBytes: nat) {
    && |sequences| == |log.regions| && (forall i, j :: 0 <= i < j < |sequences| ==> sequences[i] < sequences[j])
    && (forall r :: 0 <= r < |log.regions| ==> IsLeft(slots, log.regions[r], sequences[r], generation, regionBytes))
    && (forall slot :: 0 <= slot < |slots| && slots[slot].trailer.Trailed? ==>
        exists r :: 0 <= r < |log.regions| && log.regions[r].slot == slot)
  }

  ghost predicate IsLeft(slots: seq<SlotRead>, region: TableRegion, sequence: nat, generation: nat, regionBytes: nat) {
    && region.slot < |slots| && region.base == Base(region.slot, regionBytes)
    && slots[region.slot].trailer == Trailed(sequence)
    && slots[region.slot].table == TableOf(generation, region.items)
  }

  ghost function NewestOf(log: Log, sequences: seq<nat>): seq<Found>
    requires |sequences| == |log.regions|
  {
    var n := |log.regions|;
    seq(n, i requires 0 <= i < n => Found(log.regions[n - 1 - i].slot, sequences[n - 1 - i]))
  }

  ghost predicate Falling(s: seq<Found>) { forall i, j :: 0 <= i < j < |s| ==> s[i].sequence > s[j].sequence }

  lemma SameFirst(a: seq<Found>, b: seq<Found>)
    requires Falling(a) && NewestFirst(b) && a != [] && b != [] && a[0] in b && b[0] in a
    ensures a[0] == b[0]
  {
    var i :| 0 <= i < |b| && b[i] == a[0];
    var j :| 0 <= j < |a| && a[j] == b[0];
  }

  lemma SlotsOfRest(s: seq<Found>)
    requires s != [] && Once(SlotsOf(s))
    ensures Once(SlotsOf(s[1..])) && s[0] !in s[1..]
  {
    assert forall k :: 0 <= k < |s| ==> SlotsOf(s)[k] == s[k].slot;
    assert SlotsOf(s[1..]) == SlotsOf(s)[1..];
  }

  lemma {:induction false} SortedSame(a: seq<Found>, b: seq<Found>)
    requires Falling(a) && NewestFirst(b) && Once(SlotsOf(b)) && forall x :: x in a <==> x in b
    ensures a == b
  {
    if b != [] { assert b[0] in b; }
    if a != [] {
      assert a[0] in b;
      SameFirst(a, b);
      SlotsOfRest(b);
      var ta, tb := a[1..], b[1..];
      assert a == [a[0]] + ta && b == [b[0]] + tb;
      forall x ensures x in ta <==> x in tb {
        assert x in ta ==> x in a && x != a[0];
        assert x in tb ==> x in b && x != b[0];
      }
      SortedSame(ta, tb);
    }
  }

  lemma CleanTables(slots: seq<SlotRead>, log: Log, sequences: seq<nat>, generation: nat, regionBytes: nat,
                    tables: seq<Found>)
    requires LaidOut(log.regions) && LeftClean(slots, log, sequences, generation, regionBytes)
    requires NewestFirst(tables) && TrailersOf(slots, tables)
    ensures tables == NewestOf(log, sequences)
  {
    var newest := NewestOf(log, sequences);
    assert Falling(newest) && Once(SlotsOf(tables));
    hide LeftClean, TrailersOf, NewestOf, Falling, Once;
    forall x ensures x in newest <==> x in tables {
      if x in newest { LeftIsRead(slots, log, sequences, generation, regionBytes, tables, x); }
      if x in tables { ReadWasLeft(slots, log, sequences, generation, regionBytes, tables, x); }
    }
    SortedSame(newest, tables);
  }

  lemma LeftIsRead(slots: seq<SlotRead>, log: Log, sequences: seq<nat>, generation: nat, regionBytes: nat,
                   tables: seq<Found>, x: Found)
    requires LeftClean(slots, log, sequences, generation, regionBytes) && TrailersOf(slots, tables)
    requires x in NewestOf(log, sequences)
    ensures x in tables
  {
    var newest, n := NewestOf(log, sequences), |log.regions|;
    var i :| 0 <= i < n && newest[i] == x;
    assert IsLeft(slots, log.regions[n - 1 - i], sequences[n - 1 - i], generation, regionBytes);
    assert x.slot in SlotsOf(tables);
    var k :| 0 <= k < |tables| && tables[k].slot == x.slot;
    assert tables[k] == x;
  }

  lemma ReadWasLeft(slots: seq<SlotRead>, log: Log, sequences: seq<nat>, generation: nat, regionBytes: nat,
                    tables: seq<Found>, x: Found)
    requires LeftClean(slots, log, sequences, generation, regionBytes) && TrailersOf(slots, tables) && x in tables
    ensures x in NewestOf(log, sequences)
  {
    var newest, n := NewestOf(log, sequences), |log.regions|;
    var k :| 0 <= k < |tables| && tables[k] == x;
    var r :| 0 <= r < n && log.regions[r].slot == x.slot;
    assert IsLeft(slots, log.regions[r], sequences[r], generation, regionBytes);
    assert newest[n - 1 - r] == x;
  }

  lemma {:induction false} CleanRegions(slots: seq<SlotRead>, log: Log, sequences: seq<nat>, generation: nat,
                                        regionBytes: nat, n: nat)
    requires LeftClean(slots, log, sequences, generation, regionBytes) && n <= |log.regions|
    ensures TablesOf(slots, NewestOf(log, sequences)[..n], generation, regionBytes) == Reversed(log.regions)[..n]
    decreases n
  {
    if n > 0 {
      hide TablesOf;
      CleanRegions(slots, log, sequences, generation, regionBytes, n - 1);
      var newest, at := NewestOf(log, sequences), |log.regions| - n;
      assert newest[..n] == newest[..n - 1] + [newest[n - 1]];
      assert IsLeft(slots, log.regions[at], sequences[at], generation, regionBytes);
      TablesStep(slots, newest[..n - 1], newest[n - 1], generation, regionBytes);
      assert TabledRegion(slots, newest[n - 1].slot, regionBytes) == log.regions[at];
      assert Reversed(log.regions)[..n] == Reversed(log.regions)[..n - 1] + [log.regions[at]];
    }
  }

  /** What reading a cleanly left file back gives is what reading the log back, newest first, gives. */
  lemma CleanRestart(slots: seq<SlotRead>, log: Log, sequences: seq<nat>, generation: nat, regionBytes: nat,
                     tables: seq<Found>)
    requires LogInv(log) && LeftClean(slots, log, sequences, generation, regionBytes)
    requires NewestFirst(tables) && TrailersOf(slots, tables)
    ensures TablesOf(slots, tables, generation, regionBytes) == Reversed(log.regions)
  {
    CleanTables(slots, log, sequences, generation, regionBytes, tables);
    CleanRegions(slots, log, sequences, generation, regionBytes, |log.regions|);
    assert NewestOf(log, sequences)[..|log.regions|] == NewestOf(log, sequences);
    assert Reversed(log.regions)[..|log.regions|] == Reversed(log.regions);
  }

  ghost predicate UsedAt(log: Log, copy: Copy, r: nat, i: nat) { copy in log.live && LiesAt(log.regions, r, i, copy) }

  /** What is read back from a file left clean. */
  lemma CleanCopies(slots: seq<SlotRead>, log: Log, sequences: seq<nat>, generation: nat, regionBytes: nat,
                    tables: seq<Found>, torn: seq<nat>)
    requires LogInv(log) && LeftClean(slots, log, sequences, generation, regionBytes)
    requires NewestFirst(tables) && TrailersOf(slots, tables) && torn == []
    ensures var copies :=
      AfterRegions(TablesOf(slots, tables, generation, regionBytes) + ScansOf(slots, torn, regionBytes));
      && (forall copy, r: nat, i: nat :: UsedAt(log, copy, r, i) ==>
          (copy in copies <==> NamesOnce(log.regions[r], copy.key)))
      && (forall copy :: copy in log.live ==> Holds(copies, copy.key))
  {
    hide LogInv, LeftClean, AfterRegions, TablesOf, NamesOnce, LastAt;
    CleanRestart(slots, log, sequences, generation, regionBytes, tables);
    var order := TablesOf(slots, tables, generation, regionBytes);
    assert order + ScansOf(slots, torn, regionBytes) == order;
    forall copy, r: nat, i: nat | UsedAt(log, copy, r, i)
      ensures copy in AfterRegions(order) <==> NamesOnce(log.regions[r], copy.key)
    {
      RestartFindsIff(log, copy, r, i);
    }
    forall copy | copy in log.live ensures Holds(AfterRegions(order), copy.key) {
      RestartLosesNothing(log, copy);
    }
  }
}
