/** The disk cache's log of regions, as its one writer runs it.

Items are appended to the open region; a region without room is closed, and the oldest
closed one is given back to make room for another. Before it goes, the items in it that
were read often enough are written again, up to half a region, into the one region the
log keeps free for that.

A region that is being read when it is evicted keeps its space until its last read, and
none ends while the writer makes room. The share is fixed meanwhile and the disk fails
nothing: what readers do to a region's life is Slots' matter.
*/
module RegionLogs {
  const ITEM_FIXED := 44
  const TABLE_FIXED := 34
  const TRAILER_SIZE := 40
  const MINIMUM_REGION_BYTES := 0x1_0000
  const MAXIMUM_VM_NAME := 256
  const MAXIMUM_VOLUME_NAME := 255

  /** One item: what its names and its bytes come to, and the reads since it was written. */
  datatype LogItem = LogItem(key: nat, names: nat, length: nat, readCount: nat) {
    function Size(): nat { ITEM_FIXED + names + length }

    function Table(): nat { TABLE_FIXED + names }

    predicate Named() { names <= MAXIMUM_VM_NAME + MAXIMUM_VOLUME_NAME }

    function Again(): LogItem { this.(readCount := 0) }
  }

  function Sizes(items: seq<LogItem>): nat { if items == [] then 0 else items[0].Size() + Sizes(items[1..]) }

  function Tables(items: seq<LogItem>): nat { if items == [] then 0 else items[0].Table() + Tables(items[1..]) }

  ghost predicate AllNamed(items: seq<LogItem>) { forall i :: 0 <= i < |items| ==> items[i].Named() }

  lemma {:induction false} Concat(a: seq<LogItem>, b: seq<LogItem>)
    ensures Sizes(a + b) == Sizes(a) + Sizes(b) && Tables(a + b) == Tables(a) + Tables(b)
  {
    if a == [] {
      assert a + b == b;
    } else {
      assert (a + b)[1..] == a[1..] + b && (a + b)[0] == a[0];
      Concat(a[1..], b);
    }
  }

  lemma SizesOfOne(item: LogItem)
    ensures Sizes([item]) == item.Size() && Tables([item]) == item.Table()
  {
    assert [item][1..] == [];
  }

  /** A table entry is ten bytes shorter than its item's header. */
  lemma {:induction false} TablesAreShorter(items: seq<LogItem>)
    ensures Tables(items) + 10 * |items| <= Sizes(items)
  {
    if items != [] { TablesAreShorter(items[1..]); }
  }

  lemma {:induction false} TablesAreBounded(items: seq<LogItem>)
    requires AllNamed(items)
    ensures Tables(items) <= 545 * |items|
  {
    if items != [] { TablesAreBounded(items[1..]); }
  }

  /** Half a region of items, their table and its trailer fit in one region. */
  lemma HalfFits(items: seq<LogItem>, regionBytes: nat)
    requires AllNamed(items) && Sizes(items) <= regionBytes / 2 && MINIMUM_REGION_BYTES <= regionBytes
    ensures Sizes(items) + Tables(items) + TRAILER_SIZE <= regionBytes
  {
    TablesAreShorter(items);
    TablesAreBounded(items);
  }

  /** A region: what was appended to it, in order. */
  datatype Region = Region(sequence: nat, items: seq<LogItem>) {
    function Written(): nat { Sizes(items) }

    function TableBytes(): nat { Tables(items) }

    predicate Fits(size: nat, table: nat, regionBytes: nat) {
      Written() + size + TableBytes() + table + TRAILER_SIZE <= regionBytes
    }

    function With(more: seq<LogItem>): Region { this.(items := items + more) }
  }

  /** A region's items, its table and its trailer lie within it, apart from each other. */
  ghost predicate Holds(region: Region, regionBytes: nat) {
    region.Written() + region.TableBytes() + TRAILER_SIZE <= regionBytes && AllNamed(region.items)
  }

  /** Regions in the order they were opened, the open one last. */
  ghost predicate InOrder(closed: seq<Region>, open: seq<Region>, latest: nat) {
    && (forall i :: 0 <= i < |closed| ==> closed[i].sequence <= latest)
    && (forall i, j :: 0 <= i < j < |closed| ==> closed[i].sequence < closed[j].sequence)
    && (open != [] ==> open[0].sequence <= latest && forall i :: 0 <= i < |closed| ==>
        closed[i].sequence < open[0].sequence)
  }

  function Hot(items: seq<LogItem>, threshold: nat): seq<LogItem> {
    if items == [] then []
    else if items[0].readCount >= threshold then [items[0]] + Hot(items[1..], threshold)
    else Hot(items[1..], threshold)
  }

  lemma {:induction false} HotConcat(a: seq<LogItem>, b: seq<LogItem>, threshold: nat)
    ensures Hot(a + b, threshold) == Hot(a, threshold) + Hot(b, threshold)
  {
    if a == [] {
      assert a + b == b;
    } else {
      assert (a + b)[1..] == a[1..] + b && (a + b)[0] == a[0];
      HotConcat(a[1..], b, threshold);
    }
  }

  lemma {:induction false} HotAreNamed(items: seq<LogItem>, threshold: nat)
    requires AllNamed(items)
    ensures AllNamed(Hot(items, threshold))
  {
    if items != [] { HotAreNamed(items[1..], threshold); }
  }

  /** The hot items of a log's closed regions. */
  function HotIn(closed: seq<Region>, threshold: nat): nat {
    if closed == [] then 0 else |Hot(closed[0].items, threshold)| + HotIn(closed[1..], threshold)
  }

  lemma {:induction false} HotInConcat(a: seq<Region>, b: seq<Region>, threshold: nat)
    ensures HotIn(a + b, threshold) == HotIn(a, threshold) + HotIn(b, threshold)
  {
    if a == [] {
      assert a + b == b;
    } else {
      assert (a + b)[1..] == a[1..] + b && (a + b)[0] == a[0];
      HotInConcat(a[1..], b, threshold);
    }
  }

  lemma HotInFirst(closed: seq<Region>, threshold: nat)
    requires closed != []
    ensures HotIn(closed, threshold) == |Hot(closed[0].items, threshold)| + HotIn(closed[1..], threshold)
  {
  }

  lemma HotInOne(region: Region, threshold: nat)
    ensures HotIn([region], threshold) == |Hot(region.items, threshold)|
  {
    assert [region][1..] == [];
  }

  function Rewritten(items: seq<LogItem>): seq<LogItem> {
    seq(|items|, i requires 0 <= i < |items| => items[i].Again())
  }

  lemma {:induction false} RewrittenIsSame(items: seq<LogItem>, threshold: nat)
    requires threshold >= 1
    ensures Sizes(Rewritten(items)) == Sizes(items) && Hot(Rewritten(items), threshold) == []
  {
    if items != [] {
      assert Rewritten(items)[1..] == Rewritten(items[1..]);
      RewrittenIsSame(items[1..], threshold);
    }
  }

  /** How many of the rescues a second chance writes: those within half a region, and within the write budget. */
  function Rescued(rescues: seq<LogItem>, written: nat, half: nat, budget: nat): (n: nat)
    ensures n <= |rescues|
  {
    if rescues == [] || written + rescues[0].Size() > half || budget == 0 then 0
    else 1 + Rescued(rescues[1..], written + rescues[0].Size(), half, budget - 1)
  }

  lemma RescueStep(rescues: seq<LogItem>, i: nat, written: nat, half: nat, budget: nat)
    requires i < |rescues| && i <= budget
    ensures Rescued(rescues[i..], written, half, budget - i) ==
            if written + rescues[i].Size() > half || i == budget then 0
            else 1 + Rescued(rescues[i + 1..], written + rescues[i].Size(), half, budget - i - 1)
    ensures Sizes(rescues[..i + 1]) == Sizes(rescues[..i]) + rescues[i].Size()
    ensures Rewritten(rescues[..i + 1]) == if i == 0 then [rescues[i].Again()]
      else Rewritten(rescues[..i]) + [rescues[i].Again()]
  {
    assert rescues[i..][1..] == rescues[i + 1..];
    assert rescues[..i + 1] == rescues[..i] + [rescues[i]];
    Concat(rescues[..i], [rescues[i]]);
    SizesOfOne(rescues[i]);
  }

  lemma DropFirst(closed: seq<Region>, open: seq<Region>, all: seq<Region>, dropped: nat)
    requires closed != [] && dropped <= |all| && closed + open == all[dropped..]
    ensures dropped < |all| && closed[1..] + open == all[dropped + 1..]
  {
    assert closed[1..] + open == (closed + open)[1..];
    assert all[dropped..][1..] == all[dropped + 1..];
  }

  /** What a writer makes room under: the size of a region, the regions its share holds, the reads that keep an item,
      and of each eviction in turn what the write budget admits of its second chance and whether the region is being
      read. */
  datatype Policy = Policy(regionBytes: nat, limit: nat, threshold: nat, admits: nat -> nat, lingers: nat -> bool)

  /** The regions from the oldest, whether the last is open, the regions on disk and those of them only reads hold. */
  datatype Log = Log(regions: seq<Region>, open: bool, held: nat, pending: nat, sequence: nat) {
    predicate Counted() { held == |regions| + pending && (open ==> regions != []) }

    predicate HasRoom(terms: Policy, size: nat, table: nat) {
      open && regions != [] && regions[|regions| - 1].Fits(size, table, terms.regionBytes)
    }

    predicate MayOpen(terms: Policy) { held + 1 < terms.limit }

    function Opened(): Log { Log(regions + [Region(sequence + 1, [])], true, held + 1, pending, sequence + 1) }

    /** What the oldest region's second chance writes again. */
    function Second(terms: Policy, turn: nat): seq<LogItem>
      requires regions != []
    {
      var hot := Hot(regions[0].items, terms.threshold);
      if held < terms.limit then Rewritten(hot[..Rescued(hot, 0, terms.regionBytes / 2, terms.admits(turn))]) else []
    }

    function Evicted(terms: Policy, turn: nat): Log
      requires regions != [] && Counted()
    {
      var again, read := Second(terms, turn), terms.lingers(turn);
      var more := if again == [] then 0 else 1;
      Log(regions[1..] + if again == [] then [] else [Region(sequence + 1, again)], again != [],
          held + more - if read then 0 else 1, pending + if read then 1 else 0, sequence + more)
    }

    function With(items: seq<LogItem>): Log {
      if regions == [] then this else this.(regions := regions[|regions| - 1 := regions[|regions| - 1].With(items)])
    }
  }

  /** A log after so many evictions. */
  function After(log: Log, terms: Policy, k: nat): (after: Log)
    requires log.Counted()
    ensures after.Counted()
  {
    if k == 0 then log
    else
      var before := After(log, terms, k - 1);
      if before.regions == [] then before else before.Evicted(terms, k - 1)
  }

  lemma NoneEvicted(log: Log, terms: Policy)
    requires log.Counted()
    ensures After(log, terms, 0) == log
  {
  }

  lemma OneMoreEvicted(log: Log, terms: Policy, k: nat)
    requires log.Counted()
    ensures var before := After(log, terms, k);
      After(log, terms, k + 1) == if before.regions == [] then before else before.Evicted(terms, k)
  {
  }

  /** Whether the last region is open makes no difference to what an eviction leaves. */
  lemma EvictsAlike(a: Log, b: Log, terms: Policy, turn: nat)
    requires a.regions != [] && a.Counted() && b.Counted() && b == a.(open := b.open)
    ensures a.Evicted(terms, turn) == b.Evicted(terms, turn)
    ensures !terms.lingers(turn) ==> a.Evicted(terms, turn).pending == a.pending
  {
  }

  /** A log that can take a fill only once a region goes. */
  predicate Stuck(log: Log, terms: Policy, size: nat, table: nat) {
    log.regions != [] && !log.HasRoom(terms, size, table) && !log.MayOpen(terms)
  }

  /** What making room does: the fewest evictions after which the log is not stuck, and a new region where the last
      has no room and one may be opened. */
  ghost predicate Makes(was: Log, terms: Policy, size: nat, table: nat, k: nat, now: Log)
    requires was.Counted()
  {
    var last := After(was, terms, k);
    && (forall j: nat :: j < k ==> Stuck(After(was, terms, j), terms, size, table))
    && !Stuck(last, terms, size, table)
    && now == if !last.HasRoom(terms, size, table) && last.MayOpen(terms) then last.Opened() else last
  }

  /** What is left of a log after some evictions: the regions that were not reached, as they were and in order, and
      after them nothing but what second chances wrote again. */
  lemma {:induction false} SurvivorsStand(log: Log, terms: Policy, k: nat)
    requires log.Counted() && k <= |log.regions|
    ensures var left := After(log, terms, k).regions;
      && |log.regions| - k <= |left| && left[..|log.regions| - k] == log.regions[k..]
      && forall i :: |log.regions| - k <= i < |left| ==> WrittenAgain(log, terms, k, left[i])
    decreases k
  {
    hide Hot, Rewritten, Rescued;
    if k > 0 {
      SurvivorsStand(log, terms, k - 1);
      var before := After(log, terms, k - 1);
      var left := After(log, terms, k).regions;
      assert before.regions[0] == before.regions[..|log.regions| - (k - 1)][0] == log.regions[k - 1];
      var m := |log.regions| - k;
      assert left[..m] == before.regions[1..][..m] == before.regions[..m + 1][1..];
      assert log.regions[k - 1..][1..] == log.regions[k..];
      forall i | |log.regions| - k <= i < |left| ensures WrittenAgain(log, terms, k, left[i]) {
        if i + 1 < |before.regions| {
          assert left[i] == before.regions[i + 1];
          assert WrittenAgain(log, terms, k - 1, before.regions[i + 1]);
        } else {
          var hot := Hot(log.regions[k - 1].items, terms.threshold);
          assert IsAgain(log, terms, k - 1, Rescued(hot, 0, terms.regionBytes / 2, terms.admits(k - 1)), left[i]);
        }
      }
    }
  }

  /** A region holds what the second chance of one of the first regions of a log wrote again. */
  ghost predicate WrittenAgain(log: Log, terms: Policy, k: nat, region: Region) {
    exists j: nat, n: nat :: j < k && IsAgain(log, terms, j, n, region)
  }

  ghost predicate IsAgain(log: Log, terms: Policy, j: nat, n: nat, region: Region) {
    && j < |log.regions| && n <= |Hot(log.regions[j].items, terms.threshold)|
    && region.items == Rewritten(Hot(log.regions[j].items, terms.threshold)[..n])
  }

  class RegionLog {
    const regionBytes: nat
    /** The regions the share holds. */
    const limit: nat
    const threshold: nat
    var open: seq<Region>
    var closed: seq<Region>
    /** The regions on disk, and those of them that are evicted and still read. */
    var held: nat
    var pending: nat
    var sequence: nat

    ghost predicate Valid()
      reads this
    {
      && MINIMUM_REGION_BYTES <= regionBytes && threshold >= 1
      && |open| <= 1 && held == |open| + |closed| + pending
      && (forall i :: 0 <= i < |closed| ==> Holds(closed[i], regionBytes))
      && (open != [] ==> Holds(open[0], regionBytes))
      && InOrder(closed, open, sequence)
    }

    constructor (regionBytes: nat, limit: nat, threshold: nat)
      requires MINIMUM_REGION_BYTES <= regionBytes && threshold >= 1
      ensures Valid() && open == [] && closed == [] && held == 0 && pending == 0
      ensures this.regionBytes == regionBytes && this.limit == limit && this.threshold == threshold
    {
      this.regionBytes, this.limit, this.threshold := regionBytes, limit, threshold;
      open, closed, held, pending, sequence := [], [], 0, 0, 0;
    }

    /** Every region but one may be filled; the last is the second chance's. */
    predicate MayOpen(second: bool)
      reads this`held
    {
      (held as int) < if second then limit else limit - 1
    }

    method Close()
      requires Valid() && open != []
      modifies this`open, this`closed
      ensures Valid() && open == [] && closed == old(closed) + old(open)
    {
      closed, open := closed + open, [];
    }

    method OpenRegion()
      requires Valid() && open == []
      modifies this`open, this`held, this`sequence
      ensures Valid() && held == old(held) + 1 && sequence == old(sequence) + 1 && open == [Region(sequence, [])]
    {
      held, sequence := held + 1, sequence + 1;
      open := [Region(sequence, [])];
    }

    /** Room for an item a second chance writes: it evicts nothing, and opens the free region or stops. */
    method SecondRoom(size: nat, table: nat) returns (ok: bool)
      requires Valid() && size + table + TRAILER_SIZE <= regionBytes
      modifies this`open, this`closed, this`held, this`sequence
      ensures Valid()
      ensures ok ==> open != [] && open[0].Fits(size, table, regionBytes)
      ensures ok <==> (old(open) != [] && old(open[0].Fits(size, table, regionBytes))) || old(held) < limit
      ensures old(open) != [] && old(open[0].Fits(size, table, regionBytes)) ==>
        open == old(open) && closed == old(closed) && held == old(held) && sequence == old(sequence)
      ensures !(old(open) != [] && old(open[0].Fits(size, table, regionBytes))) ==>
        && closed == old(closed) + old(open)
        && (old(held) < limit ==>
              open == [Region(sequence, [])] && held == old(held) + 1 && sequence == old(sequence) + 1)
        && (old(held) >= limit ==> open == [] && held == old(held) && sequence == old(sequence))
    {
      if open != [] && open[0].Fits(size, table, regionBytes) {
        return true;
      }
      if open != [] {
        Close();
      } else {
        assert closed + open == closed;
      }
      if !MayOpen(true) {
        return false;
      }
      OpenRegion();
      ok := true;
    }

    /** Lays items next to each other at the end of the open region, which has room for them. */
    method Lay(items: seq<LogItem>)
      requires Valid() && open != [] && open[0].Fits(Sizes(items), Tables(items), regionBytes) && AllNamed(items)
      modifies this`open
      ensures Valid() && |open| == 1 && open[0] == old(open[0]).With(items)
    {
      Concat(open[0].items, items);
      open := [open[0].With(items)];
    }

    method Rescue(item: LogItem) returns (ok: bool)
      requires Valid() && item.Named() && item.Size() + item.Table() + TRAILER_SIZE <= regionBytes
      requires open != [] ==> open[0].Fits(item.Size(), item.Table(), regionBytes)
      modifies this`open, this`closed, this`held, this`sequence
      ensures Valid() && closed == old(closed) && (ok <==> old(open) != [] || old(held) < limit)
      ensures !ok ==> open == old(open) && held == old(held) && sequence == old(sequence)
      ensures ok && old(open) != [] ==>
        open == [old(open[0]).With([item])] && held == old(held) && sequence == old(sequence)
      ensures ok && old(open) == [] ==>
        open == [Region(sequence, [item])] && held == old(held) + 1 && sequence == old(sequence) + 1
    {
      hide InOrder;
      ok := SecondRoom(item.Size(), item.Table());
      if ok {
        SizesOfOne(item);
        assert [] + [item] == [item];
        Lay([item]);
      }
    }

    /** Writes rescued items again, with their reads forgotten. Half a region of them always fits in the free region, so
        only the half and the write budget stop it. */
    method SecondChance(rescues: seq<LogItem>, budget: nat) returns (n: nat)
      requires Valid() && open == [] && AllNamed(rescues)
      modifies this`open, this`closed, this`held, this`sequence
      ensures Valid() && closed == old(closed)
      ensures n == if old(held) < limit then Rescued(rescues, 0, regionBytes / 2, budget) else 0
      ensures n <= |rescues|
      ensures if n == 0 then open == [] && held == old(held) && sequence == old(sequence)
              else
                && open == [Region(sequence, Rewritten(rescues[..n]))]
                && held == old(held) + 1 && sequence == old(sequence) + 1
    {
      hide InOrder, Rescued, Rewritten, Region.Fits;
      var half := regionBytes / 2;
      var written, i := 0, 0;
      assert rescues[0..] == rescues;
      while i < |rescues|
        invariant Valid() && closed == old(closed) && i <= |rescues| && i <= budget
        invariant written == Sizes(rescues[..i]) <= half
        invariant if i == 0 then open == [] && held == old(held) && sequence == old(sequence)
                  else
                    && open == [Region(sequence, Rewritten(rescues[..i]))]
                    && held == old(held) + 1 && sequence == old(sequence) + 1
        invariant i > 0 ==> old(held) < limit
        invariant Rescued(rescues, 0, half, budget) == i + Rescued(rescues[i..], written, half, budget - i)
      {
        var item := rescues[i];
        RescueStep(rescues, i, written, half, budget);
        if written + item.Size() > half || i == budget {
          n := i;
          return;
        }
        RescueFits(rescues, i, half, regionBytes);
        var ok := Rescue(item.Again());
        if !ok {
          n := i;
          return;
        }
        written, i := written + item.Size(), i + 1;
      }
      n := i;
    }

    /** The log as a value. */
    function Now(): Log
      reads this
    {
      Log(closed + open, open != [], held, pending, sequence)
    }

    function Terms(admits: nat -> nat, lingers: nat -> bool): Policy {
      Policy(regionBytes, limit, threshold, admits, lingers)
    }

    /** Gives the oldest closed region back after its second chance. One that is still read is held until its last
        read. admits and lingers say, of each eviction in turn, what the write budget admits of its second chance and
        whether the region is being read. */
    method Evict(turn: nat, admits: nat -> nat, lingers: nat -> bool) returns (n: nat)
      requires Valid() && open == [] && closed != []
      modifies this
      ensures Valid() && Now() == old(Now()).Evicted(Terms(admits, lingers), turn)
      ensures closed == old(closed)[1..]
      ensures n == if old(held) < limit
        then Rescued(Hot(old(closed)[0].items, threshold), 0, regionBytes / 2, admits(turn)) else 0
      ensures if n == 0 then open == []
              else |open| == 1 && open[0].items == Rewritten(Hot(old(closed)[0].items, threshold)[..n])
    {
      hide InOrder, Hot, Rescued;
      var victim := closed[0];
      HotAreNamed(victim.items, threshold);
      assert closed + open == closed;
      // Over the share, nothing gets a second chance.
      n := 0;
      if held <= limit {
        n := SecondChance(Hot(victim.items, threshold), admits(turn));
      }
      Leave(lingers(turn));
    }

    /** The oldest region leaves the log. */
    method Leave(read: bool)
      requires Valid() && closed != []
      modifies this`closed, this`held, this`pending
      ensures Valid() && closed == old(closed)[1..] && pending == old(pending) + if read then 1 else 0
    {
      if read {
        closed, pending := closed[1..], pending + 1;
      } else {
        closed, held := closed[1..], held - 1;
      }
    }

    /** The last read of an evicted region ends, and its space returns. */
    method GiveBack()
      requires Valid() && pending > 0
      modifies this`held, this`pending
      ensures Valid() && held == old(held) - 1 && pending == old(pending) - 1
    {
      held, pending := held - 1, pending - 1;
    }

    /** Room for a fill: evicts the fewest of the oldest regions, each after its second chance, that leave room in the
        last region or room for another, and none while either is there. It refuses once no region is left. */
    method Room(size: nat, table: nat, admits: nat -> nat, lingers: nat -> bool) returns (ok: bool, ghost evicted: nat)
      requires Valid() && size + table + TRAILER_SIZE <= regionBytes
      modifies this
      ensures Valid()
      ensures old(Now()).Counted() && Makes(old(Now()), Terms(admits, lingers), size, table, evicted, Now())
      ensures ok <==> open != [] && open[0].Fits(size, table, regionBytes)
      ensures !ok ==> open == [] && closed == [] && held == pending && !MayOpen(false)
      ensures (forall i :: !lingers(i)) ==> pending == old(pending)
    {
      hide InOrder, After, Log.Evicted, Hot, HotIn;
      ghost var was, terms := Now(), Terms(admits, lingers);
      var evictions := 0;
      NoneEvicted(was, terms);
      while true
        invariant Valid() && was.Counted() && Now() == After(was, terms, evictions)
        invariant (forall i :: !lingers(i)) ==> pending == old(pending)
        invariant forall j: nat :: j < evictions ==> Stuck(After(was, terms, j), terms, size, table)
        decreases HotIn(closed + open, threshold), |closed| + |open|
      {
        if open != [] && open[0].Fits(size, table, regionBytes) {
          assert (closed + open)[|closed|] == open[0];
          return true, evictions;
        }
        ghost var all := closed + open;
        assert open != [] ==> all[|closed|] == open[0];
        if open != [] {
          Close();
        }
        assert closed == all && closed + open == all;
        if MayOpen(false) {
          // A region that was just opened has room.
          OpenRegion();
          assert closed + open == all + [Region(sequence, [])];
          return true, evictions;
        }
        if closed == [] {
          return false, evictions;
        }
        OneMoreEvicted(was, terms, evictions);
        EvictsAlike(After(was, terms, evictions), Now(), terms, evictions);
        var n := Evict(evictions, admits, lingers);
        evictions := evictions + 1;
        EvictionCools(all, closed, open, n, threshold);
      }
    }

    /** Keeps the stripes of one envelope together, in the region that has or makes room for them. A log nobody reads
        takes every envelope while its share has two regions. */
    method Append(items: seq<LogItem>, admits: nat -> nat, lingers: nat -> bool)
      returns (stored: bool, ghost evicted: nat)
      requires Valid() && AllNamed(items) && Sizes(items) + Tables(items) + TRAILER_SIZE <= regionBytes
      modifies this
      ensures Valid()
      ensures old(Now()).Counted() && exists made: Log ::
        && Makes(old(Now()), Terms(admits, lingers), Sizes(items), Tables(items), evicted, made)
        && Now() == if stored then made.With(items) else made
      ensures !stored ==> open == [] && closed == [] && held == pending && !MayOpen(false)
      ensures limit >= 2 && old(pending) == 0 && (forall i :: !lingers(i)) ==> stored
    {
      hide InOrder, Makes;
      stored, evicted := Room(Sizes(items), Tables(items), admits, lingers);
      ghost var made := Now();
      if stored {
        Lay(items);
        assert Now() == made.With(items);
      }
    }

    /** Gives the oldest regions back, with no second chance, until a share holds what is left and one more. */
    method Fit(share: nat, lingers: nat -> bool)
      requires Valid()
      modifies this
      ensures Valid()
      ensures var all, kept := old(closed + open), if share > 0 then share - 1 else 0;
        closed + open == if |all| <= kept then all else all[|all| - kept..]
    {
      hide InOrder, Holds;
      ghost var all, dropped := closed + open, 0;
      var evictions := 0;
      while !(held - pending < share) && (closed != [] || open != [])
        invariant Valid() && dropped <= |all| && closed + open == all[dropped..]
        invariant dropped > 0 ==> held - pending + 1 >= share
        decreases |closed| + |open|, |open|
      {
        if closed == [] {
          Close();
          assert closed + open == all[dropped..];
        } else {
          DropFirst(closed, open, all, dropped);
          Leave(lingers(evictions));
          evictions, dropped := evictions + 1, dropped + 1;
        }
      }
    }
  }

  /** The next rescue fits with the ones before it. */
  lemma RescueFits(rescues: seq<LogItem>, i: nat, half: nat, regionBytes: nat)
    requires AllNamed(rescues) && i < |rescues| && half == regionBytes / 2 && MINIMUM_REGION_BYTES <= regionBytes
    requires Sizes(rescues[..i]) + rescues[i].Size() <= half
    ensures Sizes(rescues[..i + 1]) == Sizes(rescues[..i]) + rescues[i].Size()
    ensures rescues[i].Size() + rescues[i].Table() + TRAILER_SIZE <= regionBytes
    ensures forall sequence ::
      Region(sequence, Rewritten(rescues[..i])).Fits(rescues[i].Size(), rescues[i].Table(), regionBytes)
  {
    assert rescues[..i + 1] == rescues[..i] + [rescues[i]];
    Concat(rescues[..i], [rescues[i]]);
    SizesOfOne(rescues[i]);
    HalfFits(rescues[..i + 1], regionBytes);
    SameSizes(rescues[..i]);
  }

  lemma {:induction false} SameSizes(items: seq<LogItem>)
    ensures Sizes(Rewritten(items)) == Sizes(items) && Tables(Rewritten(items)) == Tables(items)
  {
    if items != [] {
      assert Rewritten(items)[1..] == Rewritten(items[1..]);
      SameSizes(items[1..]);
    }
  }

  /** What is written again is not hot, so an eviction leaves fewer hot items, or none were hot and it leaves fewer
      regions. */
  lemma EvictionCools(was: seq<Region>, closed: seq<Region>, open: seq<Region>, n: nat, threshold: nat)
    requires was != [] && closed == was[1..] && threshold >= 1 && n <= |Hot(was[0].items, threshold)|
    requires if n == 0 then open == []
             else |open| == 1 && open[0].items == Rewritten(Hot(was[0].items, threshold)[..n])
    ensures HotIn(closed + open, threshold) + |Hot(was[0].items, threshold)| == HotIn(was, threshold)
    ensures n == 0 ==> |closed| + |open| < |was|
  {
    hide Hot, Rewritten, HotIn;
    HotInFirst(was, threshold);
    if n > 0 {
      HotInConcat(closed, open, threshold);
      RewrittenIsSame(Hot(was[0].items, threshold)[..n], threshold);
      HotInOne(open[0], threshold);
      assert open == [open[0]];
    } else {
      assert closed + open == closed;
    }
  }
}
