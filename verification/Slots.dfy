/** The life of a slot of the disk cache's file, between its writer and its readers.

One writer opens, closes and evicts regions. Any number of reads hold a region while
they last. An evicted region is given back by whoever leaves it unread: the writer, or
the last read. Giving back is three steps, and other threads run between them: the
region is claimed, its space is punched out, and its slot is freed.
*/
module Slots {
  datatype Stage =
    | Opening
    | Open
    | Closed
    /** Evicted, with reads still in flight. */
    | Waiting
    /** Some thread is about to claim it. */
    | Leaving
    | Punching
    | Punched

  datatype Region = Region(slot: nat, stage: Stage, readers: nat, given: bool) {
    predicate Evicted() { stage.Waiting? || stage.Leaving? || stage.Punching? || stage.Punched? }

    /** The index names the region's items, so reads may begin. */
    predicate Indexed() { stage.Open? || stage.Closed? }
  }

  /** Regions by the sequence number they were opened with. */
  datatype Disk = Disk(
    limit: nat,
    regions: map<nat, Region>,
    held: nat,
    pending: nat,
    free: seq<nat>,
    next: nat,
    sequence: nat,
    /** The writer's region between its two steps of opening one. */
    opening: bool,
    /** Slots whose space is punched out, or was never written. */
    empty: set<nat>,
    /** The reads in flight. */
    reading: multiset<nat>)
  {
    function Set(id: nat, region: Region): Disk { this.(regions := regions[id := region]) }
  }

  datatype Kind = Fill | SecondChance

  datatype Action =
    | BeginOpen(kind: Kind)
    | FinishOpen(id: nat)
    | FailOpen(id: nat)
    | Close(id: nat)
    | StartRead(id: nat)
    | FinishRead(id: nat)
    | Evict(id: nat)
    | Claim(id: nat)
    | Punch(id: nat)
    | Free(id: nat)

  /** Adds a slot to an ascending list. */
  function InsertSlot(free: seq<nat>, slot: nat): seq<nat> {
    if free == [] || slot <= free[0] then [slot] + free else [free[0]] + InsertSlot(free[1..], slot)
  }

  ghost predicate Has(d: Disk, id: nat, stage: Stage) { id in d.regions && d.regions[id].stage == stage }

  ghost predicate Enabled(d: Disk, a: Action) {
    match a
    case BeginOpen(kind) =>
      // The writer has no region open, and the share has room for one more of the kind.
      && !d.opening && (forall id :: id in d.regions ==> !d.regions[id].stage.Open?)
      && (d.held as int) < (if kind.Fill? then d.limit - 1 else d.limit)
    case FinishOpen(id) => Has(d, id, Opening)
    case FailOpen(id) => Has(d, id, Opening)
    case Close(id) => Has(d, id, Open)
    case StartRead(id) => id in d.regions && d.regions[id].Indexed()
    case FinishRead(id) => id in d.reading && id in d.regions && d.regions[id].readers > 0
    case Evict(id) => Has(d, id, Closed)
    case Claim(id) => Has(d, id, Leaving)
    case Punch(id) => Has(d, id, Punching)
    case Free(id) => Has(d, id, Punched) && d.held > 0 && d.pending > 0
  }

  ghost function Apply(d: Disk, a: Action): Disk
    requires Enabled(d, a)
  {
    match a
    case BeginOpen(_) =>
      var slot := if d.free != [] then d.free[0] else d.next;
      d.(free := if d.free != [] then d.free[1..] else d.free,
         next := if d.free != [] then d.next else d.next + 1,
         empty := if d.free != [] then d.empty else d.empty + {slot},
         held := d.held + 1, sequence := d.sequence + 1, opening := true,
         regions := d.regions[d.sequence + 1 := Region(slot, Opening, 0, false)])
    case FinishOpen(id) =>
      // From here on it is written.
      d.Set(id, d.regions[id].(stage := Open)).(opening := false, empty := d.empty - {d.regions[id].slot})
    case FailOpen(id) =>
      d.(held := if d.held > 0 then d.held - 1 else 0, opening := false,
         free := InsertSlot(d.free, d.regions[id].slot), regions := d.regions - {id})
    case Close(id) => d.Set(id, d.regions[id].(stage := Closed))
    case StartRead(id) =>
      d.Set(id, d.regions[id].(readers := d.regions[id].readers + 1)).(reading := d.reading + multiset{id})
    case FinishRead(id) =>
      var region := d.regions[id].(readers := d.regions[id].readers - 1);
      // The last read of an evicted region gives it back.
      d.Set(id, if region.Evicted() && region.readers == 0 then region.(stage := Leaving) else region)
       .(reading := d.reading - multiset{id})
    case Evict(id) =>
      d.Set(id,
            d.regions[id].(stage := if d.regions[id].readers == 0 then Leaving else Waiting)).(pending := d.pending + 1)
    case Claim(id) =>
      // A region already given back is left alone.
      if d.regions[id].given then d else d.Set(id, d.regions[id].(given := true, stage := Punching))
    case Punch(id) =>
      d.Set(id, d.regions[id].(stage := Punched)).(empty := d.empty + {d.regions[id].slot})
    case Free(id) =>
      d.(held := d.held - 1, pending := d.pending - 1, free := InsertSlot(d.free, d.regions[id].slot),
         regions := d.regions - {id})
  }

  // -------------------------------------------------------------------- the invariant

  ghost predicate Rising(s: seq<nat>) { forall i, j :: 0 <= i < j < |s| ==> s[i] < s[j] }

  /** Every slot below next is free, or one region's, and never both. */
  ghost predicate Partition(regions: map<nat, Region>, free: seq<nat>, next: nat) {
    && (forall id :: id in regions ==> regions[id].slot < next && regions[id].slot !in free)
    && (forall a, b :: a in regions && b in regions && a != b ==> regions[a].slot != regions[b].slot)
    && (forall slot :: slot in free ==> slot < next)
    && (forall slot :: 0 <= slot < next ==> slot in free || exists id :: id in regions && regions[id].slot == slot)
    && Rising(free)
  }

  ghost function EvictedIn(regions: map<nat, Region>): set<nat> { set id | id in regions && regions[id].Evicted() }

  ghost predicate RegionInv(region: Region, reading: nat) {
    && region.readers == reading
    && (region.given <==> region.stage.Punching? || region.stage.Punched?)
    && (region.stage.Waiting? ==> region.readers > 0)
    && (region.stage.Opening? || region.stage.Leaving? || region.stage.Punching? || region.stage.Punched? ==>
          region.readers == 0)
  }

  ghost predicate Counts(regions: map<nat, Region>, held: nat, pending: nat, limit: nat) {
    held == |regions| <= limit && pending == |EvictedIn(regions)|
  }

  /** Each region's readers are the reads in flight from it. */
  ghost predicate Reads(regions: map<nat, Region>, reading: multiset<nat>, sequence: nat) {
    && (forall id :: id in regions ==> 0 < id <= sequence && RegionInv(regions[id], reading[id]))
    && (forall id :: id in reading ==> id in regions)
  }

  ghost predicate OneOpening(regions: map<nat, Region>, opening: bool) {
    && (forall id :: id in regions && regions[id].stage.Opening? ==> opening)
    && (forall a, b :: a in regions && b in regions && regions[a].stage.Opening? && regions[b].stage.Opening? ==>
        a == b)
  }

  /** Whatever is free, or about to be, is punched out. */
  ghost predicate Clean(regions: map<nat, Region>, free: seq<nat>, empty: set<nat>) {
    && (forall slot :: slot in free ==> slot in empty)
    && (forall id :: id in regions && (regions[id].stage.Punched? || regions[id].stage.Opening?) ==>
        regions[id].slot in empty)
  }

  ghost predicate Inv(d: Disk) {
    && Partition(d.regions, d.free, d.next)
    && Counts(d.regions, d.held, d.pending, d.limit)
    && Reads(d.regions, d.reading, d.sequence)
    && OneOpening(d.regions, d.opening)
    && Clean(d.regions, d.free, d.empty)
  }

  lemma {:induction false} InsertSlotIs(free: seq<nat>, slot: nat)
    requires Rising(free) && slot !in free
    ensures Rising(InsertSlot(free, slot))
    ensures forall x :: x in InsertSlot(free, slot) <==> x in free || x == slot
  {
    if free != [] && slot > free[0] {
      var rest := free[1..];
      InsertSlotIs(rest, slot);
      var after := InsertSlot(rest, slot);
      assert forall x :: x in rest ==> free[0] < x;
      forall i | 0 <= i < |after| ensures free[0] < after[i] { assert after[i] in after; }
      assert forall x :: x in free <==> x == free[0] || x in rest;
    } else if free != [] {
      assert free[0] in free;
    }
  }

  // --------------------------------------------------------- a region comes or goes

  lemma OpenPartition(regions: map<nat, Region>, free: seq<nat>, next: nat, id: nat, region: Region)
    requires Partition(regions, free, next) && id !in regions
    requires free != [] && region.slot == free[0]
    ensures Partition(regions[id := region], free[1..], next)
  {
    var more, left := regions[id := region], free[1..];
    assert free == [free[0]] + left;
    assert forall slot :: slot in free <==> slot == free[0] || slot in left;
    assert free[0] !in left;
    forall slot | 0 <= slot < next ensures slot in left || exists x :: x in more && more[x].slot == slot {
      if slot == region.slot {
        assert more[id].slot == slot;
      } else if slot !in free {
        var x :| x in regions && regions[x].slot == slot;
        assert more[x].slot == slot;
      }
    }
  }

  lemma ExtendPartition(regions: map<nat, Region>, free: seq<nat>, next: nat, id: nat, region: Region)
    requires Partition(regions, free, next) && id !in regions && region.slot == next
    ensures Partition(regions[id := region], free, next + 1)
  {
    var more := regions[id := region];
    forall slot | 0 <= slot < next + 1 ensures slot in free || exists x :: x in more && more[x].slot == slot {
      if slot == next {
        assert more[id].slot == slot;
      } else if slot !in free {
        var x :| x in regions && regions[x].slot == slot;
        assert more[x].slot == slot;
      }
    }
  }

  lemma FreePartition(regions: map<nat, Region>, free: seq<nat>, next: nat, id: nat)
    requires Partition(regions, free, next) && id in regions
    ensures Partition(regions - {id}, InsertSlot(free, regions[id].slot), next)
  {
    hide InsertSlot;
    InsertSlotIs(free, regions[id].slot);
    var left, after := regions - {id}, InsertSlot(free, regions[id].slot);
    forall slot | 0 <= slot < next ensures slot in after || exists x :: x in left && left[x].slot == slot {
      if slot !in free && slot != regions[id].slot {
        var x :| x in regions && regions[x].slot == slot;
        assert left[x].slot == slot;
      }
    }
  }

  lemma StagePartition(regions: map<nat, Region>, free: seq<nat>, next: nat, id: nat, region: Region)
    requires Partition(regions, free, next) && id in regions && region.slot == regions[id].slot
    ensures Partition(regions[id := region], free, next)
  {
    var changed := regions[id := region];
    forall slot | 0 <= slot < next ensures slot in free || exists x :: x in changed && changed[x].slot == slot {
      if slot !in free {
        var x :| x in regions && regions[x].slot == slot;
        assert changed[x].slot == slot;
      }
    }
  }

  lemma Sized(regions: map<nat, Region>)
    ensures |regions| == |regions.Keys|
  {
  }

  function One(b: bool): nat { if b then 1 else 0 }

  lemma OpenCounts(regions: map<nat, Region>, held: nat, pending: nat, limit: nat, id: nat, region: Region)
    requires Counts(regions, held, pending, limit) && held < limit && id !in regions && !region.Evicted()
    ensures Counts(regions[id := region], held + 1, pending, limit)
  {
    hide Region.Evicted;
    Sized(regions);
    Sized(regions[id := region]);
    assert regions[id := region].Keys == regions.Keys + {id};
    assert EvictedIn(regions[id := region]) == EvictedIn(regions);
  }

  lemma FreeCounts(regions: map<nat, Region>, held: nat, pending: nat, limit: nat, id: nat)
    requires Counts(regions, held, pending, limit) && id in regions
    ensures held > 0 && pending >= One(regions[id].Evicted())
    ensures Counts(regions - {id}, held - 1, pending - One(regions[id].Evicted()), limit)
  {
    hide Region.Evicted;
    Sized(regions);
    Sized(regions - {id});
    assert (regions - {id}).Keys == regions.Keys - {id};
    assert EvictedIn(regions - {id}) == EvictedIn(regions) - {id};
  }

  lemma StageCounts(regions: map<nat, Region>, held: nat, pending: nat, limit: nat, id: nat, region: Region, after: nat)
    requires Counts(regions, held, pending, limit) && id in regions
    requires after + One(regions[id].Evicted()) == pending + One(region.Evicted())
    ensures Counts(regions[id := region], held, after, limit)
  {
    hide Region.Evicted;
    Sized(regions);
    Sized(regions[id := region]);
    assert regions[id := region].Keys == regions.Keys;
    var old', new' := EvictedIn(regions), EvictedIn(regions[id := region]);
    if region.Evicted() {
      assert new' == old' + {id};
    } else {
      assert new' == old' - {id};
    }
  }

  // ------------------------------------------------------------------------- steps

  lemma BeginOpenKeeps(d: Disk, kind: Kind)
    requires Inv(d) && Enabled(d, BeginOpen(kind))
    ensures Inv(Apply(d, BeginOpen(kind)))
  {
    hide Partition, Counts;
    var t := Apply(d, BeginOpen(kind));
    var id := d.sequence + 1;
    var region := t.regions[id];
    assert id !in d.regions && id !in d.reading;
    OpenCounts(d.regions, d.held, d.pending, d.limit, id, region);
    if d.free != [] {
      OpenPartition(d.regions, d.free, d.next, id, region);
      assert d.free[0] in d.free;
      assert forall slot :: slot in t.free ==> slot in d.free;
    } else {
      ExtendPartition(d.regions, d.free, d.next, id, region);
    }
  }

  /** One region changes stage or readers, in its slot. */
  lemma RegionKeeps(d: Disk, id: nat, region: Region, t: Disk)
    requires Inv(d) && id in d.regions && region.slot == d.regions[id].slot
    requires t ==
      d.(regions := d.regions[id := region], pending := t.pending, empty := t.empty, opening := t.opening,
         reading := t.reading)
    requires t.pending + One(d.regions[id].Evicted()) == d.pending + One(region.Evicted())
    requires RegionInv(region, t.reading[id]) && forall other :: other != id ==> t.reading[other] == d.reading[other]
    requires region.stage.Opening? ==> d.regions[id].stage.Opening? && t.opening
    requires t.opening == d.opening || d.regions[id].stage.Opening?
    requires forall slot :: slot in d.empty && slot != region.slot ==> slot in t.empty
    requires region.stage.Opening? || region.stage.Punched? ==> region.slot in t.empty
    ensures Inv(t)
  {
    hide Partition, Counts, RegionInv, Region.Evicted;
    StagePartition(d.regions, d.free, d.next, id, region);
    StageCounts(d.regions, d.held, d.pending, d.limit, id, region, t.pending);
    SlotsApart(d, id);
  }

  lemma SlotsApart(d: Disk, id: nat)
    requires Inv(d) && id in d.regions
    ensures d.regions[id].slot !in d.free
    ensures forall other :: other in d.regions && other != id ==> d.regions[other].slot != d.regions[id].slot
  {
  }

  lemma GoneKeeps(d: Disk, id: nat, t: Disk)
    requires Inv(d) && id in d.regions && d.regions[id].readers == 0 && d.held > 0 && d.regions[id].slot in d.empty
    requires t == d.(held := d.held - 1, pending := t.pending, opening := t.opening,
                     free := InsertSlot(d.free, d.regions[id].slot), regions := d.regions - {id})
    requires t.pending + One(d.regions[id].Evicted()) == d.pending
    requires t.opening == d.opening || d.regions[id].stage.Opening?
    ensures Inv(t)
  {
    hide Partition, Counts, InsertSlot, Region.Evicted;
    FreePartition(d.regions, d.free, d.next, id);
    FreeCounts(d.regions, d.held, d.pending, d.limit, id);
    SlotsApart(d, id);
    Freed(d.regions, d.free, d.next, id);
    assert RegionInv(d.regions[id], d.reading[id]);
  }

  lemma Freed(regions: map<nat, Region>, free: seq<nat>, next: nat, id: nat)
    requires Partition(regions, free, next) && id in regions
    ensures forall slot :: slot in InsertSlot(free, regions[id].slot) <==> slot in free || slot == regions[id].slot
  {
    InsertSlotIs(free, regions[id].slot);
  }

  lemma StepKeeps(d: Disk, a: Action)
    requires Inv(d) && Enabled(d, a)
    ensures Inv(Apply(d, a))
  {
    hide Inv;
    if a.BeginOpen? {
      BeginOpenKeeps(d, a.kind);
    } else if a.FailOpen? || a.Free? {
      GoesKeeps(d, a);
    } else {
      ChangeKeeps(d, a);
    }
  }

  lemma GoesKeeps(d: Disk, a: Action)
    requires Inv(d) && Enabled(d, a) && (a.FailOpen? || a.Free?)
    ensures Inv(Apply(d, a))
  {
    hide Partition, OneOpening, Counts, InsertSlot;
    FreeCounts(d.regions, d.held, d.pending, d.limit, a.id);
    assert RegionInv(d.regions[a.id], d.reading[a.id]);
    GoneKeeps(d, a.id, Apply(d, a));
  }

  lemma ChangeKeeps(d: Disk, a: Action)
    requires Inv(d) && Enabled(d, a) && !a.BeginOpen? && !a.FailOpen? && !a.Free?
    ensures Inv(Apply(d, a))
  {
    hide Inv, Apply, Enabled;
    if a.FinishRead? || a.StartRead? {
      ReadKeeps(d, a);
    } else {
      StageKeeps(d, a);
    }
  }

  lemma ReadKeeps(d: Disk, a: Action)
    requires Inv(d) && Enabled(d, a) && (a.FinishRead? || a.StartRead?)
    ensures Inv(Apply(d, a))
  {
    hide Partition, Counts, InsertSlot;
    var t := Apply(d, a);
    assert RegionInv(d.regions[a.id], d.reading[a.id]);
    ReadingOthers(d.reading, a.id);
    hide Inv;
    RegionKeeps(d, a.id, t.regions[a.id], t);
  }

  lemma StageKeeps(d: Disk, a: Action)
    requires Inv(d) && Enabled(d, a) && (a.FinishOpen? || a.Close? || a.Evict? || a.Claim? || a.Punch?)
    ensures Inv(Apply(d, a))
  {
    hide Partition, Counts, InsertSlot;
    var t := Apply(d, a);
    assert RegionInv(d.regions[a.id], d.reading[a.id]);
    RegionKeeps(d, a.id, t.regions[a.id], t);
  }

  lemma ReadingOthers(reading: multiset<nat>, id: nat)
    ensures forall other :: other != id ==> (reading + multiset{id})[other] == reading[other]
    ensures forall other :: other != id ==> (reading - multiset{id})[other] == reading[other]
  {
  }

  // ------------------------------------------------------------------------- runs

  ghost function Fresh(limit: nat): Disk { Disk(limit, map[], 0, 0, [], 0, 0, false, {}, multiset{}) }

  ghost predicate IsRun(disks: seq<Disk>, actions: seq<Action>) {
    && |disks| == |actions| + 1
    && disks[0] == Fresh(disks[0].limit)
    && forall i :: 0 <= i < |actions| ==> Enabled(disks[i], actions[i]) && disks[i + 1] == Apply(disks[i], actions[i])
  }

  lemma {:induction false} RunKeeps(disks: seq<Disk>, actions: seq<Action>, n: nat)
    requires IsRun(disks, actions) && n < |disks|
    ensures Inv(disks[n])
    decreases n
  {
    hide Enabled, Apply;
    if n > 0 {
      RunKeeps(disks, actions, n - 1);
      StepKeeps(disks[n - 1], actions[n - 1]);
      assert disks[n - 1 + 1] == Apply(disks[n - 1], actions[n - 1]);
    }
  }

  /** At every instant each slot below next is free, or belongs to exactly one region, and never both. */
  lemma EverySlotIsOneThing(disks: seq<Disk>, actions: seq<Action>, n: nat, slot: nat)
    requires IsRun(disks, actions) && n < |disks| && slot < disks[n].next
    ensures slot in disks[n].free <==> !exists id :: id in disks[n].regions && disks[n].regions[id].slot == slot
    ensures forall a, b | a in disks[n].regions && b in disks[n].regions ::
      disks[n].regions[a].slot == slot && disks[n].regions[b].slot == slot ==> a == b
  {
    hide IsRun, Counts, Reads, OneOpening, Clean;
    RunKeeps(disks, actions, n);
  }

  /** A region on its way back has no reader and gets none, and whoever claims it is the first. */
  lemma GivenBackUnread(disks: seq<Disk>, actions: seq<Action>, n: nat, id: nat)
    requires IsRun(disks, actions) && n < |disks| && id in disks[n].regions && disks[n].regions[id].Evicted()
    ensures !Enabled(disks[n], StartRead(id))
    ensures Enabled(disks[n], Claim(id)) ==> !disks[n].regions[id].given
    ensures disks[n].regions[id].stage.Waiting? || id !in disks[n].reading
  {
    hide IsRun, Counts, Partition, OneOpening, Clean;
    RunKeeps(disks, actions, n);
    assert RegionInv(disks[n].regions[id], disks[n].reading[id]);
  }

  lemma {:induction false} GoneStaysGone(disks: seq<Disk>, actions: seq<Action>, i: nat, j: nat, id: nat)
    requires IsRun(disks, actions) && i <= j < |disks| && id <= disks[i].sequence && id !in disks[i].regions
    ensures id <= disks[j].sequence && id !in disks[j].regions
    decreases j
  {
    hide Enabled, Apply;
    if i < j {
      GoneStaysGone(disks, actions, i, j - 1, id);
      GoneStep(disks[j - 1], actions[j - 1], id);
      assert disks[j - 1 + 1] == Apply(disks[j - 1], actions[j - 1]);
    }
  }

  lemma GoneStep(d: Disk, a: Action, id: nat)
    requires Enabled(d, a) && id <= d.sequence && id !in d.regions
    ensures id <= Apply(d, a).sequence && id !in Apply(d, a).regions
  {
    hide InsertSlot;
  }

  /** Each region is given back at most once. */
  lemma GivenBackOnce(disks: seq<Disk>, actions: seq<Action>, i: nat, j: nat, id: nat)
    requires IsRun(disks, actions) && i < j < |actions| && actions[i] == Free(id)
    ensures actions[j] != Free(id)
  {
    RunKeeps(disks, actions, i);
    assert disks[i + 1] == Apply(disks[i], actions[i]);
    GoneStaysGone(disks, actions, i + 1, j, id);
  }

  /** A slot that is opened again was punched out since it was last written. */
  lemma ReopenedEmpty(disks: seq<Disk>, actions: seq<Action>, n: nat)
    requires IsRun(disks, actions) && n < |actions| && actions[n].BeginOpen? && disks[n].free != []
    ensures disks[n].free[0] in disks[n].empty
  {
    hide Counts, Partition, OneOpening, Reads, Enabled, Apply;
    RunKeeps(disks, actions, n);
    assert disks[n].free[0] in disks[n].free;
  }

  /** The regions held never pass the share, and a fill always leaves one for the second chance. */
  lemma HeldWithinShare(disks: seq<Disk>, actions: seq<Action>, n: nat)
    requires IsRun(disks, actions) && n < |disks|
    ensures disks[n].held == |disks[n].regions| <= disks[n].limit
    ensures n < |actions| && actions[n] == BeginOpen(Fill) ==> disks[n + 1].held < disks[n + 1].limit
  {
    hide Partition, Reads, OneOpening, Clean;
    RunKeeps(disks, actions, n);
    if n < |actions| { assert disks[n + 1] == Apply(disks[n], actions[n]); }
  }
}
