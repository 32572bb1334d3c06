/** The page cache's retained entries and its shared fetches.

Every method here is one critical section of the cache's mutex, so a run of the cache
is any sequence of them. A caller that is admitted holds, for each key it wanted, a pin
on a retained entry or a ticket for a flight of a load. A ticket of a finished flight
is a hold on the entry the load left there. Callers hand tickets in by leaving, trade
them for pins by taking the entry, and hand pins in by releasing them.

Entries, flights and loads are numbered. A lease is what an entry is charged.
*/
module SharedFetch {
  import opened Refs
  import opened Sums

  type Key = nat

  datatype Entry = Entry(
    key: Key,
    readers: nat,
    retained: bool,
    lease: Option<nat>,
    /** The lease, if any, is closed and the bytes are gone. */
    disposed: bool,
    /** The flight whose load made it; a kept table has none. */
    origin: Option<nat>,
    /** The generation it was made for. */
    born: nat)

  datatype Flight = Flight(key: Key, load: nat, waiters: nat, generation: nat, finished: bool, entry: Option<nat>)

  /** What a load brought for one key: what it could be charged, if anything, and whether there is anything to keep. */
  datatype Fetched = Fetched(lease: Option<nat>, held: bool)

  /** What a caller got for each of its keys: a pinned entry or a flight to wait on. */
  datatype Grant = Nothing | Pinning(entry: nat) | Waiting(flight: nat)

  /** What a caller of a key has: the retained entry, or its flight. */
  function GrantOf(entries: map<Key, nat>, flights: map<Key, nat>, key: Key): Grant {
    if key in entries then Pinning(entries[key])
    else if key in flights then Waiting(flights[key])
    else Nothing
  }

  /** Every grant made is the one its key's caller should have. */
  ghost predicate AllGrantOf(keys: seq<Key>, grants: seq<Grant>, entries: map<Key, nat>, flights: map<Key, nat>) {
    |grants| == |keys| && forall i :: 0 <= i < |keys| && !grants[i].Nothing? ==>
      grants[i] == GrantOf(entries, flights, keys[i])
  }

  lemma GrantsStay(keys: seq<Key>, grants: seq<Grant>, entries: map<Key, nat>, flights: map<Key, nat>, at: nat, f: nat)
    requires AllGrantOf(keys, grants, entries, flights) && Distinct(keys) && at < |keys|
    requires keys[at] !in entries && keys[at] !in flights
    ensures AllGrantOf(keys, grants[at := Waiting(f)], entries, flights[keys[at] := f])
  {
  }

  /** From position j on, the keys wanted have neither flight nor grant, and nothing else lacks a grant. */
  ghost predicate StillWanted(keys: seq<Key>, grants: seq<Grant>, wanted: seq<nat>, j: nat, flights: map<Key, nat>) {
    && j <= |wanted| && |grants| == |keys|
    && (forall i :: j <= i < |wanted| ==>
        wanted[i] < |keys| && keys[wanted[i]] !in flights && grants[wanted[i]].Nothing?)
    && (forall i :: 0 <= i < |keys| && grants[i].Nothing? ==> i in wanted[j..])
  }

  lemma WantedNext(keys: seq<Key>, grants: seq<Grant>, wanted: seq<nat>, j: nat, flights: map<Key, nat>)
    requires StillWanted(keys, grants, wanted, j, flights) && j < |wanted|
    ensures wanted[j] < |keys| && keys[wanted[j]] !in flights && grants[wanted[j]].Nothing?
  {
  }

  lemma WantedStep(keys: seq<Key>, grants: seq<Grant>, wanted: seq<nat>, j: nat, flights: map<Key, nat>, f: nat)
    requires StillWanted(keys, grants, wanted, j, flights) && j < |wanted| && Distinct(keys) && Distinct(wanted)
    ensures StillWanted(keys, grants[wanted[j] := Waiting(f)], wanted, j + 1, flights[keys[wanted[j]] := f])
  {
    assert wanted[j..] == [wanted[j]] + wanted[j + 1..];
  }

  /** The flights there were go on, and the new ones are of wanted keys, in one load. */
  ghost predicate StartedIn(keys: seq<Key>, were: map<Key, nat>, flights: map<Key, nat>, entries: map<Key, nat>,
                            flying: map<nat, Flight>, l: nat)
  {
    && (forall key :: key in were ==> key in flights && flights[key] == were[key])
    && (forall key :: key in flights && key !in were ==>
          key in keys && key !in entries && flights[key] in flying && flying[flights[key]].load == l)
  }

  lemma StartedStep(keys: seq<Key>, were: map<Key, nat>, flights: map<Key, nat>, entries: map<Key, nat>,
                    flew: map<nat, Flight>, flying: map<nat, Flight>, l: nat, key: Key, f: nat)
    requires StartedIn(keys, were, flights, entries, flew, l) && key in keys && key !in flights && key !in entries
    requires forall x :: x in flew ==> x in flying && flying[x] == flew[x]
    requires f in flying && flying[f].load == l
    ensures StartedIn(keys, were, flights[key := f], entries, flying, l)
  {
  }

  datatype Admission = CacheClosed | Wait | Admitted(grants: seq<Grant>)

  datatype Load = Load(flights: seq<nat>, waiters: nat, prefetch: bool, cancelled: bool, running: bool)

  // ------------------------------------------------------------------- the invariant

  /** The keys' entries are the retained ones. */
  ghost predicate Keyed(objects: map<nat, Entry>, entries: map<Key, nat>) {
    && (forall key :: key in entries ==>
          entries[key] in objects && objects[entries[key]].key == key && objects[entries[key]].retained)
    && (forall e :: e in objects && objects[e].retained ==> objects[e].key in entries && entries[objects[e].key] == e)
  }

  ghost predicate Distinct(s: seq<nat>) { forall i, j :: 0 <= i < j < |s| ==> s[i] != s[j] }

  /** A key's flight is the one unfinished flight of it that anybody may join. */
  ghost predicate Flying(flying: map<nat, Flight>, flights: map<Key, nat>, loads: map<nat, Load>) {
    && (forall key :: key in flights ==> flights[key] in flying && Joinable(flying, loads, flights[key], key))
    && (forall f :: f in flying ==> flying[f].load in loads && InLoad(f, flying[f], loads[flying[f].load]))
    && (forall f :: f in flying && !flying[f].finished && !loads[flying[f].load].cancelled ==>
          flying[f].key in flights && flights[flying[f].key] == f)
    && (forall l, i :: l in loads && 0 <= i < |loads[l].flights| ==>
          loads[l].flights[i] in flying && flying[loads[l].flights[i]].load == l)
    && (forall l :: l in loads ==> Distinct(loads[l].flights))
  }

  /** A running load has finished none of its flights. */
  ghost predicate Whole(flying: map<nat, Flight>, loads: map<nat, Load>) {
    forall f :: f in flying && flying[f].load in loads && loads[flying[f].load].running ==> !flying[f].finished
  }

  ghost predicate Joinable(flying: map<nat, Flight>, loads: map<nat, Load>, f: nat, key: Key)
    requires f in flying
  {
    flying[f].key == key && !flying[f].finished && flying[f].load in loads && !loads[flying[f].load].cancelled
  }

  ghost predicate InLoad(f: nat, flight: Flight, load: Load) {
    && f in load.flights && (!flight.finished ==> load.running) && (load.cancelled ==> load.waiters == 0)
  }

  /** An entry's readers are its pins and the tickets of the flight that made it. */
  ghost predicate Held(e: nat, entry: Entry, pins: multiset<nat>, tickets: multiset<nat>) {
    && entry.readers == pins[e] + (if entry.origin.Some? then tickets[entry.origin.value] else 0)
    // Nobody reads what is disposed of, and what nobody reads or retains is.
    && (entry.disposed <==> !entry.retained && entry.readers == 0)
    && (entry.retained ==> entry.lease.Some?)
  }

  ghost predicate Counted(objects: map<nat, Entry>, flying: map<nat, Flight>, pins: multiset<nat>,
                          tickets: multiset<nat>)
  {
    && (forall e :: e in objects ==> Held(e, objects[e], pins, tickets))
    && (forall e :: e in objects && objects[e].origin.Some? ==> MadeBy(e, objects[e].origin.value, flying))
    && (forall f :: f in flying ==> Waited(f, flying[f], objects, tickets))
    && (forall e :: e in pins ==> e in objects)
    && (forall f :: f in tickets ==> f in flying)
  }

  ghost predicate MadeBy(e: nat, f: nat, flying: map<nat, Flight>) {
    f in flying && flying[f].finished && flying[f].entry == Some(e)
  }

  ghost predicate Waited(f: nat, flight: Flight, objects: map<nat, Entry>, tickets: multiset<nat>) {
    && (!flight.finished ==> flight.waiters == tickets[f] && flight.entry.None?)
    && (flight.entry.Some? ==> flight.entry.value in objects && objects[flight.entry.value].origin == Some(f))
  }

  ghost function WaitersIn(flying: map<nat, Flight>, l: nat): map<nat, nat> {
    map f | f in flying && flying[f].load == l :: flying[f].waiters
  }

  ghost predicate Waits(flying: map<nat, Flight>, loads: map<nat, Load>) {
    forall l :: l in loads ==> loads[l].waiters == Sum(WaitersIn(flying, l))
  }

  function LeaseOf(entry: Entry): nat { if entry.retained && entry.lease.Some? then entry.lease.value else 0 }

  ghost function Leases(objects: map<nat, Entry>): map<nat, nat> { map e | e in objects :: LeaseOf(objects[e]) }

  ghost predicate Charged(objects: map<nat, Entry>, used: nat, lru: seq<nat>) {
    && used == Sum(Leases(objects))
    && (forall e :: e in lru <==> e in objects && objects[e].retained)
    && Distinct(lru)
  }

  ghost function Running(loads: map<nat, Load>, prefetch: bool): set<nat> {
    set l | l in loads && loads[l].running && loads[l].prefetch == prefetch
  }

  ghost predicate Slotted(loads: map<nat, Load>, active: nat, prefetches: nat, limit: nat, prefetchLimit: nat) {
    && prefetches == |Running(loads, true)| <= prefetchLimit
    && active == prefetches + |Running(loads, false)| && active - prefetches <= limit
  }

  /** Nothing retained was fetched for a generation that was cleared. */
  ghost predicate Current(objects: map<nat, Entry>, generation: nat) {
    forall e :: e in objects && objects[e].retained ==> objects[e].born == generation
  }

  ghost predicate Numbered(objects: map<nat, Entry>, flying: map<nat, Flight>, loads: map<nat, Load>, next: nat) {
    && (forall e :: e in objects ==> e < next) && (forall f :: f in flying ==> f < next) &&
      (forall l :: l in loads ==> l < next)
  }

  /** What was disposed of stays as it is: no lease is closed twice. */
  ghost predicate Lasts(before: map<nat, Entry>, after: map<nat, Entry>) {
    forall e :: e in before ==> e in after && (before[e].disposed ==> after[e] == before[e])
  }

  lemma LastsUnchanged(objects: map<nat, Entry>)
    ensures Lasts(objects, objects)
  {
  }

  /** The entry a landed flight leaves: read by those who waited, and retained only if somebody waits on it, it was
      charged, there is something to keep and nothing was cleared since it began. */
  function Landed(flight: Flight, f: nat, result: Fetched, generation: nat, closed: bool): Entry {
    var retained :=
      result.lease.Some? && flight.waiters > 0 && flight.generation == generation && !closed && result.held;
    Entry(flight.key, flight.waiters, retained, result.lease, flight.waiters == 0, Some(f), flight.generation)
  }

  function Ended(flight: Flight, result: Option<Fetched>, e: nat): Flight {
    flight.(finished := true, entry := if result.None? then None else Some(e))
  }

  /** A flight ended as its result says: without an entry, or with a new one, as it landed. */
  ghost predicate HasLanded(was: Flight, f: nat, result: Option<Fetched>, earlier: map<nat, Entry>,
                            flying: map<nat, Flight>, objects: map<nat, Entry>, generation: nat, closed: bool)
  {
    && f in flying && flying[f] == was.(finished := true, entry := flying[f].entry)
    && (flying[f].entry.Some? <==> result.Some?)
    && (result.Some? ==>
          var e := flying[f].entry.value;
          e !in earlier && e in objects && objects[e] == Landed(was, f, result.value, generation, closed))
  }

  lemma EndedHasLanded(flying: map<nat, Flight>, f: nat, result: Option<Fetched>, earlier: map<nat, Entry>, e: nat,
                       objects: map<nat, Entry>, generation: nat, closed: bool)
    requires f in flying
    requires result.Some? ==>
      e !in earlier && e in objects && objects[e] == Landed(flying[f], f, result.value, generation, closed)
    ensures HasLanded(flying[f], f, result, earlier, flying[f := Ended(flying[f], result, e)], objects, generation,
                      closed)
  {
  }

  lemma LandedStands(was: Flight, f: nat, result: Option<Fetched>, earlier: map<nat, Entry>, flying: map<nat, Flight>,
                     objects: map<nat, Entry>, after: map<nat, Flight>, more: map<nat, Entry>, generation: nat,
                     closed: bool)
    requires HasLanded(was, f, result, earlier, flying, objects, generation, closed)
    requires f in after && after[f] == flying[f]
    requires forall e :: e in objects ==> e in more && more[e] == objects[e]
    ensures HasLanded(was, f, result, earlier, after, more, generation, closed)
  {
  }

  lemma LastsMore(objects: map<nat, Entry>, e: nat, entry: Entry)
    requires e !in objects || !objects[e].disposed
    ensures Lasts(objects, objects[e := entry])
  {
  }

  lemma LastsThrough(a: map<nat, Entry>, b: map<nat, Entry>, c: map<nat, Entry>)
    requires Lasts(a, b) && Lasts(b, c)
    ensures Lasts(a, c)
  {
  }

  // --------------------------------------------------------------- one entry changes

  /** An entry's readers, or whether it is retained, change with the holds on it. */
  lemma CountEntry(objects: map<nat, Entry>, flying: map<nat, Flight>, pins: multiset<nat>, tickets: multiset<nat>,
                   e: nat, entry: Entry, pins': multiset<nat>, tickets': multiset<nat>)
    requires Counted(objects, flying, pins, tickets) && e in objects && entry.origin == objects[e].origin
    requires Held(e, entry, pins', tickets')
    requires forall x :: x != e ==> pins'[x] == pins[x]
    requires forall f :: f in tickets' ==> f in flying
    requires forall f :: f in flying && entry.origin != Some(f) ==> tickets'[f] == tickets[f]
    ensures Counted(objects[e := entry], flying, pins', tickets')
  {
    forall x | x in objects && x != e ensures Held(x, objects[x], pins', tickets') {
      if objects[x].origin.Some? {
        assert MadeBy(x, objects[x].origin.value, flying);
        assert entry.origin.Some? ==> MadeBy(e, entry.origin.value, flying);
      }
    }
    forall f | f in flying ensures Waited(f, flying[f], objects[e := entry], tickets') {
      assert Waited(f, flying[f], objects, tickets);
      if entry.origin == Some(f) { assert MadeBy(e, f, flying); }
    }
    forall x | x in pins' ensures x in objects { if x != e { assert x in pins; } }
  }

  /** What a charge does when one entry changes. */
  lemma ChargeEntry(objects: map<nat, Entry>, e: nat, entry: Entry)
    requires e in objects
    ensures Sum(Leases(objects[e := entry])) + LeaseOf(objects[e]) == Sum(Leases(objects)) + LeaseOf(entry)
  {
    SumSet(Leases(objects), e, LeaseOf(entry));
    assert Leases(objects[e := entry]) == Leases(objects)[e := LeaseOf(entry)];
  }

  /** The list without an entry. */
  function Others(lru: seq<nat>, e: nat): seq<nat> {
    if lru == [] then [] else if lru[0] == e then Others(lru[1..], e) else [lru[0]] + Others(lru[1..], e)
  }

  lemma {:induction false} OthersAre(lru: seq<nat>, e: nat)
    requires forall i, j :: 0 <= i < j < |lru| ==> lru[i] != lru[j]
    ensures forall x :: x in Others(lru, e) <==> x in lru && x != e
    ensures forall i, j :: 0 <= i < j < |Others(lru, e)| ==> Others(lru, e)[i] != Others(lru, e)[j]
  {
    if lru != [] {
      OthersAre(lru[1..], e);
      assert lru == [lru[0]] + lru[1..];
      var rest := Others(lru[1..], e);
      assert forall i :: 0 <= i < |rest| ==> rest[i] in rest;
      assert lru[0] !in lru[1..];
    }
  }

  /** Only an entry's readers change. */
  lemma TouchEntry(objects: map<nat, Entry>, entries: map<Key, nat>, used: nat, lru: seq<nat>, generation: nat, e: nat,
                   readers: nat, disposed: bool, after: seq<nat>)
    requires Keyed(objects, entries) && Charged(objects, used, lru) && Current(objects, generation) && e in objects
    requires Distinct(after) && forall x :: x in after <==> x in lru
    ensures var changed := objects[e := objects[e].(readers := readers, disposed := disposed)];
      Keyed(changed, entries) && Charged(changed, used, after) && Current(changed, generation)
  {
    var entry := objects[e].(readers := readers, disposed := disposed);
    ChargeEntry(objects, e, entry);
  }

  /** An entry is retained no more. */
  lemma DetachEntry(objects: map<nat, Entry>, entries: map<Key, nat>, used: nat, lru: seq<nat>, generation: nat, e: nat,
                    entry: Entry)
    requires Keyed(objects, entries) && Charged(objects, used, lru) && Current(objects, generation)
    requires e in objects && objects[e].retained && objects[e].lease.Some? && entry.key == objects[e].key
    requires !entry.retained
    ensures var changed := objects[e := entry];
      && objects[e].lease.value <= used && Keyed(changed, entries - {entry.key})
      && Charged(changed, used - objects[e].lease.value, Others(lru, e)) && Current(changed, generation)
  {
    ChargeEntry(objects, e, entry);
    OthersAre(lru, e);
  }

  function EntriesAfter(entries: map<Key, nat>, e: nat, entry: Entry): map<Key, nat> {
    if entry.retained then entries[entry.key := e] else entries
  }

  function LruAfter(lru: seq<nat>, e: nat, entry: Entry): seq<nat> { if entry.retained then [e] + lru else lru }

  /** The flights left to join once one has ended. */
  function FlightsAfter(flights: map<Key, nat>, flying: map<nat, Flight>, f: nat): map<Key, nat>
    requires f in flying
  {
    var key := flying[f].key;
    if key in flights && flights[key] == f then flights - {key} else flights
  }

  /** A new entry comes in, retained under its key when it is to be. */
  lemma EnterEntry(objects: map<nat, Entry>, entries: map<Key, nat>, used: nat, lru: seq<nat>, generation: nat, e: nat,
                   entry: Entry)
    requires Keyed(objects, entries) && Charged(objects, used, lru) && Current(objects, generation) && e !in objects
    requires entry.retained ==> entry.key !in entries && entry.born == generation
    ensures var more := objects[e := entry];
      && Keyed(more, EntriesAfter(entries, e, entry))
      && Charged(more, used + LeaseOf(entry), LruAfter(lru, e, entry)) && Current(more, generation)
  {
    SumAdd(Leases(objects), e, LeaseOf(entry));
    assert Leases(objects[e := entry]) == Leases(objects)[e := LeaseOf(entry)];
  }

  lemma Pinned(pins: multiset<nat>, e: nat)
    ensures (pins + multiset{e})[e] == pins[e] + 1
    ensures forall x :: x != e ==> (pins + multiset{e})[x] == pins[x]
    ensures e in pins ==> (pins - multiset{e})[e] + 1 == pins[e]
    ensures forall x :: x != e ==> (pins - multiset{e})[x] == pins[x]
  {
  }

  // ------------------------------------------------------------------------ the cache

  class Cache {
    const limit: nat
    const prefetchLimit: nat
    var objects: map<nat, Entry>
    var entries: map<Key, nat>
    /** Retained entries, most recently used first. */
    var lru: seq<nat>
    var flying: map<nat, Flight>
    var flights: map<Key, nat>
    var loads: map<nat, Load>
    var used: nat
    var active: nat
    var prefetches: nat
    var generation: nat
    var closed: bool
    var next: nat
    /** The loads that were told to stop. */
    var stopped: set<nat>
    /** What callers hold. */
    ghost var pins: multiset<nat>
    ghost var tickets: multiset<nat>

    ghost predicate Valid()
      reads this
    {
      Sound() && Whole(flying, loads)
    }

    ghost predicate Sound()
      reads this
    {
      && Keyed(objects, entries) && Charged(objects, used, lru) && Current(objects, generation)
      && entries.Keys !! flights.Keys
      && Flying(flying, flights, loads) && Waits(flying, loads)
      && Counted(objects, flying, pins, tickets)
      && Slotted(loads, active, prefetches, limit, prefetchLimit)
      && Numbered(objects, flying, loads, next)
    }

    constructor (limit: nat, prefetchLimit: nat)
      ensures Valid() && objects == map[] && flying == map[] && pins == multiset{} && tickets == multiset{}
      ensures this.limit == limit && this.prefetchLimit == prefetchLimit
    {
      this.limit, this.prefetchLimit := limit, prefetchLimit;
      objects, entries, lru, flying, flights, loads := map[], map[], [], map[], map[], map[];
      used, active, prefetches, generation, closed, next := 0, 0, 0, 0, false, 0;
      pins, tickets := multiset{}, multiset{};
    }

    /** A caller reads a retained entry. */
    method Pin(e: nat)
      requires Valid() && e in objects && objects[e].retained
      modifies this`objects, this`lru, this`pins
      ensures Valid() && pins == old(pins) + multiset{e}
      ensures objects == old(objects)[e := old(objects)[e].(readers := old(objects)[e].readers + 1)]
      ensures lru == [e] + Others(old(lru), e)
      ensures Lasts(old(objects), objects)
    {
      hide Keyed, Charged, Current, Flying, Waits, Counted, Slotted, Others, Numbered, Whole, Distinct, MadeBy;
      IsHeld(e);
      Pinned(pins, e);
      MovedToFront(e);
      var entry := objects[e].(readers := objects[e].readers + 1);
      ReadersChange(e, entry, [e] + Others(lru, e), pins + multiset{e}, tickets);
      lru, objects, pins := [e] + Others(lru, e), objects[e := entry], pins + multiset{e};
    }

    /** Retains an entry no more. It stays charged to nobody, and is disposed of once nobody reads it. */
    method DropEntry(e: nat)
      requires Valid() && e in objects && objects[e].retained
      modifies this`objects, this`entries, this`lru, this`used
      ensures Valid()
      ensures objects ==
        old(objects)[e := old(objects)[e].(retained := false, disposed := old(objects)[e].readers == 0)]
      ensures entries == old(entries) - {old(objects)[e].key} && lru == Others(old(lru), e)
      ensures Lasts(old(objects), objects)
    {
      hide Keyed, Charged, Current, Flying, Waits, Counted, Slotted, Others, Numbered, Whole;
      IsHeld(e);
      var entry := objects[e].(retained := false, disposed := objects[e].readers == 0);
      CountEntry(objects, flying, pins, tickets, e, entry, pins, tickets);
      DetachEntry(objects, entries, used, lru, generation, e, entry);
      NumberEntry(e, entry);
      entries := entries - {entry.key};
      lru := Others(lru, e);
      used := used - objects[e].lease.value;
      objects := objects[e := entry];
    }

    /** A hold on an entry is handed in. The last one disposes of an entry that is not retained, and drops one that may
        not be retained any more. */
    method HandIn(e: nat, allowed: bool, ghost pins': multiset<nat>, ghost tickets': multiset<nat>)
      requires Valid() && e in objects && objects[e].readers > 0
      requires (forall x :: x != e ==> pins'[x] == pins[x]) && forall f :: f in tickets' ==> f in flying
      requires forall f :: f in flying && objects[e].origin != Some(f) ==> tickets'[f] == tickets[f]
      requires pins'[e] + (if objects[e].origin.Some? then tickets'[objects[e].origin.value] else 0) + 1 ==
        objects[e].readers
      modifies this`objects, this`entries, this`lru, this`used, this`pins, this`tickets
      ensures Valid() && pins == pins' && tickets == tickets'
      ensures objects.Keys == old(objects).Keys && objects[e].readers == old(objects)[e].readers - 1
      ensures !old(objects)[e].disposed && (objects[e].disposed ==> objects[e].readers == 0)
      ensures Lasts(old(objects), objects)
    {
      hide Keyed, Charged, Current, Flying, Waits, Counted, Slotted, Numbered, Whole;
      IsHeld(e);
      var readers := objects[e].readers - 1;
      var disposed := readers == 0 && !objects[e].retained;
      var entry := objects[e].(readers := readers, disposed := disposed);
      ChargedLru();
      ReadersChange(e, entry, lru, pins', tickets');
      LastsMore(objects, e, entry);
      objects := objects[e := entry];
      pins, tickets := pins', tickets';
      if readers == 0 && entry.retained && !allowed {
        DropEntry(e);
      }
    }

    /** An entry's readers change with the holds on it, wherever it then stands among the entries in use. */
    lemma ReadersChange(e: nat, entry: Entry, after: seq<nat>, pins': multiset<nat>, tickets': multiset<nat>)
      requires Valid() && e in objects && entry == objects[e].(readers := entry.readers, disposed := entry.disposed)
      requires Held(e, entry, pins', tickets') && forall x :: x != e ==> pins'[x] == pins[x]
      requires forall f :: f in tickets' ==> f in flying
      requires forall f :: f in flying && entry.origin != Some(f) ==> tickets'[f] == tickets[f]
      requires Distinct(after) && forall x :: x in after <==> x in lru
      ensures var changed := objects[e := entry];
        && Keyed(changed, entries) && Charged(changed, used, after) && Current(changed, generation)
        && Counted(changed, flying, pins', tickets') && Numbered(changed, flying, loads, next)
    {
      hide Keyed, Charged, Current, Flying, Waits, Counted, Slotted, Numbered, Whole, Distinct, Held;
      CountEntry(objects, flying, pins, tickets, e, entry, pins', tickets');
      TouchEntry(objects, entries, used, lru, generation, e, entry.readers, entry.disposed, after);
      NumberEntry(e, entry);
    }

    lemma ChargedLru()
      requires Charged(objects, used, lru)
      ensures Distinct(lru)
    {
    }

    /** A caller is done with a pinned entry. */
    method Release(e: nat, allowed: bool)
      requires Valid() && e in pins
      modifies this`objects, this`entries, this`lru, this`used, this`pins, this`tickets
      ensures Valid() && pins == old(pins) - multiset{e} && tickets == old(tickets)
      ensures Lasts(old(objects), objects)
    {
      hide Keyed, Charged, Current, Flying, Waits, Counted, Slotted, Numbered, Whole;
      PinnedExists(e);
      IsHeld(e);
      Pinned(pins, e);
      HandIn(e, allowed, pins - multiset{e}, tickets);
    }

    lemma PinnedExists(e: nat)
      requires Counted(objects, flying, pins, tickets) && e in pins
      ensures e in objects
    {
    }

    /** A caller takes the entry its finished flight left: the ticket becomes a pin. */
    ghost method Take(f: nat)
      requires Valid() && f in tickets && f in flying && flying[f].finished && flying[f].entry.Some?
      modifies this`pins, this`tickets
      ensures Valid() && tickets == old(tickets) - multiset{f} && pins == old(pins) + multiset{flying[f].entry.value}
    {
      hide Keyed, Charged, Current, Flying, Waits, Counted, Slotted, Numbered, Whole;
      var e := flying[f].entry.value;
      LeftBy(f);
      IsHeld(e);
      Pinned(pins, e);
      Pinned(tickets, f);
      CountEntry(objects, flying, pins, tickets, e, objects[e], pins + multiset{e}, tickets - multiset{f});
      assert objects[e := objects[e]] == objects;
      pins, tickets := pins + multiset{e}, tickets - multiset{f};
    }

    lemma LeftBy(f: nat)
      requires Counted(objects, flying, pins, tickets) && f in flying && flying[f].entry.Some?
      ensures flying[f].entry.value in objects && objects[flying[f].entry.value].origin == Some(f)
    {
      assert Waited(f, flying[f], objects, tickets);
    }

    /** Gives one unread entry back, the least recently used of them, or says there is none. */
    method Reclaim() returns (dropped: bool)
      requires Valid()
      modifies this`objects, this`entries, this`lru, this`used
      ensures Valid()
      ensures dropped <==>
        exists i :: 0 <= i < |old(lru)| && old(lru)[i] in old(objects) && old(objects)[old(lru)[i]].readers == 0
      ensures !dropped ==> objects == old(objects)
      ensures Lasts(old(objects), objects)
      ensures dropped ==> exists i ::
        && 0 <= i < |old(lru)| && old(lru)[i] in old(objects) && old(objects)[old(lru)[i]].readers == 0
        && lru == Others(old(lru), old(lru)[i])
        && forall j :: i < j < |old(lru)| ==> old(lru)[j] in old(objects) && old(objects)[old(lru)[j]].readers > 0
    {
      hide Keyed, Current, Flying, Waits, Counted, Slotted, Numbered, Others, Leases, Whole;
      var i;
      dropped, i := OldestUnread();
      if dropped {
        InLru(i);
        DropEntry(lru[i]);
      }
    }

    method OldestUnread() returns (found: bool, i: nat)
      requires Valid()
      ensures found ==> i < |lru| && lru[i] in objects && objects[lru[i]].readers == 0
      ensures forall j :: (if found then i + 1 else 0) <= j < |lru| ==> lru[j] in objects && objects[lru[j]].readers > 0
    {
      hide Keyed, Charged, Current, Flying, Waits, Counted, Slotted, Numbered, Whole;
      i := |lru|;
      while i > 0
        invariant i <= |lru| && forall j :: i <= j < |lru| ==> lru[j] in objects && objects[lru[j]].readers > 0
      {
        i := i - 1;
        InLru(i);
        if objects[lru[i]].readers == 0 {
          return true, i;
        }
      }
      found := false;
    }

    lemma InLru(i: nat)
      requires Charged(objects, used, lru) && i < |lru|
      ensures lru[i] in objects && objects[lru[i]].retained
    {
      assert lru[i] in lru;
    }

    /** Forgets every entry, and keeps loads already begun from being retained. */
    method Clear()
      requires Valid()
      modifies this`objects, this`entries, this`lru, this`used, this`generation
      ensures Valid() && entries == map[] && lru == [] && used == 0 && generation == old(generation) + 1
      ensures objects.Keys == old(objects).Keys && pins == old(pins) && tickets == old(tickets)
      ensures Lasts(old(objects), objects)
    {
      hide Keyed, Current, Flying, Waits, Counted, Slotted, Numbered, Others, Leases, Whole;
      while lru != []
        invariant Valid() && objects.Keys == old(objects).Keys && generation == old(generation)
        invariant Lasts(old(objects), objects)
        decreases |lru|
      {
        InLru(|lru| - 1);
        Shorter(lru, |lru| - 1);
        DropEntry(lru[|lru| - 1]);
      }
      NoneRetained();
      generation := generation + 1;
    }

    lemma NoneRetained()
      requires Keyed(objects, entries) && Charged(objects, used, lru) && lru == []
      ensures entries == map[] && used == 0 && Current(objects, generation + 1)
    {
      assert forall e :: e in objects ==> !objects[e].retained;
      NoLeases(Leases(objects));
    }

    /** Stops retention for good. */
    method Close()
      requires Valid()
      modifies this`objects, this`entries, this`lru, this`used, this`generation, this`closed, this`stopped
      ensures Valid() && closed && Lasts(old(objects), objects) && (!old(closed) ==> entries == map[] && used == 0)
      ensures stopped == if old(closed) then old(stopped) else old(stopped) + LoadsOf(flying, flights)
    {
      hide Keyed, Charged, Current, Flying, Waits, Counted, Slotted, Numbered, Whole, Lasts;
      if closed {
        LastsUnchanged(objects);
        return;
      }
      closed := true;
      assert forall key :: key in flights ==> flights[key] in flying by { FlightsFly(); }
      stopped := stopped + set key | key in flights :: flying[flights[key]].load;
      Clear();
    }

    /** What holds at every instant: no key is both retained and on its way; an entry's readers are the holds on it;
        what nobody reads or retains is disposed of, and nothing else is; what is retained is charged, once, and of
        the current generation; and loads of each kind keep within their slots. */
    lemma Promises()
      requires Valid()
      ensures forall key :: !(key in entries && key in flights)
      ensures forall e :: e in objects ==>
        objects[e].readers == pins[e] + if objects[e].origin.Some? then tickets[objects[e].origin.value] else 0
      ensures forall e :: e in objects ==> (objects[e].disposed <==> !objects[e].retained && objects[e].readers == 0)
      ensures forall key :: key in entries ==>
        objects[entries[key]].born == generation && objects[entries[key]].lease.Some?
      ensures used == Sum(Leases(objects))
      ensures prefetches <= prefetchLimit && active - prefetches <= limit
    {
      hide Flying, Waits, Whole, Numbered;
      forall e | e in objects ensures Held(e, objects[e], pins, tickets) { IsHeld(e); }
    }

    /** Retains a table that came without a load, where the key is neither retained nor on its way. */
    method KeepTable(key: Key, lease: nat) returns (kept: bool)
      requires Valid()
      modifies this`objects, this`entries, this`lru, this`used, this`next
      ensures Valid() && (kept <==> !closed && key !in old(entries) && key !in flights)
      ensures !kept ==> objects == old(objects)
      ensures Lasts(old(objects), objects)
      ensures kept ==> key in entries && entries[key] in objects
      ensures kept ==> objects[entries[key]].lease == Some(lease) && objects[entries[key]].readers == 0
    {
      hide Valid;
      if closed || key in entries || key in flights {
        return false;
      }
      EnterTable(key, lease);
      kept := true;
    }

    method EnterTable(key: Key, lease: nat)
      requires Valid() && key !in entries && key !in flights
      modifies this`objects, this`entries, this`lru, this`used, this`next
      ensures Valid() && Lasts(old(objects), objects)
      ensures key in entries && entries[key] in objects
      ensures objects[entries[key]].lease == Some(lease) && objects[entries[key]].readers == 0
    {
      hide Keyed, Charged, Current, Flying, Waits, Counted, Slotted, Numbered, Whole, Lasts;
      TableEnters(key, lease);
      var e, entry := next, Entry(key, 0, true, Some(lease), false, None, generation);
      objects, entries, lru, used, next := objects[e := entry], entries[key := e], [e] + lru, used + lease, next + 1;
    }

    lemma TableEnters(key: Key, lease: nat)
      requires Valid() && key !in entries && key !in flights
      ensures var e, entry := next, Entry(key, 0, true, Some(lease), false, None, generation);
        var more := objects[e := entry];
        && Keyed(more, entries[key := e]) && Charged(more, used + lease, [e] + lru) && Current(more, generation)
        && entries[key := e].Keys !! flights.Keys && Counted(more, flying, pins, tickets)
        && Numbered(more, flying, loads, next + 1) && Lasts(objects, more)
    {
      hide Keyed, Charged, Current, Flying, Waits, Counted, Slotted, Numbered, Whole;
      var e, entry := next, Entry(key, 0, true, Some(lease), false, None, generation);
      FreshEntry();
      NewEntryCounts(objects, flying, pins, tickets, e, entry);
      EnterEntry(objects, entries, used, lru, generation, e, entry);
      NumberNew(e, entry);
      LastsMore(objects, e, entry);
    }

    lemma FreshEntry()
      requires Numbered(objects, flying, loads, next) && Counted(objects, flying, pins, tickets)
      ensures next !in objects && next !in pins && next !in flying && next !in tickets && next !in loads
    {
    }

    lemma NumberNew(e: nat, entry: Entry)
      requires Numbered(objects, flying, loads, next) && e == next
      ensures Numbered(objects[e := entry], flying, loads, next + 1)
    {
    }

    /** A caller waits on a flight somebody else's load began. */
    method Join(f: nat)
      requires Valid() && f in flying && flying[f].key in flights && flights[flying[f].key] == f
      requires flying[f].load in loads
      modifies this`flying, this`loads, this`tickets
      ensures Valid() && tickets == old(tickets) + multiset{f} && flying.Keys == old(flying).Keys
      ensures loads.Keys == old(loads).Keys
      ensures forall x :: x in flying ==> flying[x].key == old(flying)[x].key
    {
      hide Keyed, Charged, Current, Flying, Waits, Counted, Slotted, Numbered, Whole;
      var l := flying[f].load;
      var flight, load := flying[f].(waiters := flying[f].waiters + 1), loads[l].(waiters := loads[l].waiters + 1);
      Pinned(tickets, f);
      IsJoinable(f);
      WaitersChange(f, flight, load, tickets + multiset{f});
      flying, loads, tickets := flying[f := flight], loads[l := load], tickets + multiset{f};
    }

    /** A caller gives up on a flight. It hands a finished one's entry back; the last to leave an unfinished load
        cancels it, and no caller joins a cancelled load's flights. */
    method Leave(f: nat, allowed: bool)
      requires Valid() && f in tickets
      modifies this`objects, this`entries, this`lru, this`used, this`flying, this`flights, this`loads, this`stopped
      modifies this`pins, this`tickets
      ensures Valid() && tickets == old(tickets) - multiset{f} && pins == old(pins)
      ensures Lasts(old(objects), objects)
      ensures f in old(flying)
      ensures old(flying)[f].finished ==>
        flying == old(flying) && flights == old(flights) && loads == old(loads) && stopped == old(stopped)
      // A fetch goes on while anybody waits for any of its keys, and its last waiter stops it.
      ensures !old(flying)[f].finished ==> LeftFlight(old(flying), flying, old(loads), loads, f)
      ensures !old(flying)[f].finished ==>
        LeftLoad(old(flying), old(flights), flights, old(loads), old(stopped), stopped, old(flying)[f].load)
    {
      hide Keyed, Charged, Current, Flying, Waits, Counted, Slotted, Numbered, Whole, LeftFlight, LeftLoad;
      TicketFlies(f);
      Pinned(tickets, f);
      if flying[f].finished {
        if flying[f].entry.Some? {
          LeftBy(f);
          IsHeld(flying[f].entry.value);
          HandIn(flying[f].entry.value, allowed, pins, tickets - multiset{f});
        } else {
          TicketSpent(objects, flying, pins, tickets, f);
          tickets := tickets - multiset{f};
        }
        return;
      }
      LeaveUnfinished(f);
    }

    /** The callers waiting for a flight, and with it for its load, change with its tickets. */
    lemma WaitersChange(f: nat, flight: Flight, load: Load, tickets': multiset<nat>)
      requires Valid() && f in flying && !flying[f].finished && flying[f].entry.None? && flying[f].load in loads
      requires flight == flying[f].(waiters := tickets'[f]) && forall x :: x != f ==> tickets'[x] == tickets[x]
      requires load == loads[flying[f].load].(waiters := load.waiters) && !load.cancelled
      requires load.waiters + flying[f].waiters == loads[flying[f].load].waiters + flight.waiters
      ensures Counted(objects, flying[f := flight], pins, tickets')
      ensures var after := loads[flying[f].load := load];
        && Flying(flying[f := flight], flights, after) && Whole(flying[f := flight], after)
        && Waits(flying[f := flight], after) && Slotted(after, active, prefetches, limit, prefetchLimit)
        && Numbered(objects, flying[f := flight], after, next)
    {
      hide Keyed, Charged, Current, Flying, Waits, Counted, Slotted, Numbered, Whole;
      var l := flying[f].load;
      FlightCounts(objects, flying, pins, tickets, f, flight, tickets');
      FlightFlies(flying, flights, loads, f, flight, load);
      FlightWaits(flying, loads, f, flight, load);
      LoadSlots(loads, active, prefetches, limit, prefetchLimit, l, load);
      NumberFlight(f, flight, l, load);
    }

    method LeaveUnfinished(f: nat)
      requires Valid() && f in tickets && f in flying && flying[f].load in loads && !flying[f].finished
      modifies this`flying, this`flights, this`loads, this`tickets, this`stopped
      ensures Valid() && tickets == old(tickets) - multiset{f}
      ensures LeftFlight(old(flying), flying, old(loads), loads, f)
      ensures LeftLoad(old(flying), old(flights), flights, old(loads), old(stopped), stopped, old(flying)[f].load)
    {
      hide Keyed, Charged, Current, Flying, Waits, Counted, Slotted, Numbered, Whole;
      var l := flying[f].load;
      Pinned(tickets, f);
      IsWaited(f);
      var flight, load := flying[f].(waiters := flying[f].waiters - 1), loads[l].(waiters := loads[l].waiters - 1);
      WaitersChange(f, flight, load, tickets - multiset{f});
      flying, loads, tickets := flying[f := flight], loads[l := load], tickets - multiset{f};
      if load.waiters == 0 {
        Cancel(l);
      }
    }

    lemma TicketFlies(f: nat)
      requires Counted(objects, flying, pins, tickets) && Flying(flying, flights, loads) && f in tickets
      ensures f in flying && flying[f].load in loads
    {
    }

    /** An unfinished flight somebody waits on belongs to a load that is not cancelled. */
    lemma IsWaited(f: nat)
      requires Counted(objects, flying, pins, tickets) && Flying(flying, flights, loads) && Waits(flying, loads)
      requires f in tickets && f in flying && !flying[f].finished && flying[f].load in loads
      ensures flying[f].waiters == tickets[f] > 0 && flying[f].entry.None?
      ensures loads[flying[f].load].waiters >= flying[f].waiters && !loads[flying[f].load].cancelled
    {
      assert Waited(f, flying[f], objects, tickets);
      AtLeast(flying, loads, f);
      assert InLoad(f, flying[f], loads[flying[f].load]);
    }

    /** Ends a load nobody waits on, as far as new callers see. Its slot is given back when its loader finishes. */
    method Cancel(l: nat)
      requires Valid() && l in loads && loads[l].waiters == 0
      modifies this`flights, this`loads, this`stopped
      ensures Valid() && flights.Keys <= old(flights).Keys
      ensures loads == old(loads)[l := old(loads)[l].(cancelled := true)] && stopped == old(stopped) + {l}
      ensures Unjoinable(flying, old(flights), flights, l)
    {
      hide Keyed, Charged, Current, Waits, Counted, Slotted, Numbered, Whole, Flying, Without;
      WithoutIs(flying, flights, loads, l);
      var left := Unjoined(l);
      CancelFlies(flying, flights, loads, l);
      LoadSlots(loads, active, prefetches, limit, prefetchLimit, l, loads[l].(cancelled := true));
      CancelRest(l);
      flights, loads, stopped := left, loads[l := loads[l].(cancelled := true)], stopped + {l};
    }

    /** The flights left to join without a load's. */
    method Unjoined(l: nat) returns (left: map<Key, nat>)
      requires Flying(flying, flights, loads) && l in loads
      ensures left == Without(flights, flying, loads[l].flights)
    {
      hide Flying;
      var held := loads[l].flights;
      left := flights;
      for i := 0 to |held|
        invariant left == Without(flights, flying, held[..i])
      {
        ListedFlies(l, i);
        var key := flying[held[i]].key;
        WithoutStep(flights, flying, held, i);
        if key in left && left[key] == held[i] {
          left := left - {key};
        }
      }
      assert held[..|held|] == held;
    }

    lemma ListedFlies(l: nat, i: nat)
      requires Flying(flying, flights, loads) && l in loads && i < |loads[l].flights|
      ensures loads[l].flights[i] in flying
      ensures forall key :: key in flights && flights[key] == loads[l].flights[i] ==>
        key == flying[loads[l].flights[i]].key
    {
      forall key | key in flights
        ensures flying[flights[key]].key == key
      {
        assert Joinable(flying, loads, flights[key], key);
      }
    }

    lemma FlightsFly()
      requires Flying(flying, flights, loads)
      ensures forall key :: key in flights ==> flights[key] in flying
    {
    }

    lemma CancelRest(l: nat)
      requires Waits(flying, loads) && Whole(flying, loads) && Numbered(objects, flying, loads, next) && l in loads
      ensures var more := loads[l := loads[l].(cancelled := true)];
        Waits(flying, more) && Whole(flying, more) && Numbered(objects, flying, more, next)
    {
    }

    /** One flight of a load ends. */
    method FinishFlight(f: nat, result: Option<Fetched>)
      requires Sound() && f in flying && !flying[f].finished && flying[f].load in loads
      modifies this`objects, this`entries, this`lru, this`used, this`flying, this`flights, this`next
      ensures Sound() && flying == old(flying)[f := Ended(old(flying)[f], result, old(next))]
      ensures result.None? ==> objects == old(objects) && next == old(next)
      ensures result.Some? ==>
        && objects == old(objects)[old(next) := Landed(old(flying)[f], f, result.value, generation, closed)]
        && old(next) !in old(objects) && next == old(next) + 1
      ensures Lasts(old(objects), objects)
    {
      hide Sound, Landed;
      if result.None? {
        FailFlight(f);
      } else {
        LandFlight(f, result.value);
      }
    }

    method FailFlight(f: nat)
      requires Sound() && f in flying && !flying[f].finished && flying[f].load in loads
      modifies this`flying, this`flights
      ensures Sound() && flying == old(flying)[f := old(flying)[f].(finished := true)] && flying[f].entry.None?
    {
      hide Keyed, Charged, Current, Flying, Waits, Counted, Slotted, Numbered;
      var flight := flying[f];
      UnfinishedWaited(f);
      FinishFlies(flying, flights, loads, f, None);
      FinishWaits(flying, loads, f, None);
      FailCounts(objects, flying, pins, tickets, f);
      FinishNumbers(f, None);
      flights := FlightsAfter(flights, flying, f);
      flying := flying[f := flight.(finished := true)];
    }

    /** A flight lands. Its entry is retained only if somebody waits on it, it was charged, there is something to keep,
        and nothing was cleared since it began. */
    method LandFlight(f: nat, result: Fetched)
      requires Sound() && f in flying && !flying[f].finished && flying[f].load in loads
      modifies this`objects, this`entries, this`lru, this`used, this`flying, this`flights, this`next
      ensures Sound() && flying == old(flying)[f := old(flying)[f].(finished := true, entry := Some(old(next)))]
      ensures old(next) !in old(objects) && next == old(next) + 1
      ensures objects == old(objects)[old(next) := Landed(old(flying)[f], f, result, generation, closed)]
      ensures Lasts(old(objects), objects)
      ensures objects[old(next)].retained <==>
        result.lease.Some? && tickets[f] > 0 && old(flying)[f].generation == generation && !closed && result.held
    {
      hide Keyed, Charged, Current, Flying, Waits, Counted, Slotted, Numbered, LeaseOf, EntriesAfter, LruAfter;
      hide FlightsAfter;
      var flight, e := flying[f], next;
      UnfinishedWaited(f);
      var entry := Landed(flight, f, result, generation, closed);
      Lands(f, entry);
      flights := FlightsAfter(flights, flying, f);
      flying := flying[f := flight.(finished := true, entry := Some(e))];
      Place(e, entry);
      next := next + 1;
    }

    lemma Lands(f: nat, entry: Entry)
      requires Sound() && f in flying && !flying[f].finished && flying[f].load in loads
      requires entry.key == flying[f].key && entry.readers == flying[f].waiters && entry.origin == Some(f)
      requires entry.disposed <==> entry.readers == 0
      requires entry.retained ==> entry.lease.Some? && entry.readers > 0 && entry.born == generation
      ensures next !in objects
      ensures var more, after, left :=
        objects[next := entry], flying[f := flying[f].(finished := true, entry := Some(next))],
                FlightsAfter(flights, flying, f);
        && Keyed(more, EntriesAfter(entries, next, entry))
        && Charged(more, used + LeaseOf(entry), LruAfter(lru, next, entry)) && Current(more, generation)
        && Flying(after, left, loads) && Waits(after, loads) && Counted(more, after, pins, tickets)
        && Numbered(more, after, loads, next + 1) && EntriesAfter(entries, next, entry).Keys !! left.Keys
    {
      hide Keyed, Charged, Current, Flying, Waits, Counted, Slotted, Numbered, LeaseOf;
      UnfinishedWaited(f);
      FreshEntry();
      if entry.retained {
        WaitedIsJoinable(f);
      }
      FinishFlies(flying, flights, loads, f, Some(next));
      FinishWaits(flying, loads, f, Some(next));
      FinishCounts(objects, flying, pins, tickets, f, next, entry);
      EnterEntry(objects, entries, used, lru, generation, next, entry);
      FinishNumbers(f, Some(entry));
    }

    /** Puts an entry in, under its key when it is retained. */
    method Place(e: nat, entry: Entry)
      modifies this`objects, this`entries, this`lru, this`used
      ensures objects == old(objects)[e := entry]
      ensures entries == EntriesAfter(old(entries), e, entry) && lru == LruAfter(old(lru), e, entry)
      ensures used == old(used) + LeaseOf(entry)
    {
      objects := objects[e := entry];
      if entry.retained {
        entries, lru, used := entries[entry.key := e], [e] + lru, used + LeaseOf(entry);
      }
    }

    lemma UnfinishedWaited(f: nat)
      requires Counted(objects, flying, pins, tickets) && f in flying && !flying[f].finished
      ensures flying[f].waiters == tickets[f] && flying[f].entry.None?
    {
      assert Waited(f, flying[f], objects, tickets);
    }

    /** A flight somebody waits on is the one of its key. */
    lemma WaitedIsJoinable(f: nat)
      requires Flying(flying, flights, loads) && Waits(flying, loads) && f in flying && !flying[f].finished
      requires flying[f].load in loads && flying[f].waiters > 0
      ensures flying[f].key in flights && flights[flying[f].key] == f
    {
      AtLeast(flying, loads, f);
      assert InLoad(f, flying[f], loads[flying[f].load]);
    }

    lemma FinishNumbers(f: nat, entry: Option<Entry>)
      requires Numbered(objects, flying, loads, next) && f in flying
      ensures entry.None? ==> Numbered(objects, flying[f := flying[f].(finished := true)], loads, next)
      ensures entry.Some? ==>
        Numbered(objects[next := entry.value], flying[f := flying[f].(finished := true, entry := Some(next))], loads,
                 next + 1)
    {
    }

    /** A load ends, whole: every flight of it, then its slot. */
    method Finish(l: nat, results: seq<Option<Fetched>>)
      requires Valid() && l in loads && loads[l].running && |results| == |loads[l].flights|
      modifies this`objects, this`entries, this`lru, this`used, this`flying, this`flights, this`loads, this`next,
        this`active, this`prefetches
      ensures Valid() && l in loads && !loads[l].running && pins == old(pins) && tickets == old(tickets)
      ensures Lasts(old(objects), objects)
      // Each flight has an entry of its own exactly when something was fetched for it.
      ensures forall i :: 0 <= i < |results| ==>
        var f := old(loads)[l].flights[i];
        f in old(flying) && HasLanded(old(flying)[f], f, results[i], old(objects), flying, objects, generation, closed)
    {
      hide Keyed, Charged, Current, Flying, Waits, Counted, Slotted, Numbered, Landed, Lasts, Distinct;
      LoadOwns(l);
      FinishFlights(loads[l].flights, results);
      EndLoad(l);
    }

    /** Ends flights one after another, each with its own result. */
    method FinishFlights(list: seq<nat>, results: seq<Option<Fetched>>)
      requires Sound() && |list| == |results| && Distinct(list)
      requires forall j :: 0 <= j < |list| ==>
        list[j] in flying && !flying[list[j]].finished && flying[list[j]].load in loads
      modifies this`objects, this`entries, this`lru, this`used, this`flying, this`flights, this`next
      ensures Sound() && flying.Keys == old(flying).Keys && Lasts(old(objects), objects)
      ensures forall f :: f in flying && f !in list ==> flying[f] == old(flying)[f]
      ensures forall j :: 0 <= j < |list| ==>
        HasLanded(old(flying)[list[j]], list[j], results[j], old(objects), flying, objects, generation, closed)
    {
      hide Sound, HasLanded, Landed, Ended, Lasts;
      LastsUnchanged(objects);
      var i := 0;
      while i < |list|
        invariant Sound() && i <= |list| && flying.Keys == old(flying).Keys
        invariant forall f :: f in flying && f !in list[..i] ==> flying[f] == old(flying)[f]
        invariant forall j :: 0 <= j < i ==>
          HasLanded(old(flying)[list[j]], list[j], results[j], old(objects), flying, objects, generation, closed)
        invariant Lasts(old(objects), objects) && old(objects).Keys <= objects.Keys
      {
        ghost var before, seen, e := flying, objects, next;
        assert list[i] !in list[..i];
        FinishFlight(list[i], results[i]);
        LastsThrough(old(objects), seen, objects);
        EndedHasLanded(before, list[i], results[i], old(objects), e, objects, generation, closed);
        forall j | 0 <= j < i
          ensures HasLanded(old(flying)[list[j]], list[j], results[j], old(objects), flying, objects, generation,
                            closed)
        {
          LandedStands(old(flying)[list[j]], list[j], results[j], old(objects), before, seen, flying, objects,
                       generation,
                       closed);
        }
        i := i + 1;
      }
    }

    lemma LoadOwns(l: nat)
      requires Valid() && l in loads && loads[l].running
      ensures Distinct(loads[l].flights)
      ensures forall j :: 0 <= j < |loads[l].flights| ==>
        loads[l].flights[j] in flying && flying[loads[l].flights[j]].load == l && !flying[loads[l].flights[j]].finished
    {
    }

    method EndLoad(l: nat)
      requires Sound() && l in loads && loads[l].running
      requires forall x ::
        x in flying && flying[x].load != l && flying[x].load in loads && loads[flying[x].load].running ==>
          !flying[x].finished
      requires forall j :: 0 <= j < |loads[l].flights| ==>
        loads[l].flights[j] in flying && flying[loads[l].flights[j]].finished
      modifies this`loads, this`active, this`prefetches
      ensures Valid() && loads == old(loads)[l := old(loads)[l].(running := false)]
    {
      hide Keyed, Charged, Current, Flying, Waits, Counted, Slotted, Numbered;
      EndFlies(flying, flights, loads, l);
      EndSlots(loads, active, prefetches, limit, prefetchLimit, l);
      EndRest(l);
      active, prefetches := active - 1, if loads[l].prefetch then prefetches - 1 else prefetches;
      loads := loads[l := loads[l].(running := false)];
    }

    lemma EndRest(l: nat)
      requires Waits(flying, loads) && Numbered(objects, flying, loads, next) && l in loads
      ensures var more := loads[l := loads[l].(running := false)];
        Waits(flying, more) && Numbered(objects, flying, more, next)
    {
    }

    /** Admits a caller of a batch of distinct keys. Each key it gets is a pin or a ticket, one each; a batch that must
        wait for a slot leaves the cache as it found it, and waits only when it would have to fetch something. */
    method Admit(keys: seq<Key>, prefetch: bool) returns (result: Admission)
      requires Valid() && Distinct(keys)
      modifies this
      ensures Valid() && (result.CacheClosed? <==> old(closed))
      ensures Lasts(old(objects), objects)
      ensures result.Wait? <==>
        && !old(closed) && (exists i :: 0 <= i < |keys| && keys[i] !in old(entries) && keys[i] !in old(flights))
        && (if prefetch then old(prefetches) >= prefetchLimit else old(active) - old(prefetches) >= limit)
      ensures !result.Admitted? ==>
        && objects == old(objects) && entries == old(entries) && flying == old(flying) && flights == old(flights)
        && loads == old(loads) && pins == old(pins) && tickets == old(tickets) && active == old(active) &&
          used == old(used)
      ensures result.Admitted? ==>
        && |result.grants| == |keys|
        && pins == old(pins) + PinsOf(result.grants) && tickets == old(tickets) + TicketsOf(result.grants)
        && forall i :: 0 <= i < |keys| ==> !result.grants[i].Nothing?
      // Each key's grant is of that key, and the keys nobody had are on their way in one load.
      ensures entries == old(entries) && forall key :: key in old(flights) ==>
        key in flights && flights[key] == old(flights)[key]
      ensures result.Admitted? ==> forall i :: 0 <= i < |keys| ==>
        result.grants[i] == GrantOf(entries, flights, keys[i])
      ensures forall key :: key in flights && key !in old(flights) ==>
        key in keys && key !in entries && flights[key] in flying && flying[flights[key]].load !in old(loads)
      ensures forall key, other ::
        key in flights && key !in old(flights) && other in flights && other !in old(flights) ==>
          flying[flights[key]].load == flying[flights[other]].load
    {
      hide Valid, PinsOf, TicketsOf, Lasts;
      LastsUnchanged(objects);
      if closed {
        return CacheClosed;
      }
      var wanted := Missing(keys);
      if wanted != [] && (if prefetch then prefetches >= prefetchLimit else active - prefetches >= limit) {
        assert keys[wanted[0]] !in entries && keys[wanted[0]] !in flights;
        return Wait;
      }
      var grants := GrantHeld(keys);
      if wanted == [] {
        return Admitted(grants);
      }
      var l := StartLoad(prefetch);
      var all := GrantWanted(keys, grants, wanted, l);
      Merged(old(tickets), TicketsOf(grants), TicketsOf(all), tickets);
      result := Admitted(all);
    }

    /** The positions of the keys nobody has. */
    method Missing(keys: seq<Key>) returns (wanted: seq<nat>)
      ensures Distinct(wanted)
      ensures forall i :: 0 <= i < |wanted| ==>
        wanted[i] < |keys| && keys[wanted[i]] !in entries && keys[wanted[i]] !in flights
      ensures forall i :: 0 <= i < |keys| && keys[i] !in entries && keys[i] !in flights ==> i in wanted
    {
      wanted := [];
      for at := 0 to |keys|
        invariant Distinct(wanted)
        invariant forall i :: 0 <= i < |wanted| ==>
          wanted[i] < at && keys[wanted[i]] !in entries && keys[wanted[i]] !in flights
        invariant forall i :: 0 <= i < at && keys[i] !in entries && keys[i] !in flights ==> i in wanted
      {
        if keys[at] !in entries && keys[at] !in flights {
          wanted := wanted + [at];
        }
      }
    }

    /** Pins what is retained and joins what is on its way. */
    method GrantHeld(keys: seq<Key>) returns (grants: seq<Grant>)
      requires Valid()
      modifies this`objects, this`lru, this`flying, this`loads, this`pins, this`tickets
      ensures Valid() && |grants| == |keys|
      ensures Lasts(old(objects), objects)
      ensures pins == old(pins) + PinsOf(grants) && tickets == old(tickets) + TicketsOf(grants)
      ensures loads.Keys == old(loads).Keys
      ensures forall i :: 0 <= i < |keys| ==> grants[i] == GrantOf(entries, flights, keys[i])
    {
      hide Valid, PinOf, TicketOf, PinsOf, TicketsOf;
      grants := [];
      NoGrants();
      for at := 0 to |keys|
        invariant Valid() && |grants| == at && Lasts(old(objects), objects)
        invariant pins == old(pins) + PinsOf(grants) && tickets == old(tickets) + TicketsOf(grants)
        invariant forall i :: 0 <= i < at ==> grants[i] == GrantOf(entries, flights, keys[i])
        invariant loads.Keys == old(loads).Keys
      {
        var grant := GrantOne(keys[at]);
        GrantsAppend(grants, grant);
        Together(old(pins), PinsOf(grants), PinOf(grant));
        Together(old(tickets), TicketsOf(grants), TicketOf(grant));
        grants := grants + [grant];
      }
    }

    method GrantOne(key: Key) returns (grant: Grant)
      requires Valid()
      modifies this`objects, this`lru, this`flying, this`loads, this`pins, this`tickets
      ensures Valid() && pins == old(pins) + PinOf(grant) && tickets == old(tickets) + TicketOf(grant)
      ensures Lasts(old(objects), objects)
      ensures grant == GrantOf(entries, flights, key) && loads.Keys == old(loads).Keys
    {
      hide Keyed, Charged, Current, Flying, Waits, Counted, Slotted, Numbered, Whole;
      grant := Nothing;
      if key in entries {
        IsRetained(key);
        grant := Pinning(entries[key]);
        Pin(entries[key]);
      } else if key in flights {
        IsFlying(key);
        grant := Waiting(flights[key]);
        Join(flights[key]);
      }
    }

    lemma IsRetained(key: Key)
      requires Keyed(objects, entries) && key in entries
      ensures entries[key] in objects && objects[entries[key]].retained
    {
    }

    lemma IsFlying(key: Key)
      requires Flying(flying, flights, loads) && key in flights
      ensures flights[key] in flying && flying[flights[key]].key == key && flying[flights[key]].load in loads
    {
      assert Joinable(flying, loads, flights[key], key);
    }

    /** One load fetches everything the batch wants. */
    method GrantWanted(keys: seq<Key>, held: seq<Grant>, wanted: seq<nat>, l: nat) returns (grants: seq<Grant>)
      requires Valid() && Distinct(keys) && |held| == |keys| && Distinct(wanted)
      requires l in loads && loads[l].running && !loads[l].cancelled
      requires forall i :: 0 <= i < |wanted| ==>
        wanted[i] < |keys| && keys[wanted[i]] !in entries && keys[wanted[i]] !in flights
      requires forall i :: 0 <= i < |keys| ==>
        held[i] == GrantOf(entries, flights, keys[i]) && (held[i].Nothing? <==> i in wanted)
      requires forall i :: 0 <= i < |wanted| ==> held[wanted[i]].Nothing?
      modifies this`flying, this`flights, this`loads, this`tickets, this`next
      ensures Valid() && |grants| == |keys| && pins == old(pins) && PinsOf(grants) == PinsOf(held)
      ensures tickets + TicketsOf(held) == old(tickets) + TicketsOf(grants)
      ensures forall i :: 0 <= i < |keys| ==> !grants[i].Nothing? && grants[i] == GrantOf(entries, flights, keys[i])
      ensures forall key :: key in old(flights) ==> key in flights && flights[key] == old(flights)[key]
      ensures forall key :: key in flights && key !in old(flights) ==>
        key in keys && key !in entries && flights[key] in flying && flying[flights[key]].load == l
    {
      hide Valid, PinsOf, TicketsOf, GrantOf;
      assert AllGrantOf(keys, held, entries, flights);
      assert wanted[0..] == wanted;
      assert StillWanted(keys, held, wanted, 0, flights);
      grants := held;
      for j := 0 to |wanted|
        invariant Valid() && |grants| == |keys| && PinsOf(grants) == PinsOf(held)
        invariant l in loads && loads[l].running && !loads[l].cancelled
        invariant tickets + TicketsOf(held) == old(tickets) + TicketsOf(grants)
        invariant StillWanted(keys, grants, wanted, j, flights) && AllGrantOf(keys, grants, entries, flights)
        invariant StartedIn(keys, old(flights), flights, entries, flying, l)
      {
        hide StillWanted, StartedIn, AllGrantOf, Distinct;
        ghost var before, were, flew := grants, flights, flying;
        WantedNext(keys, grants, wanted, j, flights);
        grants := GrantNew(keys, grants, wanted[j], l, old(tickets), TicketsOf(held));
        WantedStep(keys, before, wanted, j, were, flights[keys[wanted[j]]]);
        StartedStep(keys, old(flights), were, entries, flew, flying, l, keys[wanted[j]], flights[keys[wanted[j]]]);
      }
    }

    /** A flight for one key nobody has. */
    method GrantNew(keys: seq<Key>, grants: seq<Grant>, at: nat, l: nat, ghost first: multiset<nat>,
                    ghost held: multiset<nat>)
      returns (more: seq<Grant>)
      requires Valid() && l in loads && loads[l].running && !loads[l].cancelled
      requires |grants| == |keys| && AllGrantOf(keys, grants, entries, flights) && Distinct(keys)
      requires at < |keys| && keys[at] !in entries && keys[at] !in flights && grants[at].Nothing?
      requires tickets + held == first + TicketsOf(grants)
      modifies this`flying, this`flights, this`loads, this`tickets, this`next
      ensures Valid() && l in loads && loads[l].running && !loads[l].cancelled
      ensures keys[at] in flights && flights == old(flights)[keys[at] := flights[keys[at]]]
      ensures more == grants[at := Waiting(flights[keys[at]])] && AllGrantOf(keys, more, entries, flights)
      ensures PinsOf(more) == PinsOf(grants) && tickets + held == first + TicketsOf(more)
      ensures flights[keys[at]] !in old(flying) && flights[keys[at]] in flying && flying[flights[keys[at]]].load == l
      ensures forall f :: f in old(flying) ==> f in flying && flying[f] == old(flying)[f]
    {
      hide Valid, PinsOf, TicketsOf, PinOf, TicketOf, GrantOf, AllGrantOf;
      var f := AddFlight(l, keys[at]);
      GrantsSet(grants, at, Waiting(f));
      Granted(old(tickets), held, first, TicketsOf(grants), f);
      NoPin(f);
      NoneAdded(PinsOf(grants), PinOf(Waiting(f)));
      GrantsStay(keys, grants, entries, old(flights), at, f);
      more := grants[at := Waiting(f)];
    }

    lemma IsJoinable(f: nat)
      requires Flying(flying, flights, loads) && Counted(objects, flying, pins, tickets) && f in flying
      requires flying[f].key in flights
      requires flights[flying[f].key] == f
      ensures !flying[f].finished && flying[f].load in loads && !loads[flying[f].load].cancelled
      ensures loads[flying[f].load].running
      ensures flying[f].waiters == tickets[f] && flying[f].entry.None?
    {
      assert Joinable(flying, loads, f, flying[f].key);
      assert InLoad(f, flying[f], loads[flying[f].load]);
      assert Waited(f, flying[f], objects, tickets);
    }

    lemma NumberFlight(f: nat, flight: Flight, l: nat, load: Load)
      requires Numbered(objects, flying, loads, next) && f in flying && l in loads
      ensures Numbered(objects, flying[f := flight], loads[l := load], next)
    {
    }

    /** Takes a slot for a load. A fault's load never waits for a slot a prefetch holds. */
    method StartLoad(prefetch: bool) returns (l: nat)
      requires Valid() && if prefetch then prefetches < prefetchLimit else active - prefetches < limit
      modifies this`loads, this`active, this`prefetches, this`next
      ensures Valid() && l !in old(loads) && loads == old(loads)[l := Load([], 0, prefetch, false, true)]
      ensures l !in flying
    {
      hide Keyed, Charged, Current, Flying, Waits, Counted, Slotted, Numbered, Whole;
      l := next;
      FreshEntry();
      NewLoad(objects, flying, flights, loads, active, prefetches, limit, prefetchLimit, next, prefetch);
      loads := loads[l := Load([], 0, prefetch, false, true)];
      active, prefetches, next := active + 1, prefetches + if prefetch then 1 else 0, next + 1;
    }

    lemma NewFlightKeeps(f: nat, flight: Flight, l: nat, load: Load)
      requires Valid() && l in loads && loads[l].running && !loads[l].cancelled && f == next
      requires flight.key !in flights && flight == Flight(flight.key, l, 1, generation, false, None)
      requires load == loads[l].(flights := loads[l].flights + [f], waiters := loads[l].waiters + 1)
      ensures f !in flying && Counted(objects, flying[f := flight], pins, tickets + multiset{f})
      ensures Flying(flying[f := flight], flights[flight.key := f], loads[l := load])
      ensures Whole(flying[f := flight], loads[l := load]) && Waits(flying[f := flight], loads[l := load])
      ensures Slotted(loads[l := load], active, prefetches, limit, prefetchLimit)
      ensures Numbered(objects, flying[f := flight], loads[l := load], next + 1)
    {
      hide Keyed, Charged, Current, Flying, Waits, Counted, Slotted, Numbered, Whole;
      FreshEntry();
      NewFlightCounts(objects, flying, pins, tickets, f, flight);
      NewFlightFlies(flying, flights, loads, f, flight, load);
      NewFlightWaits(flying, loads, f, flight, load);
      LoadSlots(loads, active, prefetches, limit, prefetchLimit, l, load);
      NumberNewFlight(f, flight, l, load);
    }

    /** A load begins to fetch a key nobody has, for one caller. */
    method AddFlight(l: nat, key: Key) returns (f: nat)
      requires Valid() && l in loads && loads[l].running && !loads[l].cancelled && key !in entries && key !in flights
      modifies this`flying, this`flights, this`loads, this`tickets, this`next
      ensures Valid() && tickets == old(tickets) + multiset{f} && f !in old(flying)
      ensures flying == old(flying)[f := Flight(key, l, 1, generation, false, None)]
      ensures flights == old(flights)[key := f]
      ensures loads ==
        old(loads)[l := old(loads)[l].(flights := old(loads)[l].flights + [f], waiters := old(loads)[l].waiters + 1)]
    {
      hide Keyed, Charged, Current, Flying, Waits, Counted, Slotted, Numbered, Whole;
      f := next;
      var flight := Flight(key, l, 1, generation, false, None);
      var load := loads[l].(flights := loads[l].flights + [f], waiters := loads[l].waiters + 1);
      NewFlightKeeps(f, flight, l, load);
      flying, flights, loads := flying[f := flight], flights[key := f], loads[l := load];
      tickets, next := tickets + multiset{f}, next + 1;
    }

    lemma NumberNewFlight(f: nat, flight: Flight, l: nat, load: Load)
      requires Numbered(objects, flying, loads, next) && f == next && l in loads
      ensures Numbered(objects, flying[f := flight], loads[l := load], next + 1)
    {
    }

    lemma IsHeld(e: nat)
      requires Counted(objects, flying, pins, tickets) && e in objects
      ensures Held(e, objects[e], pins, tickets)
      ensures forall f :: f in tickets ==> f in flying
      ensures objects[e].origin.Some? ==> MadeBy(e, objects[e].origin.value, flying)
    {
    }

    lemma MovedToFront(e: nat)
      requires Charged(objects, used, lru) && e in objects && objects[e].retained
      ensures Distinct([e] + Others(lru, e)) && forall x :: x in [e] + Others(lru, e) <==> x in lru
    {
      OthersAre(lru, e);
    }

    lemma NumberEntry(e: nat, entry: Entry)
      requires Numbered(objects, flying, loads, next) && e in objects
      ensures Numbered(objects[e := entry], flying, loads, next)
    {
    }
  }

  lemma {:induction false} NoLeases(leases: map<nat, nat>)
    requires forall e :: e in leases ==> leases[e] == 0
    ensures Sum(leases) == 0
    decreases |leases|
  {
    if leases != map[] {
      var e :| e in leases;
      SumRemove(leases, e);
      NoLeases(leases - {e});
    }
  }

  lemma {:induction false} Shorter(lru: seq<nat>, i: nat)
    requires i < |lru|
    ensures |Others(lru, lru[i])| < |lru|
  {
    if i > 0 {
      Shorter(lru[1..], i - 1);
    } else {
      NoLonger(lru[1..], lru[0]);
    }
  }

  lemma {:induction false} NoLonger(lru: seq<nat>, e: nat)
    ensures |Others(lru, e)| <= |lru|
  {
    if lru != [] { NoLonger(lru[1..], e); }
  }

  /** An entry nobody holds yet. */
  lemma NewEntryCounts(objects: map<nat, Entry>, flying: map<nat, Flight>, pins: multiset<nat>, tickets: multiset<nat>,
                       e: nat, entry: Entry)
    requires Counted(objects, flying, pins, tickets) && e !in objects && e !in pins
    requires entry.origin.None? && entry.readers == 0 && entry.retained && entry.lease.Some? && !entry.disposed
    ensures Counted(objects[e := entry], flying, pins, tickets)
  {
    forall f | f in flying ensures Waited(f, flying[f], objects[e := entry], tickets) {
      assert Waited(f, flying[f], objects, tickets);
    }
  }

  // --------------------------------------------------------------- one flight changes

  /** An unfinished flight's waiters change with its tickets. */
  lemma FlightCounts(objects: map<nat, Entry>, flying: map<nat, Flight>, pins: multiset<nat>, tickets: multiset<nat>,
                     f: nat, flight: Flight, tickets': multiset<nat>)
    requires Counted(objects, flying, pins, tickets) && f in flying && !flying[f].finished
    requires !flight.finished && flight.entry.None? && flight.waiters == tickets'[f]
    requires forall x :: x != f ==> tickets'[x] == tickets[x]
    ensures Counted(objects, flying[f := flight], pins, tickets')
  {
    forall e | e in objects ensures Held(e, objects[e], pins, tickets') {
      assert Held(e, objects[e], pins, tickets);
      if objects[e].origin.Some? { assert MadeBy(e, objects[e].origin.value, flying); }
    }
    forall x | x in flying && x != f ensures Waited(x, flying[x], objects, tickets') {
      assert Waited(x, flying[x], objects, tickets);
    }
    forall x | x in tickets' ensures x in flying { if x != f { assert x in tickets; } }
    forall e | e in objects && objects[e].origin.Some? ensures MadeBy(e, objects[e].origin.value, flying[f := flight]) {
      assert MadeBy(e, objects[e].origin.value, flying);
    }
  }

  lemma FlightFlies(flying: map<nat, Flight>, flights: map<Key, nat>, loads: map<nat, Load>, f: nat, flight: Flight,
                    load: Load)
    requires Flying(flying, flights, loads) && Whole(flying, loads) && f in flying && !flying[f].finished
    requires flight == flying[f].(waiters := flight.waiters)
    requires load == loads[flying[f].load].(waiters := load.waiters) && !load.cancelled
    ensures Flying(flying[f := flight], flights, loads[flying[f].load := load])
    ensures Whole(flying[f := flight], loads[flying[f].load := load])
  {
    var after, more := flying[f := flight], loads[flying[f].load := load];
    forall x | x in after ensures InLoad(x, after[x], more[after[x].load]) {
      assert InLoad(x, flying[x], loads[flying[x].load]);
    }
    forall key | key in flights ensures Joinable(after, more, flights[key], key) {
      assert Joinable(flying, loads, flights[key], key);
    }
  }

  lemma FlightWaits(flying: map<nat, Flight>, loads: map<nat, Load>, f: nat, flight: Flight, load: Load)
    requires Waits(flying, loads) && f in flying && flying[f].load in loads
    requires flight == flying[f].(waiters := flight.waiters)
    requires load.waiters + flying[f].waiters == loads[flying[f].load].waiters + flight.waiters
    ensures Waits(flying[f := flight], loads[flying[f].load := load])
  {
    var l, after := flying[f].load, flying[f := flight];
    forall x | x in loads ensures loads[flying[f].load := load][x].waiters == Sum(WaitersIn(after, x)) {
      if x == l {
        assert WaitersIn(after, l) == WaitersIn(flying, l)[f := flight.waiters];
        SumSet(WaitersIn(flying, l), f, flight.waiters);
      } else {
        assert WaitersIn(after, x) == WaitersIn(flying, x);
      }
    }
  }

  /** A load's flights and waiters are no matter of its slot. */
  lemma LoadSlots(loads: map<nat, Load>, active: nat, prefetches: nat, limit: nat, prefetchLimit: nat, l: nat,
                  load: Load)
    requires Slotted(loads, active, prefetches, limit, prefetchLimit) && l in loads
    requires load.prefetch == loads[l].prefetch && load.running == loads[l].running
    ensures Slotted(loads[l := load], active, prefetches, limit, prefetchLimit)
  {
    assert Running(loads[l := load], true) == Running(loads, true);
    assert Running(loads[l := load], false) == Running(loads, false);
  }

  lemma NewLoad(objects: map<nat, Entry>, flying: map<nat, Flight>, flights: map<Key, nat>, loads: map<nat, Load>,
                active: nat, prefetches: nat, limit: nat, prefetchLimit: nat, next: nat, prefetch: bool)
    requires Flying(flying, flights, loads) && Whole(flying, loads) && Waits(flying, loads) && next !in loads
    requires Slotted(loads, active, prefetches, limit, prefetchLimit) && Numbered(objects, flying, loads, next)
    requires if prefetch then prefetches < prefetchLimit else active - prefetches < limit
    ensures var more := loads[next := Load([], 0, prefetch, false, true)];
      && Flying(flying, flights, more) && Whole(flying, more) && Waits(flying, more)
      && Slotted(more, active + 1, prefetches + (if prefetch then 1 else 0), limit, prefetchLimit)
      && Numbered(objects, flying, more, next + 1)
  {
    hide Slotted, Flying;
    var more := loads[next := Load([], 0, prefetch, false, true)];
    NewLoadFlies(flying, flights, loads, next, more[next]);
    assert WaitersIn(flying, next) == map[];
    NewLoadSlots(loads, active, prefetches, limit, prefetchLimit, next, prefetch);
  }

  lemma NewLoadSlots(loads: map<nat, Load>, active: nat, prefetches: nat, limit: nat, prefetchLimit: nat, l: nat,
                     prefetch: bool)
    requires Slotted(loads, active, prefetches, limit, prefetchLimit) && l !in loads
    requires if prefetch then prefetches < prefetchLimit else active - prefetches < limit
    ensures Slotted(loads[l := Load([], 0, prefetch, false, true)], active + 1,
                    prefetches + (if prefetch then 1 else 0), limit,
                    prefetchLimit)
  {
    var more := loads[l := Load([], 0, prefetch, false, true)];
    NewLoadRuns(loads, l, prefetch);
    hide Running;
    assert prefetch || Running(more, true) == Running(loads, true);
    assert !prefetch || Running(more, false) == Running(loads, false);
  }

  lemma NewLoadRuns(loads: map<nat, Load>, l: nat, prefetch: bool)
    requires l !in loads
    ensures var more := loads[l := Load([], 0, prefetch, false, true)];
      && l !in Running(loads, prefetch) && Running(more, prefetch) == Running(loads, prefetch) + {l}
      && Running(more, !prefetch) == Running(loads, !prefetch)
  {
  }

  lemma NewLoadFlies(flying: map<nat, Flight>, flights: map<Key, nat>, loads: map<nat, Load>, l: nat, load: Load)
    requires Flying(flying, flights, loads) && l !in loads && load.flights == []
    ensures Flying(flying, flights, loads[l := load]) && forall f :: f in flying ==> flying[f].load in loads
  {
    var more := loads[l := load];
    forall key | key in flights ensures Joinable(flying, more, flights[key], key) {
      assert Joinable(flying, loads, flights[key], key);
    }
    forall f | f in flying ensures InLoad(f, flying[f], more[flying[f].load]) {
      assert InLoad(f, flying[f], loads[flying[f].load]);
    }
  }

  lemma NewFlightCounts(objects: map<nat, Entry>, flying: map<nat, Flight>, pins: multiset<nat>, tickets: multiset<nat>,
                        f: nat, flight: Flight)
    requires Counted(objects, flying, pins, tickets) && f !in flying && f !in tickets
    requires !flight.finished && flight.entry.None? && flight.waiters == 1
    ensures Counted(objects, flying[f := flight], pins, tickets + multiset{f})
  {
    var more := tickets + multiset{f};
    assert forall x :: more[x] == tickets[x] + if x == f then 1 else 0;
    forall e | e in objects ensures Held(e, objects[e], pins, more) {
      assert Held(e, objects[e], pins, tickets);
      if objects[e].origin.Some? { assert MadeBy(e, objects[e].origin.value, flying); }
    }
    forall x | x in flying ensures Waited(x, flying[x], objects, more) {
      assert Waited(x, flying[x], objects, tickets);
    }
    forall e | e in objects && objects[e].origin.Some? ensures MadeBy(e, objects[e].origin.value, flying[f := flight]) {
      assert MadeBy(e, objects[e].origin.value, flying);
    }
  }

  lemma NewFlightFlies(flying: map<nat, Flight>, flights: map<Key, nat>, loads: map<nat, Load>, f: nat, flight: Flight,
                       load: Load)
    requires Flying(flying, flights, loads) && Whole(flying, loads) && f !in flying && flight.load in loads
    requires flight.key !in flights && !flight.finished && loads[flight.load].running && !loads[flight.load].cancelled
    requires load == loads[flight.load].(flights := loads[flight.load].flights + [f], waiters := load.waiters)
    ensures Flying(flying[f := flight], flights[flight.key := f], loads[flight.load := load])
    ensures Whole(flying[f := flight], loads[flight.load := load])
  {
    var after, named, more := flying[f := flight], flights[flight.key := f], loads[flight.load := load];
    forall key | key in named ensures named[key] in after && Joinable(after, more, named[key], key) {
      if key != flight.key { assert Joinable(flying, loads, flights[key], key); }
    }
    forall x | x in after ensures InLoad(x, after[x], more[after[x].load]) {
      if x != f { assert InLoad(x, flying[x], loads[flying[x].load]); }
    }
    assert f !in loads[flight.load].flights;
  }

  lemma NewFlightWaits(flying: map<nat, Flight>, loads: map<nat, Load>, f: nat, flight: Flight, load: Load)
    requires Waits(flying, loads) && f !in flying && flight.load in loads && flight.waiters == 1
    requires load.waiters == loads[flight.load].waiters + 1
    ensures Waits(flying[f := flight], loads[flight.load := load])
  {
    hide Sum;
    var l, after := flight.load, flying[f := flight];
    forall x | x in loads ensures loads[l := load][x].waiters == Sum(WaitersIn(after, x)) {
      if x == l {
        assert WaitersIn(after, l) == WaitersIn(flying, l)[f := 1];
        SumAdd(WaitersIn(flying, l), f, 1);
      } else {
        assert WaitersIn(after, x) == WaitersIn(flying, x);
      }
    }
  }

  /** The flights a map names, less those in a list. */
  ghost function Without(flights: map<Key, nat>, flying: map<nat, Flight>, held: seq<nat>): map<Key, nat> {
    map key | key in flights && flights[key] !in held :: flights[key]
  }

  /** The loads anybody may join. */
  ghost function LoadsOf(flying: map<nat, Flight>, flights: map<Key, nat>): set<nat> {
    set key | key in flights && flights[key] in flying :: flying[flights[key]].load
  }

  /** A load's keys are nobody's to join any more; every other key's flight is as it was. */
  ghost predicate Unjoinable(flying: map<nat, Flight>, before: map<Key, nat>, after: map<Key, nat>, l: nat) {
    && (forall key :: key in after <==> key in before && before[key] in flying && flying[before[key]].load != l)
    && (forall key :: key in after ==> after[key] == before[key])
  }

  lemma WithoutIs(flying: map<nat, Flight>, flights: map<Key, nat>, loads: map<nat, Load>, l: nat)
    requires Flying(flying, flights, loads) && l in loads
    ensures Unjoinable(flying, flights, Without(flights, flying, loads[l].flights), l)
  {
    forall key | key in flights ensures flights[key] in loads[l].flights <==> flying[flights[key]].load == l {
      var f := flights[key];
      assert InLoad(f, flying[f], loads[flying[f].load]);
    }
  }

  /** One waiter fewer, of a flight and of its load. */
  ghost predicate LeftFlight(was: map<nat, Flight>, now: map<nat, Flight>, before: map<nat, Load>,
                             after: map<nat, Load>, f: nat)
    requires f in was
  {
    && was[f].waiters > 0 && now == was[f := was[f].(waiters := was[f].waiters - 1)]
    && was[f].load in before && before[was[f].load].waiters > 0
    && var load := before[was[f].load];
       after == before[was[f].load := load.(waiters := load.waiters - 1,
                                            cancelled := load.cancelled || load.waiters == 1)]
  }

  /** The last waiter to leave a load stops it and takes its keys with it. */
  ghost predicate LeftLoad(flying: map<nat, Flight>, before: map<Key, nat>, after: map<Key, nat>, loads: map<nat, Load>,
                           was: set<nat>, now: set<nat>, l: nat)
  {
    if l in loads && loads[l].waiters == 1 then now == was + {l} && Unjoinable(flying, before, after, l)
    else now == was && after == before
  }

  lemma WithoutStep(flights: map<Key, nat>, flying: map<nat, Flight>, held: seq<nat>, i: nat)
    requires i < |held| && held[i] in flying
    requires forall key :: key in flights && flights[key] == held[i] ==> key == flying[held[i]].key
    ensures var left, key := Without(flights, flying, held[..i]), flying[held[i]].key;
      Without(flights, flying, held[..i + 1]) == if key in left && left[key] == held[i] then left - {key} else left
  {
    assert held[..i + 1] == held[..i] + [held[i]];
  }

  lemma AtLeast(flying: map<nat, Flight>, loads: map<nat, Load>, f: nat)
    requires Waits(flying, loads) && f in flying && flying[f].load in loads
    ensures loads[flying[f].load].waiters >= flying[f].waiters
  {
    SumRemove(WaitersIn(flying, flying[f].load), f);
  }

  /** A failed flight's ticket holds nothing. */
  lemma TicketSpent(objects: map<nat, Entry>, flying: map<nat, Flight>, pins: multiset<nat>, tickets: multiset<nat>,
                    f: nat)
    requires Counted(objects, flying, pins, tickets) && f in flying && flying[f].finished && flying[f].entry.None?
    ensures Counted(objects, flying, pins, tickets - multiset{f})
  {
    forall e | e in objects ensures Held(e, objects[e], pins, tickets - multiset{f}) {
      assert Held(e, objects[e], pins, tickets);
      if objects[e].origin.Some? { assert MadeBy(e, objects[e].origin.value, flying); }
    }
    forall x | x in flying ensures Waited(x, flying[x], objects, tickets - multiset{f}) {
      assert Waited(x, flying[x], objects, tickets);
    }
  }

  lemma CancelFlies(flying: map<nat, Flight>, flights: map<Key, nat>, loads: map<nat, Load>, l: nat)
    requires Flying(flying, flights, loads) && l in loads && loads[l].waiters == 0
    ensures Flying(flying, Without(flights, flying, loads[l].flights), loads[l := loads[l].(cancelled := true)])
    ensures Without(flights, flying, loads[l].flights).Keys <= flights.Keys
  {
    var left, more := Without(flights, flying, loads[l].flights), loads[l := loads[l].(cancelled := true)];
    forall key | key in left ensures Joinable(flying, more, left[key], key) {
      assert Joinable(flying, loads, flights[key], key);
      assert InLoad(flights[key], flying[flights[key]], loads[flying[flights[key]].load]);
    }
    forall f | f in flying ensures InLoad(f, flying[f], more[flying[f].load]) {
      assert InLoad(f, flying[f], loads[flying[f].load]);
    }
    forall f | f in flying && !flying[f].finished && !more[flying[f].load].cancelled
      ensures flying[f].key in left && left[flying[f].key] == f
    {
      assert f !in loads[l].flights;
    }
  }

  // ------------------------------------------------------------------- a load finishes

  lemma FinishFlies(flying: map<nat, Flight>, flights: map<Key, nat>, loads: map<nat, Load>, f: nat, entry: Option<nat>)
    requires Flying(flying, flights, loads) && f in flying && !flying[f].finished
    ensures Flying(flying[f := flying[f].(finished := true, entry := entry)], FlightsAfter(flights, flying, f), loads)
  {
    var left := FlightsAfter(flights, flying, f);
    var after := flying[f := flying[f].(finished := true, entry := entry)];
    forall k | k in left ensures left[k] in after && Joinable(after, loads, left[k], k) {
      assert Joinable(flying, loads, flights[k], k);
    }
    forall x | x in after ensures InLoad(x, after[x], loads[after[x].load]) {
      assert InLoad(x, flying[x], loads[flying[x].load]);
    }
  }

  lemma FinishWaits(flying: map<nat, Flight>, loads: map<nat, Load>, f: nat, entry: Option<nat>)
    requires Waits(flying, loads) && f in flying
    ensures Waits(flying[f := flying[f].(finished := true, entry := entry)], loads)
  {
    var after := flying[f := flying[f].(finished := true, entry := entry)];
    forall l | l in loads ensures loads[l].waiters == Sum(WaitersIn(after, l)) {
      assert WaitersIn(after, l) == WaitersIn(flying, l);
    }
  }

  lemma FailCounts(objects: map<nat, Entry>, flying: map<nat, Flight>, pins: multiset<nat>, tickets: multiset<nat>,
                   f: nat)
    requires Counted(objects, flying, pins, tickets) && f in flying && !flying[f].finished && flying[f].entry.None?
    ensures Counted(objects, flying[f := flying[f].(finished := true)], pins, tickets)
  {
    var after := flying[f := flying[f].(finished := true)];
    forall x | x in after ensures Waited(x, after[x], objects, tickets) {
      assert Waited(x, flying[x], objects, tickets);
    }
    forall e | e in objects && objects[e].origin.Some? ensures MadeBy(e, objects[e].origin.value, after) {
      assert MadeBy(e, objects[e].origin.value, flying);
    }
  }

  /** The tickets of a flight become the readers of the entry it leaves. */
  lemma FinishCounts(objects: map<nat, Entry>, flying: map<nat, Flight>, pins: multiset<nat>, tickets: multiset<nat>,
                     f: nat, e: nat, entry: Entry)
    requires Counted(objects, flying, pins, tickets) && f in flying && !flying[f].finished && e !in objects
    requires e !in pins
    requires entry.origin == Some(f) && entry.readers == flying[f].waiters == tickets[f]
    requires (entry.disposed <==> entry.readers == 0) && (entry.retained ==> entry.lease.Some? && entry.readers > 0)
    ensures Counted(objects[e := entry], flying[f := flying[f].(finished := true, entry := Some(e))], pins, tickets)
  {
    var after, more := flying[f := flying[f].(finished := true, entry := Some(e))], objects[e := entry];
    forall x | x in after ensures Waited(x, after[x], more, tickets) {
      assert Waited(x, flying[x], objects, tickets);
    }
    forall x | x in more && more[x].origin.Some? ensures MadeBy(x, more[x].origin.value, after) {
      if x != e { assert MadeBy(x, objects[x].origin.value, flying); }
    }
  }

  lemma EndFlies(flying: map<nat, Flight>, flights: map<Key, nat>, loads: map<nat, Load>, l: nat)
    requires Flying(flying, flights, loads) && l in loads
    requires forall j :: 0 <= j < |loads[l].flights| ==>
      loads[l].flights[j] in flying && flying[loads[l].flights[j]].finished
    ensures Flying(flying, flights, loads[l := loads[l].(running := false)])
  {
    var more := loads[l := loads[l].(running := false)];
    forall f | f in flying ensures InLoad(f, flying[f], more[flying[f].load]) {
      assert InLoad(f, flying[f], loads[flying[f].load]);
    }
    forall key | key in flights ensures Joinable(flying, more, flights[key], key) {
      assert Joinable(flying, loads, flights[key], key);
    }
  }

  lemma EndSlots(loads: map<nat, Load>, active: nat, prefetches: nat, limit: nat, prefetchLimit: nat, l: nat)
    requires Slotted(loads, active, prefetches, limit, prefetchLimit) && l in loads && loads[l].running
    ensures active > 0 && (loads[l].prefetch ==> prefetches > 0)
    ensures Slotted(loads[l := loads[l].(running := false)], active - 1,
                    if loads[l].prefetch then prefetches - 1 else prefetches,
                    limit, prefetchLimit)
  {
    var more, prefetch := loads[l := loads[l].(running := false)], loads[l].prefetch;
    assert Running(more, prefetch) == Running(loads, prefetch) - {l};
    assert l in Running(loads, prefetch);
    assert Running(more, !prefetch) == Running(loads, !prefetch);
  }

  // ----------------------------------------------------------------------- grants

  ghost function PinOf(grant: Grant): multiset<nat> { if grant.Pinning? then multiset{grant.entry} else multiset{} }

  ghost function TicketOf(grant: Grant): multiset<nat> { if grant.Waiting? then multiset{grant.flight} else multiset{} }

  ghost function PinsOf(grants: seq<Grant>): multiset<nat> {
    if grants == [] then multiset{} else PinsOf(grants[..|grants| - 1]) + PinOf(grants[|grants| - 1])
  }

  ghost function TicketsOf(grants: seq<Grant>): multiset<nat> {
    if grants == [] then multiset{} else TicketsOf(grants[..|grants| - 1]) + TicketOf(grants[|grants| - 1])
  }

  lemma GrantsAppend(grants: seq<Grant>, grant: Grant)
    ensures PinsOf(grants + [grant]) == PinsOf(grants) + PinOf(grant)
    ensures TicketsOf(grants + [grant]) == TicketsOf(grants) + TicketOf(grant)
  {
    assert (grants + [grant])[..|grants|] == grants;
  }

  lemma {:induction false} GrantsSet(grants: seq<Grant>, at: nat, grant: Grant)
    requires at < |grants| && grants[at].Nothing?
    ensures PinsOf(grants[at := grant]) == PinsOf(grants) + PinOf(grant)
    ensures TicketsOf(grants[at := grant]) == TicketsOf(grants) + TicketOf(grant)
  {
    hide PinsOf, TicketsOf, PinOf, TicketOf;
    var n := |grants| - 1;
    var set' := grants[at := grant];
    assert grants == grants[..n] + [grants[n]] && set' == set'[..n] + [set'[n]];
    GrantsAppend(grants[..n], grants[n]);
    GrantsAppend(set'[..n], set'[n]);
    if at < n {
      GrantsSet(grants[..n], at, grant);
      assert set'[..n] == grants[..n][at := grant];
      Swapped(PinsOf(grants[..n]), PinOf(grant), PinOf(grants[n]));
      Swapped(TicketsOf(grants[..n]), TicketOf(grant), TicketOf(grants[n]));
    } else {
      assert set'[..n] == grants[..n];
      OfNothing();
      Together(PinsOf(grants[..n]), PinOf(grants[n]), PinOf(grant));
      Together(TicketsOf(grants[..n]), TicketOf(grants[n]), TicketOf(grant));
      NoneAdded(PinsOf(grants[..n]), PinOf(Nothing));
      NoneAdded(TicketsOf(grants[..n]), TicketOf(Nothing));
    }
  }

  lemma OfNothing()
    ensures PinOf(Nothing) == multiset{} && TicketOf(Nothing) == multiset{}
  {
  }

  lemma NoPin(f: nat)
    ensures PinOf(Waiting(f)) == multiset{}
  {
  }

  lemma NoGrants()
    ensures PinsOf([]) == multiset{} && TicketsOf([]) == multiset{}
  {
  }

  lemma NoneAdded(a: multiset<nat>, b: multiset<nat>)
    requires b == multiset{}
    ensures a + b == a
  {
  }

  lemma Together(a: multiset<nat>, b: multiset<nat>, c: multiset<nat>)
    ensures (a + b) + c == a + (b + c)
  {
  }

  lemma Swapped(a: multiset<nat>, b: multiset<nat>, c: multiset<nat>)
    ensures (a + b) + c == (a + c) + b
  {
  }

  lemma Granted(before: multiset<nat>, held: multiset<nat>, first: multiset<nat>, grants: multiset<nat>, f: nat)
    requires before + held == first + grants
    ensures (before + multiset{f}) + held == first + (grants + TicketOf(Waiting(f)))
  {
    Swapped(before, multiset{f}, held);
    Together(first, grants, multiset{f});
  }

  lemma Merged(first: multiset<nat>, held: multiset<nat>, all: multiset<nat>, now: multiset<nat>)
    requires now + held == (first + held) + all
    ensures now == first + all
  {
    Swapped(first, held, all);
    forall x ensures now[x] == (first + all)[x] {
      assert (now + held)[x] == now[x] + held[x];
      assert ((first + all) + held)[x] == (first + all)[x] + held[x];
    }
  }
}
