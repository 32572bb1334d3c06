/** What deletion leaves a reader.

Reachability's runs are over references. Here each of their steps also does what it does
to the objects: a publication adds its own checkpoint's, a sweep takes one checkpoint's
away, and every other step leaves them. An index somebody may read through then reads,
at every later instant, what it read when it was published.
*/
module Survival {
  import opened Geometries
  import opened Refs
  import opened Roots
  import opened TableBuilding
  import opened Sealing
  import opened Reclamation
  import opened Reachability

  /** A store without the objects of one checkpoint. */
  function Without(store: Store, gone: Ref): Store {
    Store(map at | at in store.tables && at.ref != gone :: store.tables[at],
          map key | key in store.parts && key.ref != gone :: store.parts[key],
          store.roots - {gone})
  }

  /** An index reads the same pages and the same state of both stores. */
  ghost predicate ReadsSame(a: Store, b: Store, index: Index) {
    && StateAt(a, index) == StateAt(b, index)
    && forall volume, page: nat :: volume in index.volumes && index.volumes[volume].geometry.Supported() ==>
         PageAt(a, index, volume, page) == PageAt(b, index, volume, page)
  }

  lemma ExtendsReadsSame(store: Store, later: Store, index: Index)
    requires WellFormed(store, index) && Extends(store, later)
    ensures WellFormed(later, index) && ReadsSame(store, later, index)
  {
    ExtendsKeepsReading(store, later, index);
    hide SegmentReadable, PageAt;
    forall volume, page: nat | volume in index.volumes && index.volumes[volume].geometry.Supported()
      ensures PageAt(store, index, volume, page) == PageAt(later, index, volume, page)
    {
      ExtendsKeepsPage(store, later, index, volume, page);
    }
  }

  lemma WithoutKeepsSegment(store: Store, index: Index, gone: Ref, key: SegmentKey)
    requires key in index.segments && SegmentReadable(store, index, key) && gone !in Named(index)
    ensures SegmentReadable(Without(store, gone), index, key)
  {
    hide ReadsOf, Geometry.SegmentCount, Geometry.SegmentBase, Geometry.PageCount;
    var table := store.tables[index.segments[key].at];
    forall relative | relative in table ensures Readable(Without(store, gone), index.checkpoints, table[relative]) {
      assert Readable(store, index.checkpoints, table[relative]);
    }
  }

  /** An index loses nothing with the objects of a checkpoint it does not name. */
  lemma WithoutReadsSame(store: Store, index: Index, gone: Ref)
    requires WellFormed(store, index) && gone !in Named(index)
    ensures WellFormed(Without(store, gone), index) && ReadsSame(store, Without(store, gone), index)
  {
    hide SegmentReadable;
    forall key | key in index.segments ensures SegmentReadable(Without(store, gone), index, key) {
      WithoutKeepsSegment(store, index, gone, key);
    }
    assert WellFormed(Without(store, gone), index);
    ExtendsReadsSame(Without(store, gone), store, index);
  }

  // ------------------------------------------------------- what the steps do to the objects

  ghost predicate Leaves(store: Store, index: Index, later: Store) {
    Extends(store, later) && AddsOnly(store, later, index.ref) && WellFormed(later, index)
  }

  ghost predicate Touches(a: Action, store: Store, later: Store) {
    match a
    case Create(first) => Leaves(store, first, later)
    case Publish(vm, index) => Leaves(store, index, later)
    case Delete(dead, ref) => later == Without(store, ref)
    case _ => later == store
  }

  /** A commit over a writer's index, under a reference never used, is a step of a run and leaves its objects as one. */
  lemma CommitIsAStep(w: World, vm: string, store: Store, volumes: map<string, Volume>, edits: set<PageKey>,
                      source: Source, index: Index, left: Store)
    requires Inv(w) && vm in w.control.writers && index.ref.vm == vm && index.ref !in w.published
    requires w.control.writers[vm].base in w.published
    requires Committed(store, Some(w.published[w.control.writers[vm].base]), volumes, index.ref, edits, source, index,
                       left)
    ensures Enabled(w, Publish(vm, index)) && Touches(Publish(vm, index), store, left)
  {
    hide Expected, KeptAt, PageAt, Inv;
  }

  /** The stores of a run, one at each of its instants. */
  ghost predicate IsStored(worlds: seq<World>, actions: seq<Action>, stores: seq<Store>) {
    && |stores| == |worlds| == |actions| + 1
    && stores[0] == Store(map[], map[], map[])
    && forall i :: 0 <= i < |actions| ==> Touches(actions[i], stores[i], stores[i + 1])
  }

  // ---------------------------------------------------------------- what they keep

  /** An index none of whose checkpoints is gone. */
  ghost predicate Intact(w: World, ref: Ref) { ref in w.published && Reaches(w.published, ref) <= w.present }

  ghost predicate StoreInv(w: World, store: Store) {
    && ObjectsOf(store, w.present)
    && forall ref :: Intact(w, ref) ==> WellFormed(store, w.published[ref])
  }

  /** What is intact after a step was before it, unless the step published it, and reads the same. */
  ghost predicate Stands(w: World, store: Store, next: World, later: Store) {
    forall ref :: ref in w.published && Intact(next, ref) ==>
      Intact(w, ref) && next.published[ref] == w.published[ref] && ReadsSame(store, later, w.published[ref])
  }

  lemma IntactBefore(w: World, index: Index, next: World, ref: Ref)
    requires Closed(w.published) && index.ref !in w.published && ref in w.published && Intact(next, ref)
    requires next.published == w.published[index.ref := index] && next.present == w.present + {index.ref}
    ensures Intact(w, ref)
  {
    hide Closure;
    assert Reaches(next.published, ref) == Reaches(w.published, ref) <= w.published.Keys;
  }

  lemma PublishStores(w: World, index: Index, next: World, store: Store, later: Store)
    requires Closed(w.published) && StoreInv(w, store) && Leaves(store, index, later) && index.ref !in w.published
    requires next.published == w.published[index.ref := index] && next.present == w.present + {index.ref}
    ensures StoreInv(next, later) && Stands(w, store, next, later)
  {
    hide WellFormed, ReadsSame, Closed, Extends, Reaches;
    forall ref | ref in w.published && Intact(next, ref)
      ensures Intact(w, ref) && WellFormed(later, w.published[ref]) && ReadsSame(store, later, w.published[ref])
    {
      IntactBefore(w, index, next, ref);
      ExtendsReadsSame(store, later, w.published[ref]);
    }
  }

  lemma DeleteStores(w: World, gone: Ref, next: World, store: Store)
    requires StoreInv(w, store) && next.published == w.published && next.present == w.present - {gone}
    ensures StoreInv(next, Without(store, gone)) && Stands(w, store, next, Without(store, gone))
  {
    hide WellFormed, ReadsSame;
    forall ref | Intact(next, ref)
      ensures Intact(w, ref) && WellFormed(Without(store, gone), w.published[ref])
      ensures ReadsSame(store, Without(store, gone), w.published[ref])
    {
      WithoutReadsSame(store, w.published[ref], gone);
    }
  }

  lemma InvCloses(w: World)
    requires Inv(w)
    ensures Closed(w.published)
  {
  }

  lemma StepStores(w: World, a: Action, store: Store, later: Store)
    requires Inv(w) && Enabled(w, a) && StoreInv(w, store) && Touches(a, store, later)
    ensures StoreInv(Apply(w, a), later) && Stands(w, store, Apply(w, a), later)
  {
    hide Inv, Closed, StoreInv, Stands, Leaves, SweepOfSelect, SweepOfRelease, SweepOfRemove, Unused, Without, Reaches;
    hide Control.Pins, Control.WithRecord, Control.WithWriter, Record.Selecting;
    var next := Apply(w, a);
    InvCloses(w);
    match a
    case Create(first) => PublishStores(w, first, next, store, later);
    case Publish(vm, index) => PublishStores(w, index, next, store, later);
    case Delete(dead, ref) => DeleteStores(w, ref, next, store);
    case _ => SameStores(w, next, store);
  }

  lemma SameStores(w: World, next: World, store: Store)
    requires StoreInv(w, store) && next.published == w.published && next.present == w.present
    ensures StoreInv(next, store) && Stands(w, store, next, store)
  {
    hide WellFormed;
  }

  lemma {:induction false} RunStores(worlds: seq<World>, actions: seq<Action>, stores: seq<Store>, n: nat)
    requires IsRun(worlds, actions) && ReleasesSpare(worlds, actions) && IsStored(worlds, actions, stores)
    requires n < |worlds|
    ensures Inv(worlds[n]) && StoreInv(worlds[n], stores[n])
    decreases n
  {
    hide Inv, StoreInv, Enabled, Apply, ReleasesSpare, Touches, Stands;
    RunKeeps(worlds, actions, n);
    if n == 0 {
      NothingStored();
    } else {
      RunStores(worlds, actions, stores, n - 1);
      assert worlds[n - 1 + 1] == Apply(worlds[n - 1], actions[n - 1]);
      assert Touches(actions[n - 1], stores[n - 1], stores[n - 1 + 1]);
      StepStores(worlds[n - 1], actions[n - 1], stores[n - 1], stores[n]);
    }
  }

  lemma NothingStored()
    ensures StoreInv(Empty(), Store(map[], map[], map[]))
  {
  }

  lemma {:induction false} IntactReadsSame(worlds: seq<World>, actions: seq<Action>, stores: seq<Store>, i: nat, j: nat,
                                           ref: Ref)
    requires IsRun(worlds, actions) && ReleasesSpare(worlds, actions) && IsStored(worlds, actions, stores)
    requires i <= j < |worlds| && ref in worlds[i].published && Intact(worlds[j], ref)
    ensures ref in worlds[j].published && worlds[j].published[ref] == worlds[i].published[ref]
    ensures Intact(worlds[i], ref) && ReadsSame(stores[i], stores[j], worlds[i].published[ref])
    decreases j - i
  {
    if i < j {
      hide Inv, StoreInv, Enabled, Apply, ReleasesSpare, Touches, Intact, ReadsSame;
      RunStores(worlds, actions, stores, i);
      assert worlds[i + 1] == Apply(worlds[i], actions[i]) && Touches(actions[i], stores[i], stores[i + 1]);
      PublishedStay(worlds[i], actions[i], ref);
      StepStores(worlds[i], actions[i], stores[i], stores[i + 1]);
      IntactReadsSame(worlds, actions, stores, i + 1, j, ref);
      ReadsThrough(stores[i], stores[i + 1], stores[j], worlds[i].published[ref]);
    }
  }

  lemma PublishedStay(w: World, a: Action, ref: Ref)
    requires Enabled(w, a) && ref in w.published
    ensures ref in Apply(w, a).published && Apply(w, a).published[ref] == w.published[ref]
  {
    hide SweepOfSelect, SweepOfRelease, SweepOfRemove, Unused, Control.Pins, Reaches;
  }

  lemma ReadsThrough(a: Store, b: Store, c: Store, index: Index)
    requires ReadsSame(a, b, index) && ReadsSame(b, c, index)
    ensures ReadsSame(a, c, index)
  {
    hide PageAt, StateAt;
  }

  /** Whatever was published, selected, kept, released, removed and swept since: an index somebody may read through is
      readable, and every page and the state of it are what they were when it was published. */
  lemma LiveReadsSame(worlds: seq<World>, actions: seq<Action>, stores: seq<Store>, i: nat, j: nat, ref: Ref)
    requires IsRun(worlds, actions) && ReleasesSpare(worlds, actions) && IsStored(worlds, actions, stores)
    requires i <= j < |worlds| && ref in worlds[i].published && worlds[j].control.Live(ref)
    ensures ref in worlds[j].published && worlds[j].published[ref] == worlds[i].published[ref]
    ensures WellFormed(stores[j], worlds[i].published[ref])
    ensures ReadsSame(stores[i], stores[j], worlds[i].published[ref])
  {
    hide IsRun, ReleasesSpare, IsStored, Control.Live, Reaches, ReadsSame, WellFormed;
    NothingReachableIsDeleted(worlds, actions, j);
    assert Intact(worlds[j], ref);
    RunStores(worlds, actions, stores, j);
    IntactReadsSame(worlds, actions, stores, i, j, ref);
  }

  /** At every instant a writer's index is one to publish over, and any reference never used is free. */
  lemma WriterCanPublish(worlds: seq<World>, actions: seq<Action>, stores: seq<Store>, n: nat, vm: string, ref: Ref)
    requires IsRun(worlds, actions) && ReleasesSpare(worlds, actions) && IsStored(worlds, actions, stores)
    requires n < |worlds| && vm in worlds[n].control.writers && ref !in worlds[n].published
    ensures var w := worlds[n];
      var base := w.control.writers[vm].base;
      && base in w.published && WellFormed(stores[n], w.published[base])
      && Fresh(stores[n], Some(w.published[base]), ref)
  {
    hide IsRun, ReleasesSpare, IsStored, WellFormed, AllCovered, WritersInv, SweepsOld, Sparing, Control.Recorded;
    RunStores(worlds, actions, stores, n);
    var w := worlds[n];
    assert w.control.Written(vm, w.control.writers[vm].base);
    assert w.control.Live(w.control.writers[vm].base);
  }
}
