/** Nothing anyone can reach is ever deleted.

The whole deployment as a state machine: any number of VMs with their control records
and writers, every index ever published, the checkpoints whose objects are in the
store, and the sweeps under way. VMs are created and forked, published, selected,
taken over, pinned, kept, released and removed, and sweeps delete one checkpoint at a
time, arbitrarily late. A control-record write is one step here; ControlProtocol says
why it may be taken for one.

A selection may land in the record without its writer learning of it. The writer then
goes on publishing over the checkpoint it has, behind the one the record selects.
*/
module Reachability {
  import opened Refs
  import opened Roots
  import opened Reclamation

  /** A VM's control record, as far as reclamation reads it. */
  datatype Record = Record(selected: nat, created: bool, pinned: set<nat>, kept: set<nat>) {
    function Protected(): set<nat> { pinned + kept }

    /** A selection, which may keep the checkpoint in the same write. */
    function Selecting(ref: Ref, keep: bool): Record {
      this.(selected := ref.sequence, created := true, kept := if keep then kept + {ref.sequence} else kept)
    }
  }

  /** The writer of a VM: the index it publishes over, the one it published before, and what it published that the
      record has not been seen to select. */
  datatype Writer = Writer(base: Ref, owned: Option<Ref>, unselected: set<Ref>)

  /** The records and writers of every VM, and the pins of the records that were removed. */
  datatype Control = Control(
    records: map<string, Record>,
    writers: map<string, Writer>,
    removed: map<string, set<nat>>)
  {
    function WithRecord(vm: string, record: Record): Control { this.(records := records[vm := record]) }

    function WithWriter(vm: string, writer: Writer): Control { this.(writers := writers[vm := writer]) }

    /** The pins of a VM, of its record or of the one that was removed. */
    function Pins(vm: string): set<nat> {
      if vm in records then records[vm].pinned
      else if vm in removed then removed[vm]
      else {}
    }

    /** An index a record or a removed record's pin keeps: selected and published, pinned or kept. */
    ghost predicate Recorded(ref: Ref) {
      || (ref.vm in records &&
          var record := records[ref.vm];
          (record.created && ref.sequence == record.selected) || ref.sequence in record.Protected())
      || ref.sequence in Pins(ref.vm)
    }

    /** An index a writer publishes over, or has published. */
    ghost predicate Written(vm: string, ref: Ref) {
      vm in writers && (ref == writers[vm].base || ref in writers[vm].unselected)
    }

    /** An index somebody may read through. */
    ghost predicate Live(ref: Ref) { Recorded(ref) || exists vm :: Written(vm, ref) }
  }

  datatype World = World(
    published: map<Ref, Index>,
    present: set<Ref>,
    sweeps: set<set<Ref>>,
    control: Control)

  datatype Action =
    | Create(first: Index)
    | Fork(child: string, sequence: nat, point: Ref)
    | Publish(vm: string, index: Index)
    | Select(vm: string, ref: Ref, keep: bool)
    | SelectUnseen(vm: string, ref: Ref, keep: bool)
    | TakeOver(vm: string)
    | Close(vm: string)
    | Pin(vm: string, sequence: nat)
    | PinBase(vm: string)
    | Release(vm: string, sequence: nat)
    | Remove(vm: string)
    | Delete(dead: set<Ref>, ref: Ref)

  // ----------------------------------------------------------------- the steps

  /** The checkpoints an index names, itself among them. */
  function Reaches(published: map<Ref, Index>, ref: Ref): set<Ref> {
    if ref in published then Closure(published[ref]) else {}
  }

  /** The sweep a selection starts: what the writer published before, under what it selected. */
  ghost function SweepOfSelect(w: World, vm: string, ref: Ref, keep: bool): set<set<Ref>>
    requires vm in w.control.records && vm in w.control.writers
  {
    var record := w.control.records[vm].Selecting(ref, keep);
    var owned := w.control.writers[vm].owned;
    if owned.Some? && owned.value in w.published && ref in w.published && owned.value != ref
    then {DeadBy(w.published, w.published[owned.value], w.published[ref], record.Protected())}
    else {}
  }

  /** The sweep a release starts: the released checkpoint, under the one the record selects. */
  ghost function SweepOfRelease(w: World, vm: string, sequence: nat): set<set<Ref>>
    requires vm in w.control.records
  {
    var record := w.control.records[vm].(kept := w.control.records[vm].kept - {sequence});
    var released, selected := Ref(vm, sequence), Ref(vm, record.selected);
    if sequence != record.selected && record.created && released in w.published && selected in w.published
    then {DeadBy(w.published, w.published[released], w.published[selected], record.Protected())}
    else {}
  }

  /** The sweep a removal starts: the VM's objects, less what its pins keep. */
  ghost function SweepOfRemove(w: World, vm: string): set<Ref>
    requires vm in w.control.records
  {
    set ref | ref in w.published && TakenWith(w.published, vm, w.control.records[vm].pinned, ref)
  }

  /** A create is refused for an identity with a record or with any object under it. */
  ghost predicate Unused(w: World, vm: string) {
    vm !in w.control.records && vm !in w.control.writers && forall ref :: ref in w.present ==> ref.vm != vm
  }

  ghost predicate Enabled(w: World, a: Action) {
    var c := w.control;
    match a
    case Create(first) =>
      Unused(w, first.ref.vm) && first.ref !in w.published && Named(first) == {first.ref}
    case Fork(child, sequence, point) =>
      // The pin comes before the child's record.
      Unused(w, child) && child != point.vm && point.sequence in c.Pins(point.vm)
    case Publish(vm, index) =>
      // What Commit leaves: the parent's names and itself, under a reference never used.
      && vm in c.writers && index.ref.vm == vm && index.ref !in w.published
      && index.ref in Named(index)
      && Named(index) <= Reaches(w.published, c.writers[vm].base) + {index.ref}
    case Select(vm, ref, keep) =>
      vm in c.records && vm in c.writers && ref in c.writers[vm].unselected
    case SelectUnseen(vm, ref, keep) =>
      vm in c.records && vm in c.writers && ref in c.writers[vm].unselected
    case TakeOver(vm) => vm in c.records && c.records[vm].created
    case Close(vm) => vm in c.writers
    case Pin(vm, sequence) =>
      // Without the writer: only what the record selects and has published, or keeps.
      && vm in c.records
      && ((sequence == c.records[vm].selected && c.records[vm].created) || sequence in c.records[vm].kept)
    case PinBase(vm) => vm in c.records && vm in c.writers && c.writers[vm].base.vm == vm
    case Release(vm, sequence) =>
      vm in c.records && sequence in c.records[vm].kept && sequence !in c.records[vm].pinned
    case Remove(vm) =>
      // The writer is closed first.
      vm in c.records && vm !in c.writers
    case Delete(dead, ref) => dead in w.sweeps && ref in dead
  }

  ghost function Apply(w: World, a: Action): World
    requires Enabled(w, a)
  {
    var c := w.control;
    match a
    case Create(first) =>
      var vm := first.ref.vm;
      World(w.published[first.ref := first], w.present + {first.ref}, w.sweeps,
            Control(c.records[vm := Record(first.ref.sequence, true, {}, {})],
                    c.writers[vm := Writer(first.ref, Some(first.ref), {})], c.removed - {vm}))
    case Fork(child, sequence, point) =>
      w.(control := Control(c.records[child := Record(sequence, false, {}, {})],
                            c.writers[child := Writer(point, None, {})], c.removed - {child}))
    case Publish(vm, index) =>
      World(w.published[index.ref := index], w.present + {index.ref}, w.sweeps,
            c.WithWriter(vm, c.writers[vm].(unselected := c.writers[vm].unselected + {index.ref})))
    case Select(vm, ref, keep) =>
      w.(control := c.WithRecord(vm, c.records[vm].Selecting(ref, keep)).WithWriter(vm, Writer(ref, Some(ref), {})),
         sweeps := w.sweeps + SweepOfSelect(w, vm, ref, keep))
    case SelectUnseen(vm, ref, keep) =>
      // Every other write of this writer's in flight was conditional on the record this one replaced.
      w.(control := c.WithRecord(vm, c.records[vm].Selecting(ref, keep))
                     .WithWriter(vm, c.writers[vm].(unselected := {})))
    case TakeOver(vm) =>
      w.(control := c.WithWriter(vm, Writer(Ref(vm, c.records[vm].selected), None, {})))
    case Close(vm) =>
      w.(control := c.(writers := c.writers - {vm}))
    case Pin(vm, sequence) =>
      w.(control := c.WithRecord(vm, c.records[vm].(pinned := c.records[vm].pinned + {sequence})))
    case PinBase(vm) =>
      w.(control := c.WithRecord(vm, c.records[vm].(pinned := c.records[vm].pinned + {c.writers[vm].base.sequence})))
    case Release(vm, sequence) =>
      w.(control := c.WithRecord(vm, c.records[vm].(kept := c.records[vm].kept - {sequence})),
         sweeps := w.sweeps + SweepOfRelease(w, vm, sequence))
    case Remove(vm) =>
      w.(control := c.(records := c.records - {vm}, removed := c.removed[vm := c.records[vm].pinned]),
         sweeps := w.sweeps + {SweepOfRemove(w, vm)})
    case Delete(dead, ref) =>
      w.(present := w.present - {ref})
  }

  // ---------------------------------------------------------------- the invariant

  /** Safety: every checkpoint a live index names is in the store. */
  ghost predicate Safe(w: World) {
    forall ref :: w.control.Live(ref) ==> ref in w.published && Reaches(w.published, ref) <= w.present
  }

  /** A pin of the VM a checkpoint belongs to keeps it. */
  ghost predicate Covered(published: map<Ref, Index>, control: Control, named: Ref) {
    exists pin :: pin in control.Pins(named.vm) && named in Reaches(published, Ref(named.vm, pin))
  }

  /** Every checkpoint of another VM a live index names, a pin of that VM keeps. */
  ghost predicate AllCovered(published: map<Ref, Index>, control: Control) {
    forall ref, named :: control.Live(ref) && named in Reaches(published, ref) && named.vm != ref.vm ==>
      Covered(published, control, named)
  }

  ghost predicate WriterInv(published: map<Ref, Index>, control: Control, vm: string)
    requires vm in control.writers
  {
    var writer := control.writers[vm];
    && vm in control.records
    && (writer.owned.Some? ==> writer.owned.value.vm == vm)
    // A fork reads through a pinned checkpoint until it publishes its own.
    && (writer.base.vm != vm ==> writer.base.sequence in control.Pins(writer.base.vm))
    && (forall ref :: ref in writer.unselected ==> Unselected(published, control.records[vm], vm, writer.base, ref))
  }

  /** What a writer published and the record has not selected: it names what it was published over and itself, the
      record does not keep it, and nothing else names it. */
  ghost predicate Unselected(published: map<Ref, Index>, record: Record, vm: string, base: Ref, ref: Ref) {
    && ref.vm == vm && ref != base
    && Reaches(published, ref) <= Reaches(published, base) + {ref}
    && ref.sequence !in record.Protected()
    && !(record.created && ref.sequence == record.selected)
    && (forall other :: ref in Reaches(published, other) ==> other == ref)
  }

  ghost predicate WritersInv(published: map<Ref, Index>, control: Control) {
    forall vm :: vm in control.writers ==> WriterInv(published, control, vm)
  }

  /** Every index is under its own reference, names itself and names checkpoints that were published. */
  ghost predicate Closed(published: map<Ref, Index>) {
    forall ref :: ref in published ==>
      published[ref].ref == ref && ref in Named(published[ref]) && Reaches(published, ref) <= published.Keys
  }

  /** No sweep under way takes anything a live index names. */
  ghost predicate Sparing(published: map<Ref, Index>, control: Control, sweeps: set<set<Ref>>) {
    forall dead, ref :: dead in sweeps && control.Live(ref) ==> dead !! Reaches(published, ref)
  }

  ghost predicate SweepsOld(published: map<Ref, Index>, sweeps: set<set<Ref>>) {
    forall dead :: dead in sweeps ==> dead <= published.Keys
  }

  ghost predicate Inv(w: World) {
    && Safe(w)
    && Closed(w.published)
    && w.present <= w.published.Keys
    && AllCovered(w.published, w.control)
    && WritersInv(w.published, w.control)
    && SweepsOld(w.published, w.sweeps)
    && Sparing(w.published, w.control, w.sweeps)
  }

  // ------------------------------------------------ steps that reach nothing new

  /** Pins are kept, but for a VM with nothing in the store. */
  ghost predicate PinsKept(w: World, control: Control) {
    forall vm, pin :: pin in w.control.Pins(vm) ==>
      pin in control.Pins(vm) || forall ref :: ref in w.present ==> ref.vm != vm
  }

  /** A step that publishes nothing, loses no pin that keeps anything and makes no index live. */
  lemma NothingNew(w: World, control: Control)
    requires Inv(w) && PinsKept(w, control)
    requires forall ref :: control.Recorded(ref) ==> w.control.Live(ref)
    requires forall vm, ref :: control.Written(vm, ref) ==> w.control.Recorded(ref) || w.control.Written(vm, ref)
    requires WritersInv(w.published, control)
    ensures Inv(w.(control := control))
  {
    hide WritersInv, Reaches, Control.Recorded, Control.Pins, SweepsOld, Closed;
    assert forall ref :: control.Live(ref) ==> w.control.Live(ref);
    forall ref, named | control.Live(ref) && named in Reaches(w.published, ref) && named.vm != ref.vm
      ensures Covered(w.published, control, named)
    {
      assert Covered(w.published, w.control, named);
    }
  }

  lemma CloseKeeps(w: World, vm: string)
    requires Inv(w) && Enabled(w, Close(vm))
    ensures Inv(Apply(w, Close(vm)))
  {
    hide Safe, Closed, AllCovered, SweepsOld, Sparing, Reaches, Unselected;
    NothingNew(w, Apply(w, Close(vm)).control);
  }

  lemma TakeOverKeeps(w: World, vm: string)
    requires Inv(w) && Enabled(w, TakeOver(vm))
    ensures Inv(Apply(w, TakeOver(vm)))
  {
    hide Safe, Closed, AllCovered, SweepsOld, Sparing, Reaches, Unselected;
    assert w.control.Recorded(Ref(vm, w.control.records[vm].selected));
    NothingNew(w, Apply(w, TakeOver(vm)).control);
  }

  lemma PinKeeps(w: World, vm: string, sequence: nat)
    requires Inv(w) && Enabled(w, Pin(vm, sequence))
    ensures Inv(Apply(w, Pin(vm, sequence)))
  {
    hide Safe, Closed, AllCovered, SweepsOld, Sparing, Reaches;
    assert w.control.Recorded(Ref(vm, sequence));
    NothingNew(w, Apply(w, Pin(vm, sequence)).control);
  }

  lemma PinBaseKeeps(w: World, vm: string)
    requires Inv(w) && Enabled(w, PinBase(vm))
    ensures Inv(Apply(w, PinBase(vm)))
  {
    hide Safe, Closed, AllCovered, SweepsOld, Sparing, Reaches;
    assert w.control.Written(vm, w.control.writers[vm].base);
    NothingNew(w, Apply(w, PinBase(vm)).control);
  }

  lemma SelectUnseenKeeps(w: World, vm: string, ref: Ref, keep: bool)
    requires Inv(w) && Enabled(w, SelectUnseen(vm, ref, keep))
    ensures Inv(Apply(w, SelectUnseen(vm, ref, keep)))
  {
    hide Safe, Closed, AllCovered, SweepsOld, Sparing, Reaches;
    assert w.control.Written(vm, ref);
    NothingNew(w, Apply(w, SelectUnseen(vm, ref, keep)).control);
  }

  /** A delete takes only what no live index names. */
  lemma DeleteKeeps(w: World, dead: set<Ref>, ref: Ref)
    requires Inv(w) && Enabled(w, Delete(dead, ref))
    ensures Inv(Apply(w, Delete(dead, ref)))
  {
    hide Closed, AllCovered, WritersInv, SweepsOld, Reaches, Control.Live;
  }

  // ------------------------------------------------------ steps that publish

  /** An index that may be added: all it names besides itself is in the store, in no sweep, and covered. */
  ghost predicate Addable(w: World, index: Index) {
    && index.ref !in w.published && index.ref in Named(index)
    && (forall named :: named in Closure(index) && named != index.ref ==>
          && named in w.present
          && (forall dead :: dead in w.sweeps ==> named !in dead)
          && (named.vm != index.ref.vm ==> Covered(w.published, w.control, named)))
  }

  lemma CoveredStays(w: World, control: Control, index: Index, named: Ref)
    requires Covered(w.published, w.control, named) && PinsKept(w, control) && named in w.present
    requires index.ref !in w.published
    ensures Covered(w.published[index.ref := index], control, named)
  {
    hide Control.Pins;
    var pin :| pin in w.control.Pins(named.vm) && named in Reaches(w.published, Ref(named.vm, pin));
    assert pin in control.Pins(named.vm);
    assert named in Reaches(w.published[index.ref := index], Ref(named.vm, pin));
  }

  /** Adding an index changes what no other reaches. */
  lemma ReachesAdd(published: map<Ref, Index>, index: Index, ref: Ref)
    requires index.ref !in published
    ensures Reaches(published[index.ref := index], ref) ==
            if ref == index.ref then Closure(index) else Reaches(published, ref)
  {
  }

  lemma AddCovered(w: World, index: Index, control: Control)
    requires Inv(w) && Addable(w, index) && PinsKept(w, control)
    requires forall ref :: control.Live(ref) ==> w.control.Live(ref) || ref == index.ref
    ensures AllCovered(w.published[index.ref := index], control)
  {
    hide WritersInv, Control.Live, Control.Pins, Covered, PinsKept, Reaches, Closed, Sparing, SweepsOld, Closure;
    var published := w.published[index.ref := index];
    forall ref, named | control.Live(ref) && named in Reaches(published, ref) && named.vm != ref.vm
      ensures Covered(published, control, named)
    {
      ReachesAdd(w.published, index, ref);
      CoveredStays(w, control, index, named);
    }
  }

  lemma AddSpares(w: World, index: Index, control: Control)
    requires Inv(w) && Addable(w, index)
    requires forall ref :: control.Live(ref) ==> w.control.Live(ref) || ref == index.ref
    ensures Sparing(w.published[index.ref := index], control, w.sweeps)
    ensures Safe(World(w.published[index.ref := index], w.present + {index.ref}, w.sweeps, control))
  {
    hide WritersInv, Control.Live, Covered, Reaches, AllCovered, Closed;
    var published := w.published[index.ref := index];
    forall ref | control.Live(ref)
      ensures ref in published && Reaches(published, ref) <= w.present + {index.ref}
      ensures forall dead :: dead in w.sweeps ==> dead !! Reaches(published, ref)
    {
      ReachesAdd(w.published, index, ref);
    }
  }

  lemma AddCloses(w: World, index: Index)
    requires Inv(w) && Addable(w, index)
    ensures Closed(w.published[index.ref := index])
  {
    hide WritersInv, Control.Live, Covered, Reaches, AllCovered, Sparing, SweepsOld;
    var published := w.published[index.ref := index];
    forall ref | ref in published
      ensures published[ref].ref == ref && ref in Named(published[ref]) && Reaches(published, ref) <= published.Keys
    {
      ReachesAdd(w.published, index, ref);
    }
  }

  lemma AddKeeps(w: World, index: Index, control: Control)
    requires Inv(w) && Addable(w, index) && PinsKept(w, control)
    requires forall ref :: control.Recorded(ref) ==> w.control.Live(ref) || ref == index.ref
    requires forall vm, ref :: control.Written(vm, ref) ==>
               w.control.Recorded(ref) || w.control.Written(vm, ref) || ref == index.ref
    requires WritersInv(w.published[index.ref := index], control)
    ensures Inv(World(w.published[index.ref := index], w.present + {index.ref}, w.sweeps, control))
  {
    hide WritersInv, Control.Recorded, Control.Pins, Covered, PinsKept, Reaches, AllCovered, Sparing, Safe, Closed;
    assert forall ref :: control.Live(ref) ==> w.control.Live(ref) || ref == index.ref;
    AddCovered(w, index, control);
    AddSpares(w, index, control);
    AddCloses(w, index);
  }

  /** A writer stays as it was while an index nothing of it names is added. */
  lemma WriterStays(w: World, control: Control, index: Index, vm: string)
    requires Inv(w) && index.ref !in w.published && PinsKept(w, control)
    requires vm in w.control.writers && vm in control.writers && control.writers[vm] == w.control.writers[vm]
    requires vm in w.control.records && vm in control.records && control.records[vm] == w.control.records[vm]
    requires forall ref :: ref in w.control.writers[vm].unselected ==> ref !in Closure(index) && ref in w.published
    ensures WriterInv(w.published[index.ref := index], control, vm)
  {
    hide AllCovered, Sparing, SweepsOld, Safe, Closed, Reaches, Control.Pins;
    var writer := w.control.writers[vm];
    assert WriterInv(w.published, w.control, vm);
    BaseIsPresent(w, vm);
    forall ref | ref in writer.unselected
      ensures Unselected(w.published[index.ref := index], control.records[vm], vm, writer.base, ref)
    {
      assert Unselected(w.published, w.control.records[vm], vm, writer.base, ref);
      assert w.control.Written(vm, ref);
      UnselectedStays(w.published, w.control.records[vm], vm, writer.base, ref, index);
    }
  }

  lemma UnselectedStays(published: map<Ref, Index>, record: Record, vm: string, base: Ref, ref: Ref, index: Index)
    requires Unselected(published, record, vm, base, ref)
    requires index.ref !in published && base in published && ref in published && ref !in Closure(index)
    ensures Unselected(published[index.ref := index], record, vm, base, ref)
  {
    hide Reaches, Closure;
    var added := published[index.ref := index];
    ReachesAdd(published, index, base);
    ReachesAdd(published, index, ref);
    forall other | ref in Reaches(added, other) ensures other == ref {
      ReachesAdd(published, index, other);
    }
  }

  lemma CreateKeeps(w: World, first: Index)
    requires Inv(w) && Enabled(w, Create(first))
    ensures Inv(Apply(w, Create(first)))
  {
    hide AllCovered, Sparing, SweepsOld, Safe, Closed, Reaches;
    var next := Apply(w, Create(first));
    assert PinsKept(w, next.control);
    forall vm | vm in next.control.writers ensures WriterInv(next.published, next.control, vm) {
      if vm != first.ref.vm {
        WriterIsRecorded(w, vm);
        UnselectedIsPublished(w, vm);
        WriterStays(w, next.control, first, vm);
      }
    }
    AddKeeps(w, first, next.control);
  }

  lemma WriterIsRecorded(w: World, vm: string)
    requires Inv(w) && vm in w.control.writers
    ensures vm in w.control.records
  {
    assert WriterInv(w.published, w.control, vm);
  }

  lemma UnselectedIsPublished(w: World, vm: string)
    requires Inv(w) && vm in w.control.writers
    ensures w.control.writers[vm].base in w.published
    ensures forall ref :: ref in w.control.writers[vm].unselected ==> ref in w.published
  {
    assert w.control.Written(vm, w.control.writers[vm].base);
    forall ref | ref in w.control.writers[vm].unselected ensures ref in w.published {
      assert w.control.Written(vm, ref);
    }
  }

  lemma ForkKeeps(w: World, child: string, sequence: nat, point: Ref)
    requires Inv(w) && Enabled(w, Fork(child, sequence, point))
    ensures Inv(Apply(w, Fork(child, sequence, point)))
  {
    hide AllCovered, Sparing, SweepsOld, Closed;
    var control := Apply(w, Fork(child, sequence, point)).control;
    assert w.control.Recorded(point);
    assert PinsKept(w, control);
    forall vm | vm in control.writers ensures WriterInv(w.published, control, vm) {
      if vm != child {
        assert WriterInv(w.published, w.control, vm);
        assert w.control.Written(vm, w.control.writers[vm].base);
        assert w.control.Live(w.control.writers[vm].base);
        BaseIsPresent(w, vm);
      }
    }
    NothingNew(w, control);
  }

  lemma BaseIsPresent(w: World, vm: string)
    requires Inv(w) && vm in w.control.writers
    ensures w.control.writers[vm].base in w.present && w.control.writers[vm].base in w.published
  {
    hide AllCovered, Sparing, SweepsOld, WritersInv;
    assert w.control.Written(vm, w.control.writers[vm].base);
    assert w.control.Live(w.control.writers[vm].base);
  }

  /** What a writer publishes over is not something another has yet to select. */
  lemma BaseIsSelected(w: World, vm: string, other: string, ref: Ref)
    requires Inv(w) && vm in w.control.writers && other in w.control.writers
    requires ref in w.control.writers[other].unselected
    ensures ref !in Reaches(w.published, w.control.writers[vm].base)
  {
    hide AllCovered, Sparing, SweepsOld, Safe, Closed, Reaches;
    assert WriterInv(w.published, w.control, vm) && WriterInv(w.published, w.control, other);
    assert Unselected(w.published, w.control.records[other], other, w.control.writers[other].base, ref);
  }

  lemma PublishIsAddable(w: World, vm: string, index: Index)
    requires Inv(w) && Enabled(w, Publish(vm, index))
    ensures Addable(w, index)
  {
    hide SweepsOld, Closed, Reaches, Covered;
    var base := w.control.writers[vm].base;
    assert w.control.Written(vm, base);
    assert w.control.Live(base);
    assert WriterInv(w.published, w.control, vm);
    forall named | named in Closure(index) && named != index.ref
      ensures named in w.present
      ensures forall dead :: dead in w.sweeps ==> named !in dead
      ensures named.vm != vm ==> Covered(w.published, w.control, named)
    {
      assert named in Reaches(w.published, base);
      if named.vm != vm && named.vm == base.vm {
        assert named in Reaches(w.published, Ref(named.vm, base.sequence));
        CoveredBy(w, named, base.sequence);
      }
    }
  }

  lemma CoveredBy(w: World, named: Ref, pin: nat)
    requires pin in w.control.Pins(named.vm) && named in Reaches(w.published, Ref(named.vm, pin))
    ensures Covered(w.published, w.control, named)
  {
  }

  /** A published index is not one the record already keeps. */
  lemma NewIsUnselected(w: World, vm: string, index: Index)
    requires Inv(w) && Enabled(w, Publish(vm, index)) && vm in w.control.records
    ensures Unselected(w.published[index.ref := index], w.control.records[vm], vm, w.control.writers[vm].base,
                       index.ref)
  {
    hide AllCovered, Sparing, SweepsOld, WritersInv, Safe, Reaches;
    var base, record := w.control.writers[vm].base, w.control.records[vm];
    BaseIsPresent(w, vm);
    ReachesAdd(w.published, index, base);
    ReachesAdd(w.published, index, index.ref);
    RecordedIsPublished(w, index.ref);
    var added := w.published[index.ref := index];
    forall other | index.ref in Reaches(added, other) ensures other == index.ref {
      ReachesAdd(w.published, index, other);
      ReachesPublished(w.published, other);
    }
  }

  lemma RecordedIsPublished(w: World, ref: Ref)
    requires Inv(w)
    ensures w.control.Recorded(ref) ==> ref in w.published
  {
    hide AllCovered, Sparing, SweepsOld, WritersInv, Control.Recorded, Closed;
    assert w.control.Recorded(ref) ==> w.control.Live(ref);
  }

  lemma ReachesPublished(published: map<Ref, Index>, ref: Ref)
    requires Closed(published)
    ensures Reaches(published, ref) <= published.Keys
  {
  }

  lemma PublishKeeps(w: World, vm: string, index: Index)
    requires Inv(w) && Enabled(w, Publish(vm, index))
    ensures Inv(Apply(w, Publish(vm, index)))
  {
    hide AllCovered, Sparing, SweepsOld, Safe, Closed, Reaches;
    var next := Apply(w, Publish(vm, index));
    PublishIsAddable(w, vm, index);
    assert PinsKept(w, next.control);
    forall other | other in next.control.writers ensures WriterInv(next.published, next.control, other) {
      UnselectedIsPublished(w, other);
      forall ref | ref in w.control.writers[other].unselected ensures ref !in Closure(index) && ref in w.published {
        BaseIsSelected(w, vm, other, ref);
      }
      WriterIsRecorded(w, other);
      WriterStays(w, next.control.(writers := w.control.writers), index, other);
      if other == vm { NewIsUnselected(w, vm, index); }
    }
    AddKeeps(w, index, next.control);
  }

  // ------------------------------------------------- steps that start a sweep

  lemma SweepKeeps(w: World, sweeps: set<set<Ref>>)
    requires Inv(w) && SweepsOld(w.published, sweeps) && Sparing(w.published, w.control, sweeps)
    ensures Inv(w.(sweeps := w.sweeps + sweeps))
  {
    hide Control.Live, Reaches, AllCovered, WritersInv, Closed;
  }

  /** Another VM's live index reaches nothing of this VM's that its pins do not keep. */
  lemma ForeignIsPinned(w: World, vm: string, ref: Ref, named: Ref)
    requires Inv(w) && w.control.Live(ref) && ref.vm != vm
    requires named in Reaches(w.published, ref) && named.vm == vm
    ensures exists pin :: pin in w.control.Pins(vm) && named in Reaches(w.published, Ref(vm, pin))
  {
    hide Control.Live, Reaches, WritersInv, Closed, Sparing, SweepsOld, Safe;
    assert Covered(w.published, w.control, named);
  }

  /** A live index of a VM is one its record or its pins keep, or its own writer's. */
  lemma LiveOf(w: World, vm: string, ref: Ref)
    requires Inv(w) && w.control.Live(ref) && ref.vm == vm
    ensures w.control.Recorded(ref) || w.control.Written(vm, ref)
  {
    hide Reaches, AllCovered, Closed, Sparing, SweepsOld, Safe;
    if !w.control.Recorded(ref) {
      var other :| w.control.Written(other, ref);
      assert WriterInv(w.published, w.control, other);
    }
  }

  /** The sweep of a replaced or released checkpoint of a VM, under what its record selects and protects. */
  ghost function Dead(w: World, vm: string, previous: Ref): set<Ref>
    requires vm in w.control.records && previous in w.published
    requires Ref(vm, w.control.records[vm].selected) in w.published
  {
    DeadBy(w.published, w.published[previous], w.published[Ref(vm, w.control.records[vm].selected)],
           w.control.records[vm].Protected())
  }

  lemma DeadAvoids(w: World, vm: string, previous: Ref, sequence: nat)
    requires vm in w.control.records && previous in w.published
    requires Ref(vm, w.control.records[vm].selected) in w.published
    requires Closed(w.published) && previous.vm == vm
    requires sequence == w.control.records[vm].selected || sequence in w.control.records[vm].Protected()
    ensures Dead(w, vm, previous) !! Reaches(w.published, Ref(vm, sequence))
  {
  }

  lemma DeadIsOwn(w: World, vm: string, previous: Ref, named: Ref)
    requires vm in w.control.records && previous in w.published
    requires Ref(vm, w.control.records[vm].selected) in w.published
    requires Closed(w.published) && previous.vm == vm && named in Dead(w, vm, previous)
    ensures named.vm == vm
  {
  }

  lemma DeadWithin(w: World, vm: string, previous: Ref)
    requires vm in w.control.records && previous in w.published
    requires Ref(vm, w.control.records[vm].selected) in w.published
    ensures Dead(w, vm, previous) <= Reaches(w.published, previous)
  {
  }

  /** A sweep under the index a record selects takes nothing a live index names, but for what the VM's own writer, if
      it has fallen behind that record, still names. */
  lemma DeadSparesLive(w: World, vm: string, previous: Ref, ref: Ref)
    requires Inv(w) && vm in w.control.records && w.control.records[vm].created && previous.vm == vm
    requires previous in w.published && Ref(vm, w.control.records[vm].selected) in w.published
    requires w.control.Live(ref)
    requires forall own :: w.control.Written(vm, own) ==> Dead(w, vm, previous) !! Reaches(w.published, own)
    ensures Dead(w, vm, previous) !! Reaches(w.published, ref)
  {
    hide AllCovered, Sparing, SweepsOld, WritersInv, Safe, Closed, Control.Live, Control.Written, Dead, Reaches;
    if ref.vm == vm {
      LiveOf(w, vm, ref);
      if w.control.Recorded(ref) { DeadAvoids(w, vm, previous, ref.sequence); }
    } else {
      forall named | named in Dead(w, vm, previous) ensures named !in Reaches(w.published, ref) {
        DeadIsOwn(w, vm, previous, named);
        if named in Reaches(w.published, ref) {
          ForeignIsPinned(w, vm, ref, named);
          var pin :| pin in w.control.Pins(vm) && named in Reaches(w.published, Ref(vm, pin));
          DeadAvoids(w, vm, previous, pin);
        }
      }
    }
  }

  lemma DeadIsOld(w: World, vm: string, previous: Ref)
    requires vm in w.control.records && previous in w.published
    requires Ref(vm, w.control.records[vm].selected) in w.published
    requires Closed(w.published)
    ensures Dead(w, vm, previous) <= w.published.Keys
  {
    assert Reaches(w.published, previous) <= w.published.Keys;
  }

  lemma StartSweep(w: World, vm: string, previous: Ref)
    requires Inv(w) && vm in w.control.records && w.control.records[vm].created && previous.vm == vm
    requires previous in w.published && Ref(vm, w.control.records[vm].selected) in w.published
    requires forall own :: w.control.Written(vm, own) ==> Dead(w, vm, previous) !! Reaches(w.published, own)
    ensures Inv(w.(sweeps := w.sweeps + {Dead(w, vm, previous)}))
  {
    hide AllCovered, WritersInv, Safe, Closed, Control.Live, Control.Written, Dead, Reaches;
    DeadIsOld(w, vm, previous);
    forall ref | w.control.Live(ref) ensures Dead(w, vm, previous) !! Reaches(w.published, ref) {
      DeadSparesLive(w, vm, previous, ref);
    }
    SweepKeeps(w, {Dead(w, vm, previous)});
  }

  lemma SelectKeeps(w: World, vm: string, ref: Ref, keep: bool)
    requires Inv(w) && Enabled(w, Select(vm, ref, keep))
    ensures Inv(Apply(w, Select(vm, ref, keep)))
  {
    hide Safe, Closed, AllCovered, SweepsOld, Sparing, Reaches, DeadBy;
    var next := Apply(w, Select(vm, ref, keep));
    assert w.control.Written(vm, ref);
    NothingNew(w, next.control);
    var settled := w.(control := next.control);
    UnselectedIsPublished(w, vm);
    assert WriterInv(w.published, w.control, vm);
    assert Unselected(w.published, w.control.records[vm], vm, w.control.writers[vm].base, ref);
    var owned := w.control.writers[vm].owned;
    if owned.Some? && owned.value in w.published && owned.value != ref {
      DeadAvoids(settled, vm, owned.value, ref.sequence);
      StartSweep(settled, vm, owned.value);
      assert next == settled.(sweeps := settled.sweeps + {Dead(settled, vm, owned.value)});
    } else {
      assert next == settled;
    }
  }

  lemma RemoveKeeps(w: World, vm: string)
    requires Inv(w) && Enabled(w, Remove(vm))
    ensures Inv(Apply(w, Remove(vm)))
  {
    hide Safe, Closed, AllCovered, SweepsOld, Sparing, Reaches, TakenWith;
    var next := Apply(w, Remove(vm));
    NothingNew(w, next.control);
    var settled := w.(control := next.control);
    var dead := SweepOfRemove(w, vm);
    forall ref | next.control.Live(ref) ensures dead !! Reaches(w.published, ref) {
      RemovalSpares(w, vm, settled, ref);
    }
    SweepIs(w.published, next.control, dead);
    SweepKeeps(settled, {dead});
  }

  lemma SweepIs(published: map<Ref, Index>, control: Control, dead: set<Ref>)
    requires dead <= published.Keys
    requires forall ref :: control.Live(ref) ==> dead !! Reaches(published, ref)
    ensures SweepsOld(published, {dead}) && Sparing(published, control, {dead})
  {
    hide Control.Live, Reaches;
  }

  lemma RemovalSpares(w: World, vm: string, settled: World, ref: Ref)
    requires vm in w.control.records && settled == w.(control := settled.control) && Inv(settled)
    requires vm !in settled.control.records && vm !in settled.control.writers
    requires settled.control.Pins(vm) == w.control.records[vm].pinned
    requires settled.control.Live(ref)
    ensures SweepOfRemove(w, vm) !! Reaches(w.published, ref)
  {
    hide Safe, Closed, AllCovered, SweepsOld, Sparing, WritersInv, Control.Live, Control.Pins;
    var dead := SweepOfRemove(w, vm);
    if ref.vm == vm {
      LiveOf(settled, vm, ref);
    } else {
      forall named | named in dead ensures named !in Reaches(w.published, ref) {
        if named in Reaches(w.published, ref) { ForeignIsPinned(settled, vm, ref, named); }
      }
    }
  }

  // ------------------------------------------------------------------- releases

  /** A release's sweep takes nothing the VM's writer still publishes over. */
  ghost predicate ReleaseSpares(w: World, vm: string, sequence: nat)
    requires vm in w.control.records
  {
    vm in w.control.writers ==>
      forall dead :: dead in SweepOfRelease(w, vm, sequence) ==>
        dead !! Reaches(w.published, w.control.writers[vm].base)
  }

  /** A writer that publishes over the checkpoint its record selects loses nothing to a release. */
  lemma CaughtUpSpares(w: World, vm: string, sequence: nat)
    requires Inv(w) && Enabled(w, Release(vm, sequence))
    requires vm in w.control.writers ==> w.control.writers[vm].base == Ref(vm, w.control.records[vm].selected)
    ensures ReleaseSpares(w, vm, sequence)
  {
    hide Safe, AllCovered, SweepsOld, Sparing, WritersInv, DeadBy, Reaches;
    var next := Apply(w, Release(vm, sequence));
    var record := next.control.records[vm];
    if Ref(vm, sequence) in w.published && Ref(vm, record.selected) in w.published {
      var settled := w.(control := next.control);
      DeadAvoids(settled, vm, Ref(vm, sequence), record.selected);
    }
  }

  /** A release keeps the invariant exactly when its sweep spares what the writer publishes over. */
  lemma ReleaseKeepsIff(w: World, vm: string, sequence: nat)
    requires Inv(w) && Enabled(w, Release(vm, sequence))
    ensures Inv(Apply(w, Release(vm, sequence))) <==> ReleaseSpares(w, vm, sequence)
  {
    hide Safe, Closed, AllCovered, SweepsOld, Reaches, DeadBy;
    var next := Apply(w, Release(vm, sequence));
    var settled := w.(control := next.control);
    NothingNew(w, next.control);
    var released, selected := Ref(vm, sequence), Ref(vm, w.control.records[vm].selected);
    if sequence != selected.sequence && w.control.records[vm].created && released in w.published &&
      selected in w.published {
      if vm in next.control.writers { assert next.control.Written(vm, next.control.writers[vm].base); }
      if ReleaseSpares(w, vm, sequence) {
        forall own | settled.control.Written(vm, own)
          ensures Dead(settled, vm, released) !! Reaches(w.published, own)
        {
          DeadWithin(settled, vm, released);
          assert Dead(settled, vm, released) in SweepOfRelease(w, vm, sequence);
          ReleaseSparesOwn(w, vm, released, Dead(settled, vm, released), own);
        }
        StartSweep(settled, vm, released);
        assert next == settled.(sweeps := settled.sweeps + {Dead(settled, vm, released)});
      }
    } else {
      assert next == settled;
    }
  }

  /** A release whose sweep does not spare what the writer publishes over leaves a deletion that loses it. */
  lemma UnsparingReleaseLoses(w: World, vm: string, sequence: nat) returns (dead: set<Ref>, lost: Ref)
    requires Inv(w) && Enabled(w, Release(vm, sequence)) && !ReleaseSpares(w, vm, sequence)
    ensures Enabled(Apply(w, Release(vm, sequence)), Delete(dead, lost))
    ensures !Safe(Apply(Apply(w, Release(vm, sequence)), Delete(dead, lost)))
  {
    hide Closed, AllCovered, WritersInv, SweepsOld, Sparing, SweepOfRelease;
    var base := w.control.writers[vm].base;
    dead :| dead in SweepOfRelease(w, vm, sequence) && !(dead !! Reaches(w.published, base));
    lost :| lost in dead && lost in Reaches(w.published, base);
    var after := Apply(Apply(w, Release(vm, sequence)), Delete(dead, lost));
    assert after.control.Written(vm, base);
  }

  /** So a release is safe exactly when its sweep spares what the writer publishes over: exactly then every deletion
      that may follow it leaves every index anyone reads through whole. */
  lemma ReleaseIsSafeIff(w: World, vm: string, sequence: nat)
    requires Inv(w) && Enabled(w, Release(vm, sequence))
    ensures ReleaseSpares(w, vm, sequence) <==>
            forall dead, ref :: Enabled(Apply(w, Release(vm, sequence)), Delete(dead, ref)) ==>
              Safe(Apply(Apply(w, Release(vm, sequence)), Delete(dead, ref)))
  {
    assert vm in w.control.records;
    hide Enabled, Apply, ReleaseSpares, Closed, AllCovered, WritersInv, SweepsOld, Sparing, Safe;
    var next := Apply(w, Release(vm, sequence));
    if ReleaseSpares(w, vm, sequence) {
      ReleaseKeepsIff(w, vm, sequence);
      forall dead, ref | Enabled(next, Delete(dead, ref))
        ensures Safe(Apply(next, Delete(dead, ref)))
      {
        DeleteKeeps(next, dead, ref);
      }
    } else {
      var dead, lost := UnsparingReleaseLoses(w, vm, sequence);
    }
  }

  lemma ReleaseSparesOwn(w: World, vm: string, released: Ref, dead: set<Ref>, own: Ref)
    requires Inv(w) && vm in w.control.records && vm in w.control.writers
    requires released.vm == vm && released.sequence in w.control.records[vm].kept
    requires dead <= Reaches(w.published, released) && dead !! Reaches(w.published, w.control.writers[vm].base)
    requires w.control.Written(vm, own)
    ensures dead !! Reaches(w.published, own)
  {
    hide Safe, Closed, AllCovered, SweepsOld, Sparing, Reaches;
    var writer := w.control.writers[vm];
    assert WriterInv(w.published, w.control, vm);
    if own != writer.base {
      assert Unselected(w.published, w.control.records[vm], vm, writer.base, own);
    }
  }

  // ------------------------------------------------------------------------ runs

  ghost function Empty(): World { World(map[], {}, {}, Control(map[], map[], map[])) }

  ghost predicate IsRun(worlds: seq<World>, actions: seq<Action>) {
    && |worlds| == |actions| + 1
    && worlds[0] == Empty()
    && forall i :: 0 <= i < |actions| ==>
      Enabled(worlds[i], actions[i]) && worlds[i + 1] == Apply(worlds[i], actions[i])
  }

  /** Every release of the run is made while the writer, if there is one, loses nothing to it. */
  ghost predicate ReleasesSpare(worlds: seq<World>, actions: seq<Action>)
    requires IsRun(worlds, actions)
  {
    forall i :: 0 <= i < |actions| && actions[i].Release? ==>
      ReleaseSpares(worlds[i], actions[i].vm, actions[i].sequence)
  }

  lemma StepKeeps(w: World, a: Action)
    requires Inv(w) && Enabled(w, a)
    requires a.Release? ==> ReleaseSpares(w, a.vm, a.sequence)
    ensures Inv(Apply(w, a))
  {
    hide Inv, Apply, ReleaseSpares;
    match a
    case Create(first) => CreateKeeps(w, first);
    case Fork(child, sequence, point) => ForkKeeps(w, child, sequence, point);
    case Publish(vm, index) => PublishKeeps(w, vm, index);
    case Select(vm, ref, keep) => SelectKeeps(w, vm, ref, keep);
    case SelectUnseen(vm, ref, keep) => SelectUnseenKeeps(w, vm, ref, keep);
    case TakeOver(vm) => TakeOverKeeps(w, vm);
    case Close(vm) => CloseKeeps(w, vm);
    case Pin(vm, sequence) => PinKeeps(w, vm, sequence);
    case PinBase(vm) => PinBaseKeeps(w, vm);
    case Release(vm, sequence) => ReleaseKeepsIff(w, vm, sequence);
    case Remove(vm) => RemoveKeeps(w, vm);
    case Delete(dead, ref) => DeleteKeeps(w, dead, ref);
  }

  lemma {:induction false} RunKeeps(worlds: seq<World>, actions: seq<Action>, n: nat)
    requires IsRun(worlds, actions) && ReleasesSpare(worlds, actions) && n < |worlds|
    ensures Inv(worlds[n])
    decreases n
  {
    hide Enabled, Apply, ReleaseSpares;
    if n > 0 {
      RunKeeps(worlds, actions, n - 1);
      StepKeeps(worlds[n - 1], actions[n - 1]);
      assert worlds[n - 1 + 1] == Apply(worlds[n - 1], actions[n - 1]);
    }
  }

  /** In every reachable state, every checkpoint named by an index that a record selects, pins or keeps, by one a
      removed VM left pinned, or by one any writer of any descendant publishes over, is in the store. */
  lemma NothingReachableIsDeleted(worlds: seq<World>, actions: seq<Action>, n: nat)
    requires IsRun(worlds, actions) && ReleasesSpare(worlds, actions) && n < |worlds|
    ensures Safe(worlds[n])
  {
    hide IsRun, ReleasesSpare, Safe, Closed, AllCovered, WritersInv, SweepsOld, Sparing;
    RunKeeps(worlds, actions, n);
  }

  // -------------------------------------------------- a writer behind its record

  function Numbered(sequence: nat, names: set<nat>): Index {
    Index(Ref("vm", sequence), map[], map[], map n | n in names ::
      Ref("vm", n) := CheckpointCost(0, 0, 0), None, 0, false)
  }

  lemma NumberedNames(sequence: nat, names: set<nat>)
    ensures Named(Numbered(sequence, names)) == set n | n in names :: Ref("vm", n)
  {
  }

  /** The one VM of the run below, as its record and writer have it. */
  ghost predicate Stands(w: World, published: map<Ref, Index>, record: Record, writer: Writer) {
    && w.published == published
    && w.control.records == map["vm" := record] && w.control.writers == map["vm" := writer]
  }

  /** Publishing over the writer's base, and selecting it. */
  lemma PublishAndSelect(w: World, published: map<Ref, Index>, record: Record, writer: Writer, index: Index, keep: bool)
    returns (next: World, selected: World)
    requires Stands(w, published, record, writer) && Enabled(w, Publish("vm", index))
    ensures next == Apply(w, Publish("vm", index)) && Enabled(next, Select("vm", index.ref, keep))
    ensures selected == Apply(next, Select("vm", index.ref, keep))
    ensures Stands(selected, published[index.ref := index], record.Selecting(index.ref, keep),
                   Writer(index.ref, Some(index.ref), {}))
  {
    hide Named, SweepOfSelect, Reaches, Record.Selecting;
    next := Apply(w, Publish("vm", index));
    selected := Apply(next, Select("vm", index.ref, keep));
    Replacing(record, record.Selecting(index.ref, keep));
    Replacing(writer, writer.(unselected := writer.unselected + {index.ref}));
    Replacing(writer.(unselected := writer.unselected + {index.ref}), Writer(index.ref, Some(index.ref), {}));
  }

  lemma Replacing<V>(was: V, now: V)
    ensures map["vm" := was]["vm" := now] == map["vm" := now]
  {
  }

  /** One step more of a run. */
  lemma Then(worlds: seq<World>, actions: seq<Action>, a: Action)
    requires IsRun(worlds, actions) && Enabled(worlds[|actions|], a)
    ensures IsRun(worlds + [Apply(worlds[|actions|], a)], actions + [a])
  {
    hide Enabled, Apply;
  }

  function FirstTwo(): map<Ref, Index> {
    map[Ref("vm", 1) := Numbered(1, {1}), Ref("vm", 2) := Numbered(2, {1, 2})]
  }

  /** What the writer has after publishing 2 and having it kept, and 3 over it. */
  ghost predicate ThreePublished(w: World) {
    Stands(w, FirstTwo()[Ref("vm", 3) := Numbered(3, {1, 2, 3})], Record(3, true, {}, {2}),
           Writer(Ref("vm", 3), Some(Ref("vm", 3)), {}))
  }

  lemma ReachTwoPublished() returns (worlds: seq<World>, actions: seq<Action>)
    ensures IsRun(worlds, actions)
    ensures Stands(worlds[|actions|], FirstTwo(), Record(2, true, {}, {2}),
                   Writer(Ref("vm", 2), Some(Ref("vm", 2)), {}))
  {
    hide Named, SweepOfSelect;
    NumberedNames(1, {1});
    NumberedNames(2, {1, 2});
    var create, publish, select :=
      Create(Numbered(1, {1})), Publish("vm", Numbered(2, {1, 2})), Select("vm", Ref("vm", 2), true);
    var first := Apply(Empty(), create);
    var one := map[Ref("vm", 1) := Numbered(1, {1})];
    assert Stands(first, one, Record(1, true, {}, {}), Writer(Ref("vm", 1), Some(Ref("vm", 1)), {}));
    var next, selected :=
      PublishAndSelect(first, one, Record(1, true, {}, {}), Writer(Ref("vm", 1), Some(Ref("vm", 1)), {}),
                                           Numbered(2, {1, 2}), true);
    assert Record(1, true, {}, {}).Selecting(Ref("vm", 2), true) == Record(2, true, {}, {2});
    hide Apply, Enabled;
    worlds, actions := [Empty(), first, next, selected], [create, publish, select];
  }

  lemma ReachThreePublished() returns (worlds: seq<World>, actions: seq<Action>)
    ensures IsRun(worlds, actions) && ThreePublished(worlds[|actions|])
  {
    worlds, actions := ReachTwoPublished();
    var w := worlds[|actions|];
    var publish, select := Publish("vm", Numbered(3, {1, 2, 3})), Select("vm", Ref("vm", 3), false);
    assert Enabled(w, publish) by {
      hide Named;
      NumberedNames(2, {1, 2});
      NumberedNames(3, {1, 2, 3});
    }
    hide Apply, Enabled, Numbered, FirstTwo;
    var next, selected :=
      PublishAndSelect(w, FirstTwo(), Record(2, true, {}, {2}), Writer(Ref("vm", 2), Some(Ref("vm", 2)), {}),
                                           Numbered(3, {1, 2, 3}), false);
    Then(worlds, actions, publish);
    worlds, actions := worlds + [next], actions + [publish];
    Then(worlds, actions, select);
    worlds, actions := worlds + [selected], actions + [select];
  }

  /** 4 names nothing older and its selection lands unseen, so the writer still publishes over 3. */
  ghost predicate Behind(w: World) {
    Stands(w, FirstTwo()[Ref("vm", 3) := Numbered(3, {1, 2, 3})][Ref("vm", 4) := Numbered(4, {4})],
           Record(4, true, {}, {2}),
           Writer(Ref("vm", 3), Some(Ref("vm", 3)), {}))
  }

  lemma FallBehind(w: World) returns (next: World, behind: World)
    requires ThreePublished(w)
    ensures var publish, selectUnseen := Publish("vm", Numbered(4, {4})), SelectUnseen("vm", Ref("vm", 4), false);
      && Enabled(w, publish) && next == Apply(w, publish)
      && Enabled(next, selectUnseen) && behind == Apply(next, selectUnseen) && Behind(behind)
  {
    hide Named;
    NumberedNames(3, {1, 2, 3});
    NumberedNames(4, {4});
    next := Apply(w, Publish("vm", Numbered(4, {4})));
    behind := Apply(next, SelectUnseen("vm", Ref("vm", 4), false));
    assert behind.control.records == map["vm" := Record(4, true, {}, {2})];
    assert behind.control.writers == map["vm" := Writer(Ref("vm", 3), Some(Ref("vm", 3)), {})];
  }

  /** Releasing 2 then sweeps 1, which 3 names. */
  lemma BehindLosesPages(w: World) returns (dead: set<Ref>)
    requires Behind(w)
    ensures Enabled(w, Release("vm", 2))
    ensures Enabled(Apply(w, Release("vm", 2)), Delete(dead, Ref("vm", 1)))
    ensures !Safe(Apply(Apply(w, Release("vm", 2)), Delete(dead, Ref("vm", 1))))
  {
    hide Named, DeadBy;
    NumberedNames(3, {1, 2, 3});
    var released := Apply(w, Release("vm", 2));
    assert released.control.records["vm"].Protected() == {};
    dead := DeadBy(w.published, Numbered(2, {1, 2}), Numbered(4, {4}), {});
    FirstIsSwept(w.published);
    var after := Apply(released, Delete(dead, Ref("vm", 1)));
    assert after.control.Written("vm", Ref("vm", 3)) && Ref("vm", 1) in Reaches(after.published, Ref("vm", 3));
  }

  lemma FirstIsSwept(published: map<Ref, Index>)
    ensures Ref("vm", 1) in DeadBy(published, Numbered(2, {1, 2}), Numbered(4, {4}), {})
  {
    hide Named;
    NumberedNames(2, {1, 2});
    NumberedNames(4, {4});
  }

  /** Without the condition on releases, a run loses a checkpoint that a writer's own index names. */
  lemma ReleaseBehindAWriterLosesPages()
    ensures exists worlds, actions :: IsRun(worlds, actions) && !Safe(worlds[|actions|])
  {
    hide Enabled, Apply, Safe, ThreePublished, Behind;
    var before, first := ReachThreePublished();
    var next, behind := FallBehind(before[|first|]);
    var dead := BehindLosesPages(behind);
    var release, delete := Release("vm", 2), Delete(dead, Ref("vm", 1));
    var released := Apply(behind, release);
    var worlds := before + [next, behind, released, Apply(released, delete)];
    var actions := first + [Publish("vm", Numbered(4, {4})), SelectUnseen("vm", Ref("vm", 4), false), release, delete];
    assert IsRun(worlds, actions) && !Safe(worlds[|actions|]);
  }
}
