/** A VM's control record and every change that is ever made to one.

Records are values: a change builds the next record from the current one, and the
protocol writes it under a condition on the current one. So what a change may do to a
record, stated here, is what may happen to the stored record between two instants.

A nonce and a disk identity are numbers; zero is the identity of no disk.
*/
module ControlRecords {
  import opened Refs

  type Nonce = nat

  const MAXIMUM_PINS := 4096
  const MAXIMUM_KEPT := 4096
  const MAXIMUM_JOURNALS := 2
  const MINIMUM_EPOCH := 1
  const MAXIMUM_CREATE_EPOCH := 0x7fff_ffff
  const MAXIMUM_EPOCH := 0xffff_ffff
  const MAXIMUM_COUNTER := 0xffff_ffff
  const EPOCH_UNIT := 0x1_0000_0000

  // ------------------------------------------------------------------- sequences

  /** A checkpoint sequence: the epoch that allocated it in the high half, a counter in the low one. */
  function Sequence(epoch: nat, counter: nat): (sequence: nat)
    requires epoch <= MAXIMUM_EPOCH && counter <= MAXIMUM_COUNTER
    ensures EpochOf(sequence) == epoch && CounterOf(sequence) == counter
    ensures sequence < EPOCH_UNIT * EPOCH_UNIT
  {
    epoch * EPOCH_UNIT + counter
  }

  function EpochOf(sequence: nat): nat { sequence / EPOCH_UNIT }

  function CounterOf(sequence: nat): nat { sequence % EPOCH_UNIT }

  predicate ValidSequence(epoch: nat, sequence: nat) {
    MINIMUM_EPOCH <= epoch <= MAXIMUM_EPOCH && EpochOf(sequence) == epoch && CounterOf(sequence) >= 1
  }

  predicate ValidCreateSequence(sequence: nat) {
    EpochOf(sequence) <= MAXIMUM_CREATE_EPOCH && ValidSequence(EpochOf(sequence), sequence)
  }

  /** A fenced writer and its successor never allocate the same sequence: all of the successor's are higher. */
  lemma LaterEpochsAllocateHigher(earlier: nat, later: nat, s: nat, t: nat)
    requires earlier < later && ValidSequence(earlier, s) && ValidSequence(later, t)
    ensures s < t
  {
    assert s < (earlier + 1) * EPOCH_UNIT <= later * EPOCH_UNIT <= t;
  }

  // --------------------------------------------------------------------- records

  datatype Kept = Kept(sequence: nat, time: int, state: bool)

  datatype Journal = Journal(disk: nat, generation: nat, epoch: nat, covered: nat)

  /** A strictly ascending list of checkpoint sequences, none of them zero. */
  ghost predicate AscendingSequences(s: seq<nat>) {
    && (forall i :: 0 <= i < |s| ==> s[i] != 0)
    && (forall i, j :: 0 <= i < j < |s| ==> s[i] < s[j])
  }

  /** Where a sequence goes in a list: before the first higher one. */
  function PlaceOf(s: seq<nat>, x: nat): (at: nat)
    ensures at <= |s|
    ensures forall i :: 0 <= i < at ==> s[i] <= x
    ensures at < |s| ==> x < s[at]
  {
    if s == [] || x < s[0] then 0 else 1 + PlaceOf(s[1..], x)
  }

  function Insert<T>(s: seq<T>, at: nat, x: T): seq<T>
    requires at <= |s|
  {
    s[..at] + [x] + s[at..]
  }

  lemma InsertMembers<T>(s: seq<T>, at: nat, x: T)
    requires at <= |s|
    ensures forall y :: y in Insert(s, at, x) <==> y in s || y == x
  {
    assert s == s[..at] + s[at..];
    assert Insert(s, at, x)[at] == x;
  }

  lemma InsertAt(s: seq<nat>, at: nat, x: nat, i: nat, j: nat)
    requires AscendingSequences(s) && at <= |s|
    requires at > 0 ==> s[at - 1] < x
    requires at < |s| ==> x < s[at]
    requires i < j <= |s|
    ensures Insert(s, at, x)[i] < Insert(s, at, x)[j]
  {
  }

  lemma InsertAscends(s: seq<nat>, x: nat)
    requires AscendingSequences(s) && x != 0 && x !in s
    ensures AscendingSequences(Insert(s, PlaceOf(s, x), x))
    ensures forall y :: y in Insert(s, PlaceOf(s, x), x) <==> y in s || y == x
  {
    var at := PlaceOf(s, x);
    InsertMembers(s, at, x);
    var t := Insert(s, at, x);
    forall i, j | 0 <= i < j < |t|
      ensures t[i] < t[j]
    {
      InsertAt(s, at, x, i, j);
    }
    forall i | 0 <= i < |t|
      ensures t[i] != 0
    {
      assert t[i] in t;
    }
  }

  function Sequences(kept: seq<Kept>): seq<nat> { seq(|kept|, i requires 0 <= i < |kept| => kept[i].sequence) }

  function Without(kept: seq<Kept>, sequence: nat): (rest: seq<Kept>)
    ensures |rest| <= |kept|
    ensures forall k :: k in rest <==> k in kept && k.sequence != sequence
  {
    if kept == [] then []
    else if kept[0].sequence == sequence then Without(kept[1..], sequence)
    else [kept[0]] + Without(kept[1..], sequence)
  }

  lemma {:induction false} WithoutAscends(kept: seq<Kept>, sequence: nat)
    requires AscendingSequences(Sequences(kept))
    ensures AscendingSequences(Sequences(Without(kept, sequence)))
  {
    if kept != [] {
      var tail := kept[1..];
      assert forall i :: 0 <= i < |tail| ==> Sequences(tail)[i] == Sequences(kept)[i + 1];
      WithoutAscends(tail, sequence);
      assert Sequences(kept)[0] != 0;
      if kept[0].sequence != sequence { FirstAscends(kept, Without(tail, sequence)); }
    }
  }

  /** An ascending list's first, before an ascending list of some of the others. */
  lemma FirstAscends(kept: seq<Kept>, rest: seq<Kept>)
    requires kept != [] && AscendingSequences(Sequences(kept)) && AscendingSequences(Sequences(rest))
    requires forall k :: k in rest ==> k in kept[1..]
    ensures AscendingSequences(Sequences([kept[0]] + rest))
  {
    forall i | 0 <= i < |rest|
      ensures kept[0].sequence < rest[i].sequence
    {
      assert rest[i] in kept[1..];
      var j :| 0 <= j < |kept[1..]| && kept[1..][j] == rest[i];
      assert Sequences(kept)[0] < Sequences(kept)[j + 1];
    }
    var all := Sequences([kept[0]] + rest);
    assert Sequences(kept)[0] != 0;
    assert forall i :: 0 < i < |all| ==> all[i] == Sequences(rest)[i - 1] == rest[i - 1].sequence;
  }

  datatype Record = Record(
    epoch: nat,
    nonce: Nonce,
    selected: nat,
    created: bool,
    pinned: seq<nat>,
    kept: seq<Kept>,
    journals: seq<Journal>)
  {
    predicate IsPinned(sequence: nat) { sequence in pinned }

    predicate IsKept(sequence: nat) { sequence in Sequences(kept) }

    predicate Mine(epoch: nat, nonce: Nonce) { this.epoch == epoch && this.nonce == nonce }

    /** One more pin fits. */
    predicate Admits(sequence: nat) { IsPinned(sequence) || |pinned| < MAXIMUM_PINS }

    function WithPin(sequence: nat): Record {
      if IsPinned(sequence) then this else this.(pinned := Insert(pinned, PlaceOf(pinned, sequence), sequence))
    }

    function WithKept(keep: Kept): Record {
      if IsKept(keep.sequence) then this
      else this.(kept := Insert(kept, PlaceOf(Sequences(kept), keep.sequence), keep))
    }

    predicate ValidJournals() {
      && |journals| <= MAXIMUM_JOURNALS
      && (forall i :: 0 <= i < |journals| ==>
            journals[i].disk != 0 && MINIMUM_EPOCH <= journals[i].epoch <= epoch)
      && (forall i :: 0 < i < |journals| ==> journals[i - 1].epoch < journals[i].epoch)
    }

    /** A record this deployment could have written; the store refuses to be handed any other. */
    ghost predicate Valid() {
      && MINIMUM_EPOCH <= epoch <= MAXIMUM_EPOCH
      && selected != 0
      && |pinned| <= MAXIMUM_PINS && |kept| <= MAXIMUM_KEPT
      && AscendingSequences(pinned) && AscendingSequences(Sequences(kept))
      && ValidJournals()
    }
  }

  // --------------------------------------------------------------------- changes

  datatype Change =
    /** A takeover: the next epoch, only the one after a given epoch when that is not zero, with a migration's
        journal. */
    | Opening(nonce: Nonce, after: nat, joining: Option<Journal>)
    /** The writer selects a checkpoint, and may keep it in the same write. */
    | Selecting(sequence: nat, keep: Option<Kept>, journals: seq<Journal>)
    /** The writer pins a checkpoint for a fork. */
    | Forking(sequence: nat)
    /** A pin made without the epoch; zero is the checkpoint the record selects. */
    | Pinning(sequence: nat)
    /** A kept checkpoint given up, without the epoch. */
    | Releasing(sequence: nat)

  datatype Refusal =
    | Moved | EpochExhausted | TooManyJournals | InvalidSequence | TooManyKept | InvalidJournals
    | NotPublished | TooManyPins | NotKept | Forked

  datatype Answer = Write(next: Record) | Nothing | Refuse(why: Refusal)

  /** What a call does about the record it has. */
  function Answered(change: Change, current: Record): Answer {
    match change
    case Opening(nonce, after, joining) =>
      if after != 0 && current.epoch != after then Refuse(Moved)
      else if current.epoch >= MAXIMUM_EPOCH then Refuse(EpochExhausted)
      else if joining.Some? && |current.journals| >= MAXIMUM_JOURNALS then Refuse(TooManyJournals)
      else
        var next := current.(epoch := current.epoch + 1, nonce := nonce);
        Write(if joining.None? then next
              else next.(journals := current.journals + [joining.value.(epoch := current.epoch + 1)]))
    case Selecting(sequence, keep, journals) =>
      if !ValidSequence(current.epoch, sequence) && sequence != current.selected then Refuse(InvalidSequence)
      else if sequence < current.selected then Refuse(InvalidSequence)
      else if keep.Some? && !current.IsKept(keep.value.sequence) && |current.kept| >= MAXIMUM_KEPT
        then Refuse(TooManyKept)
      else
        var keeping := if keep.Some? then current.WithKept(keep.value) else current;
        var next := keeping.(selected := sequence, created := true, journals := journals);
        if !next.ValidJournals() then Refuse(InvalidJournals)
        else if next == current then Nothing
        else Write(next)
    case Forking(sequence) =>
      if sequence == 0 then Refuse(InvalidSequence)
      else if !current.Admits(sequence) then Refuse(TooManyPins)
      else if current.IsPinned(sequence) then Nothing
      else Write(current.WithPin(sequence))
    case Pinning(sequence) =>
      var wanted := Wanted(sequence, current);
      if current.IsPinned(wanted) then Nothing
      else if (wanted != current.selected || !current.created) && !current.IsKept(wanted) then Refuse(NotPublished)
      else if !current.Admits(wanted) then Refuse(TooManyPins)
      else Write(current.WithPin(wanted))
    case Releasing(sequence) =>
      if !current.IsKept(sequence) then Refuse(NotKept)
      else if current.IsPinned(sequence) then Refuse(Forked)
      else Write(current.(kept := Without(current.kept, sequence)))
  }

  function Wanted(sequence: nat, current: Record): nat { if sequence == 0 then current.selected else sequence }

  /** A call's own arguments are checked before it begins. */
  predicate Asked(change: Change) {
    match change
    case Opening(_, _, joining) => joining.Some? ==> joining.value.disk != 0 && joining.value.epoch == 0
    case Selecting(sequence, keep, _) => keep.Some? ==> keep.value.sequence == sequence
    case Forking(_) => true
    case Pinning(_) => true
    case Releasing(sequence) => sequence != 0
  }

  /** What a record may become in one write. */
  ghost predicate Evolves(a: Record, b: Record) {
    && a.epoch <= b.epoch <= a.epoch + 1
    && (a.epoch == b.epoch ==> a.nonce == b.nonce)
    && a.selected <= b.selected
    && (a.created ==> b.created)
    && (forall s :: s in a.pinned ==> s in b.pinned)
    // Only the checkpoint a write selects becomes kept, and only an unforked one stops being.
    && (forall s :: b.IsKept(s) && !a.IsKept(s) ==> s == b.selected)
    && (forall s :: a.IsKept(s) && !b.IsKept(s) ==> !b.IsPinned(s))
  }

  lemma InsertKept(kept: seq<Kept>, keep: Kept)
    requires AscendingSequences(Sequences(kept)) && keep.sequence != 0 && keep.sequence !in Sequences(kept)
    ensures var more := Insert(kept, PlaceOf(Sequences(kept), keep.sequence), keep);
      && AscendingSequences(Sequences(more))
      && |more| == |kept| + 1
      && forall s :: s in Sequences(more) <==> s in Sequences(kept) || s == keep.sequence
  {
    var sequences := Sequences(kept);
    var at := PlaceOf(sequences, keep.sequence);
    InsertAscends(sequences, keep.sequence);
    assert Sequences(Insert(kept, at, keep)) == Insert(sequences, at, keep.sequence);
  }

  lemma WithoutKept(kept: seq<Kept>, sequence: nat)
    ensures forall s :: s in Sequences(Without(kept, sequence)) <==> s in Sequences(kept) && s != sequence
  {
    var rest := Without(kept, sequence);
    forall s | s in Sequences(rest)
      ensures s in Sequences(kept) && s != sequence
    {
      var i :| 0 <= i < |rest| && rest[i].sequence == s;
      assert rest[i] in kept;
      var j :| 0 <= j < |kept| && kept[j] == rest[i];
      assert Sequences(kept)[j] == s;
    }
    forall s | s in Sequences(kept) && s != sequence
      ensures s in Sequences(rest)
    {
      var i :| 0 <= i < |kept| && kept[i].sequence == s;
      assert kept[i] in rest;
      var j :| 0 <= j < |rest| && rest[j] == kept[i];
      assert Sequences(rest)[j] == s;
    }
  }

  lemma PinKeepsValid(current: Record, sequence: nat)
    requires current.Valid() && sequence != 0 && !current.IsPinned(sequence) && current.Admits(sequence)
    ensures current.WithPin(sequence).Valid()
    ensures forall s :: current.WithPin(sequence).IsPinned(s) <==> current.IsPinned(s) || s == sequence
  {
    InsertAscends(current.pinned, sequence);
  }

  lemma OpenKeepsValid(current: Record, change: Change)
    requires change.Opening? && current.Valid() && Asked(change) && Answered(change, current).Write?
    ensures Answered(change, current).next.Valid() && Evolves(current, Answered(change, current).next)
  {
    var next := Answered(change, current).next;
    assert forall i :: 0 <= i < |current.journals| ==> next.journals[i] == current.journals[i];
  }

  lemma SelectKeepsValid(current: Record, change: Change)
    requires change.Selecting? && current.Valid() && Asked(change) && Answered(change, current).Write?
    ensures Answered(change, current).next.Valid() && Evolves(current, Answered(change, current).next)
  {
    var Selecting(sequence, keep, journals) := change;
    if keep.Some? && !current.IsKept(sequence) { InsertKept(current.kept, keep.value); }
  }

  lemma ForkKeepsValid(current: Record, sequence: nat)
    requires current.Valid() && Answered(Forking(sequence), current).Write?
    ensures current.WithPin(sequence).Valid() && Evolves(current, current.WithPin(sequence))
  {
    PinKeepsValid(current, sequence);
  }

  /** A pin without the epoch is of what the record selects, or keeps. */
  lemma PinningKeepsValid(current: Record, sequence: nat)
    requires current.Valid() && Answered(Pinning(sequence), current).Write?
    ensures var wanted := Wanted(sequence, current);
      && wanted != 0 && !current.IsPinned(wanted) && (wanted == current.selected || current.IsKept(wanted))
      && current.WithPin(wanted).Valid() && Evolves(current, current.WithPin(wanted))
  {
    var wanted := Wanted(sequence, current);
    if current.IsKept(wanted) { assert wanted != 0; }
    PinKeepsValid(current, wanted);
  }

  lemma ReleaseKeepsValid(current: Record, sequence: nat)
    requires current.Valid() && Answered(Releasing(sequence), current).Write?
    ensures var next := current.(kept := Without(current.kept, sequence));
      next.Valid() && Evolves(current, next)
  {
    WithoutAscends(current.kept, sequence);
    WithoutKept(current.kept, sequence);
  }

  /** Every change of a valid record writes a valid one, so the encoder never refuses a write. It is a record the
      current one may become: epochs and selections never go down, a selection is never of a later epoch than the
      record's, and no pin is lost. */
  lemma ChangesAreValid(change: Change, current: Record)
    requires current.Valid() && Asked(change) && Answered(change, current).Write?
    ensures var next := Answered(change, current).next;
      && next.Valid() && Evolves(current, next)
      && (EpochOf(current.selected) <= current.epoch ==> EpochOf(next.selected) <= next.epoch)
  {
    hide Record.Valid, Evolves, Without;
    match change
    case Opening(nonce, after, joining) => OpenKeepsValid(current, change);
    case Selecting(sequence, keep, journals) => SelectKeepsValid(current, change);
    case Forking(sequence) => ForkKeepsValid(current, sequence);
    case Pinning(sequence) => PinningKeepsValid(current, sequence);
    case Releasing(sequence) => ReleaseKeepsValid(current, sequence);
  }

  /** A change made again over what it wrote writes nothing: a reply that was lost can be settled by repeating it. */
  lemma ChangesSettle(change: Change, current: Record)
    requires current.Valid() && Asked(change) && Answered(change, current).Write?
    requires change.Selecting? || change.Forking? || change.Pinning?
    ensures Answered(change, Answered(change, current).next) == Nothing
  {
    var next := Answered(change, current).next;
    match change
    case Selecting(sequence, keep, journals) =>
      if keep.Some? && !current.IsKept(sequence) { InsertKept(current.kept, keep.value); }
    case Forking(sequence) => PinKeepsValid(current, sequence);
    case Pinning(sequence) =>
      var wanted := Wanted(sequence, current);
      if current.IsKept(wanted) { assert wanted != 0; }
      PinKeepsValid(current, wanted);
  }

  /** A release made again is refused: the checkpoint is no longer kept. */
  lemma ReleasesOnce(sequence: nat, current: Record)
    requires Answered(Releasing(sequence), current).Write?
    ensures Answered(Releasing(sequence), Answered(Releasing(sequence), current).next) == Refuse(NotKept)
  {
    WithoutKept(current.kept, sequence);
  }
}
