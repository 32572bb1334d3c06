/** The control record protocol of one VM, over a store that loses replies.

The record is one object. Every write of it is conditional on the validator of the
record it was made from, and a create on there being no object. A write that was sent
may land at once, late, again, or never; a call is told that its write landed only
when it did, but it may be told of a refusal or a failure whatever happened. So a call
that is not told reads the record back and compares.

Validators may repeat, as content hashes do, but only for equal records.

The run is one life of the record: it ends with its removal, and calls and handles
are never forgotten.
*/
module ControlProtocol {
  import opened Refs
  import opened ControlRecords

  type ETag = nat

  // ----------------------------------------------------------------------- store

  /** One record the object has been, with the change that wrote it; a creation has none. */
  datatype Version = Version(record: Record, change: Option<Change>)

  datatype Object = Object(record: Record, etag: ETag)

  /** A write that was sent, at an instant of the record's history. */
  datatype Put = Put(expected: Option<ETag>, version: Version, sentAt: nat)

  datatype Landing = Landing(put: nat, etag: ETag, at: nat)

  /** A removal that was sent, conditional on the record read at an instant. */
  datatype Deletion = Deletion(etag: ETag, at: nat)

  datatype Store = Store(
    stored: Option<Object>,
    history: seq<Version>,
    tags: map<ETag, Record>,
    puts: seq<Put>,
    landed: set<Landing>,
    deletes: seq<Deletion>,
    gone: Option<nat>)
  {
    /** The instant of the record now stored. */
    function Now(): nat { if history == [] then 0 else |history| - 1 }

    ghost predicate CanLand(p: nat, etag: ETag) {
      && p < |puts|
      && (match puts[p].expected
          case None => history == []
          case Some(expected) => stored.Some? && stored.value.etag == expected)
      && (etag in tags ==> tags[etag] == puts[p].version.record)
    }

    ghost function Land(p: nat, etag: ETag): Store
      requires CanLand(p, etag)
    {
      var version := puts[p].version;
      this.(stored := Some(Object(version.record, etag)),
            history := history + [version],
            tags := tags[etag := version.record],
            landed := landed + {Landing(p, etag, |history|)})
    }

    ghost predicate CanDelete(d: nat) {
      d < |deletes| && stored.Some? && stored.value.etag == deletes[d].etag
    }

    ghost function Delete(d: nat): Store
      requires CanDelete(d)
    {
      this.(stored := None, gone := Some(d))
    }

    function Send(expected: Option<ETag>, version: Version): Store {
      this.(puts := puts + [Put(expected, version, |history|)])
    }
  }

  // --------------------------------------------------------------------- handles

  /** One writer's hold on the record at one epoch. */
  datatype Handle = Handle(epoch: nat, nonce: Nonce, record: Record, etag: ETag, fenced: bool, closed: bool) {
    function Settle(record: Record, etag: ETag): Handle { this.(record := record, etag := etag) }

    function Fence(etag: ETag): Handle { this.(fenced := true, etag := etag) }
  }

  function NewHandle(record: Record, etag: ETag): Handle {
    Handle(record.epoch, record.nonce, record, etag, false, false)
  }

  datatype Verdict = Landed | NotWritten | Adopted | TakenOver

  /** What the record read back says of a write whose reply the handle did not see. */
  function VerdictOn(handle: Handle, next: Record, observed: Record): Verdict {
    if observed == next then Landed
    else if observed == handle.record then NotWritten
    else if observed.Mine(handle.epoch, next.nonce) then Adopted
    else TakenOver
  }

  function Reconciled(handle: Handle, next: Record, observed: Object): Handle {
    if VerdictOn(handle, next, observed.record) == TakenOver then handle.Fence(observed.etag)
    else handle.Settle(observed.record, observed.etag)
  }

  // ----------------------------------------------------------------------- calls

  datatype Kind =
    | Create(nonce: Nonce, selected: nat, published: bool)
    | Unheld(change: Change)
    | Held(handle: nat, change: Change)
    | Remove

  datatype Error = Because(why: Refusal) | Exists | Fenced | Closed | NotFound | StoreFailed

  datatype Outcome =
    /** A handle at the epoch of a record the store held at an instant. */
    | Took(record: Record, at: nat)
    /** A change of a checkpoint, settled by a record the store held at an instant. */
    | Reported(record: Record, at: nat, wanted: nat)
    /** A change the handle's own record already has, and the instant at which this call read that record back, when
        it did. */
    | Tracked(record: Record, read: Option<nat>)
    | Removed(record: Record)
    | Failed(error: Error)

  datatype Phase =
    /** About to try. A writer that adopted a record it read back has the instant it read it at. */
    | Ready(read: Option<nat>)
    | Sent(put: nat)
    | Unsure(put: nat)
    | Deleting(delete: nat, current: Record)
    | DeleteUnsure(delete: nat, current: Record)
    | Done(outcome: Outcome)

  /** A call, with what there was when it began: how many records the object had been, whether one was stored, and the
      record its handle had. */
  datatype Call = Call(kind: Kind, since: nat, live: bool, had: Option<Record>, phase: Phase)

  datatype World = World(store: Store, calls: map<nat, Call>, handles: map<nat, Handle>) {
    function With(id: nat, phase: Phase): World
      requires id in calls
    {
      this.(calls := calls[id := calls[id].(phase := phase)])
    }

    function WithHandle(id: nat, handle: Handle): World { this.(handles := handles[id := handle]) }

    function WithStore(store: Store): World { this.(store := store) }
  }

  function FirstRecord(nonce: Nonce, selected: nat, published: bool): Record {
    Record(EpochOf(selected), nonce, selected, published, [], [], [])
  }

  /** The nonce a call drew, when it may take an epoch. */
  function DrawnBy(kind: Kind): Option<Nonce> {
    match kind
    case Create(nonce, _, _) => Some(nonce)
    case Unheld(Opening(nonce, _, _)) => Some(nonce)
    case _ => None
  }

  predicate WellAsked(kind: Kind) {
    match kind
    case Create(_, selected, _) => ValidCreateSequence(selected)
    case Unheld(change) => Asked(change) && (change.Opening? || change.Pinning? || change.Releasing?)
    case Held(_, change) => Asked(change) && (change.Selecting? || change.Forking?)
    case Remove => true
  }

  /** The checkpoint a change is about, given the record it was made from. */
  function About(change: Change, current: Record): nat {
    match change
    case Opening(_, _, _) => 0
    case Selecting(sequence, _, _) => sequence
    case Forking(sequence) => sequence
    case Pinning(sequence) => Wanted(sequence, current)
    case Releasing(sequence) => sequence
  }

  datatype Action =
    | Begin(id: nat, kind: Kind)
    | Try(id: nat)
    | Arrive(put: nat, etag: ETag)
    | Reply(id: nat, landing: Landing)
    | Decline(id: nat)
    | Lose(id: nat)
    | ReadBack(id: nat)
    | GiveUp(id: nat)
    | Close(id: nat)
    | Erase(delete: nat)
    | Erased(id: nat)

  ghost predicate CanBegin(w: World, id: nat, kind: Kind) {
    && id !in w.calls && WellAsked(kind)
    // Nonces are drawn once.
    && (DrawnBy(kind).Some? ==> forall other :: other in w.calls ==> DrawnBy(w.calls[other].kind) != DrawnBy(kind))
    // A handle's writes take turns.
    && (kind.Held? ==>
          && kind.handle in w.handles
          && forall other :: other in w.calls && !w.calls[other].phase.Done? ==>
               !(w.calls[other].kind.Held? && w.calls[other].kind.handle == kind.handle))
    // One call removes a VM.
    && (kind.Remove? ==> forall other :: other in w.calls ==> !w.calls[other].kind.Remove?)
  }

  ghost predicate Enabled(w: World, a: Action) {
    match a
    case Begin(id, kind) => CanBegin(w, id, kind)
    case Try(id) =>
      id in w.calls && w.calls[id].phase.Ready? && (w.calls[id].kind.Held? ==> w.calls[id].kind.handle in w.handles)
    case Arrive(put, etag) => w.store.CanLand(put, etag)
    case Reply(id, landing) =>
      id in w.calls && w.calls[id].phase.Sent? && landing in w.store.landed && landing.put == w.calls[id].phase.put
    case Decline(id) => id in w.calls && (w.calls[id].phase.Sent? || w.calls[id].phase.Deleting?)
    case Lose(id) => id in w.calls && (w.calls[id].phase.Sent? || w.calls[id].phase.Deleting?)
    case ReadBack(id) => id in w.calls && (w.calls[id].phase.Unsure? || w.calls[id].phase.DeleteUnsure?)
    case GiveUp(id) => id in w.calls && !w.calls[id].phase.Done?
    case Close(id) => id in w.handles
    case Erase(delete) => w.store.CanDelete(delete)
    case Erased(id) =>
      id in w.calls && w.calls[id].phase.Deleting? && w.store.gone == Some(w.calls[id].phase.delete)
  }

  /** A call's read of the record, or of its handle's copy, and the write it sends. A write may land at any later
      instant, so sending it in the same step loses nothing. */
  ghost function Tried(w: World, id: nat): World
    requires Enabled(w, Try(id))
  {
    match w.calls[id].kind
    case Create(nonce, selected, published) =>
      w.WithStore(w.store.Send(None, Version(FirstRecord(nonce, selected, published), None))).With(id,
          Sent(|w.store.puts|))
    case Unheld(change) =>
      if w.store.stored.None? then w.With(id, Done(Failed(NotFound)))
      else
        var found := w.store.stored.value;
        (match Answered(change, found.record)
         case Refuse(why) => w.With(id, Done(Failed(Because(why))))
         case Nothing => w.With(id, Done(Reported(found.record, w.store.Now(), About(change, found.record))))
         case Write(next) =>
           w.WithStore(w.store.Send(Some(found.etag), Version(next, Some(change)))).With(id, Sent(|w.store.puts|)))
    case Held(h, change) =>
      var handle := w.handles[h];
      if handle.fenced then w.With(id, Done(Failed(Fenced)))
      else if handle.closed then w.With(id, Done(Failed(Closed)))
      else
        (match Answered(change, handle.record)
         case Refuse(why) => w.With(id, Done(Failed(Because(why))))
         case Nothing => w.With(id, Done(Tracked(handle.record, w.calls[id].phase.read)))
         case Write(next) =>
           w.WithStore(w.store.Send(Some(handle.etag), Version(next, Some(change)))).With(id, Sent(|w.store.puts|)))
    case Remove =>
      if w.store.stored.None? then w.With(id, Done(Failed(NotFound)))
      else
        var found := w.store.stored.value;
        w.WithStore(w.store.(deletes := w.store.deletes + [Deletion(found.etag, w.store.Now())]))
         .With(id, Deleting(|w.store.deletes|, found.record))
  }

  /** The record a write was made from. */
  ghost function Before(s: Store, p: nat): Record
    requires p < |s.puts| && s.puts[p].expected.Some? && s.puts[p].expected.value in s.tags
  {
    s.tags[s.puts[p].expected.value]
  }

  ghost function AboutPut(s: Store, p: nat): nat
    requires p < |s.puts|
  {
    var put := s.puts[p];
    if put.version.change.Some? && put.expected.Some? && put.expected.value in s.tags
    then About(put.version.change.value, Before(s, p)) else 0
  }

  ghost function Replied(w: World, id: nat, landing: Landing): World
    requires Enabled(w, Reply(id, landing))
  {
    var kind := w.calls[id].kind;
    if landing.put >= |w.store.puts| then w
    else
      var record := w.store.puts[landing.put].version.record;
      var reported := Done(Reported(record, landing.at, AboutPut(w.store, landing.put)));
      if DrawnBy(kind).Some? then
        w.WithHandle(id, NewHandle(record, landing.etag)).With(id, Done(Took(record, landing.at)))
      else if kind.Held? && kind.handle in w.handles then
        w.WithHandle(kind.handle, w.handles[kind.handle].Settle(record, landing.etag)).With(id, reported)
      else w.With(id, reported)
  }

  /** A refusal sends a call without a handle back to read again; a create and a writer read what refused them. */
  ghost function Declined(w: World, id: nat): World
    requires Enabled(w, Decline(id))
  {
    if w.calls[id].phase.Deleting? || w.calls[id].kind.Unheld? then w.With(id, Ready(None))
    else w.With(id, Unsure(w.calls[id].phase.put))
  }

  ghost function Lost(w: World, id: nat): World
    requires Enabled(w, Lose(id))
  {
    match w.calls[id].phase
    case Deleting(delete, current) => w.With(id, DeleteUnsure(delete, current))
    case Sent(put) => w.With(id, Unsure(put))
  }

  /** A write whose fate the call does not know, and the record it reads back. */
  ghost function Settled(w: World, id: nat, p: nat, observed: Object): World
    requires id in w.calls && p < |w.store.puts|
  {
    var s, kind := w.store, w.calls[id].kind;
    var put := s.puts[p];
    var next := put.version.record;
    var at := s.Now();
    var again := if put.expected.Some? && put.expected.value in s.tags && observed.record != Before(s, p)
                 then Ready(None) else Done(Failed(StoreFailed));
    match kind
    case Create(nonce, _, _) =>
      if observed.record.Mine(next.epoch, nonce)
      then w.WithHandle(id, NewHandle(observed.record, observed.etag)).With(id, Done(Took(observed.record, at)))
      else w.With(id, Done(Failed(Exists)))
    case Unheld(Opening(nonce, _, _)) =>
      if observed.record.Mine(next.epoch, nonce)
      then w.WithHandle(id, NewHandle(observed.record, observed.etag)).With(id, Done(Took(observed.record, at)))
      else w.With(id, if observed.record.epoch >= next.epoch then Ready(None) else Done(Failed(StoreFailed)))
    case Unheld(Releasing(sequence)) =>
      w.With(id, if !observed.record.IsKept(sequence) then Done(Reported(observed.record, at, sequence)) else again)
    case Unheld(_) =>
      w.With(id, if observed.record.IsPinned(AboutPut(s, p)) then Done(Reported(observed.record, at, AboutPut(s, p)))
                 else again)
    case Held(h, _) =>
      if h !in w.handles then w
      else
        var phase := match VerdictOn(w.handles[h], next, observed.record)
          case Landed => Done(Reported(observed.record, at, AboutPut(s, p)))
          case NotWritten => Done(Failed(StoreFailed))
          case Adopted => Ready(Some(at))
          case TakenOver => Done(Failed(Fenced));
        w.WithHandle(h, Reconciled(w.handles[h], next, observed)).With(id, phase)
    case Remove => w
  }

  ghost function ReadingBack(w: World, id: nat): World
    requires Enabled(w, ReadBack(id))
  {
    match w.calls[id].phase
    case Unsure(p) =>
      if w.store.stored.None? then w.With(id, Done(Failed(NotFound)))
      else if p < |w.store.puts| then Settled(w, id, p, w.store.stored.value)
      else w
    case DeleteUnsure(d, current) =>
      if w.store.stored.None? then w.With(id, Done(Removed(current)))
      else if d < |w.store.deletes| && w.store.stored.value.etag == w.store.deletes[d].etag
      then w.With(id, Done(Failed(StoreFailed)))
      else w.With(id, Ready(None))
  }

  /** The record a writer's call starts from. */
  function HadBy(w: World, kind: Kind): Option<Record> {
    if kind.Held? && kind.handle in w.handles then Some(w.handles[kind.handle].record) else None
  }

  ghost function Apply(w: World, a: Action): World
    requires Enabled(w, a)
  {
    match a
    case Begin(id, kind) =>
      w.(calls := w.calls[id := Call(kind, |w.store.history|, w.store.stored.Some?, HadBy(w, kind), Ready(None))])
    case Try(id) => Tried(w, id)
    case Arrive(put, etag) => w.WithStore(w.store.Land(put, etag))
    case Reply(id, landing) => Replied(w, id, landing)
    case Decline(id) => Declined(w, id)
    case Lose(id) => Lost(w, id)
    case ReadBack(id) => ReadingBack(w, id)
    case GiveUp(id) => w.With(id, Done(Failed(StoreFailed)))
    case Close(id) => w.WithHandle(id, w.handles[id].(closed := true))
    case Erase(delete) => w.WithStore(w.store.Delete(delete))
    case Erased(id) => w.With(id, Done(Removed(w.calls[id].phase.current)))
  }

  // -------------------------------------------------------------- the history

  ghost predicate First(record: Record) {
    && record.Valid() && record.pinned == [] && record.kept == [] && record.journals == []
    && EpochOf(record.selected) == record.epoch
  }

  ghost predicate Linked(a: Version, b: Version) {
    && b.change.Some? && Asked(b.change.value)
    && Answered(b.change.value, a.record) == Write(b.record)
  }

  /** Each record was made from the one before it by one change. */
  ghost predicate Chain(history: seq<Version>) {
    && (history != [] ==> First(history[0].record))
    && (forall i :: 0 < i < |history| ==> Linked(history[i - 1], history[i]))
  }

  lemma {:induction false} ChainValid(history: seq<Version>, i: nat)
    requires Chain(history) && i < |history|
    ensures history[i].record.Valid() && EpochOf(history[i].record.selected) <= history[i].record.epoch
    decreases i
  {
    hide Answered, Record.Valid;
    if i > 0 {
      ChainValid(history, i - 1);
      ChangesAreValid(history[i].change.value, history[i - 1].record);
    } else {
      FirstIsValid(history[0].record);
    }
  }

  lemma FirstIsValid(record: Record)
    requires First(record)
    ensures record.Valid() && EpochOf(record.selected) <= record.epoch
  {
  }

  lemma ChainStep(history: seq<Version>, i: nat)
    requires Chain(history) && 0 < i < |history|
    ensures Evolves(history[i - 1].record, history[i].record)
  {
    hide Answered, Record.Valid, Evolves;
    ChainValid(history, i - 1);
    ChangesAreValid(history[i].change.value, history[i - 1].record);
  }

  /** What never goes back while the record lives. */
  ghost predicate Later(a: Record, b: Record) {
    && a.epoch <= b.epoch
    && (a.epoch == b.epoch ==> a.nonce == b.nonce)
    && a.selected <= b.selected
    && (a.created ==> b.created)
    && (forall s :: s in a.pinned ==> s in b.pinned)
  }

  lemma {:induction false} HistoryOnlyAdvances(history: seq<Version>, i: nat, j: nat)
    requires Chain(history) && i <= j < |history|
    ensures Later(history[i].record, history[j].record)
    decreases j
  {
    hide Chain, Record.IsKept;
    if i < j {
      HistoryOnlyAdvances(history, i, j - 1);
      ChainStep(history, j);
    }
  }

  /** A checkpoint that is neither kept nor selectable any more is never kept again: a release is final. */
  lemma {:induction false} ReleaseIsFinal(history: seq<Version>, i: nat, j: nat, s: nat)
    requires Chain(history) && i <= j < |history|
    requires !history[i].record.IsKept(s) && s < history[i].record.selected
    ensures !history[j].record.IsKept(s) && s < history[j].record.selected
    decreases j
  {
    hide Chain, Record.IsKept;
    if i < j {
      ReleaseIsFinal(history, i, j - 1, s);
      ChainStep(history, j);
    }
  }

  /** A kept checkpoint that a fork was taken from stays kept. */
  lemma {:induction false} ForkedStaysKept(history: seq<Version>, i: nat, j: nat, s: nat)
    requires Chain(history) && i <= j < |history|
    requires history[i].record.IsKept(s) && history[i].record.IsPinned(s)
    ensures history[j].record.IsKept(s) && history[j].record.IsPinned(s)
    decreases j
  {
    hide Chain, Record.IsKept;
    if i < j {
      ForkedStaysKept(history, i, j - 1, s);
      ChainStep(history, j);
    }
  }

  /** The writer itself pins a checkpoint that is not kept, within a stretch of the history. */
  ghost predicate WriterForks(history: seq<Version>, i: nat, j: nat, s: nat) {
    exists k :: i < k <= j < |history| && history[k].change == Some(Forking(s)) && !history[k - 1].record.IsKept(s)
  }

  /** Without the writer, a checkpoint is pinned only while it is kept or selected. */
  lemma PinNeedsKeep(history: seq<Version>, i: nat, s: nat)
    requires Chain(history) && 0 < i < |history|
    requires !history[i - 1].record.IsPinned(s) && history[i].record.IsPinned(s) && s < history[i - 1].record.selected
    ensures history[i].change == Some(Forking(s)) || history[i - 1].record.IsKept(s)
  {
    hide Record.Valid, Without, EpochOf, First;
    var a, b := history[i - 1].record, history[i].record;
    assert Linked(history[i - 1], history[i]);
    ChainValid(history, i - 1);
    match history[i].change.value
    case Opening(_, _, _) =>
    case Selecting(_, _, _) =>
    case Forking(sequence) => PinKeepsValid(a, sequence);
    case Pinning(sequence) =>
      PinningKeepsValid(a, sequence);
      PinKeepsValid(a, Wanted(sequence, a));
    case Releasing(_) =>
  }

  /** A checkpoint released and past is never pinned, unless the writer pins it itself. */
  lemma {:induction false} ReleasedIsNeverPinned(history: seq<Version>, i: nat, j: nat, s: nat)
    requires Chain(history) && i <= j < |history|
    requires !history[i].record.IsKept(s) && !history[i].record.IsPinned(s) && s < history[i].record.selected
    requires !WriterForks(history, i, j, s)
    ensures !history[j].record.IsPinned(s)
    decreases j
  {
    hide Chain, Record.IsKept;
    if i < j {
      assert !WriterForks(history, i, j - 1, s);
      ReleasedIsNeverPinned(history, i, j - 1, s);
      ReleaseIsFinal(history, i, j - 1, s);
      if history[j].record.IsPinned(s) {
        PinNeedsKeep(history, j, s);
      }
    }
  }

  /** While a checkpoint is neither released nor pinned it stays kept; the first of the two to happen decides. */
  lemma {:induction false} KeptUntil(history: seq<Version>, i: nat, j: nat, s: nat)
    requires Chain(history) && i <= j < |history|
    requires history[i].record.IsKept(s) && !history[i].record.IsPinned(s) && s < history[i].record.selected
    requires !WriterForks(history, i, j, s)
    ensures history[j].record.IsKept(s) || !history[j].record.IsPinned(s)
    decreases j
  {
    hide Chain, Record.IsKept;
    if i < j {
      assert !WriterForks(history, i, j - 1, s);
      KeptUntil(history, i, j - 1, s);
      HistoryOnlyAdvances(history, i, j - 1);
      ChainStep(history, j);
      if history[j].record.IsPinned(s) && !history[j - 1].record.IsPinned(s) {
        PinNeedsKeep(history, j, s);
      }
    }
  }

  /** A kept, unselected checkpoint is not both pinned and released, unless the writer pins it once it is released. */
  lemma PinAndReleaseExclude(history: seq<Version>, i: nat, pinnedAt: nat, releasedAt: nat, s: nat)
    requires Chain(history) && i <= pinnedAt < |history| && i <= releasedAt < |history|
    requires history[i].record.IsKept(s) && !history[i].record.IsPinned(s) && s < history[i].record.selected
    requires !WriterForks(history, i, |history| - 1, s)
    ensures !(history[pinnedAt].record.IsPinned(s) && !history[releasedAt].record.IsKept(s))
  {
    hide Chain, Record.IsKept, Record.IsPinned;
    assert !WriterForks(history, i, pinnedAt, s) && !WriterForks(history, i, releasedAt, s);
    KeptUntil(history, i, pinnedAt, s);
    KeptUntil(history, i, releasedAt, s);
    HistoryOnlyAdvances(history, i, releasedAt);
    if history[pinnedAt].record.IsPinned(s) && !history[releasedAt].record.IsKept(s) {
      if pinnedAt <= releasedAt {
        ForkedStaysKept(history, pinnedAt, releasedAt, s);
      } else {
        assert !WriterForks(history, releasedAt, pinnedAt, s);
        ReleasedIsNeverPinned(history, releasedAt, pinnedAt, s);
      }
    }
  }

  /** And then it is: a pin and a release of one kept checkpoint meet in a history exactly when the writer itself pins
      it after it was released. */
  lemma PinMeetsReleaseIff(history: seq<Version>, i: nat, s: nat)
    requires Chain(history) && i < |history|
    requires history[i].record.IsKept(s) && !history[i].record.IsPinned(s) && s < history[i].record.selected
    ensures PinMeetsRelease(history, i, s) <==> WriterForks(history, i, |history| - 1, s)
  {
    hide Chain, Record.IsKept, Record.IsPinned, WriterForks;
    if WriterForks(history, i, |history| - 1, s) {
      var k := ForkAfterRelease(history, i, s);
      assert history[k].record.IsPinned(s) && !history[k - 1].record.IsKept(s);
    } else {
      forall p, r | i <= p < |history| && i <= r < |history|
        ensures !(history[p].record.IsPinned(s) && !history[r].record.IsKept(s))
      {
        PinAndReleaseExclude(history, i, p, r, s);
      }
    }
  }

  /** From some instant on, a record pins a checkpoint and a record does not keep it. */
  ghost predicate PinMeetsRelease(history: seq<Version>, i: nat, s: nat) {
    exists p, r :: i <= p < |history| && i <= r < |history| && history[p].record.IsPinned(s) &&
      !history[r].record.IsKept(s)
  }

  lemma ForkAfterRelease(history: seq<Version>, i: nat, s: nat) returns (k: nat)
    requires Chain(history) && i < |history| && WriterForks(history, i, |history| - 1, s)
    ensures i < k < |history| && history[k].record.IsPinned(s) && !history[k - 1].record.IsKept(s)
  {
    hide Record.Valid, First, EpochOf, Record.IsKept;
    k :| i < k < |history| && history[k].change == Some(Forking(s)) && !history[k - 1].record.IsKept(s);
    assert Linked(history[k - 1], history[k]);
    ChainValid(history, k - 1);
    PinKeepsValid(history[k - 1].record, s);
  }

  /** The writer's own pin asks nothing of the checkpoint, so after a release it brings one back that a pin without the
      epoch then finds. */
  lemma WriterPinsWhatWasReleased() returns (history: seq<Version>, i: nat, s: nat)
    ensures Chain(history) && i + 2 < |history|
    ensures history[i].record.IsKept(s) && !history[i].record.IsPinned(s) && s < history[i].record.selected
    ensures !history[i + 1].record.IsKept(s) && history[i + 2].record.IsPinned(s)
  {
    var first, kept, last := Sequence(1, 1), Sequence(1, 2), Sequence(1, 3);
    assert first < kept < last && ValidSequence(1, kept) && ValidSequence(1, last);
    assert First(FirstRecord(0, first, true));
    hide Sequence, EpochOf, CounterOf, ValidSequence, First;
    var r0 := FirstRecord(0, first, true);
    var keep := Kept(kept, 0, false);
    var r1 := r0.(selected := kept, kept := [keep]);
    var r2 := r1.(selected := last);
    var r3 := r2.(kept := []);
    var r4 := r3.(pinned := [kept]);
    assert Sequences([keep]) == [kept];
    assert Without([keep], kept) == [];
    history := [Version(r0, None), Version(r1, Some(Selecting(kept, Some(keep), []))),
                Version(r2, Some(Selecting(last, None, []))), Version(r3, Some(Releasing(kept))),
                Version(r4, Some(Forking(kept)))];
    i, s := 2, kept;
  }
}
