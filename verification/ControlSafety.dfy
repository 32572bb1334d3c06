/** What every run of the control record protocol keeps.

The invariant has three layers: the store's history is a chain of changes and every
write in flight continues the record it is conditional on; each call has only what it
read or was told; each handle tracks a record of its own epoch. Only a write landing
adds to the history, and it changes no call and no handle, so most of the proof is
that what a call or handle knows stays true as the store grows.
*/
module ControlSafety {
  import opened Refs
  import opened ControlRecords
  import opened ControlProtocol

  // -------------------------------------------------------------------- the store

  ghost predicate InHistory(history: seq<Version>, record: Record) {
    exists i :: 0 <= i < |history| && history[i].record == record
  }

  /** A write in flight continues the record its condition names. */
  ghost predicate Continues(s: Store, put: Put) {
    && put.sentAt <= |s.history|
    && match put.expected
       case None => First(put.version.record)
       case Some(etag) =>
         && etag in s.tags && put.version.change.Some? && Asked(put.version.change.value)
         && Answered(put.version.change.value, s.tags[etag]) == Write(put.version.record)
  }

  ghost predicate LandedAt(s: Store, landing: Landing) {
    && landing.put < |s.puts| && landing.at < |s.history|
    && s.puts[landing.put].sentAt <= landing.at
    && s.history[landing.at].record == s.puts[landing.put].version.record
    && landing.etag in s.tags && s.tags[landing.etag] == s.puts[landing.put].version.record
  }

  ghost predicate DeletionAt(s: Store, deletion: Deletion) {
    && deletion.at < |s.history| && deletion.etag in s.tags
    && s.tags[deletion.etag] == s.history[deletion.at].record
  }

  ghost predicate StoredIsLast(s: Store) {
    && (s.stored.Some? ==>
          && s.history != [] && s.gone.None?
          && s.stored.value.record == s.history[|s.history| - 1].record
          && s.stored.value.etag in s.tags && s.tags[s.stored.value.etag] == s.stored.value.record)
    && (s.stored.None? && s.history != [] ==> s.gone.Some?)
    && (s.gone.Some? ==>
          && s.history != [] && s.gone.value < |s.deletes|
          && DeletionAt(s, s.deletes[s.gone.value])
          && s.tags[s.deletes[s.gone.value].etag] == s.history[|s.history| - 1].record)
  }

  ghost predicate StoreInv(s: Store) {
    && Chain(s.history)
    && StoredIsLast(s)
    && (forall etag :: etag in s.tags ==> InHistory(s.history, s.tags[etag]))
    && (forall p :: 0 <= p < |s.puts| ==> Continues(s, s.puts[p]))
    && (forall landing :: landing in s.landed ==> LandedAt(s, landing))
    && (forall d :: 0 <= d < |s.deletes| ==> DeletionAt(s, s.deletes[d]))
    && (forall c, d :: 0 <= c <= d < |s.deletes| ==> s.deletes[c].at <= s.deletes[d].at)
  }

  /** The store after any step: nothing it knew is unsaid. */
  ghost predicate Grows(s: Store, t: Store) {
    && s.history <= t.history && s.puts <= t.puts && s.deletes <= t.deletes
    && (forall etag :: etag in s.tags ==> etag in t.tags && t.tags[etag] == s.tags[etag])
    && (s.gone.Some? ==> t.gone == s.gone && t.history == s.history)
  }

  lemma LandingLinks(s: Store, p: nat, etag: ETag)
    requires StoreInv(s) && s.CanLand(p, etag)
    ensures Chain(s.Land(p, etag).history)
  {
    hide First, Answered, InHistory, LandedAt, DeletionAt, Asked;
    assert Continues(s, s.puts[p]);
    var history := s.Land(p, etag).history;
    forall i | 0 < i < |history|
      ensures Linked(history[i - 1], history[i])
    {
      if i < |s.history| { assert Linked(s.history[i - 1], s.history[i]); }
    }
  }

  lemma LandKeeps(s: Store, p: nat, etag: ETag)
    requires StoreInv(s) && s.CanLand(p, etag)
    ensures StoreInv(s.Land(p, etag)) && Grows(s, s.Land(p, etag))
  {
    hide First, Answered, Asked, Chain;
    var t := s.Land(p, etag);
    LandingLinks(s, p, etag);
    assert Grows(s, t);
    forall e | e in t.tags
      ensures InHistory(t.history, t.tags[e])
    {
      if e in s.tags {
        assert InHistory(s.history, s.tags[e]);
        var i :| 0 <= i < |s.history| && s.history[i].record == s.tags[e];
        assert t.history[i].record == t.tags[e];
      } else {
        assert t.history[|s.history|].record == t.tags[e];
      }
    }
    assert Continues(s, s.puts[p]);
    assert LandedAt(t, Landing(p, etag, |s.history|));
    assert forall q :: 0 <= q < |t.puts| ==> Continues(s, s.puts[q]);
  }

  lemma SendKeeps(s: Store, expected: Option<ETag>, version: Version)
    requires StoreInv(s) && Continues(s, Put(expected, version, |s.history|))
    ensures StoreInv(s.Send(expected, version)) && Grows(s, s.Send(expected, version))
  {
    hide First, Answered, Asked, Chain, InHistory;
    var t := s.Send(expected, version);
    assert forall q :: 0 <= q < |s.puts| ==> Continues(s, s.puts[q]);
    assert forall landing :: landing in t.landed ==> LandedAt(s, landing);
  }

  lemma DeleteKeeps(s: Store, d: nat)
    requires StoreInv(s) && s.CanDelete(d)
    ensures StoreInv(s.Delete(d)) && Grows(s, s.Delete(d))
  {
    hide First, Answered, Asked, Chain, InHistory;
    var t := s.Delete(d);
    assert DeletionAt(s, s.deletes[d]);
    assert forall q :: 0 <= q < |s.puts| ==> Continues(s, s.puts[q]);
    assert forall landing :: landing in t.landed ==> LandedAt(s, landing);
    assert forall c :: 0 <= c < |t.deletes| ==> DeletionAt(s, s.deletes[c]);
  }

  lemma AskDeletionKeeps(s: Store)
    requires StoreInv(s) && s.stored.Some?
    ensures var t := s.(deletes := s.deletes + [Deletion(s.stored.value.etag, s.Now())]);
      StoreInv(t) && Grows(s, t)
  {
    hide First, Answered, Asked, Chain, InHistory;
    var t := s.(deletes := s.deletes + [Deletion(s.stored.value.etag, s.Now())]);
    assert forall q :: 0 <= q < |s.puts| ==> Continues(s, s.puts[q]);
    assert forall landing :: landing in t.landed ==> LandedAt(s, landing);
    assert forall c :: 0 <= c < |s.deletes| ==> DeletionAt(s, s.deletes[c]);
  }

  // -------------------------------------------------------------------- the calls

  /** What a settled change means for the record that settled it. */
  ghost predicate Effect(change: Change, record: Record, wanted: nat) {
    match change
    case Opening(_, _, _) => true
    case Selecting(sequence, keep, journals) =>
      && record.selected == sequence && record.created && record.journals == journals
      && (keep.Some? ==> record.IsKept(sequence))
    case Forking(sequence) => record.IsPinned(sequence)
    case Pinning(sequence) => record.IsPinned(wanted) && (sequence != 0 ==> wanted == sequence)
    case Releasing(sequence) => !record.IsKept(sequence)
  }

  /** A record was the stored one at an instant of a call: it was written since the call began, or was there then. */
  ghost predicate HeldAt(s: Store, call: Call, record: Record, at: nat) {
    && at < |s.history| && s.history[at].record == record
    && call.since <= at + 1 && (call.since == at + 1 ==> call.live)
  }

  /** A writer's call that its handle's record already answers. */
  ghost predicate Repeats(call: Call) {
    call.kind.Held? && call.had.Some? && Answered(call.kind.change, call.had.value) == Nothing
  }

  function ChangeOf(kind: Kind): Option<Change> {
    match kind
    case Unheld(change) => Some(change)
    case Held(_, change) => Some(change)
    case _ => None
  }

  /** The write a call has out is the one it means, sent since it began. */
  ghost predicate Means(s: Store, call: Call, p: nat) {
    && p < |s.puts| && call.since <= s.puts[p].sentAt
    && match call.kind
       case Create(nonce, selected, published) => s.puts[p].version.record == FirstRecord(nonce, selected, published)
       case Unheld(change) => s.puts[p].version.change == Some(change) && s.puts[p].expected.Some?
       case Held(_, change) => s.puts[p].version.change == Some(change) && s.puts[p].expected.Some?
       case Remove => false
  }

  ghost predicate Awaits(s: Store, call: Call, d: nat, current: Record) {
    && call.kind.Remove? && d < |s.deletes| && d == |s.deletes| - 1
    && DeletionAt(s, s.deletes[d]) && s.history[s.deletes[d].at].record == current
  }

  ghost predicate SamePins(a: Record, b: Record) { forall s :: s in a.pinned <==> s in b.pinned }

  ghost predicate OutcomeInv(s: Store, call: Call, outcome: Outcome) {
    match outcome
    case Took(record, at) =>
      && HeldAt(s, call, record, at)
      && DrawnBy(call.kind) == Some(record.nonce)
      && (call.kind.Unheld? && call.kind.change.Opening? && call.kind.change.after != 0 ==>
            record.epoch == call.kind.change.after + 1)
    case Reported(record, at, wanted) =>
      HeldAt(s, call, record, at) && ChangeOf(call.kind).Some? && Effect(ChangeOf(call.kind).value, record, wanted)
    case Tracked(record, read) =>
      && call.kind.Held? && InHistory(s.history, record)
      && Answered(call.kind.change, record) == Nothing && Effect(call.kind.change, record, 0)
      && (if read.Some? then HeldAt(s, call, record, read.value) else call.had == Some(record))
    case Removed(record) =>
      s.gone.Some? && s.history != [] && SamePins(record, s.history[|s.history| - 1].record)
    case Failed(_) => true
  }

  /** A repeated change never asks the store. */
  ghost predicate RepeatedPhase(call: Call)
    requires call.had.Some?
  {
    match call.phase
    case Ready(read) => read.None?
    case Done(Tracked(record, read)) => record == call.had.value && read.None?
    case Done(Failed(_)) => true
    case _ => false
  }

  ghost predicate CallInv(s: Store, call: Call) {
    && call.since <= |s.history| && WellAsked(call.kind)
    // A record that was gone when the call began is gone.
    && (call.since > 0 && !call.live ==> s.gone.Some?)
    && (Repeats(call) ==> RepeatedPhase(call))
    && match call.phase
       case Ready(_) => true
       case Sent(p) => Means(s, call, p)
       case Unsure(p) => Means(s, call, p)
       case Deleting(d, current) => Awaits(s, call, d, current)
       case DeleteUnsure(d, current) => Awaits(s, call, d, current)
       case Done(outcome) => OutcomeInv(s, call, outcome)
  }

  // ------------------------------------------------------------------ the handles

  ghost predicate HandleInv(s: Store, call: Call, handle: Handle) {
    && handle.record.Mine(handle.epoch, handle.nonce)
    && InHistory(s.history, handle.record)
    && (!handle.fenced ==> handle.etag in s.tags && s.tags[handle.etag] == handle.record)
    && (handle.fenced ==> exists i :: 0 <= i < |s.history| && s.history[i].record.epoch > handle.epoch)
    && call.phase.Done? && call.phase.outcome.Took? && call.phase.outcome.record.Mine(handle.epoch, handle.nonce)
  }

  /** The write a handle has out is conditional on the record the handle tracks. */
  ghost predicate Bound(s: Store, handles: map<nat, Handle>, call: Call) {
    && (call.kind.Held? ==> call.kind.handle in handles)
    && (call.kind.Held? && (call.phase.Sent? || call.phase.Unsure?) ==>
          var handle := handles[call.kind.handle];
          !handle.fenced && call.phase.put < |s.puts| && s.puts[call.phase.put].expected == Some(handle.etag))
    // A writer about to try has the record it began with, or the one it has read back since.
    && (call.kind.Held? && call.phase.Ready? ==>
          var record := handles[call.kind.handle].record;
          if call.phase.read.Some? then HeldAt(s, call, record, call.phase.read.value) else call.had == Some(record))
    && (call.kind.Held? && call.phase == Done(Failed(Fenced)) ==> handles[call.kind.handle].fenced)
  }

  /** A call that has its handle's turn to write. */
  predicate Writes(call: Call) { call.kind.Held? && !call.phase.Done? }

  ghost predicate TakesTurns(calls: map<nat, Call>) {
    && (forall a, b :: a in calls && b in calls && a != b && Writes(calls[a]) && Writes(calls[b]) ==>
          calls[a].kind.handle != calls[b].kind.handle)
    && (forall a, b :: a in calls && b in calls && a != b ==> !(calls[a].kind.Remove? && calls[b].kind.Remove?))
  }

  ghost predicate DrawnOnce(calls: map<nat, Call>) {
    forall a, b :: a in calls && b in calls && a != b && DrawnBy(calls[a].kind).Some? ==>
      DrawnBy(calls[a].kind) != DrawnBy(calls[b].kind)
  }

  ghost predicate CallsInv(s: Store, calls: map<nat, Call>) { forall id :: id in calls ==> CallInv(s, calls[id]) }

  ghost predicate HandlesInv(s: Store, calls: map<nat, Call>, handles: map<nat, Handle>) {
    forall id :: id in handles ==> id in calls && HandleInv(s, calls[id], handles[id])
  }

  ghost predicate AllBound(s: Store, calls: map<nat, Call>, handles: map<nat, Handle>) {
    forall id :: id in calls ==> Bound(s, handles, calls[id])
  }

  ghost predicate Inv(w: World) {
    && StoreInv(w.store)
    && CallsInv(w.store, w.calls)
    && HandlesInv(w.store, w.calls, w.handles)
    && AllBound(w.store, w.calls, w.handles)
    && TakesTurns(w.calls)
    && DrawnOnce(w.calls)
  }

  // ------------------------------------------------- what is known stays known

  lemma InHistoryStays(s: seq<Version>, t: seq<Version>, record: Record)
    requires s <= t && InHistory(s, record)
    ensures InHistory(t, record)
  {
    var i :| 0 <= i < |s| && s[i].record == record;
    assert t[i].record == record;
  }

  /** A removal that was sent is still the latest one, unless this very call sends another. */
  lemma CallStays(s: Store, t: Store, call: Call)
    requires Grows(s, t) && CallInv(s, call)
    requires call.kind.Remove? && !call.phase.Done? ==> s.deletes == t.deletes
    ensures CallInv(t, call)
  {
    hide Answered, Effect, Asked;
    if call.phase.Done? && call.phase.outcome.Tracked? {
      InHistoryStays(s.history, t.history, call.phase.outcome.record);
    }
  }

  lemma HandleStays(s: Store, t: Store, call: Call, handle: Handle)
    requires Grows(s, t) && HandleInv(s, call, handle)
    ensures HandleInv(t, call, handle)
  {
    InHistoryStays(s.history, t.history, handle.record);
    if handle.fenced {
      var i :| 0 <= i < |s.history| && s.history[i].record.epoch > handle.epoch;
      assert t.history[i].record.epoch > handle.epoch;
    }
  }

  /** A store step changes no call and no handle. */
  lemma StoreStepKeeps(w: World, t: Store)
    requires Inv(w) && StoreInv(t) && Grows(w.store, t) && t.deletes == w.store.deletes
    ensures Inv(w.WithStore(t))
  {
    hide StoreInv, CallInv, HandleInv, TakesTurns, DrawnOnce;
    forall id | id in w.calls ensures CallInv(t, w.calls[id]) {
      CallStays(w.store, t, w.calls[id]);
    }
    forall id | id in w.handles ensures HandleInv(t, w.calls[id], w.handles[id]) {
      HandleStays(w.store, t, w.calls[id], w.handles[id]);
    }
    forall id | id in w.calls ensures Bound(t, w.handles, w.calls[id]) {
      assert Bound(w.store, w.handles, w.calls[id]);
    }
  }

  /** One call moves on. It may send something, and change at most one handle: its own, or the one it takes. */
  lemma CallStepKeeps(w: World, id: nat, t: Store, phase: Phase, h: nat, handles: map<nat, Handle>)
    requires Inv(w) && id in w.calls && !w.calls[id].phase.Done?
    requires StoreInv(t) && Grows(w.store, t)
    requires t.deletes != w.store.deletes ==> w.calls[id].kind.Remove?
    requires CallInv(t, w.calls[id].(phase := phase)) && Bound(t, handles, w.calls[id].(phase := phase))
    requires handles == w.handles || (h in handles && handles == w.handles[h := handles[h]])
    requires handles != w.handles ==>
               h == id ||
                 (w.calls[id].kind.Held? && w.calls[id].kind.handle == h && h in w.handles &&
                  (w.handles[h].fenced ==> handles[h].fenced))
    requires handles != w.handles ==>
               HandleInv(t, if h ==
                         id then w.calls[id].(phase := phase) else if h in w.calls then w.calls[h]
                           else w.calls[id], handles[h])
    ensures Inv(World(t, w.calls[id := w.calls[id].(phase := phase)], handles))
  {
    hide StoreInv, CallInv, HandleInv, Bound, TakesTurns, DrawnOnce, Grows;
    var call := w.calls[id].(phase := phase);
    assert id !in w.handles by { if id in w.handles { NotYetTaken(w, id); } }
    CallsStep(w, id, t, call);
    HandlesStep(w, id, t, call, h, handles);
    BoundStep(w, id, t, call, h, handles);
    TurnsStep(w.calls, id, call);
  }

  lemma CallsStep(w: World, id: nat, t: Store, call: Call)
    requires CallsInv(w.store, w.calls) && TakesTurns(w.calls) && id in w.calls && call.kind == w.calls[id].kind
    requires Grows(w.store, t) && CallInv(t, call) && (t.deletes != w.store.deletes ==> call.kind.Remove?)
    ensures CallsInv(t, w.calls[id := call])
  {
    hide CallInv, Grows, Writes;
    forall other | other in w.calls && other != id ensures CallInv(t, w.calls[other]) {
      CallStays(w.store, t, w.calls[other]);
    }
  }

  lemma HandlesStep(w: World, id: nat, t: Store, call: Call, h: nat, handles: map<nat, Handle>)
    requires HandlesInv(w.store, w.calls, w.handles) && id in w.calls && id !in w.handles && Grows(w.store, t)
    requires handles == w.handles || (h in handles && handles == w.handles[h := handles[h]])
    requires handles != w.handles ==> h == id || h in w.handles
    requires handles != w.handles ==>
               HandleInv(t, if h == id then call else if h in w.calls then w.calls[h] else w.calls[id], handles[h])
    ensures HandlesInv(t, w.calls[id := call], handles)
  {
    hide HandleInv, Grows;
    forall other | other in handles
      ensures other in w.calls && HandleInv(t, w.calls[id := call][other], handles[other])
    {
      if other in w.handles && (handles == w.handles || other != h) {
        HandleStays(w.store, t, w.calls[other], w.handles[other]);
      }
    }
  }

  lemma BoundStep(w: World, id: nat, t: Store, call: Call, h: nat, handles: map<nat, Handle>)
    requires AllBound(w.store, w.calls, w.handles) && TakesTurns(w.calls) && id in w.calls && id !in w.handles
    requires !w.calls[id].phase.Done? && call.kind == w.calls[id].kind && Grows(w.store, t) && Bound(t, handles, call)
    requires handles == w.handles || (h in handles && handles == w.handles[h := handles[h]])
    requires handles != w.handles ==>
               h == id ||
                 (call.kind.Held? && call.kind.handle == h && h in w.handles &&
                  (w.handles[h].fenced ==> handles[h].fenced))
    ensures AllBound(t, w.calls[id := call], handles)
  {
    forall other | other in w.calls && other != id ensures Bound(t, handles, w.calls[other]) {
      assert Bound(w.store, w.handles, w.calls[other]);
    }
  }

  lemma TurnsStep(calls: map<nat, Call>, id: nat, call: Call)
    requires TakesTurns(calls) && DrawnOnce(calls) && id in calls && !calls[id].phase.Done?
    requires call.kind == calls[id].kind
    ensures TakesTurns(calls[id := call]) && DrawnOnce(calls[id := call])
  {
    hide DrawnBy;
  }

  lemma NotYetTaken(w: World, id: nat)
    requires Inv(w) && id in w.handles
    ensures id in w.calls && w.calls[id].phase.Done?
  {
    assert HandleInv(w.store, w.calls[id], w.handles[id]);
  }

  // ---------------------------------------------------------------------- actions

  lemma BeginKeeps(w: World, id: nat, kind: Kind)
    requires Inv(w) && Enabled(w, Begin(id, kind))
    ensures Inv(Apply(w, Begin(id, kind)))
  {
    hide StoreInv, HandleInv, Grows;
    var next := Apply(w, Begin(id, kind));
    assert id !in w.handles;
    hide CallInv, TakesTurns, DrawnOnce;
    assert CallInv(next.store, next.calls[id]) by { BegunIs(w, id, kind); }
    forall other | other in next.calls ensures Bound(next.store, next.handles, next.calls[other]) {
      if other != id { assert Bound(w.store, w.handles, w.calls[other]); }
    }
    assert TakesTurns(next.calls) && DrawnOnce(next.calls) by { BegunTakesTurn(w, id, kind); }
  }

  lemma BegunIs(w: World, id: nat, kind: Kind)
    requires Inv(w) && Enabled(w, Begin(id, kind))
    ensures CallInv(w.store, Apply(w, Begin(id, kind)).calls[id])
  {
    hide HandleInv, TakesTurns, DrawnOnce, Chain, Continues, LandedAt, DeletionAt, Answered;
  }

  lemma BegunTakesTurn(w: World, id: nat, kind: Kind)
    requires Inv(w) && Enabled(w, Begin(id, kind))
    ensures TakesTurns(Apply(w, Begin(id, kind)).calls) && DrawnOnce(Apply(w, Begin(id, kind)).calls)
  {
    hide StoreInv, HandleInv, CallInv, Bound;
  }

  lemma ArriveKeeps(w: World, put: nat, etag: ETag)
    requires Inv(w) && Enabled(w, Arrive(put, etag))
    ensures Inv(Apply(w, Arrive(put, etag)))
  {
    hide Inv, StoreInv;
    assert StoreInv(w.store) by { InvParts(w); }
    LandKeeps(w.store, put, etag);
    StoreStepKeeps(w, w.store.Land(put, etag));
  }

  lemma InvParts(w: World)
    requires Inv(w)
    ensures StoreInv(w.store)
  {
  }

  lemma EraseKeeps(w: World, d: nat)
    requires Inv(w) && Enabled(w, Erase(d))
    ensures Inv(Apply(w, Erase(d)))
  {
    hide Inv, StoreInv;
    assert StoreInv(w.store) by { InvParts(w); }
    DeleteKeeps(w.store, d);
    StoreStepKeeps(w, w.store.Delete(d));
  }

  lemma CloseKeeps(w: World, id: nat)
    requires Inv(w) && Enabled(w, Close(id))
    ensures Inv(Apply(w, Close(id)))
  {
    hide StoreInv, CallInv, InHistory, TakesTurns, DrawnOnce;
    var next := Apply(w, Close(id));
    assert HandleInv(w.store, w.calls[id], w.handles[id]);
    forall other | other in next.calls ensures Bound(next.store, next.handles, next.calls[other]) {
      assert Bound(w.store, w.handles, w.calls[other]);
    }
  }

  /** A step of a call that neither sends nor touches a handle. */
  lemma PhaseKeeps(w: World, id: nat, phase: Phase)
    requires Inv(w) && id in w.calls && !w.calls[id].phase.Done?
    requires CallInv(w.store, w.calls[id].(phase := phase)) && Bound(w.store, w.handles, w.calls[id].(phase := phase))
    ensures Inv(w.With(id, phase))
  {
    hide Inv, CallInv, StoreInv;
    InvParts(w);
    CallStepKeeps(w, id, w.store, phase, id, w.handles);
  }

  /** A call that has only a kind and its handle. */
  lemma CallBase(w: World, id: nat)
    requires Inv(w) && id in w.calls
    ensures CallInv(w.store, w.calls[id]) && Bound(w.store, w.handles, w.calls[id])
  {
  }

  lemma FailKeeps(w: World, id: nat, error: Error)
    requires Inv(w) && id in w.calls && !w.calls[id].phase.Done?
    requires error == Fenced && w.calls[id].kind.Held? && w.calls[id].kind.handle in w.handles ==>
               w.handles[w.calls[id].kind.handle].fenced
    ensures Inv(w.With(id, Done(Failed(error))))
  {
    hide Inv, StoreInv;
    CallBase(w, id);
    PhaseKeeps(w, id, Done(Failed(error)));
  }

  lemma RetryKeeps(w: World, id: nat)
    requires Inv(w) && id in w.calls && !w.calls[id].phase.Done? && !w.calls[id].kind.Held?
    ensures Inv(w.With(id, Ready(None)))
  {
    hide Inv, StoreInv;
    CallBase(w, id);
    PhaseKeeps(w, id, Ready(None));
  }

  lemma DeclineKeeps(w: World, id: nat)
    requires Inv(w) && Enabled(w, Decline(id))
    ensures Inv(Apply(w, Decline(id)))
  {
    hide Inv, StoreInv;
    CallBase(w, id);
    if w.calls[id].phase.Deleting? || w.calls[id].kind.Unheld? {
      RetryKeeps(w, id);
    } else {
      PhaseKeeps(w, id, Unsure(w.calls[id].phase.put));
    }
  }

  lemma LoseKeeps(w: World, id: nat)
    requires Inv(w) && Enabled(w, Lose(id))
    ensures Inv(Apply(w, Lose(id)))
  {
    hide Inv, StoreInv;
    CallBase(w, id);
    match w.calls[id].phase
    case Deleting(delete, current) => PhaseKeeps(w, id, DeleteUnsure(delete, current));
    case Sent(put) => PhaseKeeps(w, id, Unsure(put));
  }

  // ------------------------------------------------------------------------ tries

  /** A call sends the write it means. */
  lemma SentKeeps(w: World, id: nat, expected: Option<ETag>, version: Version)
    requires Inv(w) && id in w.calls && w.calls[id].phase.Ready?
    requires Continues(w.store, Put(expected, version, |w.store.history|))
    requires match w.calls[id].kind
             case Create(nonce, selected, published) => version.record == FirstRecord(nonce, selected, published)
             case Unheld(change) => version.change == Some(change) && expected.Some?
             case Held(h, change) =>
               && version.change == Some(change) && h in w.handles
               && !w.handles[h].fenced && expected == Some(w.handles[h].etag)
               && Answered(change, w.handles[h].record) == Write(version.record)
             case Remove => false
    ensures Inv(w.WithStore(w.store.Send(expected, version)).With(id, Sent(|w.store.puts|)))
  {
    hide Inv, StoreInv, Continues, Answered;
    InvParts(w);
    CallBase(w, id);
    SendKeeps(w.store, expected, version);
    CallStepKeeps(w, id, w.store.Send(expected, version), Sent(|w.store.puts|), id, w.handles);
  }

  lemma CreatedIsFirst(nonce: Nonce, selected: nat, published: bool)
    requires ValidCreateSequence(selected)
    ensures First(FirstRecord(nonce, selected, published))
  {
  }

  /** The record a call reads is the last of the history, and its validator names it. */
  lemma ReadsLast(w: World)
    requires Inv(w) && w.store.stored.Some?
    ensures w.store.history != [] && w.store.history[w.store.Now()].record == w.store.stored.value.record
    ensures w.store.stored.value.etag in w.store.tags
    ensures w.store.tags[w.store.stored.value.etag] == w.store.stored.value.record
    ensures w.store.Now() == |w.store.history| - 1 && w.store.gone.None?
  {
  }

  lemma UnheldTryKeeps(w: World, id: nat)
    requires Inv(w) && Enabled(w, Try(id)) && w.calls[id].kind.Unheld?
    ensures Inv(Apply(w, Try(id)))
  {
    hide Inv, Answered;
    CallBase(w, id);
    var change := w.calls[id].kind.change;
    if w.store.stored.None? {
      FailKeeps(w, id, NotFound);
    } else {
      ReadsLast(w);
      var found := w.store.stored.value;
      match Answered(change, found.record)
      case Refuse(why) => FailKeeps(w, id, Because(why));
      case Nothing =>
        NothingMeans(change, found.record);
        PhaseKeeps(w, id, Done(Reported(found.record, w.store.Now(), About(change, found.record))));
      case Write(next) => SentKeeps(w, id, Some(found.etag), Version(next, Some(change)));
    }
  }

  /** A change that writes nothing is one the record already has. */
  lemma NothingMeans(change: Change, current: Record)
    requires Answered(change, current) == Nothing && Asked(change)
    ensures Effect(change, current, About(change, current))
  {
    if change.Selecting? && change.keep.Some? {
      var keep := change.keep.value;
      assert |current.WithKept(keep).kept| == |current.kept| + if current.IsKept(keep.sequence) then 0 else 1;
    }
  }

  lemma HeldTryKeeps(w: World, id: nat)
    requires Inv(w) && Enabled(w, Try(id)) && w.calls[id].kind.Held?
    ensures Inv(Apply(w, Try(id)))
  {
    hide Inv, Answered, InHistory;
    CallBase(w, id);
    var Held(h, change) := w.calls[id].kind;
    var handle := w.handles[h];
    HandleBase(w, h);
    if handle.fenced {
      FailKeeps(w, id, Fenced);
    } else if handle.closed {
      FailKeeps(w, id, Closed);
    } else {
      match Answered(change, handle.record)
      case Refuse(why) => FailKeeps(w, id, Because(why));
      case Nothing =>
        NothingMeans(change, handle.record);
        PhaseKeeps(w, id, Done(Tracked(handle.record, w.calls[id].phase.read)));
      case Write(next) => SentKeeps(w, id, Some(handle.etag), Version(next, Some(change)));
    }
  }

  lemma HandleBase(w: World, h: nat)
    requires Inv(w) && h in w.handles
    ensures h in w.calls && HandleInv(w.store, w.calls[h], w.handles[h])
  {
  }

  lemma RemoveTryKeeps(w: World, id: nat)
    requires Inv(w) && Enabled(w, Try(id)) && w.calls[id].kind.Remove?
    ensures Inv(Apply(w, Try(id)))
  {
    hide Inv, StoreInv;
    CallBase(w, id);
    if w.store.stored.None? {
      FailKeeps(w, id, NotFound);
    } else {
      InvParts(w);
      ReadsLast(w);
      AskDeletionKeeps(w.store);
      var found := w.store.stored.value;
      var t := w.store.(deletes := w.store.deletes + [Deletion(found.etag, w.store.Now())]);
      CallStepKeeps(w, id, t, Deleting(|w.store.deletes|, found.record), id, w.handles);
    }
  }

  lemma TryKeeps(w: World, id: nat)
    requires Inv(w) && Enabled(w, Try(id))
    ensures Inv(Apply(w, Try(id)))
  {
    hide Inv, First;
    match w.calls[id].kind
    case Create(nonce, selected, published) =>
      CallBase(w, id);
      CreatedIsFirst(nonce, selected, published);
      SentKeeps(w, id, None, Version(FirstRecord(nonce, selected, published), None));
    case Unheld(change) => UnheldTryKeeps(w, id);
    case Held(h, change) => HeldTryKeeps(w, id);
    case Remove => RemoveTryKeeps(w, id);
  }

  // ---------------------------------------------------------------------- replies

  /** A record that a change wrote has the change, and is still the writer's unless the change was a takeover. */
  lemma WriteMeans(change: Change, current: Record)
    requires current.Valid() && Asked(change) && Answered(change, current).Write?
    ensures Effect(change, Answered(change, current).next, About(change, current))
    ensures !change.Opening? ==> Answered(change, current).next.Mine(current.epoch, current.nonce)
  {
    match change
    case Opening(_, _, _) =>
    case Selecting(sequence, keep, journals) =>
      if keep.Some? && !current.IsKept(sequence) { InsertKept(current.kept, keep.value); }
    case Forking(sequence) => PinKeepsValid(current, sequence);
    case Pinning(sequence) =>
      var wanted := Wanted(sequence, current);
      if current.IsKept(wanted) { assert wanted != 0; }
      PinKeepsValid(current, wanted);
    case Releasing(sequence) => WithoutKept(current.kept, sequence);
  }

  /** A write made from a record continues a valid one. */
  lemma PutMeans(s: Store, p: nat)
    requires StoreInv(s) && p < |s.puts| && s.puts[p].expected.Some?
    ensures s.puts[p].expected.value in s.tags
    ensures var change, next := s.puts[p].version.change, s.puts[p].version.record;
      && change.Some? && Asked(change.value) && Answered(change.value, Before(s, p)) == Write(next)
      && Effect(change.value, next, AboutPut(s, p))
      && (!change.value.Opening? ==> next.Mine(Before(s, p).epoch, Before(s, p).nonce))
  {
    hide Chain, Effect, LandedAt, DeletionAt, Record.Valid, Answered;
    assert Continues(s, s.puts[p]);
    var current := Before(s, p);
    assert InHistory(s.history, current);
    var i :| 0 <= i < |s.history| && s.history[i].record == current;
    ChainValid(s.history, i);
    WriteMeans(s.puts[p].version.change.value, current);
  }

  lemma OpeningMeans(change: Change, current: Record)
    requires change.Opening? && Answered(change, current).Write?
    ensures var next := Answered(change, current).next;
      next.nonce == change.nonce && next.epoch == current.epoch + 1 &&
        (change.after != 0 ==> next.epoch == change.after + 1)
  {
  }

  /** What an open or create would have of the record its write makes. */
  lemma TakerMeans(w: World, id: nat, p: nat)
    requires Inv(w) && id in w.calls && DrawnBy(w.calls[id].kind).Some? && Means(w.store, w.calls[id], p)
    ensures var next, kind := w.store.puts[p].version.record, w.calls[id].kind;
      && DrawnBy(kind) == Some(next.nonce)
      && (kind.Unheld? && kind.change.after != 0 ==> next.epoch == kind.change.after + 1)
  {
    hide Inv, StoreInv, Effect, Answered;
    InvParts(w);
    if w.calls[id].kind.Unheld? {
      PutMeans(w.store, p);
      OpeningMeans(w.calls[id].kind.change, Before(w.store, p));
    }
  }

  /** A call takes the epoch of a record it drew the nonce of. */
  lemma TakeKeeps(w: World, id: nat, record: Record, etag: ETag, at: nat)
    requires Inv(w) && id in w.calls && !w.calls[id].phase.Done?
    requires HeldAt(w.store, w.calls[id], record, at) && etag in w.store.tags && w.store.tags[etag] == record
    requires DrawnBy(w.calls[id].kind) == Some(record.nonce)
    requires w.calls[id].kind.Unheld? && w.calls[id].kind.change.after != 0 ==>
      record.epoch == w.calls[id].kind.change.after + 1
    ensures Inv(w.WithHandle(id, NewHandle(record, etag)).With(id, Done(Took(record, at))))
  {
    hide Inv, StoreInv;
    InvParts(w);
    CallBase(w, id);
    assert InHistory(w.store.history, record);
    CallStepKeeps(w, id, w.store, Done(Took(record, at)), id, w.handles[id := NewHandle(record, etag)]);
  }

  /** A handle's call settles on a record of the handle's own. */
  lemma SettleKeeps(w: World, id: nat, record: Record, etag: ETag, phase: Phase)
    requires Inv(w) && id in w.calls && Writes(w.calls[id]) && w.calls[id].kind.handle in w.handles
    requires !w.handles[w.calls[id].kind.handle].fenced
    requires record.Mine(w.handles[w.calls[id].kind.handle].epoch, w.handles[w.calls[id].kind.handle].nonce)
    requires InHistory(w.store.history, record) && etag in w.store.tags && w.store.tags[etag] == record
    requires CallInv(w.store, w.calls[id].(phase := phase))
    requires if phase.Ready? then phase.read.Some? && HeldAt(w.store, w.calls[id], record, phase.read.value)
             else phase.Done? && phase != Done(Failed(Fenced))
    ensures var h := w.calls[id].kind.handle;
      Inv(w.WithHandle(h, w.handles[h].Settle(record, etag)).With(id, phase))
  {
    hide Inv, StoreInv, CallInv, InHistory;
    InvParts(w);
    var h := w.calls[id].kind.handle;
    HandleBase(w, h);
    CallStepKeeps(w, id, w.store, phase, h, w.handles[h := w.handles[h].Settle(record, etag)]);
  }

  lemma ReplyKeeps(w: World, id: nat, landing: Landing)
    requires Inv(w) && Enabled(w, Reply(id, landing))
    ensures Inv(Apply(w, Reply(id, landing)))
  {
    hide Inv, Effect, Answered, InHistory, Chain, Continues;
    CallBase(w, id);
    var call, p := w.calls[id], landing.put;
    assert LandedAt(w.store, landing) by { LandingBase(w, landing); }
    var record := w.store.puts[p].version.record;
    var reported := Done(Reported(record, landing.at, AboutPut(w.store, p)));
    if DrawnBy(call.kind).Some? {
      TakerMeans(w, id, p);
      TakeKeeps(w, id, record, landing.etag, landing.at);
    } else {
      PutMeans(w.store, p) by { InvParts(w); }
      if call.kind.Held? {
        HandleBase(w, call.kind.handle);
        assert InHistory(w.store.history, record) by { AtInHistory(w.store, landing.at); }
        SettleKeeps(w, id, record, landing.etag, reported);
      } else {
        PhaseKeeps(w, id, reported);
      }
    }
  }

  lemma AtInHistory(s: Store, at: nat)
    requires at < |s.history|
    ensures InHistory(s.history, s.history[at].record)
  {
  }

  lemma LandingBase(w: World, landing: Landing)
    requires Inv(w) && landing in w.store.landed
    ensures LandedAt(w.store, landing)
  {
  }

  // ------------------------------------------------------------------ reading back

  /** A handle is told it was taken over only when it was. */
  lemma TakenOverIsLater(s: Store, record: Record)
    requires StoreInv(s) && s.stored.Some? && InHistory(s.history, record)
    requires !s.stored.value.record.Mine(record.epoch, record.nonce)
    ensures s.stored.value.record.epoch > record.epoch
  {
    hide Chain, Continues, LandedAt, DeletionAt;
    var i :| 0 <= i < |s.history| && s.history[i].record == record;
    HistoryOnlyAdvances(s.history, i, |s.history| - 1);
  }

  lemma FenceKeeps(w: World, id: nat)
    requires Inv(w) && id in w.calls && Writes(w.calls[id]) && w.calls[id].kind.handle in w.handles
    requires w.store.stored.Some? && !w.handles[w.calls[id].kind.handle].fenced
    requires var handle := w.handles[w.calls[id].kind.handle];
      !w.store.stored.value.record.Mine(handle.epoch, handle.nonce)
    ensures var h := w.calls[id].kind.handle;
      Inv(w.WithHandle(h, w.handles[h].Fence(w.store.stored.value.etag)).With(id, Done(Failed(Fenced))))
  {
    hide Inv, StoreInv, InHistory;
    InvParts(w);
    CallBase(w, id);
    var h := w.calls[id].kind.handle;
    HandleBase(w, h);
    ReadsLast(w);
    TakenOverIsLater(w.store, w.handles[h].record);
    assert w.store.history[w.store.Now()].record.epoch > w.handles[h].epoch;
    CallStepKeeps(w, id, w.store, Done(Failed(Fenced)), h,
                  w.handles[h := w.handles[h].Fence(w.store.stored.value.etag)]);
  }

  lemma HeldReadBackKeeps(w: World, id: nat, p: nat)
    requires Inv(w) && id in w.calls && w.calls[id].phase == Unsure(p) && w.calls[id].kind.Held? && w.store.stored.Some?
    ensures p < |w.store.puts| && Inv(Settled(w, id, p, w.store.stored.value))
  {
    hide Inv, StoreInv, InHistory, Effect, Answered;
    CallBase(w, id);
    var h, observed := w.calls[id].kind.handle, w.store.stored.value;
    HandleBase(w, h);
    var handle, next := w.handles[h], w.store.puts[p].version.record;
    InvParts(w);
    PutMeans(w.store, p);
    ReadsLast(w);
    AtInHistory(w.store, w.store.Now());
    assert Before(w.store, p) == handle.record;
    match VerdictOn(handle, next, observed.record)
    case Landed =>
      SettleKeeps(w, id, observed.record, observed.etag,
                  Done(Reported(observed.record, w.store.Now(), AboutPut(w.store, p))));
    case NotWritten => SettleKeeps(w, id, observed.record, observed.etag, Done(Failed(StoreFailed)));
    case Adopted => SettleKeeps(w, id, observed.record, observed.etag, Ready(Some(w.store.Now())));
    case TakenOver => FenceKeeps(w, id);
  }

  lemma UnheldReadBackKeeps(w: World, id: nat, p: nat)
    requires Inv(w) && id in w.calls && w.calls[id].phase == Unsure(p) && !w.calls[id].kind.Held?
    requires w.store.stored.Some?
    ensures p < |w.store.puts| && Inv(Settled(w, id, p, w.store.stored.value))
  {
    hide Inv, StoreInv, InHistory, Answered, First;
    CallBase(w, id);
    var observed, at := w.store.stored.value, w.store.Now();
    ReadsLast(w);
    InvParts(w);
    FailKeeps(w, id, Exists);
    FailKeeps(w, id, StoreFailed);
    RetryKeeps(w, id);
    if DrawnBy(w.calls[id].kind).Some? {
      TakerMeans(w, id, p);
      if observed.record.Mine(w.store.puts[p].version.record.epoch, DrawnBy(w.calls[id].kind).value) {
        TakeKeeps(w, id, observed.record, observed.etag, at);
      }
    } else {
      PutMeans(w.store, p);
      var wanted := AboutPut(w.store, p);
      if Effect(w.calls[id].kind.change, observed.record, wanted) {
        PhaseKeeps(w, id, Done(Reported(observed.record, at, wanted)));
      }
    }
  }

  /** A record that is gone was removed by this remover, and its pins are the ones the remover last read. */
  lemma GoneHasThePins(w: World, d: nat, current: Record)
    requires Inv(w) && w.store.gone.Some? && d == |w.store.deletes| - 1
    requires w.store.deletes[d].at < |w.store.history| && w.store.history[w.store.deletes[d].at].record == current
    ensures w.store.history != [] && SamePins(current, w.store.history[|w.store.history| - 1].record)
  {
    hide Chain, Continues, LandedAt, InHistory, CallsInv, HandlesInv, AllBound, TakesTurns, DrawnOnce;
    var s, g := w.store, w.store.gone.value;
    assert DeletionAt(s, s.deletes[g]);
    HistoryOnlyAdvances(s.history, s.deletes[g].at, s.deletes[d].at);
    HistoryOnlyAdvances(s.history, s.deletes[d].at, |s.history| - 1);
  }

  lemma RemovedKeeps(w: World, id: nat)
    requires Inv(w) && id in w.calls && (w.calls[id].phase.Deleting? || w.calls[id].phase.DeleteUnsure?)
    requires w.store.gone.Some?
    ensures Inv(w.With(id, Done(Removed(w.calls[id].phase.current))))
  {
    hide Inv, StoreInv;
    CallBase(w, id);
    GoneHasThePins(w, w.calls[id].phase.delete, w.calls[id].phase.current);
    PhaseKeeps(w, id, Done(Removed(w.calls[id].phase.current)));
  }

  lemma ReadBackKeeps(w: World, id: nat)
    requires Inv(w) && Enabled(w, ReadBack(id))
    ensures Inv(Apply(w, ReadBack(id)))
  {
    hide Inv, Settled, StoreInv;
    CallBase(w, id);
    match w.calls[id].phase
    case Unsure(p) =>
      if w.store.stored.None? {
        FailKeeps(w, id, NotFound);
      } else if w.calls[id].kind.Held? {
        HeldReadBackKeeps(w, id, p);
      } else {
        UnheldReadBackKeeps(w, id, p);
      }
    case DeleteUnsure(d, current) =>
      FailKeeps(w, id, StoreFailed);
      RetryKeeps(w, id);
      if w.store.stored.None? {
        InvParts(w);
        GoneIfMissing(w.store);
        RemovedKeeps(w, id);
      }
  }

  lemma GoneIfMissing(s: Store)
    requires StoreInv(s) && s.stored.None? && s.history != []
    ensures s.gone.Some?
  {
  }

  // ------------------------------------------------------------------------- runs

  ghost function Initial(): World { World(Store(None, [], map[], [], {}, [], None), map[], map[]) }

  ghost predicate IsPath(worlds: seq<World>, actions: seq<Action>) {
    && |worlds| == |actions| + 1
    && forall i :: 0 <= i < |actions| ==>
      Enabled(worlds[i], actions[i]) && worlds[i + 1] == Apply(worlds[i], actions[i])
  }

  ghost predicate IsRun(worlds: seq<World>, actions: seq<Action>) {
    IsPath(worlds, actions) && worlds[0] == Initial()
  }

  lemma StepKeeps(w: World, a: Action)
    requires Inv(w) && Enabled(w, a)
    ensures Inv(Apply(w, a))
  {
    hide Inv, Apply;
    match a
    case Begin(id, kind) => BeginKeeps(w, id, kind);
    case Try(id) => TryKeeps(w, id);
    case Arrive(put, etag) => ArriveKeeps(w, put, etag);
    case Reply(id, landing) => ReplyKeeps(w, id, landing);
    case Decline(id) => DeclineKeeps(w, id);
    case Lose(id) => LoseKeeps(w, id);
    case ReadBack(id) => ReadBackKeeps(w, id);
    case GiveUp(id) => GiveUpKeeps(w, id);
    case Close(id) => CloseKeeps(w, id);
    case Erase(delete) => EraseKeeps(w, delete);
    case Erased(id) => ErasedKeeps(w, id);
  }

  lemma GiveUpKeeps(w: World, id: nat)
    requires Inv(w) && Enabled(w, GiveUp(id))
    ensures Inv(Apply(w, GiveUp(id)))
  {
    hide Inv;
    FailKeeps(w, id, StoreFailed);
  }

  lemma ErasedKeeps(w: World, id: nat)
    requires Inv(w) && Enabled(w, Erased(id))
    ensures Inv(Apply(w, Erased(id)))
  {
    hide Inv;
    RemovedKeeps(w, id);
  }

  lemma RunKeeps(worlds: seq<World>, actions: seq<Action>, n: nat)
    requires IsRun(worlds, actions) && n < |worlds|
    ensures Inv(worlds[n])
  {
    hide IsPath;
    PathKeeps(worlds, actions, n);
  }

  lemma {:induction false} PathKeeps(worlds: seq<World>, actions: seq<Action>, n: nat)
    requires IsPath(worlds, actions) && Inv(worlds[0]) && n < |worlds|
    ensures Inv(worlds[n])
    decreases n
  {
    hide Enabled, Apply, Inv;
    if n > 0 {
      PathKeeps(worlds, actions, n - 1);
      StepKeeps(worlds[n - 1], actions[n - 1]);
      assert worlds[n - 1 + 1] == Apply(worlds[n - 1], actions[n - 1]);
    }
  }

  lemma StepGrows(w: World, a: Action)
    requires Inv(w) && Enabled(w, a)
    ensures Grows(w.store, Apply(w, a).store)
  {
    hide StoreInv, CallsInv, HandlesInv, AllBound, TakesTurns, DrawnOnce, Answered;
    match a
    case Arrive(put, etag) => LandKeeps(w.store, put, etag);
    case Erase(delete) => DeleteKeeps(w.store, delete);
    case _ =>
  }

  lemma RunGrows(worlds: seq<World>, actions: seq<Action>, m: nat, n: nat)
    requires IsRun(worlds, actions) && m <= n < |worlds|
    ensures Grows(worlds[m].store, worlds[n].store)
  {
    hide IsPath, Grows;
    PathGrows(worlds, actions, m, n);
  }

  lemma {:induction false} PathGrows(worlds: seq<World>, actions: seq<Action>, m: nat, n: nat)
    requires IsPath(worlds, actions) && Inv(worlds[0]) && m <= n < |worlds|
    ensures Grows(worlds[m].store, worlds[n].store)
    decreases n
  {
    hide Enabled, Apply, Inv;
    if m < n {
      PathKeeps(worlds, actions, n - 1);
      StepGrows(worlds[n - 1], actions[n - 1]);
      PathGrows(worlds, actions, m, n - 1);
      assert worlds[n - 1 + 1] == Apply(worlds[n - 1], actions[n - 1]);
    }
  }

  // ------------------------------------------------------------------ the promises

  /** While the record lives, its epoch and selection never go down, no pin is lost, and every record it has been is
      valid and selects nothing of a later epoch. */
  lemma RecordOnlyAdvances(worlds: seq<World>, actions: seq<Action>, m: nat, n: nat)
    requires IsRun(worlds, actions) && m <= n < |worlds| && worlds[m].store.stored.Some? && worlds[n].store.stored.Some?
    ensures var a, b := worlds[m].store.stored.value.record, worlds[n].store.stored.value.record;
      Later(a, b) && b.Valid() && EpochOf(b.selected) <= b.epoch
  {
    hide IsRun, Inv, Chain, Later, Record.Valid;
    RunKeeps(worlds, actions, m);
    RunKeeps(worlds, actions, n);
    RunGrows(worlds, actions, m, n);
    ReadsLast(worlds[m]);
    ReadsLast(worlds[n]);
    ChainBase(worlds[n]);
    HistoryOnlyAdvances(worlds[n].store.history, worlds[m].store.Now(), worlds[n].store.Now());
    ChainValid(worlds[n].store.history, worlds[n].store.Now());
  }

  lemma ChainBase(w: World)
    requires Inv(w)
    ensures Chain(w.store.history)
  {
  }

  /** No write of an older epoch lands once a newer one has: whatever lands is later than all the record has been. */
  lemma OlderEpochsNeverLand(worlds: seq<World>, actions: seq<Action>, n: nat, p: nat, etag: ETag, i: nat)
    requires IsRun(worlds, actions) && n < |worlds| && Enabled(worlds[n], Arrive(p, etag))
    requires i < |worlds[n].store.history|
    ensures Later(worlds[n].store.history[i].record, worlds[n].store.puts[p].version.record)
  {
    hide IsRun, Inv, Chain, Later, StoreInv;
    RunKeeps(worlds, actions, n);
    var s := worlds[n].store;
    InvParts(worlds[n]);
    LandKeeps(s, p, etag);
    StoreChain(s.Land(p, etag));
    HistoryOnlyAdvances(s.Land(p, etag).history, i, |s.history|);
  }

  lemma StoreChain(s: Store)
    requires StoreInv(s)
    ensures Chain(s.history)
  {
  }

  /** Each epoch is given to at most one handle. */
  lemma OneHandlePerEpoch(worlds: seq<World>, actions: seq<Action>, n: nat, a: nat, b: nat)
    requires IsRun(worlds, actions) && n < |worlds|
    requires a in worlds[n].handles && b in worlds[n].handles && a != b
    ensures worlds[n].handles[a].epoch != worlds[n].handles[b].epoch
  {
    hide IsRun, StoreInv, CallsInv, AllBound, TakesTurns, Chain;
    RunKeeps(worlds, actions, n);
    var w := worlds[n];
    HandleBase(w, a);
    HandleBase(w, b);
    CallBase(w, a);
    CallBase(w, b);
    StoreChain(w.store);
    var i :| 0 <= i < |w.store.history| && w.store.history[i].record == w.handles[a].record;
    var j :| 0 <= j < |w.store.history| && w.store.history[j].record == w.handles[b].record;
    HistoryOnlyAdvances(w.store.history, if i < j then i else j, if i < j then j else i);
  }

  /** At most one open after a given epoch takes the next. */
  lemma OneOpenAfter(worlds: seq<World>, actions: seq<Action>, n: nat, a: nat, b: nat, after: nat)
    requires IsRun(worlds, actions) && n < |worlds| && after != 0 && a != b
    requires a in worlds[n].handles && b in worlds[n].handles && a in worlds[n].calls && b in worlds[n].calls
    requires worlds[n].calls[a].kind.Unheld? && worlds[n].calls[a].kind.change.Opening?
    requires worlds[n].calls[b].kind.Unheld? && worlds[n].calls[b].kind.change.Opening?
    requires worlds[n].calls[a].kind.change.after == after
    ensures worlds[n].calls[b].kind.change.after != after
  {
    hide IsRun, StoreInv, CallsInv, AllBound, TakesTurns, InHistory;
    RunKeeps(worlds, actions, n);
    OneHandlePerEpoch(worlds, actions, n, a, b);
    HandleBase(worlds[n], a);
    HandleBase(worlds[n], b);
    CallBase(worlds[n], a);
    CallBase(worlds[n], b);
  }

  /** A call that took an epoch or wrote its change reports a record the store held at an instant of the call, and that
      record has the change. */
  lemma SuccessWasStored(worlds: seq<World>, actions: seq<Action>, n: nat, id: nat)
    requires IsRun(worlds, actions) && n < |worlds| && id in worlds[n].calls && worlds[n].calls[id].phase.Done?
    ensures var s, call := worlds[n].store, worlds[n].calls[id];
      match call.phase.outcome
      case Took(record, at) => HeldAt(s, call, record, at) && DrawnBy(call.kind) == Some(record.nonce)
      case Reported(record, at, wanted) =>
        && HeldAt(s, call, record, at) && ChangeOf(call.kind).Some?
        && Effect(ChangeOf(call.kind).value, record, wanted)
      case Tracked(record, read) =>
        && call.kind.Held? && Effect(call.kind.change, record, 0)
        && (!Repeats(call) ==> read.Some? && HeldAt(s, call, record, read.value))
      case _ => true
  {
    hide IsRun, Inv, HeldAt, Effect, Answered, InHistory, SamePins;
    RunKeeps(worlds, actions, n);
    CallBase(worlds[n], id);
  }

  /** A change that reports without writing is one the handle's record already has, and that record was stored. When the
      record the handle began with already had it, that is the record, and it was stored perhaps before the call. */
  lemma TrackedWasStored(worlds: seq<World>, actions: seq<Action>, n: nat, id: nat)
    requires IsRun(worlds, actions) && n < |worlds| && id in worlds[n].calls
    requires worlds[n].calls[id].phase.Done? && worlds[n].calls[id].phase.outcome.Tracked?
    ensures var call := worlds[n].calls[id];
      && call.kind.Held? && InHistory(worlds[n].store.history, call.phase.outcome.record)
      && Effect(call.kind.change, call.phase.outcome.record, 0)
      && (call.phase.outcome.read.None? <==> Repeats(call))
      && (Repeats(call) ==> call.had == Some(call.phase.outcome.record))
  {
    hide IsRun, Inv, HeldAt, Effect, Answered, InHistory, SamePins;
    RunKeeps(worlds, actions, n);
    CallBase(worlds[n], id);
  }

  // ------------------------------------------------------ what a success has seen

  ghost predicate Stores(s: Store, record: Record) { s.stored.Some? && s.stored.value.record == record }

  predicate Succeeded(outcome: Outcome) { outcome.Took? || outcome.Reported? || outcome.Tracked? }

  /** The store held a record at some instant of a path. */
  ghost predicate HeldDuring(worlds: seq<World>, n: nat, record: Record) {
    exists k :: 0 <= k <= n && k < |worlds| && Stores(worlds[k].store, record)
  }

  ghost predicate Fixes(w: World, v: World, id: nat)
    requires id in w.calls
  {
    id in v.calls && v.calls[id] == w.calls[id].(phase := v.calls[id].phase)
  }

  lemma TryFixes(w: World, caller: nat, id: nat)
    requires Enabled(w, Try(caller)) && id in w.calls
    ensures Fixes(w, Tried(w, caller), id)
  {
    hide Answered;
  }

  lemma AnswerFixes(w: World, caller: nat, landing: Landing, id: nat)
    requires id in w.calls
    ensures Enabled(w, Reply(caller, landing)) ==> Fixes(w, Replied(w, caller, landing), id)
    ensures Enabled(w, Decline(caller)) ==> Fixes(w, Declined(w, caller), id)
    ensures Enabled(w, Lose(caller)) ==> Fixes(w, Lost(w, caller), id)
  {
    hide Answered;
  }

  lemma ReadBackFixes(w: World, caller: nat, id: nat)
    requires Enabled(w, ReadBack(caller)) && id in w.calls
    ensures Fixes(w, ReadingBack(w, caller), id)
  {
    hide Answered;
  }

  lemma StepFixes(w: World, a: Action, id: nat)
    requires Enabled(w, a) && id in w.calls
    ensures Fixes(w, Apply(w, a), id)
  {
    hide Tried, Replied, Declined, Lost, ReadingBack;
    match a
    case Try(caller) => TryFixes(w, caller, id);
    case Reply(caller, landing) => AnswerFixes(w, caller, landing, id);
    case Decline(caller) => AnswerFixes(w, caller, Landing(0, 0, 0), id);
    case Lose(caller) => AnswerFixes(w, caller, Landing(0, 0, 0), id);
    case ReadBack(caller) => ReadBackFixes(w, caller, id);
    case _ =>
  }

  /** What a call began with does not change. */
  lemma {:induction false} CallIsFixed(worlds: seq<World>, actions: seq<Action>, id: nat, kind: Kind, n: nat)
    requires IsPath(worlds, actions) && 0 < n < |worlds| && actions[0] == Begin(id, kind)
    ensures id in worlds[n].calls
    ensures var w, call := worlds[0], worlds[n].calls[id];
      && call.kind == kind && call.since == |w.store.history|
      && call.live == w.store.stored.Some? && call.had == HadBy(w, kind)
    decreases n
  {
    assert worlds[n - 1 + 1] == Apply(worlds[n - 1], actions[n - 1]);
    if n > 1 {
      hide Enabled, Apply, HadBy;
      CallIsFixed(worlds, actions, id, kind, n - 1);
      StepFixes(worlds[n - 1], actions[n - 1], id);
    }
  }

  /** Only a landing adds to the history, and what landed is then stored. */
  lemma StepLands(w: World, a: Action)
    requires Enabled(w, a)
    ensures var s, t := w.store, Apply(w, a).store;
      t.history == s.history || (|t.history| == |s.history| + 1 && Stores(t, t.history[|s.history|].record))
  {
    hide Answered;
  }

  /** A record written along a path was stored at an instant of it. */
  lemma {:induction false} WrittenIsHeld(worlds: seq<World>, actions: seq<Action>, n: nat, at: nat)
    requires IsPath(worlds, actions) && Inv(worlds[0]) && n < |worlds|
    requires |worlds[0].store.history| <= at < |worlds[n].store.history|
    ensures HeldDuring(worlds, n, worlds[n].store.history[at].record)
    decreases n
  {
    hide Enabled, Apply, Inv, Stores;
    assert worlds[n - 1 + 1] == Apply(worlds[n - 1], actions[n - 1]);
    StepLands(worlds[n - 1], actions[n - 1]);
    PathGrows(worlds, actions, n - 1, n);
    if at < |worlds[n - 1].store.history| {
      WrittenIsHeld(worlds, actions, n - 1, at);
      var k :| 0 <= k <= n - 1 && Stores(worlds[k].store, worlds[n - 1].store.history[at].record);
      assert Stores(worlds[k].store, worlds[n].store.history[at].record);
    } else {
      assert Stores(worlds[n].store, worlds[n].store.history[at].record);
    }
  }

  /** So a record held at an instant of a call was stored at an instant of the call's path. */
  lemma HeldAtIsHeld(worlds: seq<World>, actions: seq<Action>, id: nat, kind: Kind, n: nat, record: Record, at: nat)
    requires IsPath(worlds, actions) && Inv(worlds[0]) && 0 < n < |worlds| && actions[0] == Begin(id, kind)
    requires id in worlds[n].calls && HeldAt(worlds[n].store, worlds[n].calls[id], record, at)
    ensures HeldDuring(worlds, n, record)
  {
    hide IsPath, Inv;
    CallIsFixed(worlds, actions, id, kind, n);
    PathGrows(worlds, actions, 0, n);
    if at >= worlds[n].calls[id].since {
      WrittenIsHeld(worlds, actions, n, at);
    } else {
      ReadsLast(worlds[0]);
      assert Stores(worlds[0].store, record);
    }
  }

  /** Every success reports a record the store held at an instant of the call, unless the call repeats what its handle's
      record has; that reports the handle's record. */
  lemma SuccessIsHeld(worlds: seq<World>, actions: seq<Action>, id: nat, kind: Kind, n: nat)
    requires IsPath(worlds, actions) && Inv(worlds[0]) && 0 < n < |worlds| && actions[0] == Begin(id, kind)
    requires id in worlds[n].calls && worlds[n].calls[id].phase.Done? && Succeeded(worlds[n].calls[id].phase.outcome)
    ensures var call := worlds[n].calls[id];
      if Repeats(call) then call.had == Some(call.phase.outcome.record)
      else HeldDuring(worlds, n, call.phase.outcome.record)
  {
    hide IsPath, Inv, HeldDuring, HeldAt, Effect, Answered, InHistory, SamePins;
    PathKeeps(worlds, actions, n);
    CallBase(worlds[n], id);
    var call := worlds[n].calls[id];
    if !Repeats(call) {
      var outcome := call.phase.outcome;
      HeldAtIsHeld(worlds, actions, id, kind, n, outcome.record,
                   if outcome.Tracked? then outcome.read.value else outcome.at);
    }
  }

  /** Whatever happens, a call begun now and told it succeeded reports a record the store held meanwhile. */
  ghost predicate AlwaysHeld(w: World, id: nat, kind: Kind) {
    forall worlds: seq<World>, actions: seq<Action>, n: nat :: Succeeds(w, worlds, actions, id, kind, n) ==>
      HeldDuring(worlds, n, worlds[n].calls[id].phase.outcome.record)
  }

  /** A path along which a call begins and succeeds. */
  ghost predicate Succeeds(w: World, worlds: seq<World>, actions: seq<Action>, id: nat, kind: Kind, n: nat) {
    && IsPath(worlds, actions) && worlds[0] == w && 0 < n < |worlds| && actions[0] == Begin(id, kind)
    && SucceededIn(worlds[n], id)
  }

  ghost predicate SucceededIn(w: World, id: nat) {
    id in w.calls && w.calls[id].phase.Done? && Succeeded(w.calls[id].phase.outcome)
  }

  /** A change asked of a working handle whose record already has it, when the store holds another. */
  ghost predicate AsksAgain(w: World, kind: Kind) {
    && kind.Held? && kind.handle in w.handles && !w.handles[kind.handle].fenced && !w.handles[kind.handle].closed
    && Answered(kind.change, w.handles[kind.handle].record) == Nothing
    && !Stores(w.store, w.handles[kind.handle].record)
  }

  /** The promise that a success reports what the store held during the call is kept in every run exactly when the call
      does not repeat, over a record that was replaced, what its handle already has. */
  lemma AlwaysHeldIff(w: World, id: nat, kind: Kind)
    requires Inv(w) && Enabled(w, Begin(id, kind))
    ensures AlwaysHeld(w, id, kind) <==> !AsksAgain(w, kind)
  {
    hide Inv, Answered, Stores, IsPath, HeldDuring;
    if AsksAgain(w, kind) {
      var worlds, actions := AsksAgainInVain(w, id, kind);
      assert Succeeds(w, worlds, actions, id, kind, 2);
    } else {
      forall worlds: seq<World>, actions: seq<Action>, n: nat | Succeeds(w, worlds, actions, id, kind, n)
        ensures HeldDuring(worlds, n, worlds[n].calls[id].phase.outcome.record)
      {
        NotAgainIsHeld(worlds, actions, id, kind, n);
      }
    }
  }

  lemma AsksAgainInVain(w: World, id: nat, kind: Kind) returns (worlds: seq<World>, actions: seq<Action>)
    requires Enabled(w, Begin(id, kind)) && AsksAgain(w, kind)
    ensures IsPath(worlds, actions) && worlds[0] == w && |worlds| == 3 && actions[0] == Begin(id, kind)
    ensures SucceededIn(worlds[2], id) && !HeldDuring(worlds, 2, worlds[2].calls[id].phase.outcome.record)
  {
    hide Answered;
    actions := [Begin(id, kind), Try(id)];
    var w1 := Apply(w, actions[0]);
    worlds := [w, w1, Apply(w1, actions[1])];
  }

  /** A repeated call reports the record its handle had, which was stored when the call began, or its handle is fenced
      or closed and it fails. */
  lemma NotAgainIsHeld(worlds: seq<World>, actions: seq<Action>, id: nat, kind: Kind, n: nat)
    requires IsPath(worlds, actions) && Inv(worlds[0]) && 0 < n < |worlds| && actions[0] == Begin(id, kind)
    requires SucceededIn(worlds[n], id) && !AsksAgain(worlds[0], kind)
    ensures HeldDuring(worlds, n, worlds[n].calls[id].phase.outcome.record)
  {
    hide IsPath, Inv, Answered, Stores;
    CallIsFixed(worlds, actions, id, kind, n);
    SuccessIsHeld(worlds, actions, id, kind, n);
    var call := worlds[n].calls[id];
    if Repeats(call) {
      StoppedNeverSucceeds(worlds, actions, id, kind, n);
      assert Stores(worlds[0].store, call.phase.outcome.record);
    }
  }

  /** A fenced or closed handle stays so. */
  lemma StepStops(w: World, a: Action, h: nat)
    requires Enabled(w, a) && h in w.handles && (w.handles[h].fenced || w.handles[h].closed)
    requires Inv(w)
    ensures h in Apply(w, a).handles && (Apply(w, a).handles[h].fenced || Apply(w, a).handles[h].closed)
  {
    hide Answered, StoreInv, CallInv, TakesTurns, DrawnOnce, Bound;
    if h in w.handles { NotYetTaken(w, h); }
  }

  /** A call of a handle that was fenced or closed when it began never succeeds without asking the store. */
  lemma {:induction false} StoppedNeverSucceeds(worlds: seq<World>, actions: seq<Action>, id: nat, kind: Kind, n: nat)
    requires IsPath(worlds, actions) && Inv(worlds[0]) && 0 < n < |worlds| && actions[0] == Begin(id, kind)
    requires kind.Held? && kind.handle in worlds[0].handles
    requires id in worlds[n].calls && Repeats(worlds[n].calls[id])
    ensures var h, was := kind.handle, worlds[0].handles[kind.handle];
      was.fenced || was.closed ==>
        && h in worlds[n].handles && (worlds[n].handles[h].fenced || worlds[n].handles[h].closed)
        && !SucceededIn(worlds[n], id)
    decreases n
  {
    hide Answered, Inv;
    assert worlds[n - 1 + 1] == Apply(worlds[n - 1], actions[n - 1]);
    if n > 1 {
      CallIsFixed(worlds, actions, id, kind, n - 1);
      CallIsFixed(worlds, actions, id, kind, n);
      StoppedNeverSucceeds(worlds, actions, id, kind, n - 1);
      PathKeeps(worlds, actions, n - 1);
      CallBase(worlds[n - 1], id);
      if worlds[0].handles[kind.handle].fenced || worlds[0].handles[kind.handle].closed {
        StepStops(worlds[n - 1], actions[n - 1], kind.handle);
        StoppedStaysUnsuccessful(worlds[n - 1], actions[n - 1], id);
      }
    }
  }

  lemma StoppedStaysUnsuccessful(w: World, a: Action, id: nat)
    requires Enabled(w, a) && id in w.calls && Repeats(w.calls[id]) && RepeatedPhase(w.calls[id]) && !SucceededIn(w, id)
    requires var h := w.calls[id].kind.handle; h in w.handles ==> w.handles[h].fenced || w.handles[h].closed
    ensures !SucceededIn(Apply(w, a), id)
  {
    hide Answered;
  }

  /** The write that first took the epoch after one. */
  lemma {:induction false} EpochsAreOpened(history: seq<Version>, i: nat, j: nat)
    requires Chain(history) && i <= j < |history| && history[i].record.epoch < history[j].record.epoch
    ensures exists k :: i < k <= j && history[k].change.Some? && history[k].change.value.Opening?
                        && history[k].record.epoch == history[i].record.epoch + 1
    decreases j
  {
    hide Chain;
    ChainStep(history, j);
    if history[j - 1].record.epoch > history[i].record.epoch {
      EpochsAreOpened(history, i, j - 1);
    } else {
      HistoryOnlyAdvances(history, i, j - 1);
      OnlyOpensAdvance(history, j);
    }
  }

  lemma OnlyOpensAdvance(history: seq<Version>, j: nat)
    requires Chain(history) && 0 < j < |history| && history[j - 1].record.epoch < history[j].record.epoch
    ensures history[j].change.Some? && history[j].change.value.Opening?
  {
    assert Linked(history[j - 1], history[j]);
  }

  /** A handle is fenced only after a later open's write has landed, however many pins and releases moved the record
      under it. */
  lemma FencedOnlyByAnOpen(worlds: seq<World>, actions: seq<Action>, n: nat, h: nat)
    requires IsRun(worlds, actions) && n < |worlds| && h in worlds[n].handles && worlds[n].handles[h].fenced
    ensures exists k :: 0 < k < |worlds[n].store.history| && worlds[n].store.history[k].change.Some?
                        && worlds[n].store.history[k].change.value.Opening?
                        && worlds[n].store.history[k].record.epoch == worlds[n].handles[h].epoch + 1
  {
    hide IsRun, StoreInv, CallsInv, AllBound, TakesTurns, Chain, DrawnOnce;
    RunKeeps(worlds, actions, n);
    HandleBase(worlds[n], h);
    StoreChain(worlds[n].store);
    var history, handle := worlds[n].store.history, worlds[n].handles[h];
    var i :| 0 <= i < |history| && history[i].record == handle.record;
    var j :| 0 <= j < |history| && history[j].record.epoch > handle.epoch;
    if j < i { HistoryOnlyAdvances(history, j, i); }
    EpochsAreOpened(history, i, j);
  }

  /** A selection that raced pins and releases was made over them: what it reports has every pin made before it, and
      keeps nothing that had been released and passed. */
  lemma SelectionLosesNothing(worlds: seq<World>, actions: seq<Action>, n: nat, id: nat, i: nat, s: nat)
    requires IsRun(worlds, actions) && n < |worlds| && id in worlds[n].calls
    requires worlds[n].calls[id].phase.Done? && worlds[n].calls[id].phase.outcome.Reported?
    requires i <= worlds[n].calls[id].phase.outcome.at
    ensures i < |worlds[n].store.history|
    ensures var before, reported := worlds[n].store.history[i].record, worlds[n].calls[id].phase.outcome.record;
      && (before.IsPinned(s) ==> reported.IsPinned(s))
      && (!before.IsKept(s) && s < before.selected ==> !reported.IsKept(s))
  {
    hide IsRun, Inv, Effect, Answered, Chain, Record.IsKept;
    SuccessWasStored(worlds, actions, n, id);
    RunKeeps(worlds, actions, n);
    ChainBase(worlds[n]);
    var history, at := worlds[n].store.history, worlds[n].calls[id].phase.outcome.at;
    HistoryOnlyAdvances(history, i, at);
    if !history[i].record.IsKept(s) && s < history[i].record.selected {
      ReleaseIsFinal(history, i, at, s);
    }
  }

  /** A pin made without the epoch and a release of one checkpoint, both begun once it was kept, unforked and no longer
      selected, do not both succeed, unless the writer itself forks it. */
  lemma PinOrRelease(worlds: seq<World>, actions: seq<Action>, n: nat, pin: nat, release: nat, s: nat, i: nat)
    requires IsRun(worlds, actions) && n < |worlds| && pin in worlds[n].calls && release in worlds[n].calls && s != 0
    requires worlds[n].calls[pin].kind == Unheld(Pinning(s)) && worlds[n].calls[release].kind == Unheld(Releasing(s))
    requires i < worlds[n].calls[pin].since && i < worlds[n].calls[release].since && i < |worlds[n].store.history|
    requires var record := worlds[n].store.history[i].record;
      record.IsKept(s) && !record.IsPinned(s) && s < record.selected
    requires !WriterForks(worlds[n].store.history, i, |worlds[n].store.history| - 1, s)
    requires worlds[n].calls[pin].phase.Done? && worlds[n].calls[pin].phase.outcome.Reported?
    ensures !(worlds[n].calls[release].phase.Done? && worlds[n].calls[release].phase.outcome.Reported?)
  {
    hide IsRun, Inv, Answered, Chain, Record.IsKept, Record.IsPinned, WriterForks;
    var calls := worlds[n].calls;
    SuccessWasStored(worlds, actions, n, pin);
    RunKeeps(worlds, actions, n);
    ChainBase(worlds[n]);
    if calls[release].phase.Done? && calls[release].phase.outcome.Reported? {
      SuccessWasStored(worlds, actions, n, release);
      PinAndReleaseExclude(worlds[n].store.history, i, calls[pin].phase.outcome.at, calls[release].phase.outcome.at, s);
    }
  }

  /** A removal reports the pins of the record it removed, whatever moved the record meanwhile. */
  lemma RemovalReportsThePins(worlds: seq<World>, actions: seq<Action>, n: nat, id: nat)
    requires IsRun(worlds, actions) && n < |worlds| && id in worlds[n].calls
    requires worlds[n].calls[id].phase.Done? && worlds[n].calls[id].phase.outcome.Removed?
    ensures worlds[n].store.stored.None? && worlds[n].store.history != []
    ensures SamePins(worlds[n].calls[id].phase.outcome.record,
                     worlds[n].store.history[|worlds[n].store.history| - 1].record)
  {
    hide IsRun, HeldAt, Effect, Answered, InHistory, SamePins, CallsInv, HandlesInv, AllBound, TakesTurns, DrawnOnce;
    hide Chain;
    RunKeeps(worlds, actions, n);
    CallBase(worlds[n], id);
  }

  // ----------------------------------------------------- a success that says little

  /** A VM created at epoch 1 and taken over at epoch 2, with the first writer not yet told. */
  ghost function TakenOverRun(): seq<Action> {
    [Begin(0, Create(1, Sequence(1, 1), true)), Try(0), Arrive(0, 10), Reply(0, Landing(0, 10, 0)),
     Begin(1, Unheld(Opening(2, 0, None))), Try(1), Arrive(1, 11)]
  }

  ghost function FirstVersion(): Record { FirstRecord(1, Sequence(1, 1), true) }

  ghost predicate TakenOver(w: World) {
    && w.handles == map[0 := NewHandle(FirstVersion(), 10)]
    && 2 !in w.calls && (forall id :: id in w.calls ==> !w.calls[id].kind.Held?)
    && |w.store.history| == 2 && w.store.history[1].record.epoch == 2
  }

  lemma TakesOver() returns (worlds: seq<World>)
    ensures IsRun(worlds, TakenOverRun()) && TakenOver(worlds[|TakenOverRun()|])
  {
    hide Record.Valid;
    var a := TakenOverRun();
    var w1 := Apply(Initial(), a[0]);
    var w2 := Apply(w1, a[1]);
    var w3 := Apply(w2, a[2]);
    var w4 := Apply(w3, a[3]);
    var w5 := Apply(w4, a[4]);
    var w6 := Apply(w5, a[5]);
    var w7 := Apply(w6, a[6]);
    worlds := [Initial(), w1, w2, w3, w4, w5, w6, w7];
  }

  /** A writer that selects again what its own record already selects is told it succeeded without the store being
      asked, even after a takeover landed: only a selection that writes is known to have been stored during the call. */
  lemma RepeatedSelectMayBeStale()
    ensures exists worlds, actions, id :: IsRun(worlds, actions) && Stale(worlds[|actions|], id)
  {
    hide TakenOverRun;
    var worlds := TakesOver();
    var w := worlds[|TakenOverRun()|];
    var select := Begin(2, Held(0, Selecting(Sequence(1, 1), None, [])));
    var w1 := Apply(w, select);
    var w2 := Apply(w1, Try(2));
    var all, actions := worlds + [w1, w2], TakenOverRun() + [select, Try(2)];
    assert IsRun(all, actions) && Stale(all[|actions|], 2);
  }

  /** A call succeeded with a record that had been replaced by a later epoch's before the call began. */
  ghost predicate Stale(w: World, id: nat) {
    && id in w.calls && w.calls[id].phase.Done? && w.calls[id].phase.outcome.Tracked?
    && exists i :: 0 <= i < |w.store.history| && i < w.calls[id].since
                   && w.store.history[i].record.epoch > w.calls[id].phase.outcome.record.epoch
  }
}
