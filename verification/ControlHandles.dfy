/** A writer's handle on its control record, as the object its methods update.

The store's answers come in as values: whether a write was acknowledged, and what the
read that follows an unacknowledged one returned. The retry loop of a change runs
over as many answers as there are.
*/
module ControlHandles {
  import opened Refs
  import opened ControlRecords
  import opened ControlProtocol
  import opened ControlSafety

  /** What the store says to one write: the validator of an acknowledged one, else the record read back, if readable. */
  datatype Reply = Acknowledged(etag: ETag) | ReadAs(observed: Object) | Unreadable

  datatype Replaced = Wrote(record: Record) | RetryOver | Stopped(error: Error)

  /** What one write and its reconciliation make of a handle, and of the change. */
  function AfterWrite(handle: Handle, next: Record, reply: Reply): (Handle, Replaced) {
    match reply
    case Acknowledged(etag) => (handle.Settle(next, etag), Wrote(next))
    case Unreadable => (handle, Stopped(StoreFailed))
    case ReadAs(observed) =>
      (Reconciled(handle, next, observed),
       match VerdictOn(handle, next, observed.record)
       case Landed => Wrote(observed.record)
       case NotWritten => Stopped(StoreFailed)
       case Adopted => RetryOver
       case TakenOver => Stopped(Fenced))
  }

  /** A change made over and over until the store settles it; out of answers, the caller's context has ended. */
  function Changed(handle: Handle, change: Change, replies: seq<Reply>): (Handle, Replaced)
    decreases |replies|
  {
    if handle.fenced then (handle, Stopped(Fenced))
    else if handle.closed then (handle, Stopped(Closed))
    else match Answered(change, handle.record)
      case Refuse(why) => (handle, Stopped(Because(why)))
      case Nothing => (handle, Wrote(handle.record))
      case Write(next) =>
        if replies == [] then (handle, Stopped(StoreFailed))
        else
          var (after, result) := AfterWrite(handle, next, replies[0]);
          if result.RetryOver? then Changed(after, change, replies[1..]) else (after, result)
  }

  class WriterHandle {
    const epoch: nat
    const nonce: Nonce
    var record: Record
    var etag: ETag
    var fenced: bool
    var closed: bool

    ghost function Value(): Handle
      reads this
    {
      Handle(epoch, nonce, record, etag, fenced, closed)
    }

    constructor (record: Record, etag: ETag)
      ensures Value() == NewHandle(record, etag)
    {
      this.epoch, this.nonce, this.record, this.etag := record.epoch, record.nonce, record, etag;
      fenced, closed := false, false;
    }

    method Close()
      modifies this`closed
      ensures Value() == old(Value()).(closed := true)
    {
      closed := true;
    }

    method Settle(record: Record, etag: ETag, fenced: bool)
      modifies this`record, this`etag, this`fenced
      ensures !fenced ==> Value() == old(Value()).Settle(record, etag)
      ensures fenced ==> Value() == old(Value()).Fence(etag)
    {
      this.fenced := this.fenced || fenced;
      this.etag := etag;
      if !fenced {
        this.record := record;
      }
    }

    /** One write under the validator the handle tracks, reconciled when its reply is lost or it is refused. */
    method Replace(next: Record, reply: Reply) returns (result: Replaced)
      modifies this
      ensures (Value(), result) == AfterWrite(old(Value()), next, reply)
    {
      match reply
      case Acknowledged(etag) =>
        Settle(next, etag, false);
        result := Wrote(next);
      case Unreadable =>
        result := Stopped(StoreFailed);
      case ReadAs(observed) =>
        if observed.record == next {
          Settle(observed.record, observed.etag, false);
          result := Wrote(observed.record);
        } else if observed.record == record {
          Settle(record, observed.etag, false);
          result := Stopped(StoreFailed);
        } else if observed.record.Mine(epoch, next.nonce) {
          Settle(observed.record, observed.etag, false);
          result := RetryOver;
        } else {
          Settle(record, observed.etag, true);
          result := Stopped(Fenced);
        }
    }

    /** The change, made again over every record the handle adopts. */
    method Update(change: Change, replies: seq<Reply>) returns (result: Replaced)
      modifies this
      ensures (Value(), result) == Changed(old(Value()), change, replies)
    {
      var k := 0;
      while true
        invariant k <= |replies|
        invariant Changed(old(Value()), change, replies) == Changed(Value(), change, replies[k..])
        decreases |replies| - k
      {
        if fenced {
          return Stopped(Fenced);
        }
        if closed {
          return Stopped(Closed);
        }
        match Answered(change, record)
        case Refuse(why) => return Stopped(Because(why));
        case Nothing => return Wrote(record);
        case Write(next) =>
          if k == |replies| {
            return Stopped(StoreFailed);
          }
          result := Replace(next, replies[k]);
          assert replies[k..][0] == replies[k] && replies[k..][1..] == replies[k + 1..];
          k := k + 1;
          if !result.RetryOver? {
            return;
          }
      }
    }
  }

  // ------------------------------------------------------------------- what it means

  predicate IsWriters(change: Change) { change.Selecting? || change.Forking? }

  ghost predicate Owns(handle: Handle) { handle.record.Valid() && handle.record.Mine(handle.epoch, handle.nonce) }

  ghost predicate Readable(reply: Reply) { reply.ReadAs? ==> reply.observed.record.Valid() }

  /** One write leaves the handle owning a record of its own epoch, or fenced by one of another. */
  lemma AfterWriteOwns(handle: Handle, change: Change, reply: Reply)
    requires Owns(handle) && !handle.fenced && IsWriters(change) && Asked(change) && Readable(reply)
    requires Answered(change, handle.record).Write?
    ensures var next := Answered(change, handle.record).next;
      var (after, result) := AfterWrite(handle, next, reply);
      && Owns(after) && after.epoch == handle.epoch && after.nonce == handle.nonce && after.closed == handle.closed
      && (after.fenced <==> reply.ReadAs? && !reply.observed.record.Mine(handle.epoch, handle.nonce))
      && (result.Wrote? ==>
          after.record == result.record && Effect(change, result.record, About(change, handle.record)))
      && (result == Stopped(Fenced) <==> after.fenced)
  {
    hide Effect, Record.Valid;
    ChangesAreValid(change, handle.record);
    WriteMeans(change, handle.record);
  }

  /** A change that succeeds leaves the handle tracking the record it reports, which is of the handle's epoch and has
      the change; a pin or a release that moved the record meanwhile never fences the handle, and only a record of
      another epoch or nonce does. */
  lemma {:induction false} ChangeSettles(handle: Handle, change: Change, replies: seq<Reply>)
    requires Owns(handle) && !handle.fenced && IsWriters(change) && Asked(change)
    requires forall i :: 0 <= i < |replies| ==> Readable(replies[i])
    ensures var (after, result) := Changed(handle, change, replies);
      && Owns(after) && after.epoch == handle.epoch && after.nonce == handle.nonce
      && !result.RetryOver?
      && (result.Wrote? ==> after.record == result.record && Effect(change, result.record, Subject(change)))
      && (result == Stopped(Fenced) <==> after.fenced)
      && (after.fenced ==>
            exists i :: 0 <= i < |replies| && replies[i].ReadAs? &&
              !replies[i].observed.record.Mine(handle.epoch, handle.nonce))
    decreases |replies|
  {
    hide Effect, Record.Valid;
    if !handle.closed {
      match Answered(change, handle.record)
      case Refuse(why) =>
      case Nothing => NothingMeans(change, handle.record);
      case Write(next) =>
        if replies != [] {
          AfterWriteOwns(handle, change, replies[0]);
          var (after, result) := AfterWrite(handle, next, replies[0]);
          if result.RetryOver? {
            ChangeSettles(after, change, replies[1..]);
            var rest := replies[1..];
            if exists i ::
                 0 <= i < |rest| && rest[i].ReadAs? && !rest[i].observed.record.Mine(handle.epoch, handle.nonce)
            {
              var i :| 0 <= i < |rest| && rest[i].ReadAs? && !rest[i].observed.record.Mine(handle.epoch, handle.nonce);
              assert replies[i + 1] == rest[i];
            }
          }
        }
    }
  }

  /** The checkpoint a writer's change is about, whatever record it is made over. */
  function Subject(change: Change): nat
    requires IsWriters(change)
  {
    change.sequence
  }
}
