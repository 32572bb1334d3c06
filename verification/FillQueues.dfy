/** The room of the fill queue, and when a fill gives its room back.

Work that never waits, a read's fill or a repair, takes room or is dropped. A
publication's window waits for room below the high-water mark, in turn. Every method
is one critical section of the filler's lock.

A fill's room is given back by whoever ends it: the last of its holders' jobs, or the
worker that seals it when no job is left.
*/
module FillQueues {
  import opened Sums

  datatype Waiter = Waiter(id: nat, bytes: nat)

  /** How far a fill has got: the jobs in flight for it, whether every holder is decided, and whether its room is due
      back. */
  datatype Placement = Placement(pending: nat, sealed: bool, room: nat, bytes: nat, due: bool)

  datatype Verdict = Granted(room: nat) | Queued | Dropped

  class FillQueue {
    const queueBytes: nat
    var queued: nat
    var waiting: seq<Waiter>
    var closed: bool
    var next: nat
    /** The windows that waited and were given room. */
    var given: set<nat>
    /** Placements by number. */
    var fills: map<nat, Placement>
    /** The room held by work not yet done, by the number it was given. */
    ghost var rooms: map<nat, nat>

    function HighWater(): nat { queueBytes - queueBytes / 4 }

    predicate FitsPaced(bytes: nat)
      reads this`queued
    {
      queued == 0 || queued + bytes <= HighWater()
    }

    /** What holds of the queue whether or not the first window waiting fits. */
    ghost predicate Kept()
      reads this
    {
      && queued == Sum(rooms) && (queued <= queueBytes || exists r :: r in rooms && rooms[r] == queued)
      && PlacementsValid(fills, rooms) && (forall p :: p in fills ==> p < next)
      && Numbered(rooms, waiting, next) && Ungiven(given, waiting, next)
    }

    /** The queue's bytes are the room held. The bound is passed only by one piece alone. While the queue is open, the
        first window waiting is one that does not fit. */
    ghost predicate Valid()
      reads this
    {
      && Kept()
      && (!closed && waiting != [] ==> !FitsPaced(waiting[0].bytes))
      && (closed ==> waiting == [])
    }

    constructor (queueBytes: nat)
      ensures Valid() && this.queueBytes == queueBytes && rooms == map[] && waiting == [] && !closed
    {
      this.queueBytes := queueBytes;
      queued, waiting, closed, next, fills, rooms, given := 0, [], false, 0, map[], map[], {};
    }

    /** Takes room under a number nobody has. */
    method Take(room: nat, bytes: nat)
      requires room !in rooms && queued == Sum(rooms)
      modifies this`queued, this`rooms
      ensures rooms == old(rooms)[room := bytes] && queued == Sum(rooms) == old(queued) + bytes
    {
      SumAdd(rooms, room, bytes);
      queued, rooms := queued + bytes, rooms[room := bytes];
    }

    /** Room for work that never waits: it is dropped when the queue is past its bound, except alone. */
    method Reserve(bytes: nat) returns (verdict: Verdict)
      requires Valid()
      modifies this`queued, this`rooms, this`next
      ensures Valid() && !verdict.Queued?
      ensures verdict.Granted? <==> !closed && (old(queued) == 0 || old(queued) + bytes <= queueBytes)
      ensures verdict.Granted? ==> verdict.room !in old(rooms) && rooms == old(rooms)[verdict.room := bytes]
      ensures verdict.Dropped? ==> rooms == old(rooms)
    {
      if (queued > 0 && queued + bytes > queueBytes) || closed {
        return Dropped;
      }
      var room := next;
      FirstAlone(queued == 0);
      Take(room, bytes);
      assert rooms[room] == bytes;
      next := next + 1;
      verdict := Granted(room);
    }

    lemma FirstAlone(empty: bool)
      requires Valid() && empty == (queued == 0) && !closed
      ensures empty ==> waiting == []
    {
    }

    /** Room for a publication's window. It is given none ahead of a window already waiting, and waits only while its
        publication still does. */
    method Ask(bytes: nat, waits: bool) returns (verdict: Verdict, id: nat)
      requires Valid()
      modifies this`queued, this`rooms, this`next, this`waiting
      ensures Valid()
      ensures verdict.Granted? <==> !closed && old(waiting) == [] && old(FitsPaced(bytes))
      ensures verdict.Granted? ==>
        verdict.room !in old(rooms) && rooms == old(rooms)[verdict.room := bytes] && waiting == []
      ensures verdict.Queued? ==> rooms == old(rooms) && waiting == old(waiting) + [Waiter(id, bytes)]
      ensures verdict.Dropped? ==> rooms == old(rooms) && waiting == old(waiting) && (closed || !waits)
    {
      id := next;
      if closed {
        return Dropped, id;
      }
      if waiting == [] && FitsPaced(bytes) {
        Take(next, bytes);
        assert rooms[id] == bytes;
        next := next + 1;
        return Granted(id), id;
      }
      if !waits {
        return Dropped, id;
      }
      waiting := waiting + [Waiter(next, bytes)];
      next := next + 1;
      verdict := Queued;
    }

    /** Gives room to the first window waiting, which fits. */
    method GiveFirst()
      requires Kept() && waiting != [] && FitsPaced(waiting[0].bytes)
      modifies this`queued, this`rooms, this`waiting, this`given
      ensures Kept() && waiting == old(waiting)[1..] && given == old(given) + {old(waiting)[0].id}
      ensures rooms == old(rooms)[old(waiting)[0].id := old(waiting)[0].bytes]
    {
      hide Sum, Ungiven;
      GivenStep(given, rooms, waiting, next);
      NumberedStep(rooms, waiting, next);
      var w := waiting[0];
      Take(w.id, w.bytes);
      assert rooms[w.id] == w.bytes;
      waiting, given := waiting[1..], given + {w.id};
    }

    /** Gives room to the windows waiting, from the first, while each fits. */
    method GiveRoom()
      requires Kept() && !closed
      modifies this`queued, this`rooms, this`waiting, this`given
      ensures Valid()
      ensures Passed(old(rooms), rooms, old(waiting), waiting, old(given), given, HighWater())
    {
      hide Sum, PlacementsValid, Numbered, Ungiven, GrantedTo, IdsOf, InTurn;
      ghost var k := 0;
      NoneGranted(rooms, waiting, HighWater());
      while waiting != [] && FitsPaced(waiting[0].bytes)
        invariant Kept() && k <= |old(waiting)| && waiting == old(waiting)[k..]
        invariant rooms == GrantedTo(old(rooms), old(waiting)[..k]) && given == old(given) + IdsOf(old(waiting)[..k])
        invariant InTurn(old(rooms), old(waiting), k, HighWater())
        decreases |waiting|
      {
        GrantedStep(old(rooms), old(waiting), k);
        TurnStep(old(rooms), old(waiting), k, HighWater());
        GiveFirst();
        k := k + 1;
      }
      KeptIsValid();
    }

    lemma KeptIsValid()
      requires Kept() && !closed && (waiting != [] ==> !FitsPaced(waiting[0].bytes))
      ensures Valid()
    {
    }

    /** Gives back what work held, once it is done or dropped, and the room to the windows waiting. */
    method Release(ghost room: nat, bytes: nat)
      requires Valid() && room in rooms && rooms[room] == bytes && forall p :: p in fills ==> fills[p].room != room
      modifies this`queued, this`rooms, this`waiting, this`given
      ensures Valid() && (closed ==> rooms == old(rooms) - {room} && waiting == old(waiting) && given == old(given))
      ensures !closed ==> Passed(old(rooms) - {room}, rooms, old(waiting), waiting, old(given), given, HighWater())
    {
      SumRemove(rooms, room);
      LessStillBound(rooms, room, queueBytes);
      queued := queued - bytes;
      rooms := rooms - {room};
      if !closed {
        GiveRoom();
      }
    }

    /** A window that waited out its bound leaves, unless it has room by then or the fills have closed, and may have
        held the next one back. */
    method Leave(id: nat) returns (granted: bool)
      requires Valid()
      modifies this`queued, this`rooms, this`waiting, this`given
      ensures Valid() && (granted <==> id in old(given))
      ensures granted || closed ==> rooms == old(rooms) && waiting == old(waiting) && given == old(given)
      ensures !granted && !closed ==>
        Passed(old(rooms), rooms, Others(old(waiting), id), waiting, old(given), given, HighWater())
    {
      OthersAre(waiting, id);
      granted := id in given;
      if !granted && !closed {
        waiting := Others(waiting, id);
        GiveRoom();
      }
    }

    /** A fill is split: its room is its placement's from now on. */
    method Place(room: nat, bytes: nat) returns (p: nat)
      requires Valid() && room in rooms && rooms[room] == bytes && forall q :: q in fills ==> fills[q].room != room
      modifies this`fills, this`next
      ensures Valid() && p !in old(fills) && fills == old(fills)[p := Placement(0, false, room, bytes, false)]
    {
      p := next;
      fills, next := fills[p := Placement(0, false, room, bytes, false)], next + 1;
    }

    /** A job of a fill is handed to a holder's lane, before the fill is sealed, unless the fills have closed. */
    method Enqueue(p: nat) returns (taken: bool)
      requires Valid() && p in fills && !fills[p].sealed
      modifies this`fills
      ensures Valid() && (taken <==> !closed)
      ensures fills == if taken then old(fills)[p := old(fills)[p].(pending := old(fills)[p].pending + 1)]
        else old(fills)
    {
      taken := !closed;
      if !taken { return; }
      fills := fills[p := fills[p].(pending := fills[p].pending + 1)];
    }

    /** A job ends. The last one of a sealed fill finds the fill's room due back, and not before. */
    method End(p: nat) returns (last: bool)
      requires Valid() && p in fills && fills[p].pending > 0
      modifies this`fills
      ensures Valid() && !old(fills)[p].due && (last <==> p in fills && fills[p].due)
      ensures fills == old(fills)[p := old(fills)[p].(pending := old(fills)[p].pending - 1, due := last)]
    {
      var pending := fills[p].pending - 1;
      last := pending == 0 && fills[p].sealed;
      fills := fills[p := fills[p].(pending := pending, due := last)];
    }

    /** Every holder of a fill is decided. With no job left its room is due back now. */
    method Seal(p: nat) returns (last: bool)
      requires Valid() && p in fills && !fills[p].sealed
      modifies this`fills
      ensures Valid() && !old(fills)[p].due && (last <==> p in fills && fills[p].due)
      ensures fills == old(fills)[p := old(fills)[p].(sealed := true, due := last)]
    {
      last := fills[p].pending == 0;
      fills := fills[p := fills[p].(sealed := true, due := last)];
    }

    /** The one release of a fill's room: whoever found it due makes it, and the fill is gone. */
    method ReleaseFill(p: nat)
      requires Valid() && p in fills && fills[p].due
      modifies this`fills, this`queued, this`rooms, this`waiting, this`given
      ensures Valid() && fills == old(fills) - {p}
      ensures closed ==> rooms == old(rooms) - {old(fills)[p].room}
      ensures !closed ==>
        Passed(old(rooms) - {old(fills)[p].room}, rooms, old(waiting), waiting, old(given), given, HighWater())
    {
      var fill := fills[p];
      fills := fills - {p};
      Release(fill.room, fill.bytes);
    }

    /** Once the fills close, nobody waits and nobody is given room. */
    method Close()
      requires Valid()
      modifies this`closed, this`waiting
      ensures Valid() && closed && waiting == []
    {
      closed, waiting := true, [];
    }
  }

  /** Windows at the front of the queue took room, in order, each when it fitted, and the others still wait. */
  ghost predicate Passed(before: map<nat, nat>, after: map<nat, nat>, waited: seq<Waiter>, waiting: seq<Waiter>,
                         was: set<nat>, given: set<nat>, highWater: nat)
  {
    exists k :: 0 <= k <= |waited| && waiting == waited[k..] && after == GrantedTo(before, waited[..k])
                && given == was + IdsOf(waited[..k]) && InTurn(before, waited, k, highWater)
  }

  ghost function IdsOf(list: seq<Waiter>): set<nat> { set w | w in list :: w.id }

  /** Each of the first so many fitted under the mark, or was alone, when the ones before it had their room. */
  ghost predicate InTurn(rooms: map<nat, nat>, waited: seq<Waiter>, k: nat, highWater: nat) {
    k <= |waited| && forall j :: 0 <= j < k ==>
      var held := Sum(GrantedTo(rooms, waited[..j])); held == 0 || held + waited[j].bytes <= highWater
  }

  lemma NoneGranted(rooms: map<nat, nat>, waited: seq<Waiter>, highWater: nat)
    ensures waited[0..] == waited && GrantedTo(rooms, waited[..0]) == rooms && IdsOf(waited[..0]) == {}
    ensures InTurn(rooms, waited, 0, highWater)
  {
    assert waited[..0] == [];
  }

  lemma TurnStep(rooms: map<nat, nat>, waited: seq<Waiter>, k: nat, highWater: nat)
    requires InTurn(rooms, waited, k, highWater) && k < |waited|
    requires var held := Sum(GrantedTo(rooms, waited[..k])); held == 0 || held + waited[k].bytes <= highWater
    ensures InTurn(rooms, waited, k + 1, highWater)
  {
    hide Sum, GrantedTo;
  }

  /** No window still waiting was given room, and none has yet to be numbered. */
  ghost predicate Ungiven(given: set<nat>, waiting: seq<Waiter>, next: nat) {
    && (forall id :: id in given ==> id < next)
    && (forall i :: 0 <= i < |waiting| ==> waiting[i].id !in given)
  }

  lemma GivenStep(given: set<nat>, rooms: map<nat, nat>, waiting: seq<Waiter>, next: nat)
    requires Ungiven(given, waiting, next) && Numbered(rooms, waiting, next) && waiting != []
    ensures Ungiven(given + {waiting[0].id}, waiting[1..], next)
  {
  }

  lemma GrantedStep(rooms: map<nat, nat>, waited: seq<Waiter>, k: nat)
    requires k < |waited|
    ensures GrantedTo(rooms, waited[..k + 1]) == GrantedTo(rooms, waited[..k])[waited[k].id := waited[k].bytes]
    ensures IdsOf(waited[..k + 1]) == IdsOf(waited[..k]) + {waited[k].id}
  {
    var first := waited[..k + 1];
    assert first[..|first| - 1] == waited[..k] && first[|first| - 1] == waited[k];
    assert first == waited[..k] + [waited[k]];
  }

  function Others(waiting: seq<Waiter>, id: nat): seq<Waiter> {
    if waiting == [] then [] else if waiting[0].id == id then Others(waiting[1..], id)
      else [waiting[0]] + Others(waiting[1..], id)
  }

  lemma {:induction false} OthersAre(waiting: seq<Waiter>, id: nat)
    requires forall i, j :: 0 <= i < j < |waiting| ==> waiting[i].id != waiting[j].id
    ensures forall w :: w in Others(waiting, id) <==> w in waiting && w.id != id
    ensures forall i, j :: 0 <= i < j < |Others(waiting, id)| ==> Others(waiting, id)[i].id != Others(waiting, id)[j].id
    ensures forall i :: 0 <= i < |Others(waiting, id)| ==> Others(waiting, id)[i] in waiting
  {
    if waiting != [] {
      var rest := waiting[1..];
      OthersAre(rest, id);
      assert waiting == [waiting[0]] + rest;
      assert forall i :: 0 <= i < |rest| ==> rest[i].id != waiting[0].id;
      var others := Others(rest, id);
      forall i | 0 <= i < |others| ensures others[i].id != waiting[0].id {
        var j :| 0 <= j < |rest| && rest[j] == others[i];
      }
    }
  }

  ghost predicate Numbered(rooms: map<nat, nat>, waiting: seq<Waiter>, next: nat) {
    && (forall r :: r in rooms ==> r < next) &&
      (forall i :: 0 <= i < |waiting| ==> waiting[i].id < next && waiting[i].id !in rooms)
    && (forall i, j :: 0 <= i < j < |waiting| ==> waiting[i].id != waiting[j].id)
  }

  lemma NumberedStep(rooms: map<nat, nat>, waiting: seq<Waiter>, next: nat)
    requires waiting != [] && Numbered(rooms, waiting, next)
    ensures Numbered(rooms[waiting[0].id := waiting[0].bytes], waiting[1..], next)
  {
  }

  /** The rooms once the windows of a list have theirs, in order. */
  ghost function GrantedTo(rooms: map<nat, nat>, list: seq<Waiter>): map<nat, nat> {
    if list == [] then rooms
    else GrantedTo(rooms, list[..|list| - 1])[list[|list| - 1].id := list[|list| - 1].bytes]
  }

  /** A fill's room is held until it is due back, and due exactly when it is sealed with no job left. */
  ghost predicate PlacementsValid(fills: map<nat, Placement>, rooms: map<nat, nat>) {
    && (forall p :: p in fills ==>
        fills[p].room in rooms && rooms[fills[p].room] == fills[p].bytes &&
          (fills[p].due <==> fills[p].sealed && fills[p].pending == 0))
    && (forall p, q :: p in fills && q in fills && p != q ==> fills[p].room != fills[q].room)
  }

  /** With a room given back, the bound is passed by no more than one piece. */
  lemma LessStillBound(rooms: map<nat, nat>, room: nat, bound: nat)
    requires room in rooms && (Sum(rooms) <= bound || exists r :: r in rooms && rooms[r] == Sum(rooms))
    ensures var left := rooms - {room}; Sum(left) <= bound || exists r :: r in left && left[r] == Sum(left)
  {
    SumRemove(rooms, room);
    if Sum(rooms) > bound {
      var r :| r in rooms && rooms[r] == Sum(rooms);
      if r != room {
        SumRemove(rooms - {room}, r);
        assert (rooms - {room})[r] == Sum(rooms - {room});
      }
    }
  }
}
