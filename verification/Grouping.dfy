/** Grouping the members a run needs into the extents that fetch them.

One ranged read serves members of one part that lie next to each other, or near enough
that reading through the gap between them costs less than a second request.
*/
module Grouping {
  import opened Refs
  import opened Geometries
  import opened Roots
  import opened Runs

  /** The bytes one request fetches out of one part, and the positions of the members it serves. */
  datatype ReadExtent = ReadExtent(ref: Ref, part: nat, offset: nat, length: nat, members: seq<nat>) {
    function End(): nat { offset + length }
  }

  function EndOf(at: Location): nat { at.offset + at.length }

  /** The order members are fetched in: by checkpoint, then part, then offset. */
  predicate Before(a: Location, b: Location) {
    if a.ref != b.ref then RefLess(a.ref, b.ref) else if a.part != b.part then a.part < b.part else a.offset < b.offset
  }

  lemma NotBeforeThrough(a: Location, b: Location, c: Location)
    requires !Before(b, a) && !Before(c, b)
    ensures !Before(c, a)
  {
    RefLessTotal(a.ref, b.ref);
    RefLessTotal(b.ref, c.ref);
    RefLessTotal(a.ref, c.ref);
    if RefLess(c.ref, a.ref) && RefLess(a.ref, b.ref) { RefLessTransitive(c.ref, a.ref, b.ref); }
    if RefLess(b.ref, c.ref) && RefLess(c.ref, a.ref) { RefLessTransitive(b.ref, c.ref, a.ref); }
  }

  ghost predicate InOrder(members: seq<Location>, order: seq<nat>) {
    && (forall i :: 0 <= i < |order| ==> order[i] < |members|)
    && (forall i, j :: 0 <= i < j < |order| ==> !Before(members[order[j]], members[order[i]]))
  }

  function Insert(members: seq<Location>, order: seq<nat>, k: nat): seq<nat>
    requires k < |members| && forall i :: 0 <= i < |order| ==> order[i] < |members|
  {
    if order == [] || Before(members[k], members[order[0]]) then [k] + order
    else [order[0]] + Insert(members, order[1..], k)
  }

  lemma {:induction false} InsertOrders(members: seq<Location>, order: seq<nat>, k: nat)
    requires k < |members| && InOrder(members, order)
    ensures InOrder(members, Insert(members, order, k))
    ensures multiset(Insert(members, order, k)) == multiset(order) + multiset{k}
  {
    hide Before;
    if order != [] && !Before(members[k], members[order[0]]) {
      var rest := order[1..];
      InsertOrders(members, rest, k);
      var after := Insert(members, rest, k);
      assert order == [order[0]] + rest;
      forall i | 0 <= i < |after| ensures after[i] < |members| && !Before(members[after[i]], members[order[0]]) {
        assert after[i] in multiset(after);
        assert after[i] == k || after[i] in rest;
      }
    } else if order != [] {
      forall i | 0 <= i < |order| ensures !Before(members[order[i]], members[k]) {
        FirstIsBefore(members, order, k, i);
      }
    }
  }

  lemma FirstIsBefore(members: seq<Location>, order: seq<nat>, k: nat, i: nat)
    requires k < |members| && InOrder(members, order) && i < |order| && Before(members[k], members[order[0]])
    ensures !Before(members[order[i]], members[k])
  {
    RefLessTotal(members[k].ref, members[order[0]].ref);
    assert !Before(members[order[0]], members[k]);
    if i > 0 { NotBeforeThrough(members[k], members[order[0]], members[order[i]]); }
  }

  method Sort(members: seq<Location>) returns (order: seq<nat>)
    ensures InOrder(members, order) && multiset(order) == multiset(Positions(|members|))
  {
    order := [];
    for k := 0 to |members|
      invariant InOrder(members, order) && multiset(order) == multiset(Positions(k))
    {
      InsertOrders(members, order, k);
      order := Insert(members, order, k);
      assert Positions(k + 1) == Positions(k) + [k];
    }
  }

  function Positions(n: nat): seq<nat> { seq(n, i => i) }

  // ---------------------------------------------------------------------- grouping

  function Flat(extents: seq<ReadExtent>): seq<nat> {
    if extents == [] then [] else Flat(extents[..|extents| - 1]) + extents[|extents| - 1].members
  }

  /** How far the first n members of an extent reach. */
  function Reach(members: seq<Location>, extent: ReadExtent, n: nat): nat
    requires n <= |extent.members| && forall i :: 0 <= i < |extent.members| ==> extent.members[i] < |members|
  {
    if n == 0 then extent.offset else Max(Reach(members, extent, n - 1), EndOf(members[extent.members[n - 1]]))
  }

  /** An extent of one part that begins at its first member and reaches as far as its members do, each beginning within
      reading-through distance of the ones before it. More than one member never costs more than one request carries. */
  ghost predicate Sound(members: seq<Location>, extent: ReadExtent) {
    && extent.members != [] && (forall i :: 0 <= i < |extent.members| ==> extent.members[i] < |members|)
    && extent.offset == members[extent.members[0]].offset && extent.End() == Reach(members, extent, |extent.members|)
    && (forall i :: 0 <= i < |extent.members| ==> Serves(members, extent, i))
    && (|extent.members| > 1 ==> extent.length <= MAXIMUM_READ_EXTENT)
  }

  ghost predicate Serves(members: seq<Location>, extent: ReadExtent, i: nat)
    requires i < |extent.members| && forall k :: 0 <= k < |extent.members| ==> extent.members[k] < |members|
  {
    var at := members[extent.members[i]];
    && at.ref == extent.ref && at.part == extent.part
    && extent.offset <= at.offset && EndOf(at) <= extent.End()
    && (i > 0 ==> at.offset <= Reach(members, extent, i) + READ_THROUGH)
  }

  /** A member joins an extent. */
  predicate Joins(extent: ReadExtent, at: Location) {
    && extent.ref == at.ref && extent.part == at.part
    && at.offset <= extent.End() + READ_THROUGH
    && Max(extent.End(), EndOf(at)) - extent.offset <= MAXIMUM_READ_EXTENT
  }

  lemma {:induction false} ReachStays(members: seq<Location>, a: ReadExtent, b: ReadExtent, n: nat)
    requires n <= |a.members| <= |b.members| && a.members == b.members[..|a.members|] && a.offset == b.offset
    requires forall i :: 0 <= i < |b.members| ==> b.members[i] < |members|
    ensures Reach(members, a, n) == Reach(members, b, n)
    decreases n
  {
    if n > 0 { ReachStays(members, a, b, n - 1); }
  }

  lemma JoinedIsSound(members: seq<Location>, extent: ReadExtent, k: nat)
    requires Sound(members, extent) && k < |members| && Joins(extent, members[k]) && extent.offset <= members[k].offset
    ensures var end := Max(extent.End(), EndOf(members[k]));
      Sound(members, extent.(length := end - extent.offset, members := extent.members + [k]))
  {
    var end := Max(extent.End(), EndOf(members[k]));
    var joined := extent.(length := end - extent.offset, members := extent.members + [k]);
    var n := |extent.members|;
    ReachStays(members, extent, joined, n);
    forall i | 0 <= i < |joined.members| ensures Serves(members, joined, i) {
      if i < n {
        assert Serves(members, extent, i);
        ReachStays(members, extent, joined, i);
      }
    }
  }

  /** Every member is served by exactly one extent, which holds it whole. A member that starts an extent could not have
      joined the one before. */
  method GroupMembers(members: seq<Location>) returns (extents: seq<ReadExtent>)
    ensures forall i :: 0 <= i < |extents| ==> Sound(members, extents[i])
    ensures multiset(Flat(extents)) == multiset(Positions(|members|))
    ensures forall i :: 0 < i < |extents| ==>
      extents[i].members != [] && extents[i].members[0] < |members| &&
        !Joins(extents[i - 1], members[extents[i].members[0]])
  {
    hide Sound, Joins, Before;
    var order := Sort(members);
    extents := [];
    for n := 0 to |order|
      invariant forall i :: 0 <= i < |extents| ==>
        Sound(members, extents[i]) && extents[i].members != [] && extents[i].members[0] < |members|
      invariant Flat(extents) == order[..n]
      invariant forall i :: 0 < i < |extents| ==> !Joins(extents[i - 1], members[extents[i].members[0]])
      invariant extents == [] <==> n == 0
    {
      var at, count := order[n], |extents|;
      var member := members[at];
      assert order[..n + 1] == order[..n] + [at];
      if count > 0 && Joins(extents[count - 1], member) {
        var held := extents[count - 1];
        StartsBefore(members, order, extents, n);
        JoinedIsSound(members, held, at);
        var joined := held.(length := Max(held.End(), EndOf(member)) - held.offset, members := held.members + [at]);
        FlatJoined(extents, joined, at);
        extents := extents[count - 1 := joined];
      } else {
        var started := ReadExtent(member.ref, member.part, member.offset, member.length, [at]);
        StartedIsSound(members, at);
        FlatStarted(extents, started);
        extents := extents + [started];
      }
    }
    assert order[..|order|] == order;
  }

  lemma StartedIsSound(members: seq<Location>, at: nat)
    requires at < |members|
    ensures Sound(members, ReadExtent(members[at].ref, members[at].part, members[at].offset, members[at].length, [at]))
  {
    var extent := ReadExtent(members[at].ref, members[at].part, members[at].offset, members[at].length, [at]);
    assert Reach(members, extent, 0) == extent.offset;
    assert Reach(members, extent, 1) == Max(extent.offset, EndOf(members[at]));
    assert Serves(members, extent, 0);
  }

  lemma FlatStarted(extents: seq<ReadExtent>, started: ReadExtent)
    ensures Flat(extents + [started]) == Flat(extents) + started.members
  {
    assert (extents + [started])[..|extents|] == extents;
  }

  lemma FlatJoined(extents: seq<ReadExtent>, joined: ReadExtent, at: nat)
    requires extents != [] && joined.members == extents[|extents| - 1].members + [at]
    ensures Flat(extents[|extents| - 1 := joined]) == Flat(extents) + [at]
  {
    assert extents[|extents| - 1 := joined][..|extents| - 1] == extents[..|extents| - 1];
  }

  /** The last extent begins at a member that comes before the next in order. */
  lemma StartsBefore(members: seq<Location>, order: seq<nat>, extents: seq<ReadExtent>, n: nat)
    requires InOrder(members, order) && n < |order| && extents != [] && Flat(extents) == order[..n]
    requires Sound(members, extents[|extents| - 1]) && Joins(extents[|extents| - 1], members[order[n]])
    ensures extents[|extents| - 1].offset <= members[order[n]].offset
  {
    var last := extents[|extents| - 1];
    var before := Flat(extents[..|extents| - 1]);
    assert Flat(extents) == before + last.members;
    assert order[|before|] == (before + last.members)[|before|] == last.members[0];
    assert Serves(members, last, 0);
    assert !Before(members[order[n]], members[order[|before|]]);
  }
}
