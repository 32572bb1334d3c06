/** Putting back the stripes of an envelope that no rank of its window holds.

The membership puts each index of the code on one rank; a rank's share is how many. A
read that heard from every rank knows which indices are nowhere, and sends each to a
rank that holds fewer than its share, offering a rank its own indices first.
*/
module Repairs {
  import Sums

  /** How many indices the membership puts on a rank. */
  function ShareOf(holders: seq<nat>, rank: nat): nat {
    if holders == [] then 0
    else ShareOf(holders[..|holders| - 1], rank) + if holders[|holders| - 1] == rank then 1 else 0
  }

  ghost function Sum(counts: seq<nat>): nat {
    if counts == [] then 0 else Sum(counts[..|counts| - 1]) + counts[|counts| - 1]
  }

  ghost predicate Distinct(s: seq<nat>) { forall i, j :: 0 <= i < j < |s| ==> s[i] != s[j] }

  ghost function Shares(holders: seq<nat>, ranks: seq<nat>): seq<nat> {
    seq(|ranks|, k requires 0 <= k < |ranks| => ShareOf(holders, ranks[k]))
  }

  // --------------------------------------------------------------------- preferring

  /** The indices in the order a rank is offered them: its own first, then the rest. */
  method Preferred(holders: seq<nat>, rank: nat) returns (order: seq<nat>)
    ensures |order| == |holders| && (forall i :: 0 <= i < |holders| ==> i in order)
    ensures forall i :: 0 <= i < |order| ==> order[i] < |holders|
    ensures forall i, j :: 0 <= i < j < |order| && holders[order[j]] == rank ==> holders[order[i]] == rank
  {
    var first: seq<nat>, rest: seq<nat> := [], [];
    for index := 0 to |holders|
      invariant |first| + |rest| == index && forall i :: 0 <= i < index ==> i in first || i in rest
      invariant forall i :: 0 <= i < |first| ==> first[i] < |holders| && holders[first[i]] == rank
      invariant forall i :: 0 <= i < |rest| ==> rest[i] < |holders| && holders[rest[i]] != rank
    {
      if holders[index] == rank {
        first := first + [index];
      } else {
        rest := rest + [index];
      }
    }
    order := first + rest;
  }

  // ---------------------------------------------------------------------- repairing

  ghost function SetOf(s: seq<nat>): set<nat> { set x | x in s }

  /** What each rank holds of an envelope, by the rank's place, once what is sent has arrived. */
  ghost function Placed(answers: seq<seq<nat>>, sent: seq<seq<nat>>): seq<set<nat>>
    requires |sent| <= |answers|
  {
    seq(|answers|, k requires 0 <= k < |answers| => SetOf(answers[k]) + if k < |sent| then SetOf(sent[k]) else {})
  }

  ghost predicate InAnswers(answers: seq<seq<nat>>, index: nat) {
    exists k :: 0 <= k < |answers| && index in answers[k]
  }

  ghost predicate InSent(sent: seq<seq<nat>>, index: nat) { exists k :: 0 <= k < |sent| && index in sent[k] }

  /** Sends one rank what it lacks, of what nobody holds. */
  method Supply(holders: seq<nat>, rank: nat, lacking: int, held0: set<nat>) returns (sent: seq<nat>, held: set<nat>)
    ensures Distinct(sent) && held == held0 + SetOf(sent) && SetOf(sent) !! held0
    ensures forall i :: 0 <= i < |sent| ==> sent[i] < |holders|
    ensures lacking <= 0 ==> sent == []
    ensures lacking > 0 ==> |sent| <= lacking
    // It stops short only when every index is held.
    ensures lacking > 0 && |sent| < lacking ==> forall index :: 0 <= index < |holders| ==> index in held
  {
    var order := Preferred(holders, rank);
    sent, held := [], held0;
    var left := lacking;
    var i := 0;
    while i < |order| && left > 0
      invariant i <= |order| && Distinct(sent) && held == held0 + SetOf(sent) && SetOf(sent) !! held0
      invariant forall k :: 0 <= k < |sent| ==> sent[k] < |holders|
      invariant if lacking <= 0 then sent == [] && left == lacking else left == lacking - |sent| >= 0
      invariant forall k :: 0 <= k < i ==> order[k] in held
    {
      var index := order[i];
      if index !in held {
        held, left := held + {index}, left - 1;
        sent := sent + [index];
      }
      i := i + 1;
    }
    assert i == |order| ==> forall index :: index in order ==> index in held;
  }

  /** No index that a rank answered with is sent, none is sent twice, to one rank or two, and no rank is sent more
      than it lacks; a rank is left short only when every index is held somewhere. */
  ghost predicate Repaired(holders: seq<nat>, ranks: seq<nat>, answers: seq<seq<nat>>, sent: seq<seq<nat>>) {
    && |sent| == |ranks| == |answers|
    && (forall k :: 0 <= k < |sent| ==> Distinct(sent[k]) && forall i :: 0 <= i < |sent[k]| ==> sent[k][i] < |holders|)
    && (forall k, index :: 0 <= k < |sent| && index in sent[k] ==> !InAnswers(answers, index))
    && (forall j, k, index :: 0 <= j < k < |sent| && index in sent[j] ==> index !in sent[k])
    && (forall k :: 0 <= k < |sent| ==>
          |sent[k]| <= if ShareOf(holders, ranks[k]) > |answers[k]| then ShareOf(holders, ranks[k]) - |answers[k]|
            else 0)
    && (forall k :: 0 <= k < |sent| && |answers[k]| + |sent[k]| < ShareOf(holders, ranks[k]) ==>
          forall index :: 0 <= index < |holders| ==> InAnswers(answers, index) || InSent(sent, index))
  }

  /** Repairs one envelope. */
  method RepairEnvelope(holders: seq<nat>, ranks: seq<nat>, answers: seq<seq<nat>>) returns (sent: seq<seq<nat>>)
    requires |answers| == |ranks|
    ensures Repaired(holders, ranks, answers, sent)
  {
    var held := Answered(answers);
    ghost var answered := held;
    sent := [];
    for k := 0 to |ranks|
      invariant |sent| == k && answered <= held
      invariant forall index :: index in answered <==> InAnswers(answers, index)
      invariant forall index :: index in held <==> InAnswers(answers, index) || InSent(sent, index)
      invariant forall j :: 0 <= j < k ==> Distinct(sent[j]) && forall i :: 0 <= i < |sent[j]| ==>
        sent[j][i] < |holders|
      invariant forall j, index :: 0 <= j < k && index in sent[j] ==> !InAnswers(answers, index)
      invariant forall i, j, index :: 0 <= i < j < k && index in sent[i] ==> index !in sent[j]
      invariant forall j :: 0 <= j < k ==>
        |sent[j]| <= if ShareOf(holders, ranks[j]) > |answers[j]| then ShareOf(holders, ranks[j]) - |answers[j]| else 0
      invariant forall j :: 0 <= j < k && |answers[j]| + |sent[j]| < ShareOf(holders, ranks[j]) ==>
        forall index :: 0 <= index < |holders| ==> index in held
    {
      hide ShareOf;
      var more, after := Supply(holders, ranks[k], ShareOf(holders, ranks[k]) - |answers[k]|, held);
      SentMore(sent, more);
      sent, held := sent + [more], after;
    }
  }

  lemma SentMore(sent: seq<seq<nat>>, more: seq<nat>)
    ensures forall index :: InSent(sent + [more], index) <==> InSent(sent, index) || index in more
  {
    forall index ensures InSent(sent + [more], index) <==> InSent(sent, index) || index in more {
      if InSent(sent, index) {
        var k :| 0 <= k < |sent| && index in sent[k];
        assert (sent + [more])[k] == sent[k];
      }
      if index in more { assert (sent + [more])[|sent|] == more; }
    }
  }

  /** Every index some rank answered with. */
  method Answered(answers: seq<seq<nat>>) returns (held: set<nat>)
    ensures forall index :: index in held <==> InAnswers(answers, index)
  {
    held := {};
    for k := 0 to |answers|
      invariant forall index :: index in held <==> exists j :: 0 <= j < k && index in answers[j]
    {
      held := held + set index | index in answers[k];
    }
  }

  // -------------------------------------------------------------------- what it leaves

  lemma {:induction false} SharesOfOne(holders: seq<nat>, ranks: seq<nat>, k: nat)
    requires Distinct(ranks) && k < |ranks| && holders != [] && holders[|holders| - 1] == ranks[k]
    ensures Sum(Shares(holders, ranks)) == Sum(Shares(holders[..|holders| - 1], ranks)) + 1
  {
    var before := Shares(holders[..|holders| - 1], ranks);
    assert Shares(holders, ranks) == before[k := before[k] + 1];
    SumUpdate(before, k, before[k] + 1);
  }

  lemma {:induction false} SumUpdate(counts: seq<nat>, k: nat, n: nat)
    requires k < |counts|
    ensures Sum(counts[k := n]) + counts[k] == Sum(counts) + n
  {
    var last := |counts| - 1;
    if k < last {
      SumUpdate(counts[..last], k, n);
      assert counts[k := n][..last] == counts[..last][k := n];
    } else {
      assert counts[k := n][..last] == counts[..last];
    }
  }

  lemma {:induction false} NoShares(ranks: seq<nat>)
    ensures Sum(Shares([], ranks)) == 0
  {
    if ranks != [] {
      NoShares(ranks[..|ranks| - 1]);
      assert Shares([], ranks)[..|ranks| - 1] == Shares([], ranks[..|ranks| - 1]);
    }
  }

  /** The shares of the ranks are all the indices of the code. */
  lemma {:induction false} SharesAddUp(holders: seq<nat>, ranks: seq<nat>)
    requires Distinct(ranks) && forall i :: 0 <= i < |holders| ==> holders[i] in ranks
    ensures Sum(Shares(holders, ranks)) == |holders|
  {
    if holders == [] {
      NoShares(ranks);
    } else {
      var last := holders[|holders| - 1];
      SharesAddUp(holders[..|holders| - 1], ranks);
      var k :| 0 <= k < |ranks| && ranks[k] == last;
      SharesOfOne(holders, ranks, k);
    }
  }

  ghost function Sizes(placed: seq<set<nat>>): seq<nat> { seq(|placed|, k requires 0 <= k < |placed| => |placed[k]|) }

  ghost function Union(placed: seq<set<nat>>): set<nat> {
    if placed == [] then {} else Union(placed[..|placed| - 1]) + placed[|placed| - 1]
  }

  lemma {:induction false} InUnion(placed: seq<set<nat>>, x: nat)
    ensures x in Union(placed) <==> exists k :: 0 <= k < |placed| && x in placed[k]
  {
    if placed != [] {
      var front := placed[..|placed| - 1];
      InUnion(front, x);
      if x in Union(front) {
        var k :| 0 <= k < |front| && x in front[k];
        assert x in placed[k];
      }
    }
  }

  ghost predicate Disjoint(placed: seq<set<nat>>) { forall i, j :: 0 <= i < j < |placed| ==> placed[i] !! placed[j] }

  lemma {:induction false} UnionSize(placed: seq<set<nat>>)
    requires Disjoint(placed)
    ensures |Union(placed)| == Sum(Sizes(placed))
  {
    if placed != [] {
      var n := |placed| - 1;
      UnionSize(placed[..n]);
      assert Sizes(placed)[..n] == Sizes(placed[..n]);
      forall x | x in Union(placed[..n]) ensures x !in placed[n] { InUnion(placed[..n], x); }
      assert Union(placed[..n]) !! placed[n];
    }
  }

  lemma {:induction false} SumAtMost(a: seq<nat>, b: seq<nat>, k: nat)
    requires |a| == |b| && (forall i :: 0 <= i < |a| ==> a[i] <= b[i]) && k < |a|
    ensures Sum(a) + (b[k] - a[k]) <= Sum(b)
  {
    var n := |a| - 1;
    if k < n {
      SumAtMost(a[..n], b[..n], k);
    } else {
      SumLess(a[..n], b[..n]);
    }
  }

  lemma {:induction false} SumLess(a: seq<nat>, b: seq<nat>)
    requires |a| == |b| && forall i :: 0 <= i < |a| ==> a[i] <= b[i]
    ensures Sum(a) <= Sum(b)
  {
    if a != [] { SumLess(a[..|a| - 1], b[..|b| - 1]); }
  }

  /** The indices of a code. */
  ghost function Indices(n: nat): (r: set<nat>)
    ensures (forall i: nat :: i in r <==> i < n) && |r| == n
  {
    if n == 0 then {} else Indices(n - 1) + {n - 1}
  }

  lemma SubsetOfSameSize(a: set<nat>, b: set<nat>)
    requires a <= b && |a| == |b|
    ensures a == b
  {
    if a != b {
      var x :| x in b && x !in a;
      assert a <= b - {x};
      Sums.SubsetSize(a, b - {x});
    }
  }

  /** The answers are each index of the code at most once, on one rank, and no rank holds more than its share. */
  ghost predicate Orderly(holders: seq<nat>, ranks: seq<nat>, answers: seq<seq<nat>>) {
    && |answers| == |ranks| && Distinct(ranks) && (forall i :: 0 <= i < |holders| ==> holders[i] in ranks)
    && (forall k :: 0 <= k < |answers| ==>
          Distinct(answers[k]) && |answers[k]| <= ShareOf(holders, ranks[k])
          && forall i :: 0 <= i < |answers[k]| ==> answers[k][i] < |holders|)
    && (forall j, k, index :: 0 <= j < k < |answers| && index in answers[j] ==> index !in answers[k])
  }

  lemma {:induction false} SetSize(s: seq<nat>)
    requires Distinct(s)
    ensures |SetOf(s)| == |s|
  {
    if s != [] {
      var front, last := s[..|s| - 1], s[|s| - 1];
      SetSize(front);
      assert s == front + [last] && last !in front;
      assert SetOf(s) == SetOf(front) + {last};
    }
  }

  lemma NotAnswered(answers: seq<seq<nat>>, sent: seq<seq<nat>>, j: nat, k: nat)
    requires j < |sent| && k < |answers| && forall index :: index in sent[j] ==> !InAnswers(answers, index)
    ensures SetOf(sent[j]) !! SetOf(answers[k])
  {
    forall index | index in sent[j] ensures index !in answers[k] { assert !InAnswers(answers, index); }
  }

  lemma PlacedIs(holders: seq<nat>, ranks: seq<nat>, answers: seq<seq<nat>>, sent: seq<seq<nat>>)
    requires Orderly(holders, ranks, answers) && Repaired(holders, ranks, answers, sent)
    ensures Disjoint(Placed(answers, sent))
    ensures forall k :: 0 <= k < |ranks| ==> |Placed(answers, sent)[k]| == |answers[k]| + |sent[k]|
  {
    hide ShareOf;
    var placed := Placed(answers, sent);
    forall k | 0 <= k < |ranks| ensures |placed[k]| == |answers[k]| + |sent[k]| {
      SetSize(answers[k]);
      SetSize(sent[k]);
      NotAnswered(answers, sent, k, k);
    }
    forall i, j | 0 <= i < j < |placed| ensures placed[i] !! placed[j] {
      NotAnswered(answers, sent, i, j);
      NotAnswered(answers, sent, j, i);
    }
  }

  lemma HeldIsPlaced(holders: seq<nat>, ranks: seq<nat>, answers: seq<seq<nat>>, sent: seq<seq<nat>>, index: nat)
    requires |sent| == |answers|
    ensures index in Union(Placed(answers, sent)) <==> InAnswers(answers, index) || InSent(sent, index)
  {
    var placed := Placed(answers, sent);
    InUnion(placed, index);
    if InAnswers(answers, index) {
      var k :| 0 <= k < |answers| && index in answers[k];
      assert index in placed[k];
    }
    if InSent(sent, index) {
      var k :| 0 <= k < |sent| && index in sent[k];
      assert index in placed[k];
    }
  }

  lemma WithinShares(holders: seq<nat>, ranks: seq<nat>, answers: seq<seq<nat>>, sent: seq<seq<nat>>)
    requires Orderly(holders, ranks, answers) && Repaired(holders, ranks, answers, sent)
    ensures |sent| == |answers| && |Placed(answers, sent)| == |Shares(holders, ranks)| == |ranks|
    ensures forall k :: 0 <= k < |ranks| ==> Sizes(Placed(answers, sent))[k] <= Shares(holders, ranks)[k]
    ensures Sum(Shares(holders, ranks)) == |holders| && Disjoint(Placed(answers, sent))
    ensures Union(Placed(answers, sent)) <= Indices(|holders|)
  {
    hide ShareOf, Union, Disjoint, Placed, Indices;
    PlacedIs(holders, ranks, answers, sent);
    SharesAddUp(holders, ranks);
    PlacedLength(answers, sent);
    forall x | x in Union(Placed(answers, sent)) ensures x < |holders| {
      HeldIsPlaced(holders, ranks, answers, sent, x);
    }
  }

  lemma PlacedLength(answers: seq<seq<nat>>, sent: seq<seq<nat>>)
    requires |sent| <= |answers|
    ensures |Placed(answers, sent)| == |answers|
  {
  }

  /** A rank left short would leave more indices held than the ranks hold. */
  lemma ShareIsMet(holders: seq<nat>, ranks: seq<nat>, answers: seq<seq<nat>>, sent: seq<seq<nat>>, k: nat)
    requires Orderly(holders, ranks, answers) && Repaired(holders, ranks, answers, sent) && k < |ranks|
    ensures |Placed(answers, sent)| == |ranks| && |Placed(answers, sent)[k]| == ShareOf(holders, ranks[k])
  {
    hide ShareOf, Union, Disjoint, Placed, Indices, Orderly;
    var placed, shares := Placed(answers, sent), Shares(holders, ranks);
    WithinShares(holders, ranks, answers, sent);
    PlacedIs(holders, ranks, answers, sent);
    UnionSize(placed);
    SumAtMost(Sizes(placed), shares, k);
    if |placed[k]| < ShareOf(holders, ranks[k]) {
      var all := Indices(|holders|);
      forall index | index in all ensures index in Union(placed) {
        HeldIsPlaced(holders, ranks, answers, sent, index);
      }
      Sums.SubsetSize(all, Union(placed));
    }
  }

  /** With orderly answers, a repair leaves every index of the code on exactly one rank, and every rank with exactly its
      share. */
  lemma RepairPlacesEverything(holders: seq<nat>, ranks: seq<nat>, answers: seq<seq<nat>>, sent: seq<seq<nat>>)
    requires Orderly(holders, ranks, answers) && Repaired(holders, ranks, answers, sent)
    ensures |Placed(answers, sent)| == |ranks|
    ensures forall k :: 0 <= k < |ranks| ==> |Placed(answers, sent)[k]| == ShareOf(holders, ranks[k])
    ensures Disjoint(Placed(answers, sent)) && Union(Placed(answers, sent)) == Indices(|holders|)
  {
    hide ShareOf, Union, Disjoint, Placed, Indices, Orderly, Repaired;
    WithinShares(holders, ranks, answers, sent);
    var placed := Placed(answers, sent);
    forall k | 0 <= k < |ranks| ensures |placed[k]| == ShareOf(holders, ranks[k]) {
      ShareIsMet(holders, ranks, answers, sent, k);
    }
    UnionSize(placed);
    assert Sizes(placed) == Shares(holders, ranks);
    SubsetOfSameSize(Union(placed), Indices(|holders|));
  }

  /** Repairs every envelope of a window, but only for a read under the deployment's code that heard from every rank.
      What a rank answered is by envelope; nothing is sent for an envelope that was not rebuilt. */
  method RepairWindow(holders: seq<nat>, ranks: seq<nat>, answered: map<nat, seq<seq<nat>>>, rebuilt: seq<bool>,
                      earlier: bool)
    returns (sending: seq<seq<seq<nat>>>)
    requires forall rank :: rank in answered ==> |answered[rank]| == |rebuilt|
    ensures if !earlier && forall k :: 0 <= k < |ranks| ==> ranks[k] in answered then |sending| == |rebuilt|
            else sending == []
    ensures sending != [] ==> forall k :: 0 <= k < |ranks| ==> ranks[k] in answered
    ensures sending != [] ==> forall at :: 0 <= at < |rebuilt| ==>
      if rebuilt[at] then Repaired(holders, ranks, AnswersOf(ranks, answered, at), sending[at]) else sending[at] == []
  {
    sending := [];
    if earlier {
      return;
    }
    for k := 0 to |ranks|
      invariant forall j :: 0 <= j < k ==> ranks[j] in answered
    {
      if ranks[k] !in answered {
        return;
      }
    }
    for at := 0 to |rebuilt|
      invariant |sending| == at
      invariant forall j :: 0 <= j < at ==>
        if rebuilt[j] then Repaired(holders, ranks, AnswersOf(ranks, answered, j), sending[j]) else sending[j] == []
    {
      hide Repaired;
      var sent := [];
      if rebuilt[at] {
        sent := RepairEnvelope(holders, ranks, AnswersOf(ranks, answered, at));
      }
      sending := sending + [sent];
    }
  }

  function AnswersOf(ranks: seq<nat>, answered: map<nat, seq<seq<nat>>>, at: nat): seq<seq<nat>> {
    seq(|ranks|, k requires 0 <= k < |ranks| =>
      if ranks[k] in answered && at < |answered[ranks[k]]| then answered[ranks[k]][at] else [])
  }
}
