/** What a compaction measures and which checkpoints it rewrites. */
module Liveness {
  import opened Refs
  import opened Roots
  import opened Sums

  const COMPACTION_BUDGET: nat := 0x400_0000

  function Get(live: map<Ref, nat>, ref: Ref): nat { if ref in live then live[ref] else 0 }

  // ------------------------------------------------------------------ live bytes

  /** The encoded bytes a set of segments reads from one checkpoint, every segment opened. */
  ghost function SumBytes(views: map<SegmentKey, Segment>, ref: Ref): nat
    decreases |views|
  {
    if views == map[] then 0
    else
      var key :| key in views;
      BytesIn(views[key], ref) + SumBytes(views - {key}, ref)
  }

  lemma {:induction false} SumBytesRemove(views: map<SegmentKey, Segment>, key: SegmentKey, ref: Ref)
    requires key in views
    ensures SumBytes(views, ref) == BytesIn(views[key], ref) + SumBytes(views - {key}, ref)
    decreases |views|
  {
    var first :| first in views &&
      SumBytes(views, ref) == BytesIn(views[first], ref) + SumBytes(views - {first}, ref);
    if first != key {
      SumBytesRemove(views - {first}, key, ref);
      SumBytesRemove(views - {key}, first, ref);
      assert views - {first} - {key} == views - {key} - {first};
    }
  }

  lemma SumBytesOfNone()
    ensures forall ref :: SumBytes(map[], ref) == 0
  {
  }

  lemma SumBytesAdd(views: map<SegmentKey, Segment>, key: SegmentKey, pages: Segment, ref: Ref)
    requires key !in views
    ensures SumBytes(views[key := pages], ref) == SumBytes(views, ref) + BytesIn(pages, ref)
  {
    SumBytesRemove(views[key := pages], key, ref);
    assert views[key := pages] - {key} == views;
  }

  /** Segments that read nothing from a checkpoint add nothing to its live bytes. */
  lemma {:induction false} SumBytesIgnores(views: map<SegmentKey, Segment>, more: set<SegmentKey>, ref: Ref)
    requires more <= views.Keys
    requires forall key :: key in more ==> BytesIn(views[key], ref) == 0
    ensures SumBytes(views, ref) == SumBytes(views - more, ref)
    decreases |more|
  {
    if more == {} {
      assert views - more == views;
    } else {
      var key :| key in more;
      SumBytesRemove(views, key, ref);
      SumBytesIgnores(views - {key}, more - {key}, ref);
      assert views - {key} - (more - {key}) == views - more;
    }
  }

  /** Only the pages in a checkpoint count for it. */
  lemma {:induction false} BytesInSame(a: Segment, b: Segment, ref: Ref)
    requires forall relative :: relative in a && a[relative].ref == ref ==> relative in b && b[relative] == a[relative]
    requires forall relative :: relative in b && b[relative].ref == ref ==> relative in a && a[relative] == b[relative]
    ensures BytesIn(a, ref) == BytesIn(b, ref)
    decreases |a| + |b|
  {
    if a != map[] {
      var relative :| relative in a;
      BytesInRemove(a, relative, ref);
      if a[relative].ref == ref {
        BytesInRemove(b, relative, ref);
        BytesInSame(a - {relative}, b - {relative}, ref);
      } else {
        BytesInSame(a - {relative}, b, ref);
      }
    } else if b != map[] {
      var relative :| relative in b;
      BytesInRemove(b, relative, ref);
      BytesInSame(a, b - {relative}, ref);
    }
  }

  lemma {:induction false} SumBytesSame(a: map<SegmentKey, Segment>, b: map<SegmentKey, Segment>, ref: Ref)
    requires a.Keys == b.Keys && forall key :: key in a ==> BytesIn(a[key], ref) == BytesIn(b[key], ref)
    ensures SumBytes(a, ref) == SumBytes(b, ref)
    decreases |a|
  {
    hide BytesIn;
    if a != map[] {
      var key :| key in a;
      SumBytesRemove(a, key, ref);
      SumBytesRemove(b, key, ref);
      SumBytesSame(a - {key}, b - {key}, ref);
    } else {
      assert a == b;
    }
  }

  /** Adds what a segment in hand reads from each checkpoint. */
  method AddPages(live: map<Ref, nat>, pages: Segment) returns (sum: map<Ref, nat>)
    ensures forall ref :: Get(sum, ref) == Get(live, ref) + BytesIn(pages, ref)
  {
    sum := live;
    var todo := pages;
    while todo != map[]
      invariant forall ref :: Get(sum, ref) + BytesIn(todo, ref) == Get(live, ref) + BytesIn(pages, ref)
      decreases |todo|
    {
      var relative :| relative in todo;
      var at := todo[relative];
      forall ref { BytesInRemove(todo, relative, ref); }
      sum := sum[at.ref := Get(sum, at.ref) + at.length];
      todo := todo - {relative};
    }
  }

  /** Adds what the root records a segment reads from each checkpoint. */
  method AddUses(live: map<Ref, nat>, uses: seq<CheckpointUse>) returns (sum: map<Ref, nat>)
    ensures forall ref :: Get(sum, ref) == Get(live, ref) + BytesOf(uses, ref)
  {
    sum := live;
    for i := 0 to |uses|
      invariant forall ref :: Get(sum, ref) + BytesOf(uses[i..], ref) == Get(live, ref) + BytesOf(uses, ref)
    {
      assert uses[i..][0] == uses[i] && uses[i..][1..] == uses[i + 1..];
      sum := sum[uses[i].ref := Get(sum, uses[i].ref) + uses[i].bytes];
    }
  }

  // ------------------------------------------------------------------- selection

  /** A checkpoint compaction may rewrite: its own VM's, not this one, not protected, with parts not yet emptied. */
  predicate Eligible(self: Ref, protected: set<Ref>, checkpoints: map<Ref, CheckpointCost>, ref: Ref) {
    && ref in checkpoints
    && ref.vm == self.vm && ref != self
    && ref !in protected
    && checkpoints[ref].bytes != 0
    && checkpoints[ref].emptied == 0
  }

  /** An eligible checkpoint some of whose parts are read, and less than half of them. */
  predicate Candidate(self: Ref, protected: set<Ref>, checkpoints: map<Ref, CheckpointCost>, live: map<Ref, nat>,
                      ref: Ref)
  {
    && Eligible(self, protected, checkpoints, ref)
    && Get(live, ref) != 0
    && Get(live, ref) * 2 < checkpoints[ref].bytes
  }

  function Fraction(checkpoints: map<Ref, CheckpointCost>, live: map<Ref, nat>, ref: Ref): real {
    if ref in checkpoints && checkpoints[ref].bytes != 0
    then Get(live, ref) as real / checkpoints[ref].bytes as real
    else 0.0
  }

  /** The order candidates are taken in: the deadest first, then by reference. */
  predicate Before(checkpoints: map<Ref, CheckpointCost>, live: map<Ref, nat>, a: Ref, b: Ref) {
    var fa, fb := Fraction(checkpoints, live, a), Fraction(checkpoints, live, b);
    if fa != fb then fa < fb else RefLess(a, b)
  }

  lemma BeforeTotal(checkpoints: map<Ref, CheckpointCost>, live: map<Ref, nat>, a: Ref, b: Ref)
    requires a != b
    ensures Before(checkpoints, live, a, b) || Before(checkpoints, live, b, a)
  {
    RefLessTotal(a, b);
  }

  lemma BeforeTransitive(checkpoints: map<Ref, CheckpointCost>, live: map<Ref, nat>, a: Ref, b: Ref, c: Ref)
    requires Before(checkpoints, live, a, b) && Before(checkpoints, live, b, c)
    ensures Before(checkpoints, live, a, c)
  {
    hide Fraction, RefLess;
    if RefLess(a, b) && RefLess(b, c) { RefLessTransitive(a, b, c); }
  }

  predicate First(checkpoints: map<Ref, CheckpointCost>, live: map<Ref, nat>, refs: set<Ref>, first: Ref) {
    first in refs && forall other :: other in refs && other != first ==> Before(checkpoints, live, first, other)
  }

  lemma {:induction false} FirstExists(checkpoints: map<Ref, CheckpointCost>, live: map<Ref, nat>, refs: set<Ref>)
    requires refs != {}
    ensures exists first :: First(checkpoints, live, refs, first)
  {
    var some :| some in refs;
    var rest := refs - {some};
    if rest == {} {
      assert refs == {some};
      assert First(checkpoints, live, refs, some);
    } else {
      FirstExists(checkpoints, live, rest);
      var low :| First(checkpoints, live, rest, low);
      hide Before;
      BeforeTotal(checkpoints, live, low, some);
      if Before(checkpoints, live, low, some) {
        assert First(checkpoints, live, refs, low);
      } else {
        forall r | r in refs && r != some ensures Before(checkpoints, live, some, r) {
          if r != low { BeforeTransitive(checkpoints, live, some, low, r); }
        }
        assert First(checkpoints, live, refs, some);
      }
    }
  }

  /** The live bytes of a set of checkpoints together. */
  ghost function Total(refs: set<Ref>, live: map<Ref, nat>): nat {
    if refs == {} then 0
    else
      var ref :| ref in refs;
      Get(live, ref) + Total(refs - {ref}, live)
  }

  lemma {:induction false} TotalRemove(refs: set<Ref>, ref: Ref, live: map<Ref, nat>)
    requires ref in refs
    ensures Total(refs, live) == Get(live, ref) + Total(refs - {ref}, live)
  {
    var first :| first in refs && Total(refs, live) == Get(live, first) + Total(refs - {first}, live);
    if first != ref {
      TotalRemove(refs - {first}, ref, live);
      TotalRemove(refs - {ref}, first, live);
      assert refs - {first} - {ref} == refs - {ref} - {first};
    }
  }

  lemma BeforeOneWay(checkpoints: map<Ref, CheckpointCost>, live: map<Ref, nat>, a: Ref, b: Ref)
    requires Before(checkpoints, live, a, b)
    ensures !Before(checkpoints, live, b, a) && a != b
  {
    RefLessTotal(a, b);
  }

  /** Those of a set that are taken before one. */
  ghost function Deader(checkpoints: map<Ref, CheckpointCost>, live: map<Ref, nat>, refs: set<Ref>,
                        ref: Ref): set<Ref>
  {
    set other | other in refs && Before(checkpoints, live, other, ref)
  }

  /** A checkpoint that is last of a set changes nothing that was taken before the others, and comes after them all. */
  lemma DeaderStays(checkpoints: map<Ref, CheckpointCost>, live: map<Ref, nat>, refs: set<Ref>, last: Ref, ref: Ref)
    requires Before(checkpoints, live, ref, last) || (ref == last && last !in refs)
    requires ref == last ==> forall other :: other in refs ==> Before(checkpoints, live, other, last)
    ensures Deader(checkpoints, live, refs + {last}, ref) == Deader(checkpoints, live, refs, ref)
    ensures ref == last ==> Deader(checkpoints, live, refs, ref) == refs
  {
    if ref != last { BeforeOneWay(checkpoints, live, ref, last); }
    assert !Before(checkpoints, live, last, ref) by {
      if ref == last && Before(checkpoints, live, last, last) { BeforeOneWay(checkpoints, live, last, last); }
    }
  }

  /** The choice a compaction makes: a candidate is taken exactly when it fits what the deader ones that were taken
      leave of the budget. */
  ghost predicate Greedy(self: Ref, protected: set<Ref>, checkpoints: map<Ref, CheckpointCost>, live: map<Ref, nat>,
                         rewriting: set<Ref>)
  {
    forall ref :: ref in rewriting <==>
      && Candidate(self, protected, checkpoints, live, ref)
      && Total(Deader(checkpoints, live, rewriting, ref), live) + Get(live, ref) <= COMPACTION_BUDGET
  }

  /** There is only one such choice: two agree on each candidate, the deader ones first. */
  lemma {:induction false} GreedyAgrees(self: Ref, protected: set<Ref>, checkpoints: map<Ref, CheckpointCost>,
                                        live: map<Ref, nat>, a: set<Ref>, b: set<Ref>, ref: Ref)
    requires Greedy(self, protected, checkpoints, live, a) && Greedy(self, protected, checkpoints, live, b)
    ensures ref in a <==> ref in b
    decreases |Deader(checkpoints, live, checkpoints.Keys, ref)|
  {
    hide Before, Total;
    forall other | other in a + b && Before(checkpoints, live, other, ref) ensures other in a <==> other in b {
      var fewer, more :=
        Deader(checkpoints, live, checkpoints.Keys, other), Deader(checkpoints, live, checkpoints.Keys, ref);
      assert Candidate(self, protected, checkpoints, live, other);
      forall third | third in fewer ensures third in more { BeforeTransitive(checkpoints, live, third, other, ref); }
      assert other in more && other !in fewer by {
        if other in fewer { BeforeOneWay(checkpoints, live, other, other); }
      }
      SubsetSize(fewer, more - {other});
      GreedyAgrees(self, protected, checkpoints, live, a, b, other);
    }
    assert Deader(checkpoints, live, a, ref) == Deader(checkpoints, live, b, ref);
  }

  lemma GreedyUnique(self: Ref, protected: set<Ref>, checkpoints: map<Ref, CheckpointCost>, live: map<Ref, nat>,
                     a: set<Ref>, b: set<Ref>)
    requires Greedy(self, protected, checkpoints, live, a) && Greedy(self, protected, checkpoints, live, b)
    ensures a == b
  {
    forall ref ensures ref in a <==> ref in b { GreedyAgrees(self, protected, checkpoints, live, a, b, ref); }
  }

  lemma {:induction false} TotalSame(refs: set<Ref>, a: map<Ref, nat>, b: map<Ref, nat>)
    requires forall ref :: ref in refs ==> Get(a, ref) == Get(b, ref)
    ensures Total(refs, a) == Total(refs, b)
    decreases |refs|
  {
    if refs != {} {
      var ref :| ref in refs;
      TotalRemove(refs, ref, a);
      TotalRemove(refs, ref, b);
      TotalSame(refs - {ref}, a, b);
    }
  }

  /** The choice turns on the live bytes of the checkpoints a root names, and of no other. */
  lemma GreedySame(self: Ref, protected: set<Ref>, checkpoints: map<Ref, CheckpointCost>, a: map<Ref, nat>,
                   b: map<Ref, nat>, rewriting: set<Ref>)
    requires forall ref :: ref in checkpoints ==> Get(a, ref) == Get(b, ref)
    requires Greedy(self, protected, checkpoints, a, rewriting)
    ensures Greedy(self, protected, checkpoints, b, rewriting) && Total(rewriting, a) == Total(rewriting, b)
  {
    hide Total, RefLess;
    assert rewriting <= checkpoints.Keys;
    TotalSame(rewriting, a, b);
    forall ref | ref in checkpoints
      ensures Candidate(self, protected, checkpoints, a, ref) <==> Candidate(self, protected, checkpoints, b, ref)
      ensures Total(Deader(checkpoints, a, rewriting, ref), a) == Total(Deader(checkpoints, b, rewriting, ref), b)
    {
      assert Deader(checkpoints, a, rewriting, ref) == Deader(checkpoints, b, rewriting, ref);
      TotalSame(Deader(checkpoints, a, rewriting, ref), a, b);
    }
  }

  /** Takes the deadest candidates first: one is taken exactly when it fits what the deader ones that were taken leave
      of the budget. So the live bytes taken are within the budget, and no candidate left out fits what they leave of
      it. */
  method ChooseRewrites(self: Ref, protected: set<Ref>, checkpoints: map<Ref, CheckpointCost>, live: map<Ref, nat>)
    returns (rewriting: set<Ref>)
    ensures Greedy(self, protected, checkpoints, live, rewriting)
    ensures Total(rewriting, live) <= COMPACTION_BUDGET
    ensures forall ref :: Candidate(self, protected, checkpoints, live, ref) && ref !in rewriting ==>
              Total(rewriting, live) + Get(live, ref) > COMPACTION_BUDGET
  {
    hide Before, Fraction;
    var candidates := set ref | ref in checkpoints && Candidate(self, protected, checkpoints, live, ref);
    rewriting := {};
    var budget: nat := COMPACTION_BUDGET;
    var todo := candidates;
    while todo != {}
      invariant todo <= candidates && rewriting <= candidates && todo !! rewriting
      invariant Total(rewriting, live) + budget == COMPACTION_BUDGET
      invariant forall ref :: ref in candidates && ref !in todo && ref !in rewriting ==> Get(live, ref) > budget
      invariant forall ref, other :: ref in candidates && ref !in todo && other in todo ==>
                  Before(checkpoints, live, ref, other)
      invariant forall ref :: ref in candidates && ref !in todo ==>
                  (ref in rewriting <==>
                     Total(Deader(checkpoints, live, rewriting, ref), live) + Get(live, ref) <= COMPACTION_BUDGET)
    {
      hide Candidate, Deader;
      FirstExists(checkpoints, live, todo);
      var item :| item in todo && First(checkpoints, live, todo, item);
      ghost var was := todo;
      todo := todo - {item};
      DeaderStays(checkpoints, live, rewriting, item, item);
      forall ref | ref in candidates && ref !in was
        ensures Deader(checkpoints, live, rewriting + {item}, ref) == Deader(checkpoints, live, rewriting, ref)
      {
        DeaderStays(checkpoints, live, rewriting, item, ref);
      }
      if Get(live, item) <= budget {
        budget := budget - Get(live, item);
        TotalRemove(rewriting + {item}, item, live);
        assert rewriting + {item} - {item} == rewriting;
        rewriting := rewriting + {item};
      }
    }
  }
}
