/** Sweeping what a checkpoint replaced.

A sweep deletes the checkpoints the previous root named, and the previous checkpoint
itself, that the current root does not name and nothing protects. A protected
checkpoint protects every checkpoint its index names, which is what makes a fork of a
fork safe: it reads those directly and no record here says so.
*/
module Reclamation {
  import opened Refs
  import opened Roots
  import opened Geometries
  import opened TableBuilding
  import opened Sealing

  datatype SweepError = InvalidSweep | ProtectedUnreadable

  /** The checkpoints a protected one keeps: itself and every one its index names. */
  function Closure(index: Index): set<Ref> { Named(index) + {index.ref} }

  /** What a sweep of previous under current takes, of one VM, given the indexes the protected sequences were published
      with. */
  ghost function DeadBy(published: map<Ref, Index>, previous: Index, current: Index, protected: set<nat>): set<Ref> {
    set ref | ref in Closure(previous)
              && ref.vm == previous.ref.vm
              && ref !in Named(current)
              && forall sequence :: sequence in protected && Ref(previous.ref.vm, sequence) in published ==>
                   ref !in Closure(published[Ref(previous.ref.vm, sequence)])
  }

  /** What deleting a VM takes: everything of it no pin of it keeps. */
  ghost predicate TakenWith(published: map<Ref, Index>, vm: string, pinned: set<nat>, ref: Ref) {
    && ref.vm == vm
    && forall sequence :: sequence in pinned && Ref(vm, sequence) in published ==>
         ref !in Closure(published[Ref(vm, sequence)])
  }

  /** Every protected root is remembered, or can be read. */
  predicate CanRead(memo: map<Ref, set<Ref>>, roots: map<Ref, Index>, vm: string, protected: set<nat>) {
    forall sequence :: sequence in protected ==> Ref(vm, sequence) in memo || Ref(vm, sequence) in roots
  }

  /** The checkpoints of a store, as a sweep sees them: the index objects it holds, and what it has memoised. */
  class Reclaimer {
    var roots: map<Ref, Index>
    var parts: set<Ref>
    var memo: map<Ref, set<Ref>>
    /** Every index object ever written; an index is immutable under its reference. */
    ghost var published: map<Ref, Index>

    ghost predicate Valid()
      reads this
    {
      && (forall ref :: ref in roots ==> ref in published && published[ref] == roots[ref])
      && (forall ref :: ref in published ==> published[ref].ref == ref)
      && (forall ref :: ref in memo ==> ref in published && memo[ref] == Closure(published[ref]))
    }

    constructor ()
      ensures Valid() && roots == map[] && parts == {} && memo == map[] && published == map[]
    {
      roots, parts, memo, published := map[], {}, map[], map[];
    }

    /** Takes in one published checkpoint, under a reference never published before. */
    method Publish(index: Index)
      requires Valid() && index.ref !in published
      modifies this
      ensures Valid() && roots == old(roots)[index.ref := index] && parts == old(parts) + {index.ref}
      ensures published == old(published)[index.ref := index] && memo == old(memo)
    {
      roots, parts := roots[index.ref := index], parts + {index.ref};
      published := published[index.ref := index];
    }

    /** protectedBy: read once and memoised, which never goes stale because an index is immutable. */
    method ProtectedBy(ref: Ref) returns (protected: Option<set<Ref>>)
      requires Valid()
      modifies this`memo
      ensures Valid()
      ensures protected.Some? <==> ref in old(memo) || ref in roots
      ensures old(memo).Keys <= memo.Keys <= old(memo).Keys + roots.Keys
      ensures protected.Some? ==> ref in published && protected.value == Closure(published[ref])
    {
      if ref in memo { return Some(memo[ref]); }
      if ref !in roots { return None; }
      var closure := Closure(roots[ref]);
      memo := memo[ref := closure];
      return Some(closure);
    }

    /** spareProtected: takes what the protected sequences keep out of a dead set. */
    method SpareProtected(vm: string, protected: set<nat>, dead: set<Ref>) returns (left: Option<set<Ref>>)
      requires Valid()
      modifies this`memo
      ensures Valid()
      ensures left.Some? <==> CanRead(old(memo), roots, vm, protected)
      ensures left.Some? ==>
                && (forall sequence :: sequence in protected ==> Ref(vm, sequence) in published)
                && left.value == set ref | ref in dead &&
                     forall sequence :: sequence in protected && Ref(vm, sequence) in published ==>
                       ref !in Closure(published[Ref(vm, sequence)])
    {
      var remaining := dead;
      var todo := protected;
      while todo != {}
        invariant todo <= protected && Valid()
        invariant old(memo).Keys <= memo.Keys <= old(memo).Keys + roots.Keys
        invariant CanRead(old(memo), roots, vm, protected - todo)
        invariant forall sequence :: sequence in protected - todo ==> Ref(vm, sequence) in published
        invariant remaining == set ref | ref in dead &&
                    forall sequence :: sequence in protected - todo && Ref(vm, sequence) in published ==>
                      ref !in Closure(published[Ref(vm, sequence)])
      {
        var sequence :| sequence in todo;
        var spared := ProtectedBy(Ref(vm, sequence));
        if spared.None? { return None; }
        remaining := remaining - spared.value;
        todo := todo - {sequence};
      }
      assert protected - todo == protected;
      return Some(remaining);
    }

    /** deleteCheckpoint, of each: its index object first, then the parts under its prefix. */
    method DeleteCheckpoints(dead: set<Ref>)
      requires Valid()
      modifies this`roots, this`parts
      ensures Valid() && roots == old(roots) - dead && parts == old(parts) - dead
    {
      var todo := dead;
      while todo != {}
        invariant todo <= dead
        invariant roots == old(roots) - (dead - todo) && parts == old(parts) - (dead - todo)
      {
        var ref :| ref in todo;
        roots := roots - {ref};
        parts := parts - {ref};
        todo := todo - {ref};
      }
      assert dead - todo == dead;
    }

    /** Reclaim: the index object of each dead checkpoint goes, then its parts, and nothing else. */
    method Reclaim(previous: Option<Index>, current: Option<Index>, protected: set<nat>)
      returns (failure: Option<SweepError>)
      requires Valid()
      requires previous.Some? ==> previous.value.ref in published && published[previous.value.ref] == previous.value
      modifies this
      ensures Valid() && published == old(published)
      ensures failure == Some(InvalidSweep) <==>
                previous.None? || current.None? || previous.value.ref.vm != current.value.ref.vm ||
                previous.value.ref == current.value.ref
      ensures failure == Some(ProtectedUnreadable) ==> !CanRead(old(memo), old(roots), previous.value.ref.vm, protected)
      ensures failure.Some? ==> roots == old(roots) && parts == old(parts)
      ensures failure.None? ==>
                && (forall sequence :: sequence in protected ==> Ref(previous.value.ref.vm, sequence) in published)
                && var dead := DeadBy(published, previous.value, current.value, protected);
                   roots == old(roots) - dead && parts == old(parts) - dead
    {
      if previous.None? || current.None? || previous.value.ref.vm != current.value.ref.vm ||
         previous.value.ref == current.value.ref {
        return Some(InvalidSweep);
      }
      var vm := previous.value.ref.vm;
      var dead := Closure(previous.value) - Named(current.value);
      var left := SpareProtected(vm, protected, dead);
      if left.None? { return Some(ProtectedUnreadable); }
      var taken := set ref | ref in left.value && ref.vm == vm;
      assert taken == DeadBy(published, previous.value, current.value, protected);
      DeleteCheckpoints(taken);
      return None;
    }

    /** DeleteVM: every checkpoint of a VM whose record is gone, but what its pins keep. */
    method DeleteVM(vm: string, pinned: set<nat>) returns (failure: Option<SweepError>)
      requires Valid()
      modifies this
      ensures Valid() && published == old(published)
      ensures failure.None? <==> CanRead(old(memo), old(roots), vm, pinned)
      ensures failure.Some? ==> roots == old(roots) && parts == old(parts)
      ensures failure.None? ==>
                && (forall ref :: ref in roots <==> ref in old(roots) && !TakenWith(published, vm, pinned, ref))
                && (forall ref :: ref in parts <==> ref in old(parts) && !TakenWith(published, vm, pinned, ref))
    {
      var listed := set ref | ref in roots.Keys + parts && ref.vm == vm;
      var left := SpareProtected(vm, pinned, listed);
      if left.None? { return Some(ProtectedUnreadable); }
      DeleteCheckpoints(left.value);
      return None;
    }
  }

  /** After a publication and the sweep of what it replaced, every page of the replaced view that the new checkpoint
      neither edited nor cut off still has the part it lies in. */
  lemma ReplacedViewSurvivesSweep(published: map<Ref, Index>, store: Store, parent: Index, volumes: map<string, Volume>,
                                  ref: Ref, edits: set<PageKey>, source: Source, index: Index, left: Store,
                                  protected: set<nat>, page: PageKey)
    requires Committed(store, Some(parent), volumes, ref, edits, source, index, left)
    requires forall volume :: volume in volumes ==> volumes[volume].geometry.Supported()
    requires page.volume in volumes && page !in edits && page.volume in parent.volumes
    requires page.page < volumes[page.volume].geometry.PageCount(volumes[page.volume].size)
    ensures parent.volumes[page.volume].geometry.Supported()
    ensures var at := Locate(store, parent, page.volume, page.page);
            at.Some? ==> at.value.ref !in DeadBy(published, parent, index, protected)
  {
    var at := KeptAt(store, Some(parent), volumes, page.volume, page.page);
    assert at.Some? ==> at.value.ref in Named(index);
  }
}
