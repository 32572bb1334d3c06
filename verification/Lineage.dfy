/** Chains of publications and forks.

A family is a store and the roots published into it, each over one before it or over
none. However long the chain and however often a page was moved, every root of the
family is self-consistent, and a page's identity determines its bytes: two roots that
report one identity for a page read the same bytes, which is what lets a cache and a
pager key a page by its identity alone. And every root opens as itself: what is stored
of it decodes back to it.
*/
module Lineage {
  import opened Refs
  import opened Geometries
  import opened Roots
  import opened TableBuilding
  import opened Sealing
  import opened RootCodecs
  import Publications
  import PartWriters
  import Requests

  datatype Family = Family(store: Store, roots: seq<Index>)

  /** A page's identity: the checkpoint it was first published under, its volume and its number. */
  datatype Identity = Identity(origin: Ref, volume: string, page: nat)

  /** One publication, as Commit leaves it, under a reference nothing was written under before. */
  datatype Publishing = Publishing(
    parent: Option<Index>, volumes: map<string, Volume>, ref: Ref, edits: set<PageKey>, source: Source)

  ghost predicate Publishes(ids: Identities, before: Family, after: Family, step: Publishing) {
    && ids(step.ref.vm) && LegalVolumes(step.volumes)
    && (step.parent.Some? ==> step.parent.value in before.roots)
    && (forall volume :: volume in step.volumes ==> step.volumes[volume].geometry.Supported())
    && Fresh(before.store, step.parent, step.ref)
    && (forall i :: 0 <= i < |before.roots| ==> before.roots[i].ref != step.ref)
    && |after.roots| == |before.roots| + 1
    && after.roots[..|before.roots|] == before.roots
    && Committed(before.store, step.parent, step.volumes, step.ref, step.edits, step.source,
                 after.roots[|before.roots|], after.store)
    // What Commit leaves is legal where what it was published over is; CommitExtends is where that is shown.
    && ((step.parent.Some? ==> Legal(ids, step.parent.value)) ==> Legal(ids, after.roots[|before.roots|]))
  }

  /** A chain begins with an empty store. */
  ghost predicate IsChain(ids: Identities, chain: seq<Family>, steps: seq<Publishing>) {
    && |chain| == |steps| + 1
    && chain[0] == Family(Store(map[], map[], map[]), [])
    && forall i :: 0 <= i < |steps| ==> Publishes(ids, chain[i], chain[i + 1], steps[i])
  }

  // --------------------------------------------------------------------- bytes

  type Truth = map<Identity, seq<Byte>>

  ghost predicate PageTold(truth: Truth, store: Store, index: Index, volume: string, page: nat)
    requires volume in index.volumes && index.volumes[volume].geometry.Supported()
  {
    var read := PageAt(store, index, volume, page);
    read.Some? ==>
      && Identity(read.value.origin, volume, page) in truth
      && truth[Identity(read.value.origin, volume, page)] == read.value.data
  }

  /** Every page a root reads is what its identity says. */
  ghost predicate Told(truth: Truth, store: Store, index: Index) {
    && (forall volume :: volume in index.volumes ==> index.volumes[volume].geometry.Supported())
    && (forall volume, page :: volume in index.volumes ==> PageTold(truth, store, index, volume, page))
  }

  /** Every root is readable and told by one account of the pages, all of whose identities were published. */
  ghost predicate Consistent(family: Family, truth: Truth) {
    && (forall i :: 0 <= i < |family.roots| ==>
          WellFormed(family.store, family.roots[i]) && Told(truth, family.store, family.roots[i]))
    && (forall identity :: identity in truth ==>
        exists i :: 0 <= i < |family.roots| && family.roots[i].ref == identity.origin)
  }

  /** What a publication adds to the account: its edits. */
  ghost function Account(truth: Truth, step: Publishing): Truth
    requires forall volume :: volume in step.volumes ==> step.volumes[volume].geometry.Supported()
  {
    truth + map page | page in step.edits && page.volume in step.volumes && Written(step, page).Some?
              :: Identity(step.ref, page.volume, page.page) := Written(step, page).value
  }

  ghost function Written(step: Publishing, page: PageKey): Option<seq<Byte>>
    requires page.volume in step.volumes && step.volumes[page.volume].geometry.Supported()
  {
    var v := step.volumes[page.volume];
    step.source(page.volume, page.page, v.geometry.PageSpan(v.size, page.page))
  }

  lemma OldRootsStayTold(ids: Identities, before: Family, after: Family, step: Publishing, truth: Truth, i: nat)
    requires Consistent(before, truth) && Publishes(ids, before, after, step) && i < |before.roots|
    ensures WellFormed(after.store, before.roots[i]) && Told(Account(truth, step), after.store, before.roots[i])
  {
    hide WellFormed, Extends, PageAt, Expected, Fresh;
    var index := before.roots[i];
    ExtendsKeepsReading(before.store, after.store, index);
    forall volume, page | volume in index.volumes
      ensures PageTold(Account(truth, step), after.store, index, volume, page)
    {
      ExtendsKeepsPage(before.store, after.store, index, volume, page);
      assert PageTold(truth, before.store, index, volume, page);
      var read := PageAt(before.store, index, volume, page);
      if read.Some? { OldIdentity(before, truth, step, Identity(read.value.origin, volume, page)); }
    }
  }

  /** An identity already accounted for is none of the new checkpoint's. */
  lemma OldIdentity(before: Family, truth: Truth, step: Publishing, identity: Identity)
    requires Consistent(before, truth) && identity in truth
    requires forall i :: 0 <= i < |before.roots| ==> before.roots[i].ref != step.ref
    requires forall volume :: volume in step.volumes ==> step.volumes[volume].geometry.Supported()
    ensures identity in Account(truth, step) && Account(truth, step)[identity] == truth[identity]
  {
  }

  lemma NewRootIsTold(ids: Identities, before: Family, after: Family, step: Publishing, truth: Truth)
    requires Consistent(before, truth) && Publishes(ids, before, after, step)
    ensures Told(Account(truth, step), after.store, after.roots[|before.roots|])
  {
    hide WellFormed, Extends, PageAt, Fresh, KeptAt;
    var index := after.roots[|before.roots|];
    forall volume, page | volume in index.volumes
      ensures PageTold(Account(truth, step), after.store, index, volume, page)
    {
      var key := PageKey(volume, page);
      assert PageAt(after.store, index, volume, page)
          == Expected(before.store, step.parent, step.volumes, step.ref, step.edits, step.source, key);
      if key !in step.edits && step.parent.Some? && volume in step.parent.value.volumes {
        assert PageTold(truth, before.store, step.parent.value, volume, page);
        var read := PageAt(before.store, step.parent.value, volume, page);
        if read.Some? { OldIdentity(before, truth, step, Identity(read.value.origin, volume, page)); }
      }
    }
  }

  lemma PublicationKeepsConsistent(ids: Identities, before: Family, after: Family, step: Publishing, truth: Truth)
    requires Consistent(before, truth) && Publishes(ids, before, after, step)
    ensures Consistent(after, Account(truth, step))
  {
    hide WellFormed, Told, Extends, Expected, KeptAt, Fresh;
    forall i | 0 <= i < |after.roots|
      ensures WellFormed(after.store, after.roots[i]) && Told(Account(truth, step), after.store, after.roots[i])
    {
      if i < |before.roots| {
        assert after.roots[i] == after.roots[..|before.roots|][i];
        OldRootsStayTold(ids, before, after, step, truth, i);
      } else {
        NewRootIsTold(ids, before, after, step, truth);
      }
    }
    forall identity | identity in Account(truth, step)
      ensures exists i :: 0 <= i < |after.roots| && after.roots[i].ref == identity.origin
    {
      if identity in truth {
        var i :| 0 <= i < |before.roots| && before.roots[i].ref == identity.origin;
        assert after.roots[i] == after.roots[..|before.roots|][i];
      } else {
        assert after.roots[|before.roots|].ref == identity.origin;
      }
    }
  }

  lemma {:induction false} ChainIsConsistent(ids: Identities, chain: seq<Family>, steps: seq<Publishing>, n: nat)
    requires IsChain(ids, chain, steps) && n < |chain|
    ensures exists truth :: Consistent(chain[n], truth)
    decreases n
  {
    hide Publishes, Told;
    if n == 0 {
      assert Consistent(chain[0], map[]);
    } else {
      ChainIsConsistent(ids, chain, steps, n - 1);
      var truth :| Consistent(chain[n - 1], truth);
      assert Publishes(ids, chain[n - 1], chain[n - 1 + 1], steps[n - 1]);
      PublicationSupported(ids, chain[n - 1], chain[n], steps[n - 1]);
      PublicationKeepsConsistent(ids, chain[n - 1], chain[n], steps[n - 1], truth);
    }
  }

  lemma PublicationSupported(ids: Identities, before: Family, after: Family, step: Publishing)
    requires Publishes(ids, before, after, step)
    ensures forall volume :: volume in step.volumes ==> step.volumes[volume].geometry.Supported()
  {
  }

  /** Along any chain of publications and forks, every root is self-consistent. */
  lemma EveryRootIsWellFormed(ids: Identities, chain: seq<Family>, steps: seq<Publishing>, n: nat, i: nat)
    requires IsChain(ids, chain, steps) && n < |chain| && i < |chain[n].roots|
    ensures WellFormed(chain[n].store, chain[n].roots[i])
  {
    hide Publishes, Told, WellFormed;
    ChainIsConsistent(ids, chain, steps, n);
  }

  /** Along any chain of publications and forks, one identity is one page's bytes. */
  lemma IdentityMeansBytes(ids: Identities, chain: seq<Family>, steps: seq<Publishing>, n: nat, i: nat, j: nat,
                           volume: string, page: nat)
    requires IsChain(ids, chain, steps) && n < |chain| && i < |chain[n].roots| && j < |chain[n].roots|
    requires volume in chain[n].roots[i].volumes && volume in chain[n].roots[j].volumes
    ensures chain[n].roots[i].volumes[volume].geometry.Supported()
    ensures chain[n].roots[j].volumes[volume].geometry.Supported()
    ensures var a := PageAt(chain[n].store, chain[n].roots[i], volume, page);
            var b := PageAt(chain[n].store, chain[n].roots[j], volume, page);
            a.Some? && b.Some? && a.value.origin == b.value.origin ==> a == b
  {
    hide Publishes, WellFormed, PageAt;
    ChainIsConsistent(ids, chain, steps, n);
    var truth :| Consistent(chain[n], truth);
    assert PageTold(truth, chain[n].store, chain[n].roots[i], volume, page);
    assert PageTold(truth, chain[n].store, chain[n].roots[j], volume, page);
  }

  // --------------------------------------------------------------------- opening

  lemma {:induction false} ChainIsLegal(ids: Identities, chain: seq<Family>, steps: seq<Publishing>, n: nat, i: nat)
    requires IsChain(ids, chain, steps) && n < |chain| && i < |chain[n].roots|
    ensures Legal(ids, chain[n].roots[i])
    decreases n
  {
    hide Legal, Committed, LegalVolumes, Fresh;
    var before, step := chain[n - 1], steps[n - 1];
    assert Publishes(ids, before, chain[n - 1 + 1], step);
    if i < |before.roots| {
      assert chain[n].roots[i] == chain[n].roots[..|before.roots|][i];
      ChainIsLegal(ids, chain, steps, n - 1, i);
    } else if step.parent.Some? {
      var j :| 0 <= j < |before.roots| && before.roots[j] == step.parent.value;
      ChainIsLegal(ids, chain, steps, n - 1, j);
    }
  }

  /** Along any chain of publications and forks, every root can be stored, and what is stored of it is accepted and says
      that root. */
  lemma EveryRootRoundTrips(ids: Identities, chain: seq<Family>, steps: seq<Publishing>, n: nat, i: nat)
    requires IsChain(ids, chain, steps) && n < |chain| && i < |chain[n].roots|
    ensures var root := chain[n].roots[i];
      Storable(ids, root) && RootOk(ids, Encode(root)) && Says(root.ref, Encode(root), root)
  {
    hide IsChain, Legal, WellFormed, RootOk, Says;
    var root := chain[n].roots[i];
    EveryRootIsWellFormed(ids, chain, steps, n, i);
    ChainIsLegal(ids, chain, steps, n, i);
    WellFormedIsStorable(ids, chain[n].store, root);
    RootRoundTrip(ids, root);
  }

  /** So opening what was stored of it gives the root back. */
  method Reopen(ids: Identities, root: Index, ghost chain: seq<Family>, ghost steps: seq<Publishing>, ghost n: nat,
                ghost i: nat)
    returns (again: Option<Index>)
    requires IsChain(ids, chain, steps) && n < |chain| && i < |chain[n].roots| && chain[n].roots[i] == root
    ensures again == Some(root)
  {
    hide IsChain, EntryStorable, LocationOk, RootOk, Says;
    EveryRootRoundTrips(ids, chain, steps, n, i);
    var message := Encode(root);
    again := Decode(ids, root.ref, message);
    SaysOne(ids, root.ref, message, again.value, root);
  }

  /** A commit over a root of a chain is the next step of the chain, so what it leaves opens as itself too. */
  method CommitExtends(p: Publications.Publication, source: Source, format: PartWriters.Format,
                       ghost chain: seq<Family>,
                       ghost steps: seq<Publishing>)
    returns (result: Publications.Result<Publications.Published>, ghost longer: seq<Family>,
             ghost more: seq<Publishing>)
    requires p.Settable() && Fills(source) && format.Valid()
    requires IsChain(p.ids, chain, steps) && chain[|steps|].store == p.store
    requires p.parent.Some? ==> p.parent.value in chain[|steps|].roots
    requires forall i :: 0 <= i < |chain[|steps|].roots| ==> chain[|steps|].roots[i].ref != p.ref
    modifies p`index, p`working, p`dirty, p`tables
    ensures result.Ok? ==>
      && more == steps + [Publishing(p.parent, p.volumes, p.ref, p.edits, source)]
      && longer == chain + [Family(result.value.store, chain[|steps|].roots + [result.value.index])]
      && IsChain(p.ids, longer, more)
      && Storable(p.ids, result.value.index) && RootOk(p.ids, Encode(result.value.index))
      && Says(p.ref, Encode(result.value.index), result.value.index)
  {
    hide Committed, Legal, LegalVolumes, WellFormed, Fresh, RootOk, Says, Storable, Publishes, StateAt;
    hide Requests.Lays, Requests.Fitted, Requests.Small, Requests.WrittenOut, Requests.ShortSegments, ExpectedState;
    hide PartWriters.PartsFit, PartWriters.Format.Valid, Built.Root, Built.Left, Publications.Publication.CanCommit;
    longer, more := chain, steps;
    ghost var built;
    result, built := p.Commit(source, format);
    if result.Ok? {
      ghost var last := chain[|steps|];
      ghost var step := Publishing(p.parent, p.volumes, p.ref, p.edits, source);
      ghost var next := Family(result.value.store, last.roots + [result.value.index]);
      more, longer := steps + [step], chain + [next];
      CommitPublishes(p.ids, last, next, step, result.value.index);
      ChainGrows(p.ids, chain, steps, next, step);
      EveryRootRoundTrips(p.ids, longer, more, |more|, |last.roots|);
      CommittedRef(p.store, p.parent, p.volumes, p.ref, p.edits, source, result.value.index, result.value.store);
    }
  }

  lemma CommitPublishes(ids: Identities, last: Family, next: Family, step: Publishing, index: Index)
    requires ids(step.ref.vm) && LegalVolumes(step.volumes) && Legal(ids, index)
    requires step.parent.Some? ==> step.parent.value in last.roots
    requires forall volume :: volume in step.volumes ==> step.volumes[volume].geometry.Supported()
    requires Fresh(last.store, step.parent, step.ref)
    requires forall i :: 0 <= i < |last.roots| ==> last.roots[i].ref != step.ref
    requires Committed(last.store, step.parent, step.volumes, step.ref, step.edits, step.source, index, next.store)
    requires next.roots == last.roots + [index]
    ensures Publishes(ids, last, next, step)
  {
    hide Committed, Legal, LegalVolumes, Fresh;
  }

  lemma CommittedRef(store: Store, parent: Option<Index>, volumes: map<string, Volume>, ref: Ref, edits: set<PageKey>,
                     source: Source, index: Index, left: Store)
    requires Committed(store, parent, volumes, ref, edits, source, index, left)
    ensures index.ref == ref
  {
  }

  lemma ChainGrows(ids: Identities, chain: seq<Family>, steps: seq<Publishing>, next: Family, step: Publishing)
    requires IsChain(ids, chain, steps) && Publishes(ids, chain[|steps|], next, step)
    ensures IsChain(ids, chain + [next], steps + [step]) && |chain| == |steps| + 1
  {
    hide Publishes;
  }
}
