/** Checkpoint references and their order.

A checkpoint is named by a VM and a sequence. The roots, segments and sweeps of
the store list references in ascending order of VM, then sequence, so that a
publication repeated under one reference writes the same bytes.
*/
module Refs {

  datatype Option<+T> = None | Some(value: T)

  datatype Ref = Ref(vm: string, sequence: nat)

  // ------------------------------------------------------------------ the order

  /** The byte order of VM identities. */
  predicate NameLess(a: string, b: string)
    decreases a
  {
    b != [] && (a == [] || a[0] < b[0] || (a[0] == b[0] && NameLess(a[1..], b[1..])))
  }

  /** compareRefs: the VM first, then the sequence. */
  predicate RefLess(a: Ref, b: Ref) {
    if a.vm != b.vm then NameLess(a.vm, b.vm) else a.sequence < b.sequence
  }

  lemma {:induction false} NameLessTotal(a: string, b: string)
    ensures a == b <==> !NameLess(a, b) && !NameLess(b, a)
    ensures !(NameLess(a, b) && NameLess(b, a))
    decreases a
  {
    if a != [] && b != [] {
      NameLessTotal(a[1..], b[1..]);
      assert a == [a[0]] + a[1..] && b == [b[0]] + b[1..];
    }
  }

  lemma {:induction false} NameLessTransitive(a: string, b: string, c: string)
    requires NameLess(a, b) && NameLess(b, c)
    ensures NameLess(a, c)
    decreases a
  {
    if a != [] && a[0] == b[0] == c[0] {
      NameLessTransitive(a[1..], b[1..], c[1..]);
    }
  }

  lemma RefLessTotal(a: Ref, b: Ref)
    ensures a == b <==> !RefLess(a, b) && !RefLess(b, a)
    ensures !(RefLess(a, b) && RefLess(b, a))
  {
    NameLessTotal(a.vm, b.vm);
  }

  lemma RefLessTransitive(a: Ref, b: Ref, c: Ref)
    requires RefLess(a, b) && RefLess(b, c)
    ensures RefLess(a, c)
  {
    NameLessTotal(a.vm, b.vm);
    if a.vm != b.vm && b.vm != c.vm {
      NameLessTransitive(a.vm, b.vm, c.vm);
      NameLessTotal(a.vm, c.vm);
    }
  }

  /** A list of references in strictly ascending order. */
  ghost predicate Ascending(refs: seq<Ref>) {
    forall i, j :: 0 <= i < j < |refs| ==> RefLess(refs[i], refs[j])
  }

  // ------------------------------------------------------------- sorted listing

  predicate IsLeast(least: Ref, refs: set<Ref>) {
    least in refs && forall r :: r in refs && r != least ==> RefLess(least, r)
  }

  lemma {:induction false} LeastExists(refs: set<Ref>)
    requires refs != {}
    ensures exists least :: IsLeast(least, refs)
  {
    var some :| some in refs;
    var rest := refs - {some};
    if rest == {} {
      assert refs == {some};
      assert IsLeast(some, refs);
    } else {
      LeastExists(rest);
      var low :| IsLeast(low, rest);
      RefLessTotal(low, some);
      if RefLess(low, some) {
        assert IsLeast(low, refs);
      } else {
        forall r | r in refs && r != some ensures RefLess(some, r) {
          if r != low { RefLessTransitive(some, low, r); }
        }
        assert IsLeast(some, refs);
      }
    }
  }

  lemma LeastUnique(a: Ref, b: Ref, refs: set<Ref>)
    requires IsLeast(a, refs) && IsLeast(b, refs)
    ensures a == b
  {
    RefLessTotal(a, b);
  }

  lemma OnlyLeast(refs: set<Ref>)
    ensures forall a, b :: IsLeast(a, refs) && IsLeast(b, refs) ==> a == b
  {
    forall a, b | IsLeast(a, refs) && IsLeast(b, refs) ensures a == b { LeastUnique(a, b, refs); }
  }

  function Least(refs: set<Ref>): (least: Ref)
    requires refs != {}
    ensures IsLeast(least, refs)
  {
    LeastExists(refs);
    OnlyLeast(refs);
    var least :| least in refs && IsLeast(least, refs);
    least
  }

  /** The references of a set in ascending order. */
  function SortedRefs(refs: set<Ref>): (sorted: seq<Ref>)
    ensures forall r :: r in sorted <==> r in refs
    ensures Ascending(sorted)
    ensures |sorted| == |refs|
  {
    if refs == {} then []
    else
      [Least(refs)] + SortedRefs(refs - {Least(refs)})
  }

  /** A set has one ascending listing. */
  lemma {:induction false} AscendingUnique(a: seq<Ref>, b: seq<Ref>)
    requires Ascending(a) && Ascending(b)
    requires forall r :: r in a <==> r in b
    ensures a == b
  {
    assert (a != [] ==> a[0] in b) && (b != [] ==> b[0] in a);
    if a != [] && b != [] {
      RefLessTotal(a[0], b[0]);
      forall r ensures r in a[1..] <==> r in b[1..] {
        AscendingRest(a, r);
        AscendingRest(b, r);
      }
      AscendingUnique(a[1..], b[1..]);
      assert a == [a[0]] + a[1..] && b == [b[0]] + b[1..];
    }
  }

  lemma AscendingRest(a: seq<Ref>, r: Ref)
    requires Ascending(a) && a != []
    ensures r in a[1..] <==> r in a && r != a[0]
  {
    RefLessTotal(r, r);
    assert a == [a[0]] + a[1..];
  }
}
