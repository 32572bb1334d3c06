/** The sum of a map's numbers, and the size of a part of a set. */
module Sums {
  ghost function Sum<K>(m: map<K, nat>): nat
    decreases |m|
  {
    if m == map[] then 0
    else
      var key :| key in m;
      m[key] + Sum(m - {key})
  }

  lemma {:induction false} SumRemove<K>(m: map<K, nat>, key: K)
    requires key in m
    ensures Sum(m) == m[key] + Sum(m - {key})
    decreases |m|
  {
    var first :| first in m && Sum(m) == m[first] + Sum(m - {first});
    if first != key {
      SumRemove(m - {first}, key);
      SumRemove(m - {key}, first);
      assert m - {first} - {key} == m - {key} - {first};
    }
  }

  lemma SumAdd<K>(m: map<K, nat>, key: K, n: nat)
    requires key !in m
    ensures Sum(m[key := n]) == Sum(m) + n
  {
    SumRemove(m[key := n], key);
    assert m[key := n] - {key} == m;
  }

  lemma SumSet<K>(m: map<K, nat>, key: K, n: nat)
    requires key in m
    ensures Sum(m[key := n]) + m[key] == Sum(m) + n
  {
    SumRemove(m, key);
    SumRemove(m[key := n], key);
    assert m[key := n] - {key} == m - {key};
  }

  lemma {:induction false} SubsetSize<T>(a: set<T>, b: set<T>)
    requires a <= b
    ensures |a| <= |b|
    decreases |a|
  {
    if a != {} {
      var x :| x in a;
      SubsetSize(a - {x}, b - {x});
    }
  }

  ghost function Times(n: nat, bound: nat): nat { if n == 0 then 0 else bound + Times(n - 1, bound) }

  lemma {:induction false} TimesIs(n: nat, bound: nat)
    ensures Times(n, bound) == n * bound
  {
    if n > 0 {
      TimesIs(n - 1, bound);
      assert n * bound == (n - 1) * bound + bound;
    }
  }

  lemma {:induction false} SumTimes<K>(m: map<K, nat>, keys: set<K>, bound: nat)
    requires m.Keys <= keys && forall key :: key in m ==> m[key] <= bound
    ensures Sum(m) <= Times(|keys|, bound)
    decreases |m|
  {
    if m != map[] {
      var key :| key in m;
      SumRemove(m, key);
      assert key in keys && |keys - {key}| == |keys| - 1;
      SumTimes(m - {key}, keys - {key}, bound);
    }
  }

  /** A sum of at most so many numbers, none above a bound. */
  lemma SumBounded<K>(m: map<K, nat>, keys: set<K>, bound: nat)
    requires m.Keys <= keys && forall key :: key in m ==> m[key] <= bound
    ensures Sum(m) <= |keys| * bound
  {
    SumTimes(m, keys, bound);
    TimesIs(|keys|, bound);
  }

  /** A sum is no larger than one whose every number is. */
  lemma {:induction false} SumAtMost<K>(a: map<K, nat>, b: map<K, nat>)
    requires a.Keys <= b.Keys && forall key :: key in a ==> a[key] <= b[key]
    ensures Sum(a) <= Sum(b)
    decreases |a|
  {
    if a != map[] {
      var key :| key in a;
      SumRemove(a, key);
      SumRemove(b, key);
      SumAtMost(a - {key}, b - {key});
    }
  }
}
