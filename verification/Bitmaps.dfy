/** Sets of small numbers as the bits of machine words: counting, lowest and highest bits.

The order of a set is its strictly rising sequence; the number of elements below one
is its place in it. A window's bitmap is eight words of 64 pages each.
*/
module Bitmaps {
  import Sums

  const WINDOW_PAGES := 512
  const WORD_BITS := 64

  // ---------------------------------------------------------------- sets of numbers

  ghost predicate Rising(s: seq<nat>) { forall i, j :: 0 <= i < j < |s| ==> s[i] < s[j] }

  ghost function Elements(s: seq<nat>): set<nat> { set x | x in s }

  lemma {:induction false} LeastOf(s: set<nat>) returns (least: nat)
    requires s != {}
    ensures least in s && forall y :: y in s ==> least <= y
    decreases |s|
  {
    var x :| x in s;
    var rest := s - {x};
    assert forall y :: y in s ==> y == x || y in rest;
    least := x;
    if rest != {} {
      var lower := LeastOf(rest);
      if lower < x { least := lower; }
    }
  }

  lemma {:induction false} GreatestOf(s: set<nat>) returns (greatest: nat)
    requires s != {}
    ensures greatest in s && forall y :: y in s ==> y <= greatest
    decreases |s|
  {
    var x :| x in s;
    var rest := s - {x};
    assert forall y :: y in s ==> y == x || y in rest;
    greatest := x;
    if rest != {} {
      var higher := GreatestOf(rest);
      if higher > x { greatest := higher; }
    }
  }

  lemma LeastExists(s: set<nat>)
    requires s != {}
    ensures exists x :: x in s && forall y :: y in s ==> x <= y
  {
    var least := LeastOf(s);
  }

  lemma GreatestExists(s: set<nat>)
    requires s != {}
    ensures exists x :: x in s && forall y :: y in s ==> y <= x
  {
    var greatest := GreatestOf(s);
  }

  /** The lowest set bit. */
  function Least(s: set<nat>): (x: nat)
    requires s != {}
    ensures x in s && forall y :: y in s ==> x <= y
  {
    LeastExists(s);
    var x :| x in s && forall y :: y in s ==> x <= y;
    x
  }

  /** The highest set bit. */
  function Greatest(s: set<nat>): (x: nat)
    requires s != {}
    ensures x in s && forall y :: y in s ==> y <= x
  {
    GreatestExists(s);
    var x :| x in s && forall y :: y in s ==> y <= x;
    x
  }

  function Below(s: set<nat>, x: nat): set<nat> { set y | y in s && y < x }

  function Above(s: set<nat>, x: nat): set<nat> { set y | y in s && y > x }

  lemma ElementsAppend(s: seq<nat>, x: nat)
    ensures Elements(s + [x]) == Elements(s) + {x}
  {
    assert forall y :: y in s + [x] <==> y in s || y == x;
  }

  lemma ElementsPrepend(s: seq<nat>, x: nat)
    ensures Elements([x] + s) == Elements(s) + {x}
  {
    assert forall y :: y in [x] + s <==> y in s || y == x;
  }

  lemma {:induction false} ElementsSize(s: seq<nat>)
    requires Rising(s)
    ensures |Elements(s)| == |s|
  {
    if s != [] {
      var front, last := s[..|s| - 1], s[|s| - 1];
      assert s == front + [last];
      ElementsSize(front);
      ElementsAppend(front, last);
      assert last !in front;
    }
  }

  /** Counting the bits below an element gives its place in order. */
  lemma RankInOrder(s: seq<nat>, r: nat)
    requires Rising(s) && r < |s|
    ensures |Below(Elements(s), s[r])| == r
  {
    var front := s[..r];
    ElementsSize(front);
    forall x: nat ensures x in Below(Elements(s), s[r]) <==> x in Elements(front) {
      if x in Below(Elements(s), s[r]) {
        var i :| 0 <= i < |s| && s[i] == x;
        assert front[i] == x;
      }
    }
    assert Below(Elements(s), s[r]) == Elements(front);
  }

  lemma LeastIsFirst(s: seq<nat>, r: nat)
    requires Rising(s) && r < |s|
    ensures Elements(s[r..]) != {} && Least(Elements(s[r..])) == s[r]
    ensures Elements(s[r..]) - {s[r]} == Elements(s[r + 1..])
  {
    var tail := s[r + 1..];
    assert s[r..] == [s[r]] + tail;
    ElementsPrepend(tail, s[r]);
    assert forall i :: 0 <= i < |tail| ==> tail[i] == s[r + 1 + i];
    assert forall y :: y in tail ==> s[r] < y;
  }

  lemma NextInOrder(s: seq<nat>, q: nat)
    requires Rising(s) && q < |s|
    ensures Above(Elements(s), s[q]) == Elements(s[q + 1..])
    ensures q + 1 < |s| ==> Above(Elements(s), s[q]) != {} && Least(Above(Elements(s), s[q])) == s[q + 1]
    ensures Elements(s) != {} && Greatest(Elements(s)) == s[|s| - 1]
  {
    var tail := s[q + 1..];
    assert forall i :: 0 <= i < |tail| ==> tail[i] == s[q + 1 + i];
    forall x: nat ensures x in Above(Elements(s), s[q]) <==> x in Elements(tail) {
      if x in Above(Elements(s), s[q]) {
        var i :| 0 <= i < |s| && s[i] == x;
        assert tail[i - q - 1] == x;
      }
    }
    if q + 1 < |s| { LeastIsFirst(s, q + 1); }
    assert s[|s| - 1] in Elements(s);
  }

  // ------------------------------------------------------------------ page bitmaps

  /** The pages a bitmap of eight words marks. */
  ghost function Marked(present: seq<set<nat>>): set<nat> {
    set w, b | 0 <= w < |present| && b in present[w] :: w * WORD_BITS + b
  }

  ghost predicate IsBitmap(present: seq<set<nat>>) {
    |present| == WINDOW_PAGES / WORD_BITS && forall w :: 0 <= w < |present| ==> forall b :: b in present[w] ==>
      b < WORD_BITS
  }

  lemma MarkedIff(present: seq<set<nat>>, page: nat)
    requires IsBitmap(present)
    ensures page in Marked(present) <==> page / WORD_BITS < |present| && page % WORD_BITS in present[page / WORD_BITS]
  {
    if page in Marked(present) {
      var w, b :| 0 <= w < |present| && b in present[w] && page == w * WORD_BITS + b;
      assert b < WORD_BITS;
      assert page / WORD_BITS == w && page % WORD_BITS == b;
    }
    if page / WORD_BITS < |present| && page % WORD_BITS in present[page / WORD_BITS] {
      var w, b := page / WORD_BITS, page % WORD_BITS;
      assert b in present[w] && page == w * WORD_BITS + b;
    }
  }

  lemma MarkPage(present: seq<set<nat>>, page: nat)
    requires IsBitmap(present) && page < WINDOW_PAGES
    ensures var w := page / WORD_BITS;
      var next := present[w := present[w] + {page % WORD_BITS}];
      IsBitmap(next) && Marked(next) == Marked(present) + {page}
  {
    var w := page / WORD_BITS;
    var next := present[w := present[w] + {page % WORD_BITS}];
    forall x: nat ensures x in Marked(next) <==> x in Marked(present) + {page} {
      MarkedIff(next, x);
      MarkedIff(present, x);
      assert x / WORD_BITS == w && x % WORD_BITS == page % WORD_BITS ==> x == page;
    }
  }

  lemma {:induction false} Shifted(bits: set<nat>, base: nat)
    ensures |set b | b in bits :: base + b| == |bits|
    decreases |bits|
  {
    var image := set b | b in bits :: base + b;
    if bits != {} {
      var x :| x in bits;
      Shifted(bits - {x}, base);
      var rest := set b | b in bits - {x} :: base + b;
      forall y: nat ensures y in image <==> y in rest + {base + x} {
        if y in image { var b :| b in bits && y == base + b; assert b == x || b in bits - {x}; }
        if y in rest { var b :| b in bits - {x} && y == base + b; assert b in bits; }
      }
      assert image == rest + {base + x};
      assert base + x !in rest;
    } else {
      assert image == {};
    }
  }

  lemma Disjoint(a: set<nat>, b: set<nat>)
    requires a !! b
    ensures |a + b| == |a| + |b|
  {
  }

  /** Counting whole words, then the low bits of one, counts the marked pages below a page. */
  lemma {:induction false} CountBelow(present: seq<set<nat>>, w: nat, x: nat)
    requires IsBitmap(present) && w < |present| && x <= WORD_BITS
    ensures |Below(Marked(present), w * WORD_BITS + x)| == WordBits(present, w) + |Below(present[w], x)|
    decreases w
  {
    var base := w * WORD_BITS;
    var lower, upper := Below(Marked(present), base), set b | b in Below(present[w], x) :: base + b;
    Shifted(Below(present[w], x), base);
    forall p: nat ensures p in Below(Marked(present), base + x) <==> p in lower + upper {
      MarkedIff(present, p);
      if p in Below(Marked(present), base + x) && base <= p {
        assert p / WORD_BITS == w && p == base + p % WORD_BITS;
        assert p % WORD_BITS in Below(present[w], x);
      }
      if p in upper {
        var b :| b in Below(present[w], x) && p == base + b;
        assert p / WORD_BITS == w && p % WORD_BITS == b;
      }
    }
    assert Below(Marked(present), base + x) == lower + upper;
    Disjoint(lower, upper);
    if w > 0 {
      CountBelow(present, w - 1, WORD_BITS);
      assert Below(present[w - 1], WORD_BITS) == present[w - 1];
      assert (w - 1) * WORD_BITS + WORD_BITS == base;
    } else {
      assert lower == {};
    }
  }

  /** The bits of the words before one. */
  ghost function WordBits(present: seq<set<nat>>, w: nat): nat
    requires w <= |present|
  {
    if w == 0 then 0 else WordBits(present, w - 1) + |present[w - 1]|
  }
}
