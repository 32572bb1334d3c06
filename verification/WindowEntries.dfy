/** One run of a window's items on the disk, in its two compressed forms.

A run's items are stripes of consecutive pages of one window, laid out one after
another in a region. Every page of a run but its last holds the same set of indices of
the code. A short run lists its items; a long one keeps a bitmap of its window's pages
in eight words and the items' words alone, and finds an item by counting bits.

A bitmap word is the set of its bits. An item word packs a length, a read counter and
whether the item was forgotten.
*/
module WindowEntries {
  import opened Bitmaps

  const MAXIMUM_STRIPES := 32
  const DENSE_ITEMS := 16
  const ENTRY_CHARGE := 96
  const LISTED_CHARGE := 8
  const BITMAP_CHARGE := 64
  const DENSE_CHARGE := 4

  // ------------------------------------------------------------------- item words

  const LENGTH_UNIT := 0x100_0000
  const FORGOTTEN_BIT := 0x8000_0000
  const READS_MAX := 127

  type ItemWord = w: nat | w < 0x1_0000_0000

  function NewWord(length: nat): ItemWord
    requires length < LENGTH_UNIT
  {
    length
  }

  function LengthOf(w: ItemWord): nat { w % LENGTH_UNIT }

  function ReadsOf(w: ItemWord): nat { w / LENGTH_UNIT % 128 }

  predicate Forgotten(w: ItemWord) { w / FORGOTTEN_BIT % 2 == 1 }

  function Forget(w: ItemWord): ItemWord { if Forgotten(w) then w else w + FORGOTTEN_BIT }

  function Read(w: ItemWord): ItemWord {
    if ReadsOf(w) == READS_MAX then w else w + LENGTH_UNIT
  }

  /** The three fields of a word never disturb each other, and the counter stops at its ceiling. */
  lemma WordFields(w: ItemWord, length: nat)
    requires length < LENGTH_UNIT
    ensures LengthOf(NewWord(length)) == length && ReadsOf(NewWord(length)) == 0 && !Forgotten(NewWord(length))
    ensures LengthOf(Forget(w)) == LengthOf(w) && ReadsOf(Forget(w)) == ReadsOf(w) && Forgotten(Forget(w))
    ensures LengthOf(Read(w)) == LengthOf(w) && Forgotten(Read(w)) == Forgotten(w)
    ensures ReadsOf(Read(w)) == if ReadsOf(w) < READS_MAX then ReadsOf(w) + 1 else READS_MAX
  {
  }

  // ----------------------------------------------------------------------- layout

  datatype ListedItem = ListedItem(page: nat, stripe: nat, word: ItemWord)

  /** A run's items: page after page in rising order, each page but the last with the same rising indices. A run of one
      page has exactly its indices. */
  ghost predicate Laid(items: seq<ListedItem>, sheet: seq<nat>, order: seq<nat>) {
    && Rising(sheet) && Rising(order)
    && (forall r :: 0 <= r < |sheet| ==> sheet[r] < WINDOW_PAGES)
    && (forall q :: 0 <= q < |order| ==> order[q] < MAXIMUM_STRIPES)
    && (items == [] <==> sheet == []) && (items == [] <==> order == [])
    && Filled(|items|, |sheet|, |order|)
    && (forall r, q :: 0 <= r < |sheet| && 0 <= q < |order| && At(r, |order|, q) < |items| ==>
          Is(items[At(r, |order|, q)], sheet[r], order[q]))
  }

  predicate Is(item: ListedItem, page: nat, stripe: nat) { item.page == page && item.stripe == stripe }

  /** Every page but the last is full, and the last has begun. */
  ghost predicate Filled(items: nat, pages: nat, stripes: nat) {
    && (pages > 0 ==> (pages - 1) * stripes < items <= pages * stripes)
    && (pages == 1 ==> items == stripes)
  }

  function At(r: nat, n: nat, q: nat): nat { r * n + q }

  lemma Coordinates(items: seq<ListedItem>, sheet: seq<nat>, order: seq<nat>, i: nat) returns (r: nat, q: nat)
    requires Laid(items, sheet, order) && i < |items|
    ensures r < |sheet| && q < |order| && i == At(r, |order|, q)
    ensures Is(items[i], sheet[r], order[q])
  {
    r, q := Split(i, |order|, |sheet|);
    assert Is(items[At(r, |order|, q)], sheet[r], order[q]);
  }

  lemma Split(i: nat, n: nat, rows: nat) returns (r: nat, q: nat)
    requires n > 0 && i < rows * n
    ensures r < rows && q < n && i == At(r, n, q)
  {
    r, q := i / n, i % n;
    assert i == r * n + q;
    if r >= rows { Times(rows, r, n); }
  }

  lemma Times(a: nat, b: nat, n: nat)
    requires a <= b
    ensures a * n <= b * n
  {
  }

  lemma SameCoordinates(r: nat, q: nat, s: nat, p: nat, n: nat)
    requires q < n && p < n && At(r, n, q) == At(s, n, p)
    ensures r == s && q == p
  {
    if r < s {
      Times(r + 1, s, n);
    } else if s < r {
      Times(s + 1, r, n);
    }
  }

  /** No two items of a run are the same stripe of the same page. */
  lemma ItemsDiffer(items: seq<ListedItem>, sheet: seq<nat>, order: seq<nat>, i: nat, j: nat)
    requires Laid(items, sheet, order) && i < j < |items|
    ensures !Is(items[j], items[i].page, items[i].stripe)
  {
    var r, q := Coordinates(items, sheet, order, i);
    var s, p := Coordinates(items, sheet, order, j);
    assert sheet[r] == sheet[s] ==> r == s;
    assert order[q] == order[p] ==> q == p;
  }

  /** How far into a run an item lies. */
  ghost function Offset(items: seq<ListedItem>, header: nat, at: nat): nat
    requires at <= |items|
  {
    if at == 0 then 0 else Offset(items, header, at - 1) + header + LengthOf(items[at - 1].word)
  }

  lemma {:induction false} OffsetStays(items: seq<ListedItem>, more: seq<ListedItem>, header: nat, at: nat)
    requires at <= |items| <= |more| && forall i :: 0 <= i < at ==> LengthOf(items[i].word) == LengthOf(more[i].word)
    ensures Offset(items, header, at) == Offset(more, header, at)
    decreases at
  {
    if at > 0 { OffsetStays(items, more, header, at - 1); }
  }

  ghost function LiveCount(items: seq<ListedItem>): nat {
    if items == [] then 0
    else LiveCount(items[..|items| - 1]) + if Forgotten(items[|items| - 1].word) then 0 else 1
  }

  ghost function WordsOf(items: seq<ListedItem>): seq<ItemWord> {
    seq(|items|, i requires 0 <= i < |items| => items[i].word)
  }

  // ------------------------------------------------------------------ what comes next

  /** The items a run may take next: another index of its only page, the next index of its last page, or the first
      index of a later page once the last is full. */
  ghost predicate Follows(items: seq<ListedItem>, sheet: seq<nat>, order: seq<nat>, page: nat, stripe: nat)
    requires items != [] && Laid(items, sheet, order)
  {
    var n, last := |order|, items[|items| - 1];
    || (page == last.page && |sheet| == 1 && stripe > last.stripe)
    || (page == last.page && |items| < |sheet| * n && stripe == order[|items| - (|sheet| - 1) * n])
    || (page > last.page && |items| == |sheet| * n && stripe == order[0])
  }

  lemma LastItem(items: seq<ListedItem>, sheet: seq<nat>, order: seq<nat>)
    requires items != [] && Laid(items, sheet, order)
    ensures var q := |items| - 1 - (|sheet| - 1) * |order|;
      0 <= q < |order| && Is(items[|items| - 1], sheet[|sheet| - 1], order[q])
  {
    var q := |items| - 1 - (|sheet| - 1) * |order|;
    assert At(|sheet| - 1, |order|, q) == |items| - 1;
  }

  /** The bit tests of the source say exactly what may come next. */
  lemma BitsSayFollows(items: seq<ListedItem>, sheet: seq<nat>, order: seq<nat>, page: nat, stripe: nat)
    requires items != [] && Laid(items, sheet, order) && stripe < MAXIMUM_STRIPES
    ensures Elements(order) != {}
    ensures var stripes, last := Elements(order), items[|items| - 1];
      var next := if Above(stripes, last.stripe) == {} then MAXIMUM_STRIPES else Least(Above(stripes, last.stripe));
      Follows(items, sheet, order, page, stripe) <==>
        if page == last.page then stripe > last.stripe && (|sheet| == 1 || stripe == next)
        else page > last.page && last.stripe == Greatest(stripes) && stripe == Least(stripes)
  {
    LastItem(items, sheet, order);
    var q := |items| - 1 - (|sheet| - 1) * |order|;
    NextInOrder(order, q);
    LeastIsFirst(order, 0);
    assert order[0..] == order;
    assert |items| == |sheet| * |order| <==> q == |order| - 1;
    if q == |order| - 1 {
      assert order[q + 1..] == [];
    }
  }

  /** The pages and indices of a run that takes one more item. */
  ghost function SheetAfter(sheet: seq<nat>, page: nat): seq<nat> {
    if sheet != [] && sheet[|sheet| - 1] == page then sheet else sheet + [page]
  }

  ghost function OrderAfter(sheet: seq<nat>, order: seq<nat>, page: nat, stripe: nat): seq<nat> {
    if |SheetAfter(sheet, page)| == 1 then order + [stripe] else order
  }

  lemma AddLays(items: seq<ListedItem>, sheet: seq<nat>, order: seq<nat>, item: ListedItem)
    requires Laid(items, sheet, order) && item.page < WINDOW_PAGES && item.stripe < MAXIMUM_STRIPES
    requires items == [] || Follows(items, sheet, order, item.page, item.stripe)
    ensures Laid(items + [item], SheetAfter(sheet, item.page), OrderAfter(sheet, order, item.page, item.stripe))
  {
    var more, newSheet, newOrder :=
      items + [item], SheetAfter(sheet, item.page), OrderAfter(sheet, order, item.page, item.stripe);
    if items != [] { LastItem(items, sheet, order); }
    AddFills(items, sheet, order, item);
    forall r, q | 0 <= r < |newSheet| && 0 <= q < |newOrder| && At(r, |newOrder|, q) < |more|
      ensures Is(more[At(r, |newOrder|, q)], newSheet[r], newOrder[q])
    {
      AddedAt(items, sheet, order, item, r, q);
    }
  }

  lemma AddFills(items: seq<ListedItem>, sheet: seq<nat>, order: seq<nat>, item: ListedItem)
    requires Laid(items, sheet, order)
    requires items == [] || Follows(items, sheet, order, item.page, item.stripe)
    ensures var newSheet, newOrder := SheetAfter(sheet, item.page), OrderAfter(sheet, order, item.page, item.stripe);
      Filled(|items| + 1, |newSheet|, |newOrder|) && Rising(newSheet) && Rising(newOrder)
  {
    if items != [] {
      LastItem(items, sheet, order);
      assert (|sheet| + 1 - 1) * |order| == |sheet| * |order|;
      assert (|sheet| + 1) * |order| == |sheet| * |order| + |order|;
    }
  }

  lemma AddedAt(items: seq<ListedItem>, sheet: seq<nat>, order: seq<nat>, item: ListedItem, r: nat, q: nat)
    requires Laid(items, sheet, order)
    requires items == [] || Follows(items, sheet, order, item.page, item.stripe)
    requires var newSheet, newOrder := SheetAfter(sheet, item.page), OrderAfter(sheet, order, item.page, item.stripe);
      r < |newSheet| && q < |newOrder| && At(r, |newOrder|, q) <= |items|
    ensures var newSheet, newOrder := SheetAfter(sheet, item.page), OrderAfter(sheet, order, item.page, item.stripe);
      Is((items + [item])[At(r, |newOrder|, q)], newSheet[r], newOrder[q])
  {
    var newSheet, newOrder := SheetAfter(sheet, item.page), OrderAfter(sheet, order, item.page, item.stripe);
    var n := |newOrder|;
    if |newSheet| == 1 {
      assert At(r, n, q) == q;
      if items != [] {
        LastItem(items, sheet, order);
        if q < |items| { assert At(0, |order|, q) == q; }
      }
    } else {
      LastItem(items, sheet, order);
      if At(r, n, q) < |items| {
        assert r == |sheet| ==> r * n == |sheet| * n;
      } else {
        var pages := |newSheet| - 1;
        assert At(pages, n, |items| - pages * n) == |items|;
        SameCoordinates(r, q, pages, |items| - pages * n, n);
      }
    }
  }

  // ------------------------------------------------------------------------ entries

  /** One live item as a walk of the run meets it. */
  datatype Visit = Visit(at: nat, page: nat, stripe: nat, word: ItemWord, offset: nat)

  /** The live items before a position, in the order they lie. */
  ghost function LiveVisits(items: seq<ListedItem>, first: nat, header: nat, n: nat): seq<Visit>
    requires n <= |items|
  {
    if n == 0 then []
    else
      var before, item := LiveVisits(items, first, header, n - 1), items[n - 1];
      if Forgotten(item.word) then before
      else before + [Visit(n - 1, item.page, item.stripe, item.word, first + Offset(items, header, n - 1))]
  }

  lemma NoneVisited(items: seq<ListedItem>, sheet: seq<nat>, order: seq<nat>, first: nat, header: nat)
    ensures Reached(0, |order|, |items|) == 0 && Offset(items, header, 0) == 0
    ensures LiveVisits(items, first, header, 0) == []
  {
  }

  lemma ReachedAll(items: seq<ListedItem>, sheet: seq<nat>, order: seq<nat>)
    requires Laid(items, sheet, order)
    ensures Reached(|sheet|, |order|, |items|) == |items|
  {
  }

  function ChargeOf(dense: bool, items: nat): nat {
    if dense then ENTRY_CHARGE + BITMAP_CHARGE + DENSE_CHARGE * items else ENTRY_CHARGE + LISTED_CHARGE * items
  }

  class WindowEntry {
    const hash: nat
    const region: nat
    const first: nat
    const header: nat
    const k: nat
    const m: nat
    var end: nat
    var stripes: set<nat>
    var last: nat
    var lastStripe: nat
    var pages: nat
    var list: seq<ListedItem>
    var dense: bool
    var present: seq<set<nat>>
    var words: seq<ItemWord>
    var live: nat
    /** The index no longer holds the entry. */
    var removed: bool
    /** The items of the run, whatever form holds them, and their pages and indices in order. */
    ghost var items: seq<ListedItem>
    ghost var sheet: seq<nat>
    ghost var order: seq<nat>

    /** What the entry keeps of its run in either form. */
    ghost predicate Tracks()
      reads this`stripes, this`pages, this`last, this`lastStripe, this`end, this`items, this`sheet, this`order
    {
      && Laid(items, sheet, order)
      && stripes == Elements(order) && pages == |sheet|
      && (items != [] ==> Is(items[|items| - 1], last, lastStripe))
      && end == first + Offset(items, header, |items|)
    }

    /** The form it is in holds the run. */
    ghost predicate Shaped()
      reads this
    {
      && Tracks()
      && (!dense ==> list == items && |items| <= DENSE_ITEMS)
      && (dense ==>
            && list == [] && words == WordsOf(items) && |items| > DENSE_ITEMS
            && IsBitmap(present) && Marked(present) == Elements(sheet))
    }

    ghost predicate Valid()
      reads this
    {
      Shaped() && live == LiveCount(items)
    }

    constructor (hash: nat, region: nat, offset: nat, header: nat, k: nat, m: nat)
      ensures Valid() && items == [] && sheet == [] && order == [] && !dense && list == [] && !removed
      ensures this.hash == hash && this.region == region && first == offset && end == offset && this.header == header
      ensures this.k == k && this.m == m
    {
      this.hash, this.region, this.first, this.end, this.header := hash, region, offset, offset, header;
      this.k, this.m := k, m;
      stripes, last, lastStripe, pages, list, dense, present, words, live, removed :=
        {}, 0, 0, 0, [], false, [], [], 0, false;
      items, sheet, order := [], [], [];
    }

    /** The entry's pages hold an index of the code. */
    predicate Holds(k: nat, m: nat, stripe: nat)
      reads this`stripes
    {
      this.k == k && this.m == m && stripe < MAXIMUM_STRIPES && stripe in stripes
    }

    function Charge(): nat
      reads this`dense, this`list, this`words
    {
      ChargeOf(dense, if dense then |words| else |list|)
    }

    /** Where a dense entry has an item: the pages marked below its page, and the stripes below its own. */
    method Rank(page: nat, stripe: nat) returns (at: nat, found: bool)
      requires Shaped() && dense && page < WINDOW_PAGES && stripe in stripes
      ensures found ==> at < |items| && Is(items[at], page, stripe)
      ensures !found ==> forall i :: 0 <= i < |items| ==> !Is(items[i], page, stripe)
    {
      MarkedIff(present, page);
      if page % WORD_BITS !in present[page / WORD_BITS] {
        UnmarkedIsAbsent(items, sheet, order, page, stripe);
        return 0, false;
      }
      var below := CountPagesBelow(page);
      ghost var r :| 0 <= r < |sheet| && sheet[r] == page;
      ghost var q :| 0 <= q < |order| && order[q] == stripe;
      RankInOrder(sheet, r);
      RankInOrder(order, q);
      ElementsSize(order);
      at := below * |stripes| + |Below(stripes, stripe)|;
      assert at == At(r, |order|, q);
      found := at < |words|;
      if !found { PastTheEnd(items, sheet, order, r, q); }
    }

    /** The position, word and offset of one stripe of one page. */
    method Find(page: nat, stripe: nat) returns (at: nat, word: ItemWord, offset: nat, found: bool)
      requires Shaped() && page < WINDOW_PAGES && stripe in stripes
      ensures found ==>
        at < |items| && Is(items[at], page, stripe) && word == items[at].word &&
          offset == first + Offset(items, header, at)
      ensures !found ==> forall i :: 0 <= i < |items| ==> !Is(items[i], page, stripe)
    {
      if dense {
        at, found := Rank(page, stripe);
        if !found {
          return 0, 0, 0, false;
        }
        offset := first;
        for j := 0 to at
          invariant offset == first + Offset(items, header, j)
        {
          offset := offset + header + LengthOf(words[j]);
        }
        return at, words[at], offset, true;
      }
      at, offset, found, word := 0, first, false, 0;
      while at < |list|
        invariant at <= |list| && offset == first + Offset(items, header, at)
        invariant forall i :: 0 <= i < at ==> !Is(items[i], page, stripe)
      {
        if Is(list[at], page, stripe) {
          return at, list[at].word, offset, true;
        }
        offset := offset + header + LengthOf(list[at].word);
        at := at + 1;
      }
      return 0, 0, 0, false;
    }

    /** The marked pages below one, whole words first. */
    method CountPagesBelow(page: nat) returns (count: nat)
      requires Shaped() && dense && page < WINDOW_PAGES
      ensures count == |Below(Elements(sheet), page)|
    {
      count := 0;
      for w := 0 to page / WORD_BITS
        invariant count == WordBits(present, w)
      {
        count := count + |present[w]|;
      }
      count := count + |Below(present[page / WORD_BITS], page % WORD_BITS)|;
      CountBelow(present, page / WORD_BITS, page % WORD_BITS);
    }

    /** Whether an item continues the run: it lies where the run ends, is of its code, and is what comes next. */
    predicate Extends(region: nat, offset: nat, header: nat, page: nat, k: nat, m: nat, stripe: nat)
      requires stripes != {}
      reads this
    {
      if this.region != region || end != offset || this.header != header || this.k != k || this.m != m
         || stripe >= MAXIMUM_STRIPES
      then false
      else if page == last then
        stripe > lastStripe && (pages == 1 || stripe == NextStripe(stripes, lastStripe))
      else
        page > last && lastStripe == Greatest(stripes) && stripe == Least(stripes)
    }

    /** Takes one more item, and turns a list that has grown long into a bitmap and words. */
    method Add(page: nat, stripe: nat, word: ItemWord) returns (cost: nat)
      requires Valid() && page < WINDOW_PAGES && stripe < MAXIMUM_STRIPES && !Forgotten(word)
      requires items == [] || Follows(items, sheet, order, page, stripe)
      modifies this
      ensures Valid() && items == old(items) + [ListedItem(page, stripe, word)] && stripe in stripes
      ensures Charge() == old(Charge()) + cost && removed == old(removed)
    {
      hide Laid, Follows, LiveCount, Offset, Marked, WordsOf, Elements, Forgotten;
      AddedWords(items, ListedItem(page, stripe, word));
      Advance(page, stripe, word);
      if dense {
        MarkPage(present, page);
        present := present[page / WORD_BITS := present[page / WORD_BITS] + {page % WORD_BITS}];
        words := words + [word];
        return DENSE_CHARGE;
      }
      list := list + [ListedItem(page, stripe, word)];
      if |list| <= DENSE_ITEMS {
        return LISTED_CHARGE;
      }
      var charged := Charge() - LISTED_CHARGE;
      Densify();
      cost := Charge() - charged;
    }

    method Advance(page: nat, stripe: nat, word: ItemWord)
      requires Tracks() && live == LiveCount(items)
      requires page < WINDOW_PAGES && stripe < MAXIMUM_STRIPES && !Forgotten(word)
      requires items == [] || Follows(items, sheet, order, page, stripe)
      modifies this`stripes, this`pages, this`last, this`lastStripe, this`end, this`live, this`items, this`sheet,
        this`order
      ensures Tracks() && live == LiveCount(items) && items == old(items) + [ListedItem(page, stripe, word)]
      ensures Elements(sheet) == Elements(old(sheet)) + {page} && stripe in stripes
    {
      hide Laid, Follows, LiveCount, Offset, Elements, SheetAfter, OrderAfter, LengthOf, Forgotten;
      ghost var item := ListedItem(page, stripe, word);
      AddLays(items, sheet, order, item);
      AddedStripes(items, sheet, order, item);
      AddedEnds(items, item, header);
      if pages == 0 || page != last {
        pages := pages + 1;
      }
      if pages == 1 {
        stripes := stripes + {stripe};
      }
      last, lastStripe, live, end := page, stripe, live + 1, end + header + LengthOf(word);
      items, sheet, order := items + [item], SheetAfter(sheet, page), OrderAfter(sheet, order, page, stripe);
    }

    method Densify()
      requires list == items && Laid(items, sheet, order) && !dense
      modifies this`present, this`words, this`list, this`dense
      ensures dense && list == [] && words == WordsOf(items) && IsBitmap(present) && Marked(present) == Elements(sheet)
    {
      present, words := seq(WINDOW_PAGES / WORD_BITS, _ => {}), [];
      assert Marked(present) == {};
      for i := 0 to |list|
        invariant list == items && !dense && IsBitmap(present) && words == WordsOf(items[..i])
        invariant Marked(present) == set j | 0 <= j < i :: items[j].page
      {
        ghost var r, q := Coordinates(items, sheet, order, i);
        MarkPage(present, list[i].page);
        var w := list[i].page / WORD_BITS;
        present := present[w := present[w] + {list[i].page % WORD_BITS}];
        words := words + [list[i].word];
        assert items[..i + 1] == items[..i] + [items[i]];
      }
      PagesAreTheSheet(items, sheet, order);
      assert items[..|items|] == items;
      list, dense := [], true;
    }

    /** The word of the run's at-th item. */
    function WordAt(at: nat): (word: ItemWord)
      requires Shaped() && at < |items|
      reads this
      ensures word == items[at].word
    {
      if !dense then list[at].word else words[at]
    }

    /** Replaces one item's word by one of the same length. */
    method SetWord(at: nat, word: ItemWord)
      requires Shaped() && at < |items| && LengthOf(word) == LengthOf(items[at].word)
      modifies this`list, this`words, this`items
      ensures Shaped() && items == old(items)[at := old(items)[at].(word := word)] && Charge() == old(Charge())
    {
      ghost var changed := items[at := items[at].(word := word)];
      OffsetStays(items, changed, header, |items|);
      if !dense {
        list := list[at := list[at].(word := word)];
      } else {
        words := words[at := word];
        assert words == WordsOf(changed);
      }
      items := changed;
    }

    /** Every live item in the order they lie. */
    method Each() returns (visits: seq<Visit>)
      requires Shaped()
      ensures visits == LiveVisits(items, first, header, |items|)
    {
      visits := [];
      var offset := first;
      if !dense {
        for at := 0 to |list|
          invariant offset == first + Offset(items, header, at) && visits == LiveVisits(items, first, header, at)
        {
          var item := list[at];
          if !Forgotten(item.word) {
            visits := visits + [Visit(at, item.page, item.stripe, item.word, offset)];
          }
          offset := offset + header + LengthOf(item.word);
        }
        return;
      }
      visits := EachDense();
    }

    /** The dense form's items, found bit by bit. */
    method EachDense() returns (visits: seq<Visit>)
      requires Shaped() && dense
      ensures visits == LiveVisits(items, first, header, |items|)
    {
      hide Laid, LiveVisits, Offset, Reached, IsBitmap, WordsOf, Forgotten, LengthOf;
      NoneVisited(items, sheet, order, first, header);
      visits := [];
      var offset, at := first, 0;
      ghost var r := 0;
      assert sheet[0..] == sheet;
      MarkedFrom(present, 0);
      for word := 0 to |present|
        invariant r <= |sheet| && at == Reached(r, |order|, |items|) <= |items|
        invariant offset == first + Offset(items, header, at) && visits == LiveVisits(items, first, header, at)
        invariant Elements(sheet[r..]) == From(present, word)
      {
        var bits := present[word];
        FromWord(present, word);
        while bits != {}
          invariant bits <= present[word] && r <= |sheet| && at == Reached(r, |order|, |items|) <= |items|
          invariant offset == first + Offset(items, header, at) && visits == LiveVisits(items, first, header, at)
          invariant Elements(sheet[r..]) == Placed(bits, word) + From(present, word + 1)
          decreases |bits|
        {
          var bit := Least(bits);
          LeastOfRest(present, word, bits);
          SomeAreLeft(sheet, r);
          LeastIsFirst(sheet, r) by { LaidRises(items, sheet, order); }
          visits, at, offset := EachOfPage(r, word * WORD_BITS + bit, visits, at, offset);
          RestOfBits(present, word, bits);
          bits := bits - {bit};
          r := r + 1;
        }
        assert Placed(bits, word) == {};
      }
      EmptyRest(present);
      SomeAreLeft(sheet, r);
      ReachedAll(items, sheet, order);
    }

    /** The items of one page, in index order, as far as the run goes. */
    method EachOfPage(ghost r: nat, page: nat, before: seq<Visit>, start: nat, from: nat)
      returns (visits: seq<Visit>, at: nat, offset: nat)
      requires Shaped() && dense && r < |sheet| && sheet[r] == page && start == Reached(r, |order|, |items|)
      requires from == first + Offset(items, header, start) && before == LiveVisits(items, first, header, start)
      ensures at == Reached(r + 1, |order|, |items|) <= |items|
      ensures offset == first + Offset(items, header, at) && visits == LiveVisits(items, first, header, at)
    {
      hide Laid, Elements, Marked, IsBitmap, Forgotten, LengthOf, At, Reached;
      visits, at, offset := before, start, from;
      var rest := stripes;
      ghost var q := 0;
      assert order[0..] == order;
      PageBegins(items, sheet, order, r);
      while rest != {} && at < |words|
        invariant q <= |order| && rest == Elements(order[q..]) && at == At(r, |order|, q) <= |items|
        invariant offset == first + Offset(items, header, at) && visits == LiveVisits(items, first, header, at)
        decreases |rest|
      {
        SomeAreLeft(order, q);
        LeastIsFirst(order, q) by { LaidRises(items, sheet, order); }
        var stripe := Least(rest);
        ItemAt(items, sheet, order, r, q);
        AtNext(r, |order|, q);
        if !Forgotten(words[at]) {
          visits := visits + [Visit(at, page, stripe, words[at], offset)];
        }
        offset := offset + header + LengthOf(words[at]);
        rest := rest - {stripe};
        at, q := at + 1, q + 1;
      }
      SomeAreLeft(order, q);
      PageEnds(items, sheet, order, r, q);
    }

    lemma ExtendsIffFollows(region: nat, offset: nat, header: nat, page: nat, k: nat, m: nat, stripe: nat)
      requires Shaped() && items != []
      ensures stripes != {}
      ensures Extends(region, offset, header, page, k, m, stripe) <==>
        && this.region == region && end == offset && this.header == header && this.k == k && this.m == m
        && stripe < MAXIMUM_STRIPES && Follows(items, sheet, order, page, stripe)
    {
      assert order[0] in stripes;
      if stripe < MAXIMUM_STRIPES { BitsSayFollows(items, sheet, order, page, stripe); }
    }
  }

  /** The lowest index above one, or the width of a word when there is none. */
  function NextStripe(stripes: set<nat>, after: nat): nat {
    var above := Above(stripes, after);
    if above == {} then MAXIMUM_STRIPES else Least(above)
  }

  lemma UnmarkedIsAbsent(items: seq<ListedItem>, sheet: seq<nat>, order: seq<nat>, page: nat, stripe: nat)
    requires Laid(items, sheet, order) && page !in Elements(sheet)
    ensures forall i :: 0 <= i < |items| ==> !Is(items[i], page, stripe)
  {
    forall i | 0 <= i < |items| ensures !Is(items[i], page, stripe) {
      var r, q := Coordinates(items, sheet, order, i);
      assert sheet[r] in sheet;
    }
  }

  /** The last page ended before an index it would have held. */
  lemma PastTheEnd(items: seq<ListedItem>, sheet: seq<nat>, order: seq<nat>, r: nat, q: nat)
    requires Laid(items, sheet, order) && r < |sheet| && q < |order| && At(r, |order|, q) >= |items|
    ensures forall i :: 0 <= i < |items| ==> !Is(items[i], sheet[r], order[q])
  {
    forall i | 0 <= i < |items| ensures !Is(items[i], sheet[r], order[q]) {
      var s, p := Coordinates(items, sheet, order, i);
      assert sheet[r] == sheet[s] ==> r == s;
      assert order[q] == order[p] ==> q == p;
    }
  }

  lemma AddedStripes(items: seq<ListedItem>, sheet: seq<nat>, order: seq<nat>, item: ListedItem)
    requires Laid(items, sheet, order)
    requires items == [] || Follows(items, sheet, order, item.page, item.stripe)
    ensures var newSheet, newOrder := SheetAfter(sheet, item.page), OrderAfter(sheet, order, item.page, item.stripe);
      && Elements(newSheet) == Elements(sheet) + {item.page}
      && (|newSheet| == 1 ==> Elements(newOrder) == Elements(order) + {item.stripe})
      && item.stripe in Elements(newOrder)
      && (|sheet| == 0 <==> items == [])
      && |newSheet| == |sheet| + (if items == [] || item.page != items[|items| - 1].page then 1 else 0)
      && (|newSheet| != 1 ==> newOrder == order)
  {
    ElementsAppend(sheet, item.page);
    ElementsAppend(order, item.stripe);
    if items != [] { LastItem(items, sheet, order); }
  }

  lemma AddedEnds(items: seq<ListedItem>, item: ListedItem, header: nat)
    ensures Offset(items + [item], header, |items| + 1) == Offset(items, header, |items|) + header + LengthOf(item.word)
    ensures LiveCount(items + [item]) == LiveCount(items) + if Forgotten(item.word) then 0 else 1
  {
    OffsetStays(items, items + [item], header, |items|);
    assert (items + [item])[..|items|] == items;
  }

  lemma AddedWords(items: seq<ListedItem>, item: ListedItem)
    ensures WordsOf(items + [item]) == WordsOf(items) + [item.word]
    ensures |WordsOf(items)| == |items|
  {
  }

  lemma PagesAreTheSheet(items: seq<ListedItem>, sheet: seq<nat>, order: seq<nat>)
    requires Laid(items, sheet, order)
    ensures (set j | 0 <= j < |items| :: items[j].page) == Elements(sheet)
  {
    forall page: nat ensures page in (set j | 0 <= j < |items| :: items[j].page) <==> page in Elements(sheet) {
      if page in Elements(sheet) {
        var r :| 0 <= r < |sheet| && sheet[r] == page;
        PageBegins(items, sheet, order, r);
        assert items[At(r, |order|, 0)].page == page;
      }
      if page in (set j | 0 <= j < |items| :: items[j].page) {
        var j :| 0 <= j < |items| && items[j].page == page;
        var r, q := Coordinates(items, sheet, order, j);
        assert sheet[r] in sheet;
      }
    }
  }

  // --------------------------------------------------------------- walking a bitmap

  /** Where a walk is after so many pages. */
  ghost function Reached(r: nat, n: nat, items: nat): nat { if r * n < items then r * n else items }

  lemma PageBegins(items: seq<ListedItem>, sheet: seq<nat>, order: seq<nat>, r: nat)
    requires Laid(items, sheet, order) && r < |sheet|
    ensures Reached(r, |order|, |items|) == At(r, |order|, 0) < |items|
  {
    Times(r, |sheet| - 1, |order|);
  }

  lemma LaidRises(items: seq<ListedItem>, sheet: seq<nat>, order: seq<nat>)
    requires Laid(items, sheet, order)
    ensures Rising(sheet) && Rising(order)
  {
  }

  lemma ItemAt(items: seq<ListedItem>, sheet: seq<nat>, order: seq<nat>, r: nat, q: nat)
    requires Laid(items, sheet, order) && r < |sheet| && q < |order| && At(r, |order|, q) < |items|
    ensures Is(items[At(r, |order|, q)], sheet[r], order[q])
  {
  }

  lemma SomeAreLeft(s: seq<nat>, r: nat)
    requires r <= |s|
    ensures Elements(s[r..]) != {} <==> r < |s|
  {
    if r < |s| { assert s[r..][0] in Elements(s[r..]); }
  }

  lemma AtNext(r: nat, n: nat, q: nat)
    ensures At(r, n, q + 1) == At(r, n, q) + 1
  {
  }

  lemma PageEnds(items: seq<ListedItem>, sheet: seq<nat>, order: seq<nat>, r: nat, q: nat)
    requires Laid(items, sheet, order) && r < |sheet| && q <= |order| && At(r, |order|, q) <= |items|
    requires q == |order| || At(r, |order|, q) == |items|
    ensures At(r, |order|, q) == Reached(r + 1, |order|, |items|)
  {
    assert (r + 1) * |order| == r * |order| + |order|;
  }

  /** The marked pages of the words from one on. */
  ghost function From(present: seq<set<nat>>, word: nat): set<nat> {
    set p | p in Marked(present) && p >= word * WORD_BITS
  }

  ghost function Placed(bits: set<nat>, word: nat): set<nat> { set b | b in bits :: word * WORD_BITS + b }

  lemma MarkedFrom(present: seq<set<nat>>, word: nat)
    ensures word == 0 ==> From(present, word) == Marked(present)
  {
  }

  lemma FromWord(present: seq<set<nat>>, word: nat)
    requires IsBitmap(present) && word < |present|
    ensures From(present, word) == Placed(present[word], word) + From(present, word + 1)
  {
    forall p: nat ensures p in From(present, word) <==> p in Placed(present[word], word) + From(present, word + 1) {
      MarkedIff(present, p);
      if p in From(present, word) && p < (word + 1) * WORD_BITS {
        assert p / WORD_BITS == word && p == word * WORD_BITS + p % WORD_BITS;
      }
      if p in Placed(present[word], word) {
        var b :| b in present[word] && p == word * WORD_BITS + b;
        assert p / WORD_BITS == word && p % WORD_BITS == b;
      }
    }
  }

  lemma LeastOfRest(present: seq<set<nat>>, word: nat, bits: set<nat>)
    requires IsBitmap(present) && word < |present| && bits <= present[word] && bits != {}
    ensures var rest := Placed(bits, word) + From(present, word + 1);
      rest != {} && Least(rest) == word * WORD_BITS + Least(bits)
  {
    var rest, least := Placed(bits, word) + From(present, word + 1), word * WORD_BITS + Least(bits);
    assert least in rest;
    forall p | p in rest ensures least <= p {
      if p in Placed(bits, word) {
        var b :| b in bits && p == word * WORD_BITS + b;
      } else {
        assert Least(bits) < WORD_BITS;
      }
    }
  }

  lemma RestOfBits(present: seq<set<nat>>, word: nat, bits: set<nat>)
    requires IsBitmap(present) && word < |present| && bits <= present[word] && bits != {}
    ensures Placed(bits - {Least(bits)}, word) + From(present, word + 1)
         == Placed(bits, word) + From(present, word + 1) - {word * WORD_BITS + Least(bits)}
  {
    var least := word * WORD_BITS + Least(bits);
    assert Least(bits) < WORD_BITS;
    forall p: nat ensures p in Placed(bits - {Least(bits)}, word) <==> p in Placed(bits, word) && p != least {
      if p in Placed(bits, word) && p != least {
        var b :| b in bits && p == word * WORD_BITS + b;
        assert b in bits - {Least(bits)};
      }
      if p in Placed(bits - {Least(bits)}, word) {
        var b :| b in bits - {Least(bits)} && p == word * WORD_BITS + b;
        assert b in bits;
      }
    }
    assert least !in From(present, word + 1);
  }

  lemma EmptyRest(present: seq<set<nat>>)
    requires IsBitmap(present)
    ensures From(present, |present|) == {}
  {
    forall p: nat ensures p !in From(present, |present|) {
      MarkedIff(present, p);
    }
  }
}
