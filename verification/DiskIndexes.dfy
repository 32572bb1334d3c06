/** The disk's index: every run of every window, as a plain map from items to where they lie.

An item's key is the hash of its window, the length of its header, its page within the
window, its code and its index in the code: two windows that share all of those share
an entry, and only the item's own header on the disk tells them apart.
*/
module DiskIndexes {
  import opened Bitmaps
  import opened Sums
  import opened WindowEntries

  datatype ItemKey = ItemKey(hash: nat, header: nat, page: nat, k: nat, m: nat, stripe: nat)

  datatype Place = Place(region: nat, offset: nat, length: nat)

  /** One live item. A second chance names an item again before its first copy goes, so a key may have two. */
  datatype Copy = Copy(key: ItemKey, place: Place)

  /** A run of items as a value. */
  datatype Run = Run(hash: nat, region: nat, first: nat, header: nat, k: nat, m: nat, items: seq<ListedItem>,
                     dense: bool)
  {
    ghost predicate LiveAt(i: nat) { i < |items| && !Forgotten(items[i].word) }

    function With(at: nat, word: ItemWord): Run
      requires at < |items|
    {
      this.(items := items[at := items[at].(word := word)])
    }

    ghost function KeyAt(i: nat): ItemKey
      requires i < |items|
    {
      ItemKey(hash, header, items[i].page, k, m, items[i].stripe)
    }

    ghost function PlaceAt(i: nat): Place
      requires i < |items|
    {
      Place(region, first + Offset(items, header, i), LengthOf(items[i].word))
    }

    function Charge(): nat { ChargeOf(dense, |items|) }

    ghost function CopyAt(i: nat): Copy
      requires i < |items|
    {
      Copy(KeyAt(i), PlaceAt(i))
    }

    ghost predicate Has(copy: Copy) { exists i :: LiveAt(i) && CopyAt(i) == copy }

    ghost predicate HasKey(key: ItemKey) { exists i :: LiveAt(i) && KeyAt(i) == key }
  }

  /** The runs are the copies: every live item is one, nothing else is, and no two items are the same one. */
  ghost predicate Represents(runs: map<WindowEntry, Run>, copies: set<Copy>) {
    && (forall e, i :: e in runs && runs[e].LiveAt(i) ==> runs[e].CopyAt(i) in copies)
    && (forall copy :: copy in copies ==> exists e :: e in runs && runs[e].Has(copy))
    && (forall e, i, f, j | e in runs && f in runs && runs[e].LiveAt(i) && runs[f].LiveAt(j) ::
          runs[e].CopyAt(i) == runs[f].CopyAt(j) ==> e == f && i == j)
  }

  /** The index as a plain map, while no item is named twice. */
  ghost predicate OneEach(copies: set<Copy>) { forall a, b :: a in copies && b in copies && a.key == b.key ==> a == b }

  ghost predicate Holds(copies: set<Copy>, key: ItemKey) { exists place :: Copy(key, place) in copies }

  ghost function Charges(runs: map<WindowEntry, Run>): map<WindowEntry, nat> { map e | e in runs :: runs[e].Charge() }

  ghost function Lives(runs: map<WindowEntry, Run>): map<WindowEntry, nat> {
    map e | e in runs :: LiveCount(runs[e].items)
  }

  ghost function RunOf(e: WindowEntry): Run
    reads e
  {
    Run(e.hash, e.region, e.first, e.header, e.k, e.m, e.items, e.dense)
  }

  // --------------------------------------------------------------- what changes do

  lemma InsertKeepsItems(was: Run, run: Run)
    requires run.items != [] && run == was.(items := run.items, dense := run.dense)
    requires was.items == run.items[..|run.items| - 1]
    ensures forall i: nat :: i < |run.items| - 1 ==>
              run.LiveAt(i) == was.LiveAt(i) && run.CopyAt(i) == was.CopyAt(i)
  {
    forall i: nat | i < |run.items| - 1
      ensures run.LiveAt(i) == was.LiveAt(i) && run.CopyAt(i) == was.CopyAt(i)
    {
      OffsetStays(was.items, run.items, run.header, i);
    }
  }

  /** A run grows by an item, or a new run has it alone. */
  lemma InsertRepresents(runs: map<WindowEntry, Run>, copies: set<Copy>, e: WindowEntry, run: Run)
    requires Represents(runs, copies) && run.items != [] && run.LiveAt(|run.items| - 1)
    requires run.CopyAt(|run.items| - 1) !in copies
    requires e in runs ==>
               run == runs[e].(items := run.items, dense := run.dense) && runs[e].items == run.items[..|run.items| - 1]
    requires e !in runs ==> |run.items| == 1
    ensures Represents(runs[e := run], copies + {run.CopyAt(|run.items| - 1)})
  {
    hide Run.Charge, Forgotten, LengthOf, Run.CopyAt;
    var last := |run.items| - 1;
    var copy := run.CopyAt(last);
    var more, after := runs[e := run], copies + {copy};
    if e in runs { InsertKeepsItems(runs[e], run); }
    forall c | c in after
      ensures exists f :: f in more && more[f].Has(c)
    {
      if c == copy {
        assert more[e].Has(c);
      } else {
        var f: WindowEntry :| f in runs && runs[f].Has(c);
        var i :| runs[f].LiveAt(i) && runs[f].CopyAt(i) == c;
        assert more[f].LiveAt(i) && more[f].CopyAt(i) == c;
      }
    }
  }

  /** A run grew by one live item. */
  ghost predicate Grew(was: Run, run: Run, copy: Copy) {
    && run.items != [] && was == run.(items := run.items[..|run.items| - 1], dense := was.dense)
    && run.LiveAt(|run.items| - 1) && run.CopyAt(|run.items| - 1) == copy
    && LiveCount(run.items) == LiveCount(was.items) + 1
  }

  /** What inserting an item does to the copies and the sums. */
  lemma Inserted(runs: map<WindowEntry, Run>, copies: set<Copy>, e: WindowEntry, run: Run, copy: Copy, cost: nat)
    requires Represents(runs, copies) && copy !in copies
    requires exists was :: Grew(was, run, copy) && if e in runs then was == runs[e] else was.items == []
    requires run.Charge() == cost + if e in runs then runs[e].Charge() else 0
    ensures Represents(runs[e := run], copies + {copy})
    ensures Sum(Charges(runs[e := run])) == Sum(Charges(runs)) + cost
    ensures Sum(Lives(runs[e := run])) == Sum(Lives(runs)) + 1
  {
    hide Represents, LiveCount, Charges, Lives, Run.Charge;
    InsertRepresents(runs, copies, e, run);
    if e in runs {
      SetCharges(runs, e, run);
    } else {
      AddCharges(runs, e, run);
      NoItems();
    }
  }

  ghost predicate StartsWith(run: Run, copy: Copy) { exists was :: Grew(was, run, copy) && was.items == [] }

  lemma InsertedAlone(runs: map<WindowEntry, Run>, copies: set<Copy>, e: WindowEntry, run: Run, copy: Copy, cost: nat)
    requires Represents(runs, copies) && copy !in copies && e !in runs && StartsWith(run, copy) && run.Charge() == cost
    ensures Represents(runs[e := run], copies + {copy})
    ensures Sum(Charges(runs[e := run])) == Sum(Charges(runs)) + cost
    ensures Sum(Lives(runs[e := run])) == Sum(Lives(runs)) + 1
  {
    hide Represents, Charges, Lives, Run.Charge, Grew;
    Inserted(runs, copies, e, run, copy, cost);
  }

  lemma NoItems()
    ensures LiveCount([]) == 0
  {
  }

  /** One word of a run is replaced: a read keeps the copies, and a forget takes one out. */
  lemma WordRepresents(runs: map<WindowEntry, Run>, copies: set<Copy>, e: WindowEntry, at: nat, word: ItemWord)
    requires Represents(runs, copies) && e in runs && at < |runs[e].items|
    requires LengthOf(word) == LengthOf(runs[e].items[at].word) && (runs[e].LiveAt(at) || Forgotten(word))
    ensures var run := runs[e].(items := runs[e].items[at := runs[e].items[at].(word := word)]);
      Represents(runs[e := run], if runs[e].LiveAt(at) &&
                 Forgotten(word) then copies - {runs[e].CopyAt(at)} else copies)
  {
    hide Run.Charge, Forgotten, LengthOf;
    var run := runs[e].(items := runs[e].items[at := runs[e].items[at].(word := word)]);
    var copy := runs[e].CopyAt(at);
    var changed, after := runs[e := run], if runs[e].LiveAt(at) && Forgotten(word) then copies - {copy} else copies;
    forall i: nat | i < |run.items|
      ensures run.CopyAt(i) == runs[e].CopyAt(i)
    {
      OffsetStays(runs[e].items, run.items, run.header, i);
    }
    assert forall i :: run.LiveAt(i) ==> runs[e].LiveAt(i);
    forall c | c in after
      ensures exists f :: f in changed && changed[f].Has(c)
    {
      var f: WindowEntry :| f in runs && runs[f].Has(c);
      var i :| runs[f].LiveAt(i) && runs[f].CopyAt(i) == c;
      assert changed[f].LiveAt(i) && changed[f].CopyAt(i) == c;
    }
  }

  /** Dropping a run drops exactly its items. */
  lemma DropRepresents(runs: map<WindowEntry, Run>, copies: set<Copy>, e: WindowEntry)
    requires Represents(runs, copies) && e in runs
    ensures Represents(runs - {e}, set copy | copy in copies && !runs[e].Has(copy))
  {
    hide Run.Charge, Forgotten, Offset, LengthOf;
    var rest, after := runs - {e}, set copy | copy in copies && !runs[e].Has(copy);
    forall c | c in after
      ensures exists f :: f in rest && rest[f].Has(c)
    {
      var f: WindowEntry :| f in runs && runs[f].Has(c);
      assert rest[f].Has(c);
    }
    forall f, i | f in rest && rest[f].LiveAt(i)
      ensures rest[f].CopyAt(i) in after
    {
      assert runs[f].LiveAt(i);
      assert !runs[e].Has(runs[f].CopyAt(i));
    }
  }

  lemma {:induction false} NoneLive(items: seq<ListedItem>, i: nat)
    requires LiveCount(items) == 0 && i < |items|
    ensures Forgotten(items[i].word)
  {
    if i < |items| - 1 { NoneLive(items[..|items| - 1], i); }
  }

  lemma {:induction false} ForgetCounts(items: seq<ListedItem>, at: nat, word: ItemWord)
    requires at < |items| && (Forgotten(items[at].word) ==> Forgotten(word))
    ensures LiveCount(items) == LiveCount(items[at := items[at].(word := word)])
                                + if !Forgotten(items[at].word) && Forgotten(word) then 1 else 0
  {
    var changed := items[at := items[at].(word := word)];
    if at < |items| - 1 {
      ForgetCounts(items[..|items| - 1], at, word);
      assert changed[..|items| - 1] == items[..|items| - 1][at := items[at].(word := word)];
    } else {
      assert changed[..|items| - 1] == items[..|items| - 1];
    }
  }

  lemma SetCharges(runs: map<WindowEntry, Run>, e: WindowEntry, run: Run)
    requires e in runs
    ensures Sum(Charges(runs[e := run])) + runs[e].Charge() == Sum(Charges(runs)) + run.Charge()
    ensures Sum(Lives(runs[e := run])) + LiveCount(runs[e].items) == Sum(Lives(runs)) + LiveCount(run.items)
  {
    hide Run.Charge, LiveCount;
    SumSet(Charges(runs), e, run.Charge());
    assert Charges(runs[e := run]) == Charges(runs)[e := run.Charge()];
    SumSet(Lives(runs), e, LiveCount(run.items));
    assert Lives(runs[e := run]) == Lives(runs)[e := LiveCount(run.items)];
  }

  lemma AddCharges(runs: map<WindowEntry, Run>, e: WindowEntry, run: Run)
    requires e !in runs
    ensures Sum(Charges(runs[e := run])) == Sum(Charges(runs)) + run.Charge()
    ensures Sum(Lives(runs[e := run])) == Sum(Lives(runs)) + LiveCount(run.items)
  {
    hide Run.Charge, LiveCount;
    SumAdd(Charges(runs), e, run.Charge());
    assert Charges(runs[e := run]) == Charges(runs)[e := run.Charge()];
    SumAdd(Lives(runs), e, LiveCount(run.items));
    assert Lives(runs[e := run]) == Lives(runs)[e := LiveCount(run.items)];
  }

  lemma DropCharges(runs: map<WindowEntry, Run>, e: WindowEntry)
    requires e in runs
    ensures Sum(Charges(runs)) == Sum(Charges(runs - {e})) + runs[e].Charge()
    ensures Sum(Lives(runs)) == Sum(Lives(runs - {e})) + LiveCount(runs[e].items)
  {
    hide Run.Charge, LiveCount;
    SumRemove(Charges(runs), e);
    assert Charges(runs - {e}) == Charges(runs) - {e};
    SumRemove(Lives(runs), e);
    assert Lives(runs - {e}) == Lives(runs) - {e};
  }

  // ---------------------------------------------------------------------- the index

  ghost predicate IsRun(e: WindowEntry, run: Run)
    reads e
  {
    e.Valid() && e.items != [] && RunOf(e) == run
  }

  /** Each window's list holds its entries, and no window has an empty one. */
  ghost predicate ByWindow(windows: map<nat, seq<WindowEntry>>, entries: set<WindowEntry>) {
    && (forall h, i :: h in windows && 0 <= i < |windows[h]| ==> windows[h][i] in entries && windows[h][i].hash == h)
    && (forall h :: h in windows ==> windows[h] != [])
    && (forall e :: e in entries ==> e.hash in windows && e in windows[e.hash])
  }

  /** Each region's list has every entry of it the index holds. */
  ghost predicate ByRegion(regions: map<nat, seq<WindowEntry>>, entries: set<WindowEntry>, known: set<WindowEntry>) {
    && (forall r, i :: r in regions && 0 <= i < |regions[r]| ==> regions[r][i] in known && regions[r][i].region == r)
    && (forall e :: e in entries ==> e.region in regions && e in regions[e.region])
  }

  function Append(lists: map<nat, seq<WindowEntry>>, key: nat, e: WindowEntry): map<nat, seq<WindowEntry>> {
    lists[key := (if key in lists then lists[key] else []) + [e]]
  }

  /** Only items of one region were lost. */
  ghost predicate OnlyLost(was: set<Copy>, now: set<Copy>, region: nat) {
    now <= was && forall copy :: copy in was && copy.place.region != region ==> copy in now
  }

  function Others(entries: seq<WindowEntry>, e: WindowEntry): seq<WindowEntry> {
    if entries == [] then []
    else if entries[0] == e then Others(entries[1..], e)
    else [entries[0]] + Others(entries[1..], e)
  }

  lemma {:induction false} OthersAre(entries: seq<WindowEntry>, e: WindowEntry, f: WindowEntry)
    ensures f in Others(entries, e) <==> f in entries && f != e
  {
    if entries != [] { OthersAre(entries[1..], e, f); }
  }

  /** A window's list without an entry; a list left empty goes too. */
  function Delist(windows: map<nat, seq<WindowEntry>>, e: WindowEntry): map<nat, seq<WindowEntry>>
    requires e.hash in windows
  {
    var rest := Others(windows[e.hash], e);
    if rest == [] then windows - {e.hash} else windows[e.hash := rest]
  }

  lemma DelistIndexes(windows: map<nat, seq<WindowEntry>>, regions: map<nat, seq<WindowEntry>>,
                      entries: set<WindowEntry>, known: set<WindowEntry>, e: WindowEntry)
    requires ByWindow(windows, entries) && ByRegion(regions, entries, known) && e in entries
    ensures e.hash in windows && ByWindow(Delist(windows, e), entries - {e}) && ByRegion(regions, entries - {e}, known)
  {
    var rest, after := Others(windows[e.hash], e), Delist(windows, e);
    forall h, i | h in after && 0 <= i < |after[h]| ensures after[h][i] in entries - {e} && after[h][i].hash == h {
      if h == e.hash {
        OthersAre(windows[h], e, rest[i]);
        var j :| 0 <= j < |windows[h]| && windows[h][j] == rest[i];
      }
    }
    forall f | f in entries - {e} ensures f.hash in after && f in after[f.hash] {
      if f.hash == e.hash { OthersAre(windows[e.hash], e, f); }
    }
  }

  lemma AppendIndexes(windows: map<nat, seq<WindowEntry>>, regions: map<nat, seq<WindowEntry>>,
                      entries: set<WindowEntry>, known: set<WindowEntry>, e: WindowEntry)
    requires ByWindow(windows, entries) && ByRegion(regions, entries, known)
    ensures ByWindow(Append(windows, e.hash, e), entries + {e})
    ensures ByRegion(Append(regions, e.region, e), entries + {e}, known + {e})
  {
  }

  /** The runs are the copies, and the bytes and live items of the index are theirs. */
  ghost predicate Counts(runs: map<WindowEntry, Run>, copies: set<Copy>, used: nat, live: nat) {
    Represents(runs, copies) && used == Sum(Charges(runs)) && live == Sum(Lives(runs))
  }

  /** A word takes an item out of its run. */
  ghost predicate Dies(run: Run, at: nat, word: ItemWord) { run.LiveAt(at) && Forgotten(word) }

  ghost function CopiesWith(run: Run, at: nat, word: ItemWord, copies: set<Copy>): set<Copy>
    requires at < |run.items|
  {
    if Dies(run, at, word) then copies - {run.CopyAt(at)} else copies
  }

  lemma WordCounts(runs: map<WindowEntry, Run>, copies: set<Copy>, used: nat, live: nat, e: WindowEntry, at: nat,
                   word: ItemWord)
    requires Counts(runs, copies, used, live) && e in runs && at < |runs[e].items|
    requires LengthOf(word) == LengthOf(runs[e].items[at].word) && (runs[e].LiveAt(at) || Forgotten(word))
    ensures Dies(runs[e], at, word) ==> live > 0
    ensures Counts(runs[e := runs[e].With(at, word)], CopiesWith(runs[e], at, word, copies), used,
                   if Dies(runs[e], at, word) then live - 1 else live)
  {
    hide Represents, Charges, Lives, LiveCount, Forgotten, LengthOf, Run.CopyAt;
    WordRepresents(runs, copies, e, at, word);
    ForgetCounts(runs[e].items, at, word);
    SetCharges(runs, e, runs[e].With(at, word));
  }

  class DiskIndex {
    var windows: map<nat, seq<WindowEntry>>
    /** The entries each region was given, whether the index still holds them or not. */
    var regions: map<nat, seq<WindowEntry>>
    var used: nat
    var live: nat
    /** Every entry ever made, and the index's contents as values. */
    ghost var known: set<WindowEntry>
    ghost var runs: map<WindowEntry, Run>
    ghost var copies: set<Copy>

    /** The entries held are the ones not removed, and each is its run. */
    ghost predicate Listed()
      reads this`known, this`runs, known
    {
      && runs.Keys <= known
      && (forall e :: e in known ==> (e.removed <==> e !in runs))
      && (forall e :: e in runs ==> IsRun(e, runs[e]))
    }

    ghost predicate Indexed()
      reads this`windows, this`regions, this`known, this`runs
    {
      ByWindow(windows, runs.Keys) && ByRegion(regions, runs.Keys, known)
    }

    ghost predicate Counted()
      reads this`runs, this`copies, this`used, this`live
    {
      Counts(runs, copies, used, live)
    }

    ghost predicate Valid()
      reads this, known
    {
      Sound() && AllLive()
    }

    ghost predicate Sound()
      reads this, known
    {
      Listed() && Indexed() && Counted()
    }

    /** An entry with nothing left in it is dropped. */
    ghost predicate AllLive()
      reads this`known, this`runs, known
    {
      forall e :: e in runs && e in known ==> e.live > 0
    }

    constructor ()
      ensures Valid() && copies == {} && used == 0 && live == 0
    {
      windows, regions, used, live, known, runs, copies := map[], map[], 0, 0, {}, map[], {};
    }

    /** Finds an item exactly when there is a copy of it, and then one of its copies. */
    method Lookup(key: ItemKey) returns (found: bool, entry: WindowEntry?, at: nat, word: ItemWord, offset: nat)
      requires Valid() && key.page < WINDOW_PAGES
      ensures found <==> Holds(copies, key)
      ensures found ==>
        && entry != null && entry in runs && runs[entry].LiveAt(at) && word == runs[entry].items[at].word
        && runs[entry].CopyAt(at) == Copy(key, Place(entry.region, offset, LengthOf(word)))
        && runs[entry].CopyAt(at) in copies
    {
      hide Represents, Listed, Indexed, Run.LiveAt, Run.KeyAt, Run.CopyAt;
      found, entry, at, word, offset := false, null, 0, 0, 0;
      if key.hash in windows {
        var entries := windows[key.hash];
        for i := 0 to |entries|
          invariant forall j :: 0 <= j < i ==> entries[j] in runs && !runs[entries[j]].HasKey(key)
        {
          ListedInRuns(key.hash, i);
          found, at, word, offset := Seek(entries[i], key);
          if found {
            IsHeld(entries[i], at);
            return true, entries[i], at, word, offset;
          }
        }
      }
      found := false;
      NotHeld(key);
    }

    lemma ListedInRuns(h: nat, i: nat)
      requires Indexed() && h in windows && i < |windows[h]|
      ensures windows[h][i] in runs && windows[h][i].hash == h
    {
    }

    lemma IsHeld(e: WindowEntry, at: nat)
      requires Represents(runs, copies) && e in runs && runs[e].LiveAt(at)
      ensures runs[e].CopyAt(at) in copies
    {
    }

    lemma NotHeld(key: ItemKey)
      requires Represents(runs, copies) && Listed() && Indexed()
      requires key.hash in windows ==>
        forall i :: 0 <= i < |windows[key.hash]| ==>
          windows[key.hash][i] in runs && !runs[windows[key.hash][i]].HasKey(key)
      ensures !Holds(copies, key)
    {
      forall e | e in runs ensures !runs[e].HasKey(key) {
        if e.hash == key.hash { assert e in windows[e.hash]; }
      }
      assert forall e, place :: e in runs ==> !runs[e].Has(Copy(key, place));
    }

    /** One entry's live item of a key. */
    method Seek(e: WindowEntry, key: ItemKey) returns (found: bool, at: nat, word: ItemWord, offset: nat)
      requires Listed() && e in runs && key.page < WINDOW_PAGES && e.hash == key.hash
      ensures found ==> runs[e].LiveAt(at) && word == runs[e].items[at].word
      ensures found ==> runs[e].CopyAt(at) == Copy(key, Place(e.region, offset, LengthOf(word)))
      ensures !found ==> !runs[e].HasKey(key)
    {
      if e.header != key.header || !e.Holds(key.k, key.m, key.stripe) {
        NotItsCode(e, key);
        return false, 0, 0, 0;
      }
      at, word, offset, found := e.Find(key.page, key.stripe);
      if found && Forgotten(word) {
        OnlyItem(e, at, key);
        found := false;
      }
    }

    /** Names an item: in the run it continues, or in a run of its own. */
    method Insert(key: ItemKey, region: nat, offset: nat, length: nat)
      requires Valid() && Copy(key, Place(region, offset, length)) !in copies
      requires key.page < WINDOW_PAGES && key.stripe < MAXIMUM_STRIPES && length < LENGTH_UNIT
      modifies this, known
      ensures Valid() && copies == old(copies) + {Copy(key, Place(region, offset, length))}
      ensures old(known) <= known && fresh(known - old(known))
    {
      hide Represents, Listed, Indexed;
      var e := FindRun(key, region, offset);
      if e != null {
        Extend(e, key, region, offset, length);
      } else {
        Begin(key, region, offset, length);
      }
    }

    /** The first run of the window the item continues. */
    method FindRun(key: ItemKey, region: nat, offset: nat) returns (e: WindowEntry?)
      requires Valid()
      ensures e != null ==>
        e in runs && e in known && e.hash == key.hash && e.stripes != {}
        && e.Extends(region, offset, key.header, key.page, key.k, key.m, key.stripe)
    {
      hide Represents, Listed, Indexed;
      e := null;
      if key.hash in windows {
        var entries := windows[key.hash];
        for i := 0 to |entries| {
          ListedInRuns(key.hash, i);
          EntryFacts(entries[i]);
          if entries[i].Extends(region, offset, key.header, key.page, key.k, key.m, key.stripe) {
            return entries[i];
          }
        }
      }
    }

    lemma EntryFacts(e: WindowEntry)
      requires Listed() && e in runs
      ensures e in known && e.Valid() && !e.removed && e.items != [] && e.stripes != {} && RunOf(e) == runs[e]
      ensures e.Charge() == runs[e].Charge() && e.live == LiveCount(e.items)
      ensures e.end == e.first + Offset(e.items, e.header, |e.items|)
    {
      assert e.order[0] in e.stripes;
    }

    lemma RunFacts(e: WindowEntry)
      requires e.Valid()
      ensures e.Charge() == RunOf(e).Charge() && e.live == LiveCount(e.items)
      ensures e.items != [] ==> IsRun(e, RunOf(e))
      ensures e.end == e.first + Offset(e.items, e.header, |e.items|)
    {
    }

    method Extend(e: WindowEntry, key: ItemKey, region: nat, offset: nat, length: nat)
      requires Valid() && e in runs && e.hash == key.hash && Copy(key, Place(region, offset, length)) !in copies
      requires e in known && e.stripes != {}
      requires e.Extends(region, offset, key.header, key.page, key.k, key.m, key.stripe)
      requires key.page < WINDOW_PAGES && key.stripe < MAXIMUM_STRIPES && length < LENGTH_UNIT
      modifies this`runs, this`copies, this`used, this`live, e
      ensures Valid() && copies == old(copies) + {Copy(key, Place(region, offset, length))} && known == old(known)
    {
      hide Represents, ByWindow, ByRegion, IsRun, Grew, Charges, Lives, WindowEntry.Extends, WindowEntry.Valid;
      hide WindowEntry.Charge;
      EntryFacts(e);
      ExtendFacts(e, key, region, offset);
      var cost := Grow(e, key, Place(region, offset, length));
      Inserted(runs, copies, e, RunOf(e), Copy(key, Place(region, offset, length)), cost);
      assert runs[e := RunOf(e)].Keys == runs.Keys;
      used, live := used + cost, live + 1;
      runs, copies := runs[e := RunOf(e)], copies + {Copy(key, Place(region, offset, length))};
    }

    /** Gives an entry its next item. */
    method Grow(e: WindowEntry, key: ItemKey, place: Place) returns (cost: nat)
      requires e.Valid() && key.page < WINDOW_PAGES && key.stripe < MAXIMUM_STRIPES && place.length < LENGTH_UNIT
      requires e.items == [] || Follows(e.items, e.sheet, e.order, key.page, key.stripe)
      requires e.hash == key.hash && e.header == key.header && e.k == key.k && e.m == key.m
      requires e.region == place.region && e.end == place.offset
      modifies e
      ensures IsRun(e, RunOf(e)) && Grew(old(RunOf(e)), RunOf(e), Copy(key, place)) && e.removed == old(e.removed)
      ensures e.live > 0
      ensures RunOf(e).Charge() == old(RunOf(e).Charge()) + cost
    {
      hide WindowEntry.Valid, Follows, Forgotten, Offset, LiveCount, LengthOf, WindowEntry.Charge, Run.Charge;
      var word := NewWord(place.length);
      WordFields(word, place.length);
      RunFacts(e);
      ghost var was := RunOf(e);
      cost := e.Add(key.page, key.stripe, word);
      RunFacts(e);
      Grown(was, e, key, place);
    }

    lemma ExtendFacts(e: WindowEntry, key: ItemKey, region: nat, offset: nat)
      requires e.Valid() && e.items != [] && e.stripes != {}
      requires e.Extends(region, offset, key.header, key.page, key.k, key.m, key.stripe)
      ensures Follows(e.items, e.sheet, e.order, key.page, key.stripe)
      ensures e.region == region && e.end == offset && e.header == key.header && e.k == key.k && e.m == key.m
    {
      e.ExtendsIffFollows(region, offset, key.header, key.page, key.k, key.m, key.stripe);
    }

    lemma Grown(was: Run, e: WindowEntry, key: ItemKey, place: Place)
      requires e.items != [] && was == RunOf(e).(items := e.items[..|e.items| - 1], dense := was.dense)
      requires var item := e.items[|e.items| - 1];
        Is(item, key.page, key.stripe) && LengthOf(item.word) == place.length && !Forgotten(item.word)
      requires e.hash == key.hash && e.header == key.header && e.k == key.k && e.m == key.m && e.region == place.region
      requires place.offset == was.first + Offset(was.items, was.header, |was.items|)
      ensures Grew(was, RunOf(e), Copy(key, place)) && LiveCount(e.items) > 0
    {
      var run, last := RunOf(e), |e.items| - 1;
      OffsetStays(was.items, run.items, run.header, last);
      AddedEnds(was.items, run.items[last], run.header);
      assert was.items + [run.items[last]] == run.items;
    }

    method Begin(key: ItemKey, region: nat, offset: nat, length: nat)
      requires Valid() && Copy(key, Place(region, offset, length)) !in copies
      requires key.page < WINDOW_PAGES && key.stripe < MAXIMUM_STRIPES && length < LENGTH_UNIT
      modifies this
      ensures Valid() && copies == old(copies) + {Copy(key, Place(region, offset, length))}
      ensures old(known) <= known && fresh(known - old(known))
    {
      hide IsRun, StartsWith, Run.Charge, Listed, Indexed, Counted, WindowEntry.Valid;
      var e, cost := NewEntry(key, Place(region, offset, length));
      Enter(e, key, Place(region, offset, length), ENTRY_CHARGE + cost);
    }

    /** Takes an entry in. */
    method Enter(e: WindowEntry, key: ItemKey, place: Place, cost: nat)
      requires Valid() && Copy(key, place) !in copies && e !in known
      requires IsRun(e, RunOf(e)) && !e.removed && e.live > 0 && e.hash == key.hash && e.region == place.region
      requires StartsWith(RunOf(e), Copy(key, place)) && RunOf(e).Charge() == cost
      modifies this
      ensures Valid() && copies == old(copies) + {Copy(key, place)} && known == old(known) + {e}
    {
      hide Represents, ByWindow, ByRegion, IsRun, Charges, Lives, Append, StartsWith, Run.Charge, Listed;
      RunsAreKnown();
      InsertedAlone(runs, copies, e, RunOf(e), Copy(key, place), cost);
      AppendIndexes(windows, regions, runs.Keys, known, e);
      assert runs[e := RunOf(e)].Keys == runs.Keys + {e};
      Note(e);
      used, live := used + cost, live + 1;
      windows, regions := Append(windows, key.hash, e), Append(regions, place.region, e);
      copies := copies + {Copy(key, place)};
    }

    lemma RunsAreKnown()
      requires Listed()
      ensures runs.Keys <= known
    {
    }

    ghost method Note(e: WindowEntry)
      requires Listed() && e !in known && IsRun(e, RunOf(e)) && !e.removed
      modifies this`known, this`runs
      ensures Listed() && known == old(known) + {e} && runs == old(runs)[e := RunOf(e)]
    {
      hide IsRun, RunOf;
      known, runs := known + {e}, runs[e := RunOf(e)];
    }

    /** An entry with one item. */
    method NewEntry(key: ItemKey, place: Place) returns (e: WindowEntry, cost: nat)
      requires key.page < WINDOW_PAGES && key.stripe < MAXIMUM_STRIPES && place.length < LENGTH_UNIT
      ensures fresh(e) && IsRun(e, RunOf(e)) && !e.removed && e.live > 0 && e.hash == key.hash
      ensures e.region == place.region
      ensures StartsWith(RunOf(e), Copy(key, place)) && RunOf(e).Charge() == ENTRY_CHARGE + cost
    {
      hide IsRun, Grew, WindowEntry.Valid, WindowEntry.Charge;
      e := new WindowEntry(key.hash, place.region, place.offset, key.header, key.k, key.m);
      NewRun(e);
      cost := Grow(e, key, place);
    }

    lemma NewRun(e: WindowEntry)
      requires e.items == [] && !e.dense
      ensures RunOf(e).Charge() == ENTRY_CHARGE
    {
    }

    /** Marks an item gone, and drops its entry once nothing in it is left. A location may outlive its entry. */
    method ForgetItem(e: WindowEntry, at: nat)
      requires Valid() && e in known && (e in runs ==> at < |runs[e].items|)
      modifies this, known
      ensures Valid() && known == old(known)
      ensures copies == if e in old(runs) && old(runs[e]).LiveAt(at) then old(copies) - {old(runs[e]).CopyAt(at)}
        else old(copies)
    {
      hide Counted, Indexed, LiveCount, WindowEntry.Valid, Forgotten, Forget, LengthOf;
      if e.removed {
        return;
      }
      EntryFacts(e);
      var word := e.WordAt(at);
      if Forgotten(word) {
        return;
      }
      WordFields(word, 0);
      ChangeWord(e, at, Forget(word));
      if e.live == 0 {
        EmptyHasNone(e);
        RemoveEntry(e);
      }
    }

    lemma EmptyHasNone(e: WindowEntry)
      requires Listed() && e in runs && e.live == 0
      ensures (set copy | copy in copies && !runs[e].Has(copy)) == copies
    {
      forall i: nat | i < |e.items| ensures !runs[e].LiveAt(i) {
        NoneLive(e.items, i);
      }
    }

    /** Counts one read of an item. */
    method ReadItem(e: WindowEntry, at: nat)
      requires Valid() && e in known && (e in runs ==> at < |runs[e].items|)
      modifies this, known
      ensures Valid() && known == old(known) && copies == old(copies)
      ensures runs == if e in old(runs) then old(runs)[e := old(runs[e]).With(at, Read(old(runs[e]).items[at].word))]
                      else old(runs)
    {
      hide Counted, Indexed, LiveCount, WindowEntry.Valid, Forgotten, Read, LengthOf;
      if e.removed {
        return;
      }
      EntryFacts(e);
      var word := e.WordAt(at);
      WordFields(word, 0);
      ChangeWord(e, at, Read(word));
    }

    /** Replaces an item's word by one of the same length, which does not bring a forgotten item back. */
    method ChangeWord(e: WindowEntry, at: nat, word: ItemWord)
      requires Sound() && e in known && e in runs && at < |runs[e].items|
      requires LengthOf(word) == LengthOf(runs[e].items[at].word) && (runs[e].LiveAt(at) || Forgotten(word))
      modifies this`runs, this`copies, this`live, e
      ensures runs == old(runs)[e := old(runs[e]).With(at, word)]
      ensures copies == CopiesWith(old(runs[e]), at, word, old(copies))
      ensures forall f :: f in known && f != e ==> f.live == old(f.live)
      ensures !Dies(old(runs[e]), at, word) ==> e.live == old(e.live)
      ensures Sound() && (old(AllLive()) && e.live > 0 ==> AllLive())
    {
      hide Counts, ByWindow, ByRegion, LiveCount, IsRun, WindowEntry.Valid, Forgotten, LengthOf, Run.CopyAt;
      EntryFacts(e);
      ghost var was := runs[e];
      WordCounts(runs, copies, used, live, e, at, word);
      var dies := SetOne(e, at, word);
      if dies {
        live := live - 1;
      }
      copies := CopiesWith(was, at, word, copies);
      runs := runs[e := was.With(at, word)];
      assert runs.Keys == old(runs).Keys;
    }

    method SetOne(e: WindowEntry, at: nat, word: ItemWord) returns (dies: bool)
      requires e.Valid() && at < |e.items| && LengthOf(word) == LengthOf(e.items[at].word)
      requires Forgotten(e.items[at].word) ==> Forgotten(word)
      modifies e
      ensures IsRun(e, old(RunOf(e)).With(at, word)) && e.removed == old(e.removed) && e.live == LiveCount(e.items)
      ensures dies <==> Dies(old(RunOf(e)), at, word)
      ensures !dies ==> e.live == old(e.live)
    {
      hide LiveCount, Forgotten, LengthOf, Laid, Offset, WordsOf, Elements, Marked;
      ForgetCounts(e.items, at, word);
      dies := Forgotten(word) && !Forgotten(e.WordAt(at));
      e.SetWord(at, word);
      if dies {
        e.live := e.live - 1;
      }
    }

    /** Drops one entry, and with it exactly the items it holds. */
    method RemoveEntry(e: WindowEntry)
      requires Sound() && e in known
      modifies this, known
      ensures Sound() && known == old(known) && regions == old(regions) && e !in runs
      ensures runs == old(runs) - {e}
      ensures copies == if e in old(runs) then set copy | copy in old(copies) && !old(runs)[e].Has(copy)
        else old(copies)
      ensures forall f :: f in known ==> f.live == old(f.live)
    {
      hide Represents, ByWindow, ByRegion, Charges, Lives, LiveCount, IsRun, WindowEntry.Valid, Delist, Listed;
      hide Run.Has, Run.Charge, WindowEntry.Charge;
      IsKnown(e);
      if e.removed {
        assert runs - {e} == runs;
        return;
      }
      EntryFacts(e);
      DropRepresents(runs, copies, e);
      DropCharges(runs, e);
      DelistIndexes(windows, regions, runs.Keys, known, e);
      assert (runs - {e}).Keys == runs.Keys - {e};
      used, live := used - e.Charge(), live - e.live;
      windows := Delist(windows, e);
      copies := set copy | copy in copies && !runs[e].Has(copy);
      Strike(e);
    }

    lemma IsKnown(e: WindowEntry)
      requires Listed() && e in known
      ensures e.removed <==> e !in runs
    {
    }

    method Strike(e: WindowEntry)
      requires Listed() && e in known && e in runs
      modifies this`runs, e`removed
      ensures Listed() && runs == old(runs) - {e}
    {
      hide WindowEntry.Valid;
      e.removed := true;
      runs := runs - {e};
    }

    /** Drops every entry of a region, and with them exactly the items that lie in it. */
    method DropRegion(region: nat)
      requires Valid()
      modifies this, known
      ensures Valid() && known == old(known) && region !in regions
      ensures copies == set copy | copy in old(copies) && copy.place.region != region
    {
      hide Sound, AllLive;
      if region in regions {
        var entries := regions[region];
        for i := 0 to |entries|
          invariant Sound() && AllLive() && known == old(known) && regions == old(regions)
          invariant forall j :: 0 <= j < i ==> entries[j] !in runs
          invariant OnlyLost(old(copies), copies, region)
        {
          RegionEntry(region, i);
          DropOne(entries[i]);
        }
        Unlist(region);
      } else {
        NoneOf(region);
      }
      Lost(old(copies), region);
    }

    lemma RegionEntry(region: nat, i: nat)
      requires Sound() && region in regions && i < |regions[region]|
      ensures regions[region][i] in known && regions[region][i].region == region
    {
    }

    method DropOne(e: WindowEntry)
      requires Sound() && AllLive() && e in known
      modifies this, known
      ensures Sound() && AllLive() && known == old(known) && regions == old(regions) && runs == old(runs) - {e}
      ensures OnlyLost(old(copies), copies, e.region)
    {
      hide Sound, Run.Has;
      if e in runs {
        LiesWithin(e);
      }
      RemoveEntry(e);
    }

    lemma LiesWithin(e: WindowEntry)
      requires Sound() && e in runs
      ensures forall copy :: copy in copies && runs[e].Has(copy) ==> copy.place.region == e.region
    {
    }

    method Unlist(region: nat)
      requires Sound() && AllLive() && region in regions && forall i :: 0 <= i < |regions[region]| ==>
        regions[region][i] !in runs
      modifies this`regions
      ensures Sound() && AllLive() && region !in regions && forall e :: e in runs ==> e.region != region
    {
      hide Listed, Counted, ByWindow;
      regions := regions - {region};
    }

    lemma NoneOf(region: nat)
      requires Sound() && region !in regions
      ensures forall e :: e in runs ==> e.region != region
    {
    }

    /** With no entry of a region left, what was lost is exactly what lay in it. */
    lemma Lost(was: set<Copy>, region: nat)
      requires Sound() && OnlyLost(was, copies, region) && forall e :: e in runs ==> e.region != region
      ensures copies == set copy | copy in was && copy.place.region != region
    {
      forall copy | copy in copies ensures copy.place.region != region {
        var e: WindowEntry :| e in runs && runs[e].Has(copy);
        var i :| runs[e].LiveAt(i) && runs[e].CopyAt(i) == copy;
        assert RunOf(e) == runs[e];
      }
    }

    lemma OnlyItem(e: WindowEntry, at: nat, key: ItemKey)
      requires Listed() && e in runs && at < |e.items| && Is(e.items[at], key.page, key.stripe)
      requires Forgotten(e.items[at].word)
      ensures !runs[e].HasKey(key)
    {
      forall i | 0 <= i < |e.items| && Is(e.items[i], key.page, key.stripe) ensures i == at {
        if i < at { ItemsDiffer(e.items, e.sheet, e.order, i, at); }
        if at < i { ItemsDiffer(e.items, e.sheet, e.order, at, i); }
      }
    }

    lemma NotItsCode(e: WindowEntry, key: ItemKey)
      requires Listed() && e in runs && !(e.header == key.header && e.Holds(key.k, key.m, key.stripe))
      ensures !runs[e].HasKey(key)
    {
      forall i: nat | i < |e.items| ensures e.items[i].stripe in e.stripes && e.items[i].stripe < MAXIMUM_STRIPES {
        var r, q := Coordinates(e.items, e.sheet, e.order, i);
        assert e.order[q] in Elements(e.order);
      }
    }
  }
}
