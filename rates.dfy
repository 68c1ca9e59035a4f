/**
 * `getCurrentRate`, copied into the dashboard, reports and customers pages:
 * 0 for an absent or empty history, otherwise the rate of the last element
 * of a copy sorted by `from` with a `localeCompare` comparator.
 * `Array.prototype.sort` is stable, and a stable sort's result is unique, so
 * the copy is modelled by a stable insertion sort.
 */
module RateHistory {
  import opened Text
  import opened Records

  predicate SortedByFrom(s: seq<RateEntry>)
  {
    forall i, j :: 0 <= i < j < |s| ==> LexLe(s[i].from, s[j].from)
  }

  /** Stable insertion: `e` goes after every entry whose `from` sorts at or before its own. */
  function Insert(e: RateEntry, s: seq<RateEntry>): (r: seq<RateEntry>)
    ensures multiset(r) == multiset(s) + multiset{e}
    ensures |r| == |s| + 1
  {
    if s == [] then [e]
    else if LexLe(s[|s| - 1].from, e.from) then s + [e]
    else
      assert s == s[..|s| - 1] + [s[|s| - 1]];
      Insert(e, s[..|s| - 1]) + [s[|s| - 1]]
  }

  function SortByFrom(h: seq<RateEntry>): (r: seq<RateEntry>)
    ensures multiset(r) == multiset(h)
    ensures |r| == |h|
  {
    if h == [] then []
    else
      assert h == h[..|h| - 1] + [h[|h| - 1]];
      Insert(h[|h| - 1], SortByFrom(h[..|h| - 1]))
  }

  lemma {:induction false} InsertSorted(e: RateEntry, s: seq<RateEntry>)
    requires SortedByFrom(s)
    ensures SortedByFrom(Insert(e, s))
  {
    if s != [] {
      var last := s[|s| - 1];
      if LexLe(last.from, e.from) {
        forall i | 0 <= i < |s| ensures LexLe(s[i].from, e.from) {
          if i < |s| - 1 { LexLeTransitive(s[i].from, last.from, e.from); }
        }
      } else {
        var init := s[..|s| - 1];
        InsertSorted(e, init);
        LexLeTotal(last.from, e.from);
        var r := Insert(e, init);
        assert multiset(r) == multiset(init) + multiset{e};
        forall i | 0 <= i < |r| ensures LexLe(r[i].from, last.from) {
          assert r[i] in multiset(r);
          if r[i] != e {
            assert r[i] in multiset(init);
            var j :| 0 <= j < |init| && init[j] == r[i];
          }
        }
      }
    }
  }

  /** The sorted copy is sorted and holds the same entries. */
  lemma {:induction false} SortByFromSorted(h: seq<RateEntry>)
    ensures SortedByFrom(SortByFrom(h))
  {
    if h != [] {
      SortByFromSorted(h[..|h| - 1]);
      InsertSorted(h[|h| - 1], SortByFrom(h[..|h| - 1]));
    }
  }

  /** `getCurrentRate(history)`. */
  function CurrentRate(history: seq<RateEntry>): (rate: int)
    ensures history == [] ==> rate == 0
  {
    if |history| == 0 then 0
    else
      var sorted := SortByFrom(history);
      sorted[|sorted| - 1].rate
  }

  /**
   * Entry `k` is the one a stable sort puts last: no entry sorts after it,
   * and every later entry sorts strictly before it (so among entries with
   * the same `from`, the latest in the list is chosen).
   */
  ghost predicate IsLatest(h: seq<RateEntry>, k: int)
  {
    && 0 <= k < |h|
    && (forall j :: 0 <= j < |h| ==> LexLe(h[j].from, h[k].from))
    && (forall j :: k < j < |h| ==> !LexLe(h[k].from, h[j].from))
  }

  /** Where inserting into a non-empty list leaves its last element. */
  lemma LastOfInsert(e: RateEntry, s: seq<RateEntry>)
    requires s != []
    ensures Insert(e, s)[|s|] == if LexLe(s[|s| - 1].from, e.from) then e else s[|s| - 1]
  {
  }

  /** Extending a history by one entry: who is latest afterwards. */
  lemma LatestAfterAppend(h: seq<RateEntry>, k: int, e: RateEntry)
    requires IsLatest(h, k)
    ensures LexLe(h[k].from, e.from) ==> IsLatest(h + [e], |h|)
    ensures !LexLe(h[k].from, e.from) ==> IsLatest(h + [e], k)
  {
    var h' := h + [e];
    if LexLe(h[k].from, e.from) {
      forall j | 0 <= j < |h'| ensures LexLe(h'[j].from, e.from) {
        if j < |h| { LexLeTransitive(h[j].from, h[k].from, e.from); } else { LexLeReflexive(e.from); }
      }
    } else {
      LexLeTotal(h[k].from, e.from);
      assert forall j :: 0 <= j < |h| ==> h'[j] == h[j];
    }
  }

  lemma {:induction false} LastOfSort(h: seq<RateEntry>) returns (k: nat)
    requires h != []
    ensures IsLatest(h, k) && SortByFrom(h)[|h| - 1] == h[k]
  {
    var n := |h| - 1;
    var e := h[n];
    var init := h[..n];
    assert h == init + [e];
    if init == [] {
      k := 0;
      LexLeReflexive(e.from);
    } else {
      var k' := LastOfSort(init);
      var s := SortByFrom(init);
      assert SortByFrom(h) == Insert(e, s);
      LastOfInsert(e, s);
      LatestAfterAppend(init, k', e);
      k := if LexLe(init[k'].from, e.from) then n else k';
    }
  }

  /** A non-empty history has exactly one latest entry. */
  lemma LatestUnique(h: seq<RateEntry>)
    requires h != []
    ensures exists k :: IsLatest(h, k)
    ensures forall k1, k2 :: IsLatest(h, k1) && IsLatest(h, k2) ==> k1 == k2
  {
    var k := LastOfSort(h);
  }

  /** The current rate is the rate of the latest entry. */
  lemma CurrentRateIsLatest(h: seq<RateEntry>, k: int)
    requires IsLatest(h, k)
    ensures CurrentRate(h) == h[k].rate
  {
    var k' := LastOfSort(h);
    LatestUnique(h);
  }

  predicate DistinctFroms(h: seq<RateEntry>)
  {
    forall i, j :: 0 <= i < j < |h| ==> h[i].from != h[j].from
  }

  /** With distinct `from` values the current rate does not depend on the order of the list. */
  lemma CurrentRateOrderIndependent(h1: seq<RateEntry>, h2: seq<RateEntry>)
    requires multiset(h1) == multiset(h2)
    requires DistinctFroms(h1)
    ensures CurrentRate(h1) == CurrentRate(h2)
  {
    if h1 != [] {
      assert |h2| == |h1| by { assert |multiset(h2)| == |multiset(h1)|; }
      var k1 := LastOfSort(h1);
      var k2 := LastOfSort(h2);
      SameLatest(h1, h2, k1, k2);
    }
  }

  /** Two permutations of a history with distinct dates have the same latest entry. */
  lemma SameLatest(h1: seq<RateEntry>, h2: seq<RateEntry>, k1: int, k2: int)
    requires multiset(h1) == multiset(h2) && DistinctFroms(h1)
    requires IsLatest(h1, k1) && IsLatest(h2, k2)
    ensures h1[k1] == h2[k2]
  {
    var e1, e2 := h1[k1], h2[k2];
    var j := IndexOf(h2, e1);
    var i := IndexOf(h1, e2);
    assert LexLe(h2[j].from, h2[k2].from);
    assert LexLe(h1[i].from, h1[k1].from);
    LexLeAntisymmetric(e1.from, e2.from);
    DistinctIndex(h1, i, k1);
  }

  /** An entry of the multiset of a list sits at some index of the list. */
  lemma IndexOf(h: seq<RateEntry>, e: RateEntry) returns (j: int)
    requires e in multiset(h)
    ensures 0 <= j < |h| && h[j] == e
  {
    assert e in h;
    j :| 0 <= j < |h| && h[j] == e;
  }

  /** With distinct `from` values, an entry is determined by its `from`. */
  lemma DistinctIndex(h: seq<RateEntry>, i: int, k: int)
    requires DistinctFroms(h) && 0 <= i < |h| && 0 <= k < |h|
    requires h[i].from == h[k].from
    ensures i == k
  {
  }

  /**
   * Appending an entry whose `from` no existing entry sorts after makes its
   * rate the current one, because the appended entry is last among ties.
   */
  lemma AppendedRateIsCurrent(h: seq<RateEntry>, e: RateEntry)
    requires forall i :: 0 <= i < |h| ==> LexLe(h[i].from, e.from)
    ensures CurrentRate(h + [e]) == e.rate
  {
    var h' := h + [e];
    LexLeReflexive(e.from);
    assert IsLatest(h', |h|);
    CurrentRateIsLatest(h', |h|);
  }
}
