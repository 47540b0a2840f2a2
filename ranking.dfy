/** The order of a leaderboard: the comparator that `saveScore` hands to `Array.prototype.sort`,
    the (stable) sort itself, and the cut to the best 25. */
module Ranking {
  import opened Storage

  const Capacity: nat := 25

  /** The comparator, negative when `a` belongs before `b`: score descending, then accuracy
      descending, then date descending. Sprint entries carry no score and no accuracy, so
      two of them compare on the date alone. The source never stores both kinds under one
      key; for such a pair the model puts the classic entry first. */
  function Compare(a: Entry, b: Entry): (r: int)
    ensures a.Sprint? && b.Sprint? ==> (r <= 0 <==> a.date >= b.date)
    ensures r == 0 <==>
      && a.Classic? == b.Classic? && a.date == b.date
      && (a.Classic? ==> a.score == b.score && a.accuracy == b.accuracy)
  {
    match (a, b)
    case (Classic(_, _, _, _, _, _), Classic(_, _, _, _, _, _)) =>
      if b.score != a.score then b.score - a.score
      else if b.accuracy != a.accuracy then b.accuracy - a.accuracy
      else b.date - a.date
    case (Sprint(_, _, _), Sprint(_, _, _)) => b.date - a.date
    case (Classic(_, _, _, _, _, _), Sprint(_, _, _)) => -1
    case (Sprint(_, _, _), Classic(_, _, _, _, _, _)) => 1
  }

  /** `a` may stand before `b`. */
  predicate Precedes(a: Entry, b: Entry) {
    Compare(a, b) <= 0
  }

  lemma CompareFlips(a: Entry, b: Entry)
    ensures Compare(a, b) == -Compare(b, a)
  {
  }

  lemma PrecedesTransitive(a: Entry, b: Entry, c: Entry)
    requires Precedes(a, b) && Precedes(b, c)
    ensures Precedes(a, c)
  {
  }

  /** Between two classic entries the comparator is the lexicographic order on
      (score, accuracy, date), each key descending. */
  lemma ClassicOrder(a: Entry, b: Entry)
    requires a.Classic? && b.Classic?
    ensures Precedes(a, b) <==>
      a.score > b.score
      || (a.score == b.score && a.accuracy > b.accuracy)
      || (a.score == b.score && a.accuracy == b.accuracy && a.date >= b.date)
  {
  }

  predicate Sorted(s: seq<Entry>) {
    forall i, j :: 0 <= i < j < |s| ==> Precedes(s[i], s[j])
  }

  /** Places `x` after every entry that ties with it, as a stable sort does with the
      entry pushed last. */
  function Insert(x: Entry, s: seq<Entry>): (r: seq<Entry>)
    ensures multiset(r) == multiset(s) + multiset{x}
  {
    if s == [] then [x]
    else if Compare(x, s[0]) < 0 then [x] + s
    else
      assert s == [s[0]] + s[1..];
      [s[0]] + Insert(x, s[1..])
  }

  /** `data.sort(Compare)`, as an insertion sort that places each entry after the ones it
      ties with (`InsertAfterTies`), so that ties keep their input order as in the stable
      `Array.prototype.sort`. */
  function Sort(s: seq<Entry>): (r: seq<Entry>)
    ensures multiset(r) == multiset(s)
  {
    if s == [] then []
    else
      assert s == s[..|s| - 1] + [s[|s| - 1]];
      Insert(s[|s| - 1], Sort(s[..|s| - 1]))
  }

  /** `data.slice(0, 25)` */
  function Top(s: seq<Entry>): (r: seq<Entry>)
    ensures |r| == if |s| <= Capacity then |s| else Capacity
    ensures r == s[..|r|]
  {
    if |s| <= Capacity then s else s[..Capacity]
  }

  /** The list stored after pushing `e` onto `prev`, sorting and keeping the top 25. */
  function Ranked(prev: seq<Entry>, e: Entry): (r: seq<Entry>)
    ensures |r| <= Capacity && Sorted(r)
  {
    SortSorted(prev + [e]);
    Top(Sort(prev + [e]))
  }

  /** Where `Insert` places `x`: after the leading entries that rank before it or tie
      with it. */
  function InsertIndex(x: Entry, s: seq<Entry>): (k: nat)
    ensures k <= |s|
  {
    if s == [] || Compare(x, s[0]) < 0 then 0 else 1 + InsertIndex(x, s[1..])
  }

  lemma {:induction false} InsertSplits(x: Entry, s: seq<Entry>)
    ensures Insert(x, s) == s[..InsertIndex(x, s)] + [x] + s[InsertIndex(x, s)..]
  {
    if s != [] && Compare(x, s[0]) >= 0 {
      InsertSplits(x, s[1..]);
      SlotShift(s, x, InsertIndex(x, s[1..]));
    }
  }

  /** Slotting `x` in at index `k` of the tail is slotting it in at `k + 1` of the list. */
  lemma SlotShift(s: seq<Entry>, x: Entry, k: nat)
    requires 0 < |s| && k < |s|
    ensures [s[0]] + (s[1..][..k] + [x] + s[1..][k..]) == s[..k + 1] + [x] + s[k + 1..]
  {
    assert s[..k + 1] == [s[0]] + s[1..][..k];
    assert s[k + 1..] == s[1..][k..];
  }

  lemma {:induction false} InsertIndexPasses(x: Entry, s: seq<Entry>)
    ensures forall i :: 0 <= i < InsertIndex(x, s) ==> Compare(x, s[i]) >= 0
  {
    if s != [] && Compare(x, s[0]) >= 0 {
      InsertIndexPasses(x, s[1..]);
      forall i | 1 <= i < InsertIndex(x, s) ensures Compare(x, s[i]) >= 0 {
        assert s[i] == s[1..][i - 1];
      }
    }
  }

  /** An entry that beats `y` beats everything `y` ranks before. */
  lemma BeatsAfter(x: Entry, y: Entry, z: Entry)
    requires Compare(x, y) < 0 && Precedes(y, z)
    ensures Compare(x, z) < 0
  {
  }

  /** `Insert` puts `x` after every entry that ranks before it or ties with it, and before
      every entry it beats. */
  lemma InsertAfterTies(x: Entry, s: seq<Entry>)
    requires Sorted(s)
    ensures var k := InsertIndex(x, s);
      && Insert(x, s) == s[..k] + [x] + s[k..]
      && (forall i :: 0 <= i < k ==> Compare(x, s[i]) >= 0)
      && (forall i :: k <= i < |s| ==> Compare(x, s[i]) < 0)
  {
    InsertSplits(x, s);
    InsertIndexPasses(x, s);
    var k := InsertIndex(x, s);
    if k < |s| {
      assert Compare(x, s[k]) < 0 by {
        InsertIndexStops(x, s);
      }
      forall i | k <= i < |s| ensures Compare(x, s[i]) < 0 {
        if i > k {
          BeatsAfter(x, s[k], s[i]);
        }
      }
    }
  }

  lemma {:induction false} InsertIndexStops(x: Entry, s: seq<Entry>)
    requires InsertIndex(x, s) < |s|
    ensures Compare(x, s[InsertIndex(x, s)]) < 0
  {
    if Compare(x, s[0]) >= 0 {
      InsertIndexStops(x, s[1..]);
    }
  }

  /** Sorting a list already in leaderboard order leaves it as it is. */
  lemma {:induction false} SortOfSorted(s: seq<Entry>)
    requires Sorted(s)
    ensures Sort(s) == s
  {
    if s != [] {
      var init, last := s[..|s| - 1], s[|s| - 1];
      assert s == init + [last];
      assert Sorted(init) by {
        forall i, j | 0 <= i < j < |init| ensures Precedes(init[i], init[j]) {
          assert init[i] == s[i] && init[j] == s[j];
        }
      }
      SortOfSorted(init);
      assert Sort(s) == Insert(last, init);
      AfterAll(last, init, s);
    }
  }

  /** An entry that ranks after or ties with every entry of a sorted list is inserted
      at its end. */
  lemma AfterAll(x: Entry, s: seq<Entry>, whole: seq<Entry>)
    requires Sorted(whole) && whole == s + [x]
    ensures Insert(x, s) == whole
  {
    assert Sorted(s) by {
      forall i, j | 0 <= i < j < |s| ensures Precedes(s[i], s[j]) {
        assert s[i] == whole[i] && s[j] == whole[j];
      }
    }
    InsertAfterTies(x, s);
    var k := InsertIndex(x, s);
    if k < |s| {
      assert Precedes(whole[k], whole[|s|]);
      CompareFlips(s[k], x);
    }
    assert s[..|s|] == s && s[|s|..] == [];
  }

  /** On a full board in leaderboard order, a new entry that does not beat the 25th
      leaves the board as it was: ties are settled in favour of the older entries. */
  lemma FullBoardKeepsTies(prev: seq<Entry>, e: Entry)
    requires Sorted(prev) && |prev| >= Capacity && Compare(e, prev[Capacity - 1]) >= 0
    ensures Ranked(prev, e) == prev[..Capacity]
  {
    SortOfSorted(prev);
    PlacedPastCut(e, prev);
    CutBeforeInsert(prev, e);
  }

  /** When the pushed entry is inserted past the cut, the cut keeps the board's own
      first 25 entries. */
  lemma CutBeforeInsert(prev: seq<Entry>, e: Entry)
    requires Sort(prev) == prev && |prev| >= Capacity && InsertIndex(e, prev) >= Capacity
    ensures Ranked(prev, e) == prev[..Capacity]
  {
    var sorted := Sort(prev + [e]);
    SortPushed(prev, e);
    InsertSplits(e, prev);
    PrefixBeforeSlot(prev, e, InsertIndex(e, prev));
    assert Ranked(prev, e) == Top(sorted);
  }

  /** Slicing the first 25 entries off a list with `x` slotted in at or past index 25
      gives the list's own first 25. */
  lemma PrefixBeforeSlot(s: seq<Entry>, x: Entry, k: nat)
    requires Capacity <= k <= |s|
    ensures Top(s[..k] + [x] + s[k..]) == s[..Capacity]
  {
    var r := s[..k] + [x] + s[k..];
    assert r[..Capacity] == s[..Capacity];
  }

  lemma SortPushed(prev: seq<Entry>, e: Entry)
    ensures Sort(prev + [e]) == Insert(e, Sort(prev))
  {
    assert (prev + [e])[..|prev|] == prev;
  }

  lemma PlacedPastCut(e: Entry, prev: seq<Entry>)
    requires Sorted(prev) && |prev| >= Capacity && Compare(e, prev[Capacity - 1]) >= 0
    ensures InsertIndex(e, prev) >= Capacity
  {
    InsertAfterTies(e, prev);
  }

  lemma {:induction false} InsertSorted(x: Entry, s: seq<Entry>)
    requires Sorted(s)
    ensures Sorted(Insert(x, s))
  {
    if s == [] {
    } else if Compare(x, s[0]) < 0 {
      var r := [x] + s;
      forall i, j | 0 <= i < j < |r| ensures Precedes(r[i], r[j]) {
        if i == 0 && j > 1 {
          PrecedesTransitive(x, s[0], s[j - 1]);
        }
      }
    } else {
      CompareFlips(x, s[0]);
      InsertSorted(x, s[1..]);
      var t := Insert(x, s[1..]);
      var r := [s[0]] + t;
      assert r == Insert(x, s);
      forall k | 0 <= k < |t| ensures Precedes(s[0], t[k]) {
        assert t[k] in multiset(t);
        if t[k] != x {
          assert t[k] in multiset(s[1..]);
          var m :| 0 <= m < |s[1..]| && s[1..][m] == t[k];
          assert s[m + 1] == t[k];
        }
      }
      forall i, j | 0 <= i < j < |r| ensures Precedes(r[i], r[j]) {
        if i > 0 {
          assert r[i] == t[i - 1] && r[j] == t[j - 1];
        }
      }
    }
  }

  /** The sort leaves the entries in leaderboard order. */
  lemma {:induction false} SortSorted(s: seq<Entry>)
    ensures Sorted(Sort(s))
  {
    if s != [] {
      SortSorted(s[..|s| - 1]);
      InsertSorted(s[|s| - 1], Sort(s[..|s| - 1]));
    }
  }

  lemma SortLength(s: seq<Entry>)
    ensures |Sort(s)| == |s|
  {
    assert |multiset(Sort(s))| == |multiset(s)|;
  }

  /** What `saveScore` stores: min(n + 1, 25) entries, in leaderboard order, that are the
      first entries of a reordering of the old list with `e` pushed on; no entry left out
      ranks before one that was kept. */
  lemma RankedShape(prev: seq<Entry>, e: Entry)
    ensures |Ranked(prev, e)| == if |prev| + 1 <= Capacity then |prev| + 1 else Capacity
    ensures Sorted(Ranked(prev, e))
    ensures multiset(Sort(prev + [e])) == multiset(prev) + multiset{e}
    ensures Ranked(prev, e) == Sort(prev + [e])[..|Ranked(prev, e)|]
    ensures multiset(Ranked(prev, e)) <= multiset(prev) + multiset{e}
    ensures forall i, j :: 0 <= i < |Ranked(prev, e)| <= j < |prev| + 1 ==>
      Precedes(Ranked(prev, e)[i], Sort(prev + [e])[j])
  {
    var all := Sort(prev + [e]);
    SortLength(prev + [e]);
    SortSorted(prev + [e]);
    var r := Ranked(prev, e);
    assert all == r + all[|r|..];
    assert multiset(all) == multiset(r) + multiset(all[|r|..]);
  }

  /** A board of sprint entries is in leaderboard order exactly when the dates never
      increase: sprint boards list the newest run first, whatever its time. */
  lemma SprintBoardByDate(s: seq<Entry>)
    requires forall i :: 0 <= i < |s| ==> s[i].Sprint?
    ensures Sorted(s) <==> forall i, j :: 0 <= i < j < |s| ==> s[i].date >= s[j].date
  {
  }

  /** A slower sprint saved later goes above a faster one saved earlier. */
  lemma SlowerNewerSprintRanksFirst()
    ensures Ranked([Sprint(7, 100, 1)], Sprint(7, 250, 2)) == [Sprint(7, 250, 2), Sprint(7, 100, 1)]
  {
    var r := Ranked([Sprint(7, 100, 1)], Sprint(7, 250, 2));
    assert [Sprint(7, 100, 1)] + [Sprint(7, 250, 2)] == [Sprint(7, 100, 1), Sprint(7, 250, 2)];
    assert Sort([Sprint(7, 100, 1)]) == [Sprint(7, 100, 1)];
  }
}
