/** The selection of tables (first operands) that every classic game keeps, and the text a
    run records for it. A JavaScript `Set` iterates in insertion order, so the selection is
    a sequence without repeats, in the order the tables were added. */
module Tables {
  import opened Text

  /** `Array.from({length: 12}, (_, i) => i + 1)` */
  const All: seq<nat> := [1, 2, 3, 4, 5, 6, 7, 8, 9, 10, 11, 12]

  /** The label of a full selection. */
  const AllLabel: string := "All 1\U{2013}12"

  predicate Distinct(s: seq<nat>) {
    forall i, j :: 0 <= i < j < |s| ==> s[i] != s[j]
  }

  predicate InRange(tables: seq<nat>) {
    forall i :: 0 <= i < |tables| ==> 1 <= tables[i] <= 12
  }

  lemma AllFacts()
    ensures |All| == 12 && Distinct(All) && InRange(All)
    ensures forall n :: n in All <==> 1 <= n <= 12
  {
    forall i | 0 <= i < 12 ensures All[i] == i + 1 {
    }
    forall n | 1 <= n <= 12 ensures n in All {
      assert All[n - 1] == n;
    }
  }

  /** `set.delete(n)`: the other elements, in their order. */
  function Remove(s: seq<nat>, n: nat): (r: seq<nat>)
    ensures forall x :: x in r <==> x in s && x != n
    ensures Distinct(s) ==> Distinct(r)
  {
    if s == [] then []
    else if s[0] == n then Remove(s[1..], n)
    else
      var rest := Remove(s[1..], n);
      assert Distinct(s) ==> Distinct(s[1..]) && s[0] !in rest;
      [s[0]] + rest
  }

  lemma {:induction false} RemoveAbsent(s: seq<nat>, n: nat)
    requires n !in s
    ensures Remove(s, n) == s
  {
    if s != [] {
      RemoveAbsent(s[1..], n);
      assert s == [s[0]] + s[1..];
    }
  }

  lemma {:induction false} RemoveLast(s: seq<nat>, n: nat)
    ensures Remove(s + [n], n) == Remove(s, n)
  {
    if s == [] {
      assert Remove([n], n) == Remove([n][1..], n);
    } else {
      assert (s + [n])[1..] == s[1..] + [n];
      RemoveLast(s[1..], n);
    }
  }

  /** `toggleTable(n)`: delete a selected table, add an unselected one, and when the
      selection would become empty put `n` back. */
  function Toggle(tables: seq<nat>, n: nat): (r: seq<nat>)
    ensures |r| >= 1
    ensures forall x :: x != n ==> (x in r <==> x in tables)
    ensures n in r <==> n !in tables || forall x :: x in tables ==> x == n
  {
    var t := if n in tables then Remove(tables, n) else tables + [n];
    assert n in tables && |t| > 0 ==> t[0] in tables && t[0] != n;
    if |t| == 0 then t + [n] else t
  }

  /** What a click on a table chip does to the selection: an unselected table is appended;
      a selected one is removed unless it is the only one, which stays; the selection is
      never empty afterwards and keeps having no repeats and only tables 1..12. */
  lemma ToggleFacts(tables: seq<nat>, n: nat)
    requires Distinct(tables)
    ensures n !in tables ==> Toggle(tables, n) == tables + [n]
    ensures n in tables && |tables| > 1 ==>
      forall x :: x in Toggle(tables, n) <==> x in tables && x != n
    ensures n in tables && |tables| == 1 ==> Toggle(tables, n) == tables
    ensures |Toggle(tables, n)| >= 1
    ensures Distinct(Toggle(tables, n))
    ensures InRange(tables) && 1 <= n <= 12 ==> InRange(Toggle(tables, n))
  {
    var r := Toggle(tables, n);
    if n in tables && |tables| > 1 {
      var other := if tables[0] != n then tables[0] else tables[1];
      assert other in Remove(tables, n);
    }
    if n in tables && |tables| == 1 {
      assert tables == [n];
    }
    if InRange(tables) && 1 <= n <= 12 {
      forall i | 0 <= i < |r| ensures 1 <= r[i] <= 12 {
        assert r[i] in r;
        if r[i] != n {
          var k :| 0 <= k < |tables| && tables[k] == r[i];
        }
      }
    }
  }

  /** Clicking the chip of an unselected table twice restores the selection exactly. */
  lemma ToggleTwice(tables: seq<nat>, n: nat)
    requires n !in tables && |tables| > 0
    ensures Toggle(Toggle(tables, n), n) == tables
  {
    RemoveLast(tables, n);
    RemoveAbsent(tables, n);
  }

  /** Clicking the chip of a selected table twice, when it is not the only one, restores
      the selected set; the table moves to the end of the insertion order. */
  lemma ToggleTwiceSelected(tables: seq<nat>, n: nat)
    requires Distinct(tables) && n in tables && |tables| > 1
    ensures forall x :: x in Toggle(Toggle(tables, n), n) <==> x in tables
    ensures Toggle(Toggle(tables, n), n) == Remove(tables, n) + [n]
  {
    ToggleFacts(tables, n);
  }

  /** `setAllTables(on)`: every table, or none. */
  function SetAll(on: bool): (r: seq<nat>)
    ensures on ==> forall n :: n in r <==> 1 <= n <= 12
    ensures !on ==> |r| == 0
    ensures Distinct(r) && InRange(r)
  {
    AllFacts();
    if on then All else []
  }

  /** The selected tables in ascending order, as `sort((a, b) => a - b)` leaves them. */
  function Ascending(tables: seq<nat>): seq<nat>
  {
    AscendingFrom(tables, 1)
  }

  function AscendingFrom(tables: seq<nat>, n: nat): seq<nat>
    requires n <= 13
    decreases 13 - n
  {
    if n == 13 then []
    else if n in tables then [n] + AscendingFrom(tables, n + 1)
    else AscendingFrom(tables, n + 1)
  }

  lemma {:induction false} AscendingFromFacts(tables: seq<nat>, n: nat)
    requires n <= 13
    ensures forall x :: x in AscendingFrom(tables, n) <==> x in tables && n <= x <= 12
    ensures forall i, j :: 0 <= i < j < |AscendingFrom(tables, n)| ==>
      AscendingFrom(tables, n)[i] < AscendingFrom(tables, n)[j]
    decreases 13 - n
  {
    if n < 13 {
      AscendingFromFacts(tables, n + 1);
      var rest := AscendingFrom(tables, n + 1);
      forall j | 0 <= j < |rest| ensures n < rest[j] {
        assert rest[j] in rest;
      }
    }
  }

  /** For a selection without repeats drawn from 1..12, `Ascending` is the sort: the same
      tables, each once, in strictly increasing order. */
  lemma AscendingSorts(tables: seq<nat>)
    requires Distinct(tables) && InRange(tables)
    ensures multiset(Ascending(tables)) == multiset(tables)
    ensures forall i, j :: 0 <= i < j < |Ascending(tables)| ==> Ascending(tables)[i] < Ascending(tables)[j]
  {
    var a := Ascending(tables);
    AscendingFromFacts(tables, 1);
    forall x ensures x in a <==> x in tables {
      if x in tables {
        var k :| 0 <= k < |tables| && tables[k] == x;
      }
    }
    assert Distinct(a);
    forall x ensures multiset(a)[x] == multiset(tables)[x] {
      DistinctCount(a, x);
      DistinctCount(tables, x);
    }
  }

  lemma {:induction false} DistinctCount(s: seq<nat>, x: nat)
    requires Distinct(s)
    ensures multiset(s)[x] == if x in s then 1 else 0
  {
    if s != [] {
      var t := s[..|s| - 1];
      assert s == t + [s[|s| - 1]];
      assert Distinct(t);
      DistinctCount(t, x);
      assert s[|s| - 1] !in t;
    }
  }

  /** The ascending list from `n` on has at most 13 - n tables, and exactly that many
      when every table from `n` to 12 is selected. */
  lemma {:induction false} AscendingFromLength(tables: seq<nat>, n: nat)
    requires n <= 13
    ensures |AscendingFrom(tables, n)| <= 13 - n
    ensures |AscendingFrom(tables, n)| == 13 - n <==> forall m :: n <= m <= 12 ==> m in tables
    decreases 13 - n
  {
    if n < 13 {
      AscendingFromLength(tables, n + 1);
    }
  }

  /** A selection without repeats drawn from 1..12 has twelve tables exactly when it holds
      every table. */
  lemma FullSelection(tables: seq<nat>)
    requires Distinct(tables) && InRange(tables)
    ensures |tables| == 12 <==> forall n :: 1 <= n <= 12 ==> n in tables
    ensures |Ascending(tables)| == |tables|
  {
    AscendingSorts(tables);
    AscendingFromLength(tables, 1);
    assert |multiset(Ascending(tables))| == |Ascending(tables)|;
  }

  /** Each selected table followed by the operation symbol: `${n}${operation}`. */
  function Items(ns: seq<nat>, symbol: char): (r: seq<string>)
    ensures |r| == |ns|
    ensures forall i :: 0 <= i < |ns| ==> r[i] == Decimal(ns[i]) + [symbol]
  {
    if ns == [] then [] else [Decimal(ns[0]) + [symbol]] + Items(ns[1..], symbol)
  }

  /** `tablesLabel()`: `All 1–12` for twelve tables, otherwise the items of the ascending
      selection joined with ", ". For a selection without repeats drawn from 1..12 the label
      reads `All 1–12` exactly when every table is selected. */
  function Label(tables: seq<nat>, symbol: char): (r: string)
    ensures Distinct(tables) && InRange(tables) ==>
      (r == AllLabel <==> forall n :: 1 <= n <= 12 ==> n in tables)
    ensures Distinct(tables) && InRange(tables) && 0 < |tables| < 12 ==> 0 < |r| && IsDigit(r[0])
    ensures tables == [] ==> r == ""
  {
    var r := if |tables| == 12 then AllLabel else Join(Items(Ascending(tables), symbol), ", ");
    JoinedItemsNotAll(Ascending(tables), symbol);
    if Distinct(tables) && InRange(tables) then FullSelection(tables); r else r
  }

  lemma JoinHead(parts: seq<string>, sep: string)
    requires |parts| > 0 && |parts[0]| > 0
    ensures |Join(parts, sep)| > 0 && Join(parts, sep)[0] == parts[0][0]
  {
  }

  /** A joined list of items starts with a digit, or is empty: never `All 1–12`. */
  lemma JoinedItemsNotAll(ns: seq<nat>, symbol: char)
    ensures Join(Items(ns, symbol), ", ") != AllLabel
    ensures |ns| > 0 ==> 0 < |Join(Items(ns, symbol), ", ")| && IsDigit(Join(Items(ns, symbol), ", ")[0])
    ensures ns == [] ==> Join(Items(ns, symbol), ", ") == ""
  {
    var items := Items(ns, symbol);
    if |items| > 0 {
      JoinHead(items, ", ");
      assert IsDigit(items[0][0]);
      assert !IsDigit(AllLabel[0]);
    } else {
      assert Join(items, ", ") == "";
    }
  }

  /** Picking 3 and 4, in either order, records `3×, 4×`. */
  lemma LabelThreeFour()
    ensures Label([4, 3], '\U{D7}') == "3\U{D7}, 4\U{D7}"
    ensures Label([3, 4], '\U{D7}') == "3\U{D7}, 4\U{D7}"
  {
    AscendingThreeFour([4, 3]);
    AscendingThreeFour([3, 4]);
    ItemsThreeFour();
    assert Join(["3\U{D7}", "4\U{D7}"], ", ") == "3\U{D7}, 4\U{D7}";
  }

  lemma AscendingThreeFour(tables: seq<nat>)
    requires tables == [4, 3] || tables == [3, 4]
    ensures Ascending(tables) == [3, 4]
  {
    AscendingFromFacts(tables, 5);
    assert AscendingFrom(tables, 5) == [];
  }

  lemma ItemsThreeFour()
    ensures Items([3, 4], '\U{D7}') == ["3\U{D7}", "4\U{D7}"]
  {
    assert Decimal(3) == "3" && Decimal(4) == "4";
    var items := Items([3, 4], '\U{D7}');
    assert items[0] == "3\U{D7}" && items[1] == "4\U{D7}";
  }
}
