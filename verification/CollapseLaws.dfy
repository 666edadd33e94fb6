/** Which rows a collapse marks, on any input. */
module CollapseLaws {
  import opened CollapseQueries

  /** The pass for row i marks row k. */
  ghost predicate Marks(c: Settings, s: seq<Row>, i: nat, k: nat) {
    i < |s| && k < |s| && if HasLongerNear(c, s, i) then k == i else HasNear(c, s, i) && InRange(c, s, i, k)
  }

  ghost predicate Marked(c: Settings, s: seq<Row>, k: nat) {
    exists i: nat :: Marks(c, s, i, k)
  }

  lemma {:induction false} RangeRowsExact(c: Settings, s: seq<Row>, i: nat, j: nat, x: Row)
    requires i < |s|
    ensures x in RangeRows(c, s, i, j) <==> exists k: nat :: j <= k && InRange(c, s, i, k) && s[k] == x
    decreases |s| - j
  {
    if j < End(c, s, i) {
      RangeRowsExact(c, s, i, j + 1, x);
    }
  }

  /** The pass for row i marks row `x`. */
  ghost predicate MarksRow(c: Settings, s: seq<Row>, i: nat, x: Row) {
    exists k: nat :: Marks(c, s, i, k) && s[k] == x
  }

  lemma PassRowsExact(c: Settings, s: seq<Row>, i: nat, x: Row)
    requires i < |s|
    ensures x in PassRows(c, s, i) <==> MarksRow(c, s, i, x)
  {
    RangeRowsExact(c, s, i, Start(c, i), x);
    if HasLongerNear(c, s, i) {
      assert Marks(c, s, i, i);
    } else if x in PassRows(c, s, i) {
      var k: nat :| InRange(c, s, i, k) && s[k] == x;
      assert Marks(c, s, i, k);
    }
  }

  lemma InConcat(a: seq<Row>, b: seq<Row>, x: Row)
    ensures x in a + b <==> x in a || x in b
  {
  }

  lemma FirstPassesUnfold(c: Settings, s: seq<Row>, n: nat)
    requires n <= |s|
    ensures FirstPasses(c, s, n) == if n == 0 then [] else FirstPasses(c, s, n - 1) + PassRows(c, s, n - 1)
  {
  }

  lemma {:induction false} FirstPassesExact(c: Settings, s: seq<Row>, n: nat, x: Row)
    requires n <= |s|
    ensures x in FirstPasses(c, s, n) <==> exists i: nat :: i < n && MarksRow(c, s, i, x)
  {
    hide *;
    FirstPassesUnfold(c, s, n);
    if n > 0 {
      FirstPassesExact(c, s, n - 1, x);
      PassRowsExact(c, s, n - 1, x);
      InConcat(FirstPasses(c, s, n - 1), PassRows(c, s, n - 1), x);
    }
  }

  // ---------------------------------------------------------------- distinct rows

  ghost predicate Distinct(rows: seq<Row>) {
    forall i, j | 0 <= i < j < |rows| :: rows[i].id != rows[j].id
  }

  lemma {:induction false} DistinctOnce(rows: seq<Row>, x: Row)
    requires Distinct(rows)
    ensures multiset(rows)[x] <= 1
  {
    if rows != [] {
      var rest := rows[1..];
      assert rows == [rows[0]] + rest;
      DistinctOnce(rest, x);
      if x in rest {
        assert x != rows[0];
      } else {
        assert multiset(rest)[x] == 0;
      }
    }
  }

  lemma TwiceIsTwo(s: seq<Row>, i: nat, j: nat)
    requires i < j < |s| && s[i] == s[j]
    ensures multiset(s)[s[i]] >= 2
  {
    var a, b := s[..j], s[j..];
    assert s == a + b;
    assert a[i] in a && b[0] in b;
  }

  lemma SortKeepsDistinct(rows: seq<Row>, i: nat, j: nat)
    requires Distinct(rows) && i < j < |SortByTime(rows)|
    ensures SortByTime(rows)[i] != SortByTime(rows)[j]
  {
    var s := SortByTime(rows);
    SortIsStable(rows, 0);
    DistinctOnce(rows, s[i]);
    if s[i] == s[j] {
      TwiceIsTwo(s, i, j);
    }
  }

  // ---------------------------------------------------------------- the exact marks

  /**
    On rows with distinct ids, sorted by time, row k is returned exactly when some in-time
    neighbour is strictly longer, or some neighbour in range has in-time neighbours, none of them
    longer than it.
   */
  lemma MarkedExactly(c: Settings, rows: seq<Row>, k: nat)
    requires Distinct(rows) && k < |SortByTime(rows)|
    ensures var s := SortByTime(rows);
            s[k] in Collapsed(c, rows) <==> HasLongerNear(c, s, k) || InRangeOfLeader(c, s, k)
  {
    var s := SortByTime(rows);
    MarkedIsIndexed(c, rows, k);
    MarkedCases(c, s, k);
  }

  /** Some row in range of row k leads its in-time neighbours. */
  ghost predicate InRangeOfLeader(c: Settings, s: seq<Row>, k: nat)
    requires k < |s|
  {
    exists i: nat :: InRange(c, s, k, i) && Leads(c, s, i)
  }

  lemma MarkedIsIndexed(c: Settings, rows: seq<Row>, k: nat)
    requires Distinct(rows) && k < |SortByTime(rows)|
    ensures SortByTime(rows)[k] in Collapsed(c, rows) <==> Marked(c, SortByTime(rows), k)
  {
    var s := SortByTime(rows);
    FirstPassesExact(c, s, |s|, s[k]);
    assert Collapsed(c, rows) == FirstPasses(c, s, |s|);
    hide FirstPasses, Collapsed, MarksRow, SortByTime;
    forall i: nat ensures i < |s| && MarksRow(c, s, i, s[k]) <==> Marks(c, s, i, k) {
      RowIsIndex(c, rows, i, k);
    }
  }

  /** Rows with distinct ids keep them, so marking the row is marking the index. */
  lemma RowIsIndex(c: Settings, rows: seq<Row>, i: nat, k: nat)
    requires Distinct(rows) && k < |SortByTime(rows)|
    ensures var s := SortByTime(rows);
            i < |s| && MarksRow(c, s, i, s[k]) <==> Marks(c, s, i, k)
  {
    var s := SortByTime(rows);
    hide SortByTime, HasLongerNear, HasNear, InRange;
    if MarksRow(c, s, i, s[k]) {
      var l: nat :| Marks(c, s, i, l) && s[l] == s[k];
      if l < k {
        SortKeepsDistinct(rows, l, k);
      } else if k < l {
        SortKeepsDistinct(rows, k, l);
      }
    }
  }

  lemma MarkedCases(c: Settings, s: seq<Row>, k: nat)
    requires k < |s|
    ensures Marked(c, s, k) <==>
            HasLongerNear(c, s, k) || InRangeOfLeader(c, s, k)
  {
    if Marked(c, s, k) {
      var i: nat :| Marks(c, s, i, k);
      if !HasLongerNear(c, s, i) {
        assert InRange(c, s, k, i) && Leads(c, s, i);
      }
    }
    if HasLongerNear(c, s, k) {
      assert Marks(c, s, k, k);
    }
    if InRangeOfLeader(c, s, k) {
      var i: nat :| InRange(c, s, k, i) && Leads(c, s, i);
      assert Marks(c, s, i, k);
    }
  }

  lemma SurvivorIndices(c: Settings, s: seq<Row>, i: nat, j: nat)
    requires i < |s| && j < |s| && Near(c, s, i, j)
    ensures Marked(c, s, i) || Marked(c, s, j)
  {
    MarkedCases(c, s, i);
    MarkedCases(c, s, j);
    assert Near(c, s, j, i);
    if !HasLongerNear(c, s, i) {
      assert InRange(c, s, j, i) && Leads(c, s, i);
    }
  }

  /** Survivors are independent: of any two in-time neighbours at least one is returned. */
  lemma SurvivorsIndependent(c: Settings, rows: seq<Row>, i: nat, j: nat)
    requires Distinct(rows)
    requires i < |SortByTime(rows)| && j < |SortByTime(rows)| && Near(c, SortByTime(rows), i, j)
    ensures SortByTime(rows)[i] in Collapsed(c, rows) || SortByTime(rows)[j] in Collapsed(c, rows)
  {
    SurvivorIndices(c, SortByTime(rows), i, j);
    MarkedIsIndexed(c, rows, i);
    MarkedIsIndexed(c, rows, j);
  }

  /** Row k is strictly longer than every row in range of it. */
  ghost predicate Longest(c: Settings, s: seq<Row>, k: nat)
    requires k < |s|
  {
    forall i: nat | InRange(c, s, k, i) :: c.Longer(s[k], s[i])
  }

  /**
    The documentation promises that only partial queries within the time window are removed. The
    last loop of the pass has no time test, so the longest row of its neighbourhood is marked
    exactly when some row in range, but outside the time window, leads a group of its own.
   */
  lemma LongestMarkedExactly(c: Settings, s: seq<Row>, k: nat)
    requires k < |s| && Longest(c, s, k)
    ensures Marked(c, s, k) <==>
            exists i: nat :: InRange(c, s, k, i) && !c.InTime(s[k], s[i]) && Leads(c, s, i)
  {
    MarkedCases(c, s, k);
    LongestLeads(c, s, k);
    if Marked(c, s, k) {
      var i: nat :| InRange(c, s, k, i) && Leads(c, s, i);
      assert c.Longer(s[k], s[i]);
      assert !Near(c, s, i, k);
    }
  }

  lemma LongestLeads(c: Settings, s: seq<Row>, k: nat)
    requires k < |s| && Longest(c, s, k)
    ensures !HasLongerNear(c, s, k)
  {
    forall j: nat | Near(c, s, k, j) ensures !c.Longer(s[j], s[k]) {
      assert InRange(c, s, k, j);
    }
  }

  /** So it survives whenever every row in range is also inside the time window. */
  lemma LongestSurvives(c: Settings, rows: seq<Row>, k: nat)
    requires Distinct(rows) && k < |SortByTime(rows)| && Longest(c, SortByTime(rows), k)
    requires forall i: nat | InRange(c, SortByTime(rows), k, i) :: c.InTime(SortByTime(rows)[k], SortByTime(rows)[i])
    ensures SortByTime(rows)[k] !in Collapsed(c, rows)
  {
    LongestMarkedExactly(c, SortByTime(rows), k);
    MarkedIsIndexed(c, rows, k);
  }

  lemma {:induction false} SortedStays(rows: seq<Row>)
    requires Sorted(rows)
    ensures SortByTime(rows) == rows
  {
    if rows != [] {
      var front, last := rows[..|rows| - 1], rows[|rows| - 1];
      SortedStays(front);
      assert rows == front + [last];
      assert front != [] ==> front[|front| - 1] == rows[|front| - 1];
    }
  }

  const APPLES: seq<Row> := [Row("1", "apple", 0, false), Row("2", "app", 100, false), Row("3", "app", 100, false)]

  lemma ApplesMarked(c: Settings)
    requires c.lookRange == 10 && c.timeWindow == 10 && c.norm("apple") == "apple" && c.norm("app") == "app"
    ensures Longest(c, APPLES, 0) && !HasNear(c, APPLES, 0) && Marked(c, APPLES, 0)
  {
    var s := APPLES;
    assert "apple"[..3] == "app";
    assert InRange(c, s, 1, 0) && Near(c, s, 1, 2);
    assert !c.InTime(s[1], s[0]);
    assert forall j: nat :: Near(c, s, 1, j) ==> j == 2;
    assert Leads(c, s, 1);
    assert Marks(c, s, 1, 0);
  }

  /** "apple", then 100 seconds later "app" twice: the second pass deletes "apple". */
  lemma LongestMayBeMarked(c: Settings)
    requires c.lookRange == 10 && c.timeWindow == 10 && c.norm("apple") == "apple" && c.norm("app") == "app"
    ensures Distinct(APPLES) && Sorted(APPLES) && Longest(c, APPLES, 0) && !HasNear(c, APPLES, 0)
    ensures APPLES[0] in Collapsed(c, APPLES)
  {
    ApplesMarked(c);
    assert Distinct(APPLES) && Sorted(APPLES);
    hide *;
    SortedStays(APPLES);
    MarkedIsIndexed(c, APPLES, 0);
  }

  /** A collapse whose neighbourhoods lie inside the time window only marks rows with an in-time neighbour. */
  lemma MarkedHaveNeighbours(c: Settings, s: seq<Row>, k: nat)
    requires k < |s| && Marked(c, s, k)
    requires forall i: nat | InRange(c, s, k, i) :: c.InTime(s[k], s[i])
    ensures HasNear(c, s, k)
  {
    MarkedCases(c, s, k);
    if !HasLongerNear(c, s, k) {
      var i: nat :| InRange(c, s, k, i) && Leads(c, s, i);
      assert Near(c, s, k, i);
    }
  }
}
