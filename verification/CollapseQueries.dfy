/**
  The duplicate finder of the query-collapsing script: every row looks at its neighbours in time
  order and marks either itself or the rows its query is prefix-comparable with.
 */
module CollapseQueries {

  datatype Row = Row(id: string, query: string, createdAt: int, isDuplicate: bool)

  // ---------------------------------------------------------------- sorting by timestamp

  ghost predicate Sorted(s: seq<Row>) {
    forall i, j | 0 <= i < j < |s| :: s[i].createdAt <= s[j].createdAt
  }

  /** Puts a row behind every row that is not later. */
  function Place(s: seq<Row>, r: Row): seq<Row> {
    if s == [] || s[|s| - 1].createdAt <= r.createdAt then s + [r]
    else Place(s[..|s| - 1], r) + [s[|s| - 1]]
  }

  /** Python's `sorted` by timestamp. */
  function SortByTime(rows: seq<Row>): seq<Row> {
    if rows == [] then [] else Place(SortByTime(rows[..|rows| - 1]), rows[|rows| - 1])
  }

  /** The rows with one timestamp, in order. */
  function At(s: seq<Row>, t: int): seq<Row> {
    if s == [] then []
    else At(s[..|s| - 1], t) + if s[|s| - 1].createdAt == t then [s[|s| - 1]] else []
  }

  lemma AtSnoc(s: seq<Row>, r: Row, t: int)
    ensures At(s + [r], t) == At(s, t) + if r.createdAt == t then [r] else []
  {
    assert (s + [r])[..|s|] == s;
  }

  lemma {:induction false} PlaceKeeps(s: seq<Row>, r: Row)
    ensures multiset(Place(s, r)) == multiset(s) + multiset{r}
  {
    if s != [] && s[|s| - 1].createdAt > r.createdAt {
      assert s == s[..|s| - 1] + [s[|s| - 1]];
      PlaceKeeps(s[..|s| - 1], r);
    }
  }

  lemma SortedSnoc(s: seq<Row>, r: Row)
    requires Sorted(s) && forall x <- s :: x.createdAt <= r.createdAt
    ensures Sorted(s + [r])
  {
  }

  lemma {:induction false} PlaceBelow(s: seq<Row>, r: Row, t: int)
    requires r.createdAt <= t && forall x <- s :: x.createdAt <= t
    ensures forall x <- Place(s, r) :: x.createdAt <= t
  {
    if s != [] && s[|s| - 1].createdAt > r.createdAt {
      PlaceBelow(s[..|s| - 1], r, t);
    }
  }

  lemma {:induction false} PlaceSorts(s: seq<Row>, r: Row)
    requires Sorted(s)
    ensures Sorted(Place(s, r))
  {
    if s == [] || s[|s| - 1].createdAt <= r.createdAt {
      SortedSnoc(s, r);
    } else {
      var front, last := s[..|s| - 1], s[|s| - 1];
      PlaceSorts(front, r);
      PlaceBelow(front, r, last.createdAt);
      SortedSnoc(Place(front, r), last);
    }
  }

  lemma {:induction false} PlaceAt(s: seq<Row>, r: Row, t: int)
    ensures At(Place(s, r), t) == At(s, t) + if r.createdAt == t then [r] else []
  {
    if s == [] || s[|s| - 1].createdAt <= r.createdAt {
      AtSnoc(s, r, t);
    } else {
      var front, last := s[..|s| - 1], s[|s| - 1];
      assert s == front + [last];
      PlaceAt(front, r, t);
      AtSnoc(Place(front, r), last, t);
      AtSnoc(front, last, t);
    }
  }

  /** The sort orders by timestamp, keeps every row, and keeps the order of rows with equal timestamps. */
  lemma {:induction false} SortIsStable(rows: seq<Row>, t: int)
    ensures Sorted(SortByTime(rows)) && multiset(SortByTime(rows)) == multiset(rows)
    ensures At(SortByTime(rows), t) == At(rows, t)
  {
    if rows != [] {
      var front, last := rows[..|rows| - 1], rows[|rows| - 1];
      assert rows == front + [last];
      SortIsStable(front, t);
      PlaceSorts(SortByTime(front), last);
      PlaceKeeps(SortByTime(front), last);
      PlaceAt(SortByTime(front), last, t);
      AtSnoc(front, last, t);
    }
  }

  // ---------------------------------------------------------------- neighbours

  /** The parameters of a collapse; `norm` is `strip().lower()`. */
  datatype Settings = Settings(norm: string -> string, lookRange: nat, timeWindow: int) {
    function Query(r: Row): string { norm(r.query) }

    /** One query is a prefix of the other. */
    predicate Comparable(a: Row, b: Row) {
      Query(a) <= Query(b) || Query(b) <= Query(a)
    }

    predicate Longer(a: Row, b: Row) { |Query(a)| > |Query(b)| }

    predicate InTime(a: Row, b: Row) {
      a.createdAt - b.createdAt <= timeWindow && b.createdAt - a.createdAt <= timeWindow
    }
  }

  /** Row j is within the look range of row i, and their queries are prefix-comparable. */
  predicate InRange(c: Settings, s: seq<Row>, i: nat, j: nat)
    requires i < |s|
  {
    j < |s| && j != i && i - c.lookRange <= j <= i + c.lookRange && c.Comparable(s[i], s[j])
  }

  predicate Near(c: Settings, s: seq<Row>, i: nat, j: nat)
    requires i < |s|
  {
    InRange(c, s, i, j) && c.InTime(s[i], s[j])
  }

  ghost predicate HasNear(c: Settings, s: seq<Row>, i: nat)
    requires i < |s|
  {
    exists j: nat :: Near(c, s, i, j)
  }

  ghost predicate HasLongerNear(c: Settings, s: seq<Row>, i: nat)
    requires i < |s|
  {
    exists j: nat :: Near(c, s, i, j) && c.Longer(s[j], s[i])
  }

  /** Row i has in-time neighbours, and none of them is longer. */
  ghost predicate Leads(c: Settings, s: seq<Row>, i: nat)
    requires i < |s|
  {
    HasNear(c, s, i) && !HasLongerNear(c, s, i)
  }

  function Start(c: Settings, i: nat): nat {
    if i < c.lookRange then 0 else i - c.lookRange
  }

  function End(c: Settings, s: seq<Row>, i: nat): nat {
    if |s| < i + c.lookRange + 1 then |s| else i + c.lookRange + 1
  }

  /** The rows from `j` on that are in range of row i, in order. */
  function RangeRows(c: Settings, s: seq<Row>, i: nat, j: nat): seq<Row>
    requires i < |s|
    decreases |s| - j
  {
    if j >= End(c, s, i) then []
    else (if InRange(c, s, i, j) then [s[j]] else []) + RangeRows(c, s, i, j + 1)
  }

  /** What the pass for row i appends. */
  ghost function PassRows(c: Settings, s: seq<Row>, i: nat): seq<Row>
    requires i < |s|
  {
    if HasLongerNear(c, s, i) then [s[i]]
    else if HasNear(c, s, i) then RangeRows(c, s, i, Start(c, i))
    else []
  }

  ghost function FirstPasses(c: Settings, s: seq<Row>, n: nat): seq<Row>
    requires n <= |s|
  {
    if n == 0 then [] else FirstPasses(c, s, n - 1) + PassRows(c, s, n - 1)
  }

  // ---------------------------------------------------------------- the algorithm

  /** The look-behind and look-ahead of the pass for row i. */
  method LookAround(c: Settings, s: seq<Row>, i: nat) returns (isDuplicate: bool, longestRow: Row)
    requires i < |s| && Sorted(s)
    ensures isDuplicate == HasNear(c, s, i)
    ensures (longestRow != s[i]) == HasLongerNear(c, s, i)
  {
    var currentRow := s[i];
    var currentQuery := c.Query(currentRow);
    var longestQuery := currentQuery;
    isDuplicate, longestRow := false, currentRow;
    var start, end := Start(c, i), End(c, s, i);
    var j := start;
    while j < i
      invariant start <= j <= i
      invariant longestQuery == c.Query(longestRow) && |longestQuery| >= |currentQuery|
      invariant |longestQuery| == |currentQuery| ==> longestRow == currentRow
      invariant isDuplicate == exists k: nat :: k < j && Near(c, s, i, k)
      invariant (|longestQuery| > |currentQuery|) == exists k: nat :: k < j && Near(c, s, i, k) && c.Longer(s[k], s[i])
    {
      var prevQuery := c.Query(s[j]);
      if currentRow.createdAt - s[j].createdAt > c.timeWindow {
        j := j + 1;
        continue;
      }
      if prevQuery <= currentQuery || currentQuery <= prevQuery {
        assert Near(c, s, i, j);
        isDuplicate := true;
        if |prevQuery| > |longestQuery| {
          longestQuery, longestRow := prevQuery, s[j];
        }
      }
      j := j + 1;
    }
    j := i + 1;
    while j < end
      invariant i < j
      invariant longestQuery == c.Query(longestRow) && |longestQuery| >= |currentQuery|
      invariant |longestQuery| == |currentQuery| ==> longestRow == currentRow
      invariant isDuplicate == exists k: nat :: k < j && Near(c, s, i, k)
      invariant (|longestQuery| > |currentQuery|) == exists k: nat :: k < j && Near(c, s, i, k) && c.Longer(s[k], s[i])
    {
      var nextQuery := c.Query(s[j]);
      if s[j].createdAt - currentRow.createdAt > c.timeWindow {
        BreakIsSound(c, s, i, j);
        break;
      }
      if nextQuery <= currentQuery || currentQuery <= nextQuery {
        assert Near(c, s, i, j);
        isDuplicate := true;
        if |nextQuery| > |longestQuery| {
          longestQuery, longestRow := nextQuery, s[j];
        }
      }
      j := j + 1;
    }
    assert forall k: nat :: Near(c, s, i, k) ==> k < j;
  }

  /** Rows are sorted by time, so once one is too late all further ones are. */
  lemma BreakIsSound(c: Settings, s: seq<Row>, i: nat, j: nat)
    requires Sorted(s) && i < j < |s| && s[j].createdAt - s[i].createdAt > c.timeWindow
    ensures forall k: nat :: Near(c, s, i, k) ==> k < j
  {
  }

  /** The comparable rows in range of row i; nothing here looks at the time window. */
  method OthersInRange(c: Settings, s: seq<Row>, i: nat) returns (others: seq<Row>)
    requires i < |s|
    ensures others == RangeRows(c, s, i, Start(c, i))
  {
    others := [];
    var j, end := Start(c, i), End(c, s, i);
    while j < end
      invariant Start(c, i) <= j
      invariant others + RangeRows(c, s, i, j) == RangeRows(c, s, i, Start(c, i))
    {
      if j != i && (c.Query(s[j]) <= c.Query(s[i]) || c.Query(s[i]) <= c.Query(s[j])) {
        others := others + [s[j]];
      }
      j := j + 1;
    }
  }

  lemma LongerNearIsNear(c: Settings, s: seq<Row>, i: nat)
    requires i < |s|
    ensures HasLongerNear(c, s, i) ==> HasNear(c, s, i)
  {
  }

  /** The pass for row i. */
  method Pass(c: Settings, s: seq<Row>, i: nat) returns (marked: seq<Row>)
    requires i < |s| && Sorted(s)
    ensures marked == PassRows(c, s, i)
  {
    var isDuplicate, longestRow := LookAround(c, s, i);
    LongerNearIsNear(c, s, i);
    if isDuplicate {
      if longestRow != s[i] {
        marked := [s[i]];
      } else {
        marked := OthersInRange(c, s, i);
      }
    } else {
      marked := [];
    }
  }

  /** The rows to mark as duplicates, exactly and in order. */
  method Collapse(c: Settings, rows: seq<Row>) returns (toDelete: seq<Row>)
    ensures toDelete == Collapsed(c, rows)
  {
    toDelete := [];
    var s := SortByTime(rows);
    assert Sorted(s) by { SortIsStable(rows, 0); }
    var i := 0;
    while i < |s|
      invariant 0 <= i <= |s|
      invariant toDelete == FirstPasses(c, s, i)
    {
      var marked := Pass(c, s, i);
      toDelete := toDelete + marked;
      i := i + 1;
    }
  }

  ghost function Collapsed(c: Settings, rows: seq<Row>): seq<Row> {
    FirstPasses(c, SortByTime(rows), |SortByTime(rows)|)
  }
}
