/** The paging loop of the query-collapsing script over one dataset. */
module PagedScan {
  import opened CollapseQueries
  import opened Options

  /**
    The rows of the dataset in the order every page query uses (timestamp, then query length, then
    some fixed order), one row an id, none of which changes its place while the scan runs.
   */
  ghost predicate Table(t: seq<Row>) {
    && (forall i, j | 0 <= i < j < |t| :: t[i].createdAt <= t[j].createdAt)
    && (forall i, j | 0 <= i < j < |t| :: t[i].id != t[j].id)
  }

  /** How many rows are earlier than `time`: the index of the first row not earlier. */
  function First(t: seq<Row>, time: int): nat {
    if t == [] || t[0].createdAt >= time then 0 else 1 + First(t[1..], time)
  }

  lemma {:induction false} FirstSplits(t: seq<Row>, time: int)
    requires forall i, j | 0 <= i < j < |t| :: t[i].createdAt <= t[j].createdAt
    ensures First(t, time) <= |t|
    ensures forall i | 0 <= i < |t| :: i < First(t, time) <==> t[i].createdAt < time
  {
    if t != [] && t[0].createdAt < time {
      FirstSplits(t[1..], time);
      forall i | 0 <= i < |t| ensures i < First(t, time) <==> t[i].createdAt < time {
        assert i > 0 ==> t[i] == t[1..][i - 1];
      }
    }
  }

  function Min(a: nat, b: nat): nat {
    if a < b then a else b
  }

  function Take(rows: seq<Row>, limit: nat): seq<Row> {
    rows[..Min(|rows|, limit)]
  }

  function Page(t: seq<Row>, start: nat, end: nat): seq<Row>
    requires start <= end <= |t|
  {
    t[start..end]
  }

  function Unmarked(t: seq<Row>): seq<Row> {
    if t == [] then []
    else Unmarked(t[..|t| - 1]) + if t[|t| - 1].isDuplicate then [] else [t[|t| - 1]]
  }

  /** The page query: without a cursor it skips marked rows, with one it does not. */
  function GetSearchQueries(t: seq<Row>, offset: Option<int>, limit: nat): seq<Row>
    requires Table(t)
  {
    match offset
    case None => Take(Unmarked(t), limit)
    case Some(time) => FirstSplits(t, time); Take(t[First(t, time)..], limit)
  }

  // ---------------------------------------------------------------- the pages by index

  /** Where the page for a cursor begins and ends. */
  function PageStart(t: seq<Row>, last: nat): nat
    requires last < |t|
  {
    First(t, t[last].createdAt)
  }

  function PageEnd(t: seq<Row>, limit: nat, last: nat): nat
    requires last < |t|
  {
    Min(PageStart(t, last) + limit, |t|)
  }

  lemma PageAround(t: seq<Row>, limit: nat, last: nat)
    requires Table(t) && limit > 0 && last < |t|
    ensures PageStart(t, last) <= last
    ensures PageStart(t, last) < PageEnd(t, limit, last) <= |t|
    ensures forall i | PageStart(t, last) <= i <= last :: t[i].createdAt == t[last].createdAt
  {
    FirstSplits(t, t[last].createdAt);
  }

  /** Decreases with every page: how far the cursor is from the end, and whether it will move. */
  function Measure(t: seq<Row>, limit: nat, last: nat): nat
    requires Table(t) && limit > 0 && last < |t|
  {
    PageAround(t, limit, last);
    2 * (|t| - PageStart(t, last)) + if PageEnd(t, limit, last) - 1 == last then 0 else 1
  }

  lemma MeasureDrops(t: seq<Row>, limit: nat, last: nat)
    requires Table(t) && limit > 0 && last < |t|
    ensures var next := PageEnd(t, limit, last) - 1;
            0 <= next < |t| && (next != last ==> Measure(t, limit, next) < Measure(t, limit, last))
    ensures PageStart(t, PageEnd(t, limit, last) - 1) >= PageStart(t, last)
  {
    PageAround(t, limit, last);
    var next := PageEnd(t, limit, last) - 1;
    PageAround(t, limit, next);
    FirstSplits(t, t[last].createdAt);
    FirstSplits(t, t[next].createdAt);
  }

  /** The pages that follow one whose last row is `last`, until a page ends on the same row again. */
  function PagesAfter(t: seq<Row>, limit: nat, last: nat): seq<seq<Row>>
    requires Table(t) && limit > 0 && last < |t|
    decreases Measure(t, limit, last)
  {
    MeasureDrops(t, limit, last);
    PageAround(t, limit, last);
    var next := PageEnd(t, limit, last) - 1;
    if next == last then []
    else [Page(t, PageStart(t, last), next + 1)] + PagesAfter(t, limit, next)
  }

  /** The last row of the last page. */
  function FinalRow(t: seq<Row>, limit: nat, last: nat): nat
    requires Table(t) && limit > 0 && last < |t|
    decreases Measure(t, limit, last)
  {
    MeasureDrops(t, limit, last);
    var next := PageEnd(t, limit, last) - 1;
    if next == last then last else FinalRow(t, limit, next)
  }

  // ---------------------------------------------------------------- what a page holds

  lemma {:induction false} UnmarkedFrom(t: seq<Row>, r: Row)
    ensures r in Unmarked(t) <==> r in t && !r.isDuplicate
  {
    if t != [] {
      assert t == t[..|t| - 1] + [t[|t| - 1]];
      UnmarkedFrom(t[..|t| - 1], r);
    }
  }

  lemma SameIdSameRow(t: seq<Row>, i: nat, j: nat)
    requires Table(t) && i < |t| && j < |t|
    ensures t[i].id == t[j].id <==> i == j
  {
  }

  /** Where an unmarked row is among the unmarked ones. */
  lemma {:induction false} UnmarkedIndex(t: seq<Row>, n: nat, i: nat)
    requires i < n <= |t| && !t[i].isDuplicate
    ensures |Unmarked(t[..i])| < |Unmarked(t[..n])| && Unmarked(t[..n])[|Unmarked(t[..i])|] == t[i]
    decreases n
  {
    assert t[..n][..n - 1] == t[..n - 1];
    if i < n - 1 {
      UnmarkedIndex(t, n - 1, i);
    }
  }

  lemma {:induction false} UnmarkedDistinct(t: seq<Row>, a: nat, b: nat)
    requires Table(t) && a < b < |Unmarked(t)|
    ensures Unmarked(t)[a] != Unmarked(t)[b]
  {
    var front := t[..|t| - 1];
    if b < |Unmarked(front)| {
      UnmarkedDistinct(front, a, b);
    } else {
      UnmarkedFrom(front, Unmarked(front)[a]);
      var k :| 0 <= k < |front| && front[k] == Unmarked(front)[a];
      SameIdSameRow(t, k, |t| - 1);
    }
  }

  lemma SamePlace(t: seq<Row>, a: nat, b: nat)
    requires Table(t) && a < |Unmarked(t)| && b < |Unmarked(t)| && Unmarked(t)[a] == Unmarked(t)[b]
    ensures a == b
  {
    if a < b {
      UnmarkedDistinct(t, a, b);
    } else if b < a {
      UnmarkedDistinct(t, b, a);
    }
  }

  /** How many of the first `i` rows are not marked. */
  function UnmarkedBefore(t: seq<Row>, i: nat): nat
    requires i <= |t|
  {
    if i == 0 then 0 else UnmarkedBefore(t, i - 1) + if t[i - 1].isDuplicate then 0 else 1
  }

  lemma {:induction false} UnmarkedCount(t: seq<Row>, i: nat)
    requires i <= |t|
    ensures |Unmarked(t[..i])| == UnmarkedBefore(t, i)
  {
    if i > 0 {
      UnmarkedCount(t, i - 1);
      assert t[..i][..i - 1] == t[..i - 1];
    }
  }

  /**
    Without a cursor, a row is in the page if and only if it is not marked and fewer than `limit`
    rows in front of it are not marked, and its place is their number.
   */
  lemma FirstPageExactly(t: seq<Row>, limit: nat, i: nat)
    requires Table(t) && i < |t|
    ensures var page := GetSearchQueries(t, None, limit);
            && (t[i] in page <==> !t[i].isDuplicate && UnmarkedBefore(t, i) < limit)
            && (t[i] in page ==> UnmarkedBefore(t, i) < |page| && page[UnmarkedBefore(t, i)] == t[i])
  {
    var all, page := Unmarked(t), GetSearchQueries(t, None, limit);
    assert t[..|t|] == t;
    assert page == Take(all, limit);
    UnmarkedFrom(t, t[i]);
    UnmarkedCount(t, i);
    hide Table, Unmarked, UnmarkedBefore, GetSearchQueries;
    if !t[i].isDuplicate {
      UnmarkedIndex(t, |t|, i);
      var a := |Unmarked(t[..i])|;
      if a < limit {
        assert page[a] == t[i];
      }
      forall k | 0 <= k < |page| && page[k] == t[i] ensures k == a {
        SamePlace(t, k, a);
      }
    }
  }

  lemma InSlice(t: seq<Row>, lo: nat, hi: nat, i: nat)
    requires Table(t) && lo <= hi <= |t| && i < |t|
    ensures t[i] in Page(t, lo, hi) <==> lo <= i < hi
  {
    if lo <= i < hi {
      assert t[lo..hi][i - lo] == t[i];
    } else {
      forall k | 0 <= k < hi - lo ensures t[lo..hi][k] != t[i] {
        SameIdSameRow(t, lo + k, i);
      }
    }
  }

  /**
    With a cursor, a row is in the page if and only if it is not earlier, and fewer than `limit` such
    rows are in front of it.
   */
  lemma CursorPageExactly(t: seq<Row>, time: int, limit: nat, i: nat)
    requires Table(t) && i < |t|
    ensures t[i] in GetSearchQueries(t, Some(time), limit) <==>
            t[i].createdAt >= time && limit > 0 && (i < limit || t[i - limit].createdAt < time)
  {
    FirstSplits(t, time);
    var first := First(t, time);
    var end := Min(first + limit, |t|);
    assert GetSearchQueries(t, Some(time), limit) == Page(t, first, end);
    hide Table, First, GetSearchQueries, Page;
    InSlice(t, first, end, i);
  }

  // ---------------------------------------------------------------- the loop

  /** What one collapse run does with a dataset. */
  datatype Report = Report(pages: seq<seq<Row>>, duplicates: seq<Row>, lastCollapsed: Option<int>)

  ghost function AllCollapsed(c: Settings, pages: seq<seq<Row>>): seq<Row> {
    if pages == [] then []
    else AllCollapsed(c, pages[..|pages| - 1]) + Collapsed(c, pages[|pages| - 1])
  }

  function IndexOf(t: seq<Row>, r: Row): nat
    requires r in t
    ensures IndexOf(t, r) < |t| && t[IndexOf(t, r)] == r
  {
    if t[0] == r then 0 else 1 + IndexOf(t[1..], r)
  }

  /** A page query never returns rows from outside the table. */
  lemma PageInTable(t: seq<Row>, offset: Option<int>, limit: nat, r: Row)
    requires Table(t) && r in GetSearchQueries(t, offset, limit)
    ensures r in t
  {
    match offset
    case None => UnmarkedFrom(t, r);
    case Some(time) => FirstSplits(t, time);
  }

  /** All pages of a scan. */
  function Pages(t: seq<Row>, limit: nat, cursor: Option<int>): seq<seq<Row>>
    requires Table(t) && limit > 0
  {
    var page := GetSearchQueries(t, cursor, limit);
    if page == [] then []
    else
      PageInTable(t, cursor, limit, page[|page| - 1]);
      [page] + PagesAfter(t, limit, IndexOf(t, page[|page| - 1]))
  }

  /** With the last row's timestamp as cursor, the page query returns the page by index. */
  lemma NextPage(t: seq<Row>, limit: nat, last: nat)
    requires Table(t) && limit > 0 && last < |t|
    ensures var rows := GetSearchQueries(t, Some(t[last].createdAt), limit);
            && PageStart(t, last) <= PageEnd(t, limit, last) <= |t|
            && rows == Page(t, PageStart(t, last), PageEnd(t, limit, last))
            && rows != [] && rows[|rows| - 1] == t[PageEnd(t, limit, last) - 1]
  {
    FirstSplits(t, t[last].createdAt);
  }

  lemma PagesStart(t: seq<Row>, limit: nat, cursor: Option<int>)
    requires Table(t) && limit > 0
    ensures var page := GetSearchQueries(t, cursor, limit);
            if page == [] then Pages(t, limit, cursor) == []
            else
              && page[|page| - 1] in t
              && Pages(t, limit, cursor) == [page] + PagesAfter(t, limit, IndexOf(t, page[|page| - 1]))
  {
    var page := GetSearchQueries(t, cursor, limit);
    if page != [] {
      PageInTable(t, cursor, limit, page[|page| - 1]);
    }
  }

  lemma ShiftOne<T>(a: seq<T>, x: T, b: seq<T>)
    ensures a + ([x] + b) == (a + [x]) + b
  {
  }

  lemma AllCollapsedNone(c: Settings)
    ensures AllCollapsed(c, []) == []
  {
  }

  lemma PagesUnfold(t: seq<Row>, limit: nat, last: nat, page: seq<Row>)
    requires Table(t) && limit > 0 && last < |t|
    requires page == GetSearchQueries(t, Some(t[last].createdAt), limit)
    ensures PageEnd(t, limit, last) > 0
    ensures var next := PageEnd(t, limit, last) - 1;
            PagesAfter(t, limit, last) == if next == last then [] else [page] + PagesAfter(t, limit, next)
  {
    NextPage(t, limit, last);
    MeasureDrops(t, limit, last);
  }

  lemma AllCollapsedSnoc(c: Settings, pages: seq<seq<Row>>, page: seq<Row>)
    ensures AllCollapsed(c, pages + [page]) == AllCollapsed(c, pages) + Collapsed(c, page)
  {
    assert (pages + [page])[..|pages|] == pages;
  }

  /** The timestamp of the last row of the last page. */
  function LastSeen(pages: seq<seq<Row>>, cursor: Option<int>): Option<int> {
    if pages == [] || pages[|pages| - 1] == [] then cursor
    else var page := pages[|pages| - 1];
         Some(page[|page| - 1].createdAt)
  }

  lemma LastSeenSnoc(pages: seq<seq<Row>>, page: seq<Row>, cursor: Option<int>)
    requires page != []
    ensures LastSeen(pages + [page], cursor) == Some(page[|page| - 1].createdAt)
  {
  }

  /** The rows to mark are those that some page's collapse returns. */
  lemma {:induction false} AllCollapsedExactly(c: Settings, pages: seq<seq<Row>>, r: Row)
    ensures r in AllCollapsed(c, pages) <==> exists page <- pages :: r in Collapsed(c, page)
  {
    hide Collapsed;
    if pages != [] {
      var front, last := pages[..|pages| - 1], pages[|pages| - 1];
      assert pages == front + [last];
      AllCollapsedExactly(c, front, r);
    }
  }

  /** The rows to mark are exactly those that the collapse of some page returns. */
  ghost predicate FromPages(c: Settings, report: Report) {
    forall r :: r in report.duplicates <==> exists page <- report.pages :: r in Collapsed(c, page)
  }

  /** The new cursor is the timestamp of the last row of the last page, if there is a page. */
  predicate EndsAt(report: Report, cursor: Option<int>) {
    if report.pages == [] then report.lastCollapsed == cursor
    else
      var page := report.pages[|report.pages| - 1];
      page != [] && report.lastCollapsed == Some(page[|page| - 1].createdAt)
  }

  /** The first page is the first `limit` rows that are not marked, in the order of the table. */
  ghost predicate StartsUnmarked(t: seq<Row>, limit: nat, pages: seq<seq<Row>>) {
    forall i: nat | i < |t| ::
      && (pages != [] && t[i] in pages[0] <==> !t[i].isDuplicate && UnmarkedBefore(t, i) < limit)
      && (pages != [] && t[i] in pages[0] ==>
            UnmarkedBefore(t, i) < |pages[0]| && pages[0][UnmarkedBefore(t, i)] == t[i])
  }

  lemma AllFromPages(c: Settings, report: Report)
    requires report.duplicates == AllCollapsed(c, report.pages)
    ensures FromPages(c, report)
  {
    forall r ensures r in report.duplicates <==> exists page <- report.pages :: r in Collapsed(c, page) {
      AllCollapsedExactly(c, report.pages, r);
    }
  }

  lemma LastSeenEnds(report: Report, cursor: Option<int>)
    requires report.lastCollapsed == LastSeen(report.pages, cursor)
    requires forall page <- report.pages :: page != []
    ensures EndsAt(report, cursor)
  {
    if report.pages != [] {
      assert report.pages[|report.pages| - 1] in report.pages;
    }
  }

  lemma {:induction false} LaterNotEmpty(t: seq<Row>, limit: nat, last: nat)
    requires Table(t) && limit > 0 && last < |t|
    ensures forall page <- PagesAfter(t, limit, last) :: page != []
    decreases Measure(t, limit, last)
  {
    MeasureDrops(t, limit, last);
    PageAround(t, limit, last);
    var next := PageEnd(t, limit, last) - 1;
    if next != last {
      LaterNotEmpty(t, limit, next);
    }
  }

  lemma PagesNotEmpty(t: seq<Row>, limit: nat, cursor: Option<int>)
    requires Table(t) && limit > 0
    ensures forall page <- Pages(t, limit, cursor) :: page != []
  {
    PagesStart(t, limit, cursor);
    hide Pages;
    var page := GetSearchQueries(t, cursor, limit);
    if page != [] {
      LaterNotEmpty(t, limit, IndexOf(t, page[|page| - 1]));
    }
  }

  lemma ReportsAsPromised(c: Settings, t: seq<Row>, limit: nat, cursor: Option<int>, report: Report)
    requires Table(t) && limit > 0 && report.pages == Pages(t, limit, cursor)
    requires report.duplicates == AllCollapsed(c, report.pages)
    requires report.lastCollapsed == LastSeen(report.pages, cursor)
    ensures FromPages(c, report) && EndsAt(report, cursor)
    ensures cursor.None? ==> StartsUnmarked(t, limit, report.pages)
  {
    hide *;
    AllFromPages(c, report);
    PagesNotEmpty(t, limit, cursor);
    LastSeenEnds(report, cursor);
    FirstRunStarts(t, limit);
  }

  /** What the first page of a first run is. */
  lemma FirstPageOfRun(t: seq<Row>, limit: nat, i: nat)
    requires Table(t) && limit > 0 && i < |t|
    ensures var pages := Pages(t, limit, None);
            && (pages != [] && t[i] in pages[0] <==> !t[i].isDuplicate && UnmarkedBefore(t, i) < limit)
            && (pages != [] && t[i] in pages[0] ==>
                  UnmarkedBefore(t, i) < |pages[0]| && pages[0][UnmarkedBefore(t, i)] == t[i])
  {
    hide *;
    PagesStart(t, limit, None);
    FirstPageExactly(t, limit, i);
  }

  lemma FirstRunStarts(t: seq<Row>, limit: nat)
    requires Table(t) && limit > 0
    ensures StartsUnmarked(t, limit, Pages(t, limit, None))
  {
    forall i: nat | i < |t| { FirstPageOfRun(t, limit, i); }
    hide Pages, UnmarkedBefore, Table;
  }

  lemma LastSeenNone(cursor: Option<int>)
    ensures LastSeen([], cursor) == cursor
  {
  }

  /**
    The loop of `main` for one dataset: it terminates, its pages are those of the scan, and it
    collapses every page.
   */
  method CollapseDataset(c: Settings, t: seq<Row>, limit: nat, cursor: Option<int>) returns (report: Report)
    requires Table(t) && limit > 0
    ensures report.pages == Pages(t, limit, cursor)
    ensures report.duplicates == AllCollapsed(c, report.pages)
    ensures report.lastCollapsed == LastSeen(report.pages, cursor)
    ensures FromPages(c, report) && EndsAt(report, cursor)
    ensures cursor.None? ==> StartsUnmarked(t, limit, report.pages)
  {
    var pages: seq<seq<Row>>, duplicates: seq<Row>, lastCollapsed := [], [], cursor;
    var rows := GetSearchQueries(t, cursor, limit);
    PagesStart(t, limit, cursor);
    ghost var last: nat := if rows == [] then 0 else IndexOf(t, rows[|rows| - 1]);
    ghost var todo := Pages(t, limit, cursor);
    AllCollapsedNone(c);
    LastSeenNone(cursor);
    hide *;
    while rows != []
      invariant Pages(t, limit, cursor) == pages + todo
      invariant if rows == [] then todo == []
                else last < |t| && rows[|rows| - 1] == t[last] && todo == [rows] + PagesAfter(t, limit, last)
      invariant duplicates == AllCollapsed(c, pages)
      invariant lastCollapsed == LastSeen(pages, cursor)
      decreases if rows == [] then 0 else 1 + Measure(t, limit, last)
    {
      lastCollapsed := Some(rows[|rows| - 1].createdAt);
      var found := Collapse(c, rows);
      duplicates := duplicates + found;
      AllCollapsedSnoc(c, pages, rows);
      LastSeenSnoc(pages, rows, cursor);
      ShiftOne(pages, rows, PagesAfter(t, limit, last));
      pages, todo := pages + [rows], PagesAfter(t, limit, last);
      var newRows := GetSearchQueries(t, lastCollapsed, limit);
      ghost var next := StopTest(t, limit, last, newRows);
      if newRows != [] && newRows[|newRows| - 1].id == rows[|rows| - 1].id {
        break;
      }
      last, rows := next, newRows;
    }
    report := Report(pages, duplicates, lastCollapsed);
    ReportsAsPromised(c, t, limit, cursor, report);
  }

  /** The last-id test of the loop: it stops exactly when no page follows. */
  lemma StopTest(t: seq<Row>, limit: nat, last: nat, newRows: seq<Row>) returns (next: nat)
    requires Table(t) && limit > 0 && last < |t|
    requires newRows == GetSearchQueries(t, Some(t[last].createdAt), limit)
    ensures newRows != [] && next < |t| && newRows[|newRows| - 1] == t[next]
    ensures if newRows[|newRows| - 1].id == t[last].id then PagesAfter(t, limit, last) == []
            else
              && PagesAfter(t, limit, last) == [newRows] + PagesAfter(t, limit, next)
              && Measure(t, limit, next) < Measure(t, limit, last)
  {
    NextPage(t, limit, last);
    MeasureDrops(t, limit, last);
    PagesUnfold(t, limit, last, newRows);
    next := PageEnd(t, limit, last) - 1;
    SameIdSameRow(t, next, last);
  }

  // ---------------------------------------------------------------- what the scan covers

  ghost predicate InPages(pages: seq<seq<Row>>, r: Row) {
    exists page <- pages :: r in page
  }

  /** A full page whose rows all have one timestamp, with more rows behind it. */
  predicate Jam(t: seq<Row>, limit: nat, i: nat) {
    limit > 0 && i + limit < |t| && t[i].createdAt == t[i + limit - 1].createdAt
  }

  /** From a row that ended a page, the next page ends no earlier. */
  predicate Forward(t: seq<Row>, limit: nat, last: nat)
    requires last < |t|
  {
    PageEnd(t, limit, last) > last
  }

  lemma NextForward(t: seq<Row>, limit: nat, last: nat)
    requires Table(t) && limit > 0 && last < |t|
    ensures PageEnd(t, limit, last) >= 1 && PageEnd(t, limit, last) - 1 < |t|
    ensures Forward(t, limit, PageEnd(t, limit, last) - 1)
  {
    MeasureDrops(t, limit, last);
  }

  lemma {:induction false} FinalForward(t: seq<Row>, limit: nat, last: nat)
    requires Table(t) && limit > 0 && last < |t| && Forward(t, limit, last)
    ensures last <= FinalRow(t, limit, last) < |t|
    ensures PagesAfter(t, limit, last) == [] ==> FinalRow(t, limit, last) == last
    decreases Measure(t, limit, last)
  {
    MeasureDrops(t, limit, last);
    NextForward(t, limit, last);
    var next := PageEnd(t, limit, last) - 1;
    if next != last {
      FinalForward(t, limit, next);
    }
  }

  lemma InFirstOrRest(page: seq<Row>, rest: seq<seq<Row>>, r: Row)
    ensures InPages([page] + rest, r) <==> r in page || InPages(rest, r)
  {
    if r in page {
      assert page in [page] + rest;
    }
    if InPages(rest, r) {
      var p :| p in rest && r in p;
      assert p in [page] + rest;
    }
  }

  /** Row i is in one of the pages after the one that ends at `last`. */
  predicate LaterCovers(t: seq<Row>, limit: nat, last: nat, i: nat)
    requires Table(t) && limit > 0 && last < |t|
    decreases Measure(t, limit, last)
  {
    MeasureDrops(t, limit, last);
    var next := PageEnd(t, limit, last) - 1;
    next != last && (PageStart(t, last) <= i <= next || LaterCovers(t, limit, next, i))
  }

  lemma NoPages(r: Row)
    ensures !InPages([], r)
  {
  }

  /** The index form and the page form of coverage agree. */
  lemma {:induction false} LaterPages(t: seq<Row>, limit: nat, last: nat, i: nat)
    requires Table(t) && limit > 0 && last < |t| && i < |t|
    ensures InPages(PagesAfter(t, limit, last), t[i]) <==> LaterCovers(t, limit, last, i)
    decreases Measure(t, limit, last)
  {
    MeasureDrops(t, limit, last);
    PageAround(t, limit, last);
    var next := PageEnd(t, limit, last) - 1;
    if next != last {
      LaterPages(t, limit, next, i);
      hide Table, First, InPages, PageStart, Page;
      InFirstOrRest(Page(t, PageStart(t, last), next + 1), PagesAfter(t, limit, next), t[i]);
      InSlice(t, PageStart(t, last), next + 1, i);
    } else {
      NoPages(t[i]);
    }
  }

  /** A page and the pages after it cover exactly the rows from its start up to the final row. */
  lemma {:induction false} RangeCovered(t: seq<Row>, limit: nat, start: nat, last: nat, i: nat)
    requires Table(t) && limit > 0 && last < |t|
    requires start <= last && start <= PageStart(t, last) && Forward(t, limit, last)
    ensures start <= i <= last || LaterCovers(t, limit, last, i) <==> start <= i <= FinalRow(t, limit, last)
    decreases Measure(t, limit, last)
  {
    MeasureDrops(t, limit, last);
    PageAround(t, limit, last);
    NextForward(t, limit, last);
    FinalForward(t, limit, last);
    var next := PageEnd(t, limit, last) - 1;
    if next != last {
      RangeCovered(t, limit, PageStart(t, last), next, i);
    }
  }

  // ---------------------------------------------------------------- when the scan reaches the end

  lemma JamStops(t: seq<Row>, limit: nat, last: nat, i: nat)
    requires Table(t) && Jam(t, limit, i) && last <= i + limit - 1
    ensures PageStart(t, last) <= First(t, t[i].createdAt) <= i
    ensures PageEnd(t, limit, last) - 1 <= i + limit - 1
  {
    FirstSplits(t, t[last].createdAt);
    FirstSplits(t, t[i].createdAt);
  }

  lemma {:induction false} JamKeepsFinal(t: seq<Row>, limit: nat, last: nat, i: nat)
    requires Table(t) && Jam(t, limit, i) && last <= i + limit - 1
    ensures FinalRow(t, limit, last) <= i + limit - 1
    decreases Measure(t, limit, last)
  {
    MeasureDrops(t, limit, last);
    JamStops(t, limit, last, i);
    var next := PageEnd(t, limit, last) - 1;
    if next != last {
      JamKeepsFinal(t, limit, next, i);
    }
  }

  /** When the scan ends before the last row, its last page is a jam. */
  lemma {:induction false} ShortScanJams(t: seq<Row>, limit: nat, last: nat)
    returns (i: nat)
    requires Table(t) && limit > 0 && last < |t| && Forward(t, limit, last)
    requires FinalRow(t, limit, last) < |t| - 1
    ensures Jam(t, limit, i) && PageStart(t, last) <= i && i + limit - 1 == FinalRow(t, limit, last)
    decreases Measure(t, limit, last)
  {
    MeasureDrops(t, limit, last);
    PageAround(t, limit, last);
    NextForward(t, limit, last);
    var next := PageEnd(t, limit, last) - 1;
    if next == last {
      i := PageStart(t, last);
    } else {
      i := ShortScanJams(t, limit, next);
    }
  }

  /**
    Coverage, exactly: a scan from a cursor puts every row at or after the cursor in some page if
    and only if no timestamp at or after the cursor fills a whole page with rows left behind it.
   */
  lemma CoverageExactly(t: seq<Row>, limit: nat, time: int)
    requires Table(t) && limit > 0
    ensures (forall i: nat | i < |t| && t[i].createdAt >= time :: InPages(Pages(t, limit, Some(time)), t[i]))
       <==> (forall i: nat | Jam(t, limit, i) :: t[i].createdAt < time)
  {
    FirstSplits(t, time);
    if First(t, time) < |t| {
      var last := FirstPage(t, limit, time);
      ReachesEnd(t, limit, time, last);
      FinalForward(t, limit, last);
      hide *;
      forall i: nat | i < |t| { ScanCovers(t, limit, time, last, i); }
      UpToTheEnd(t, Pages(t, limit, Some(time)), time, FinalRow(t, limit, last));
    }
  }

  /** The scan covers exactly the rows from the cursor up to the final row. */
  lemma ScanCovers(t: seq<Row>, limit: nat, time: int, last: nat, i: nat)
    requires Table(t) && limit > 0 && i < |t|
    requires First(t, time) <= last < |t| && First(t, time) <= PageStart(t, last) && Forward(t, limit, last)
    requires Pages(t, limit, Some(time)) == [Page(t, First(t, time), last + 1)] + PagesAfter(t, limit, last)
    ensures InPages(Pages(t, limit, Some(time)), t[i]) <==> First(t, time) <= i <= FinalRow(t, limit, last)
  {
    hide *;
    InSlice(t, First(t, time), last + 1, i);
    InFirstOrRest(Page(t, First(t, time), last + 1), PagesAfter(t, limit, last), t[i]);
    LaterPages(t, limit, last, i);
    RangeCovered(t, limit, First(t, time), last, i);
  }

  lemma UpToTheEnd(t: seq<Row>, pages: seq<seq<Row>>, time: int, final: nat)
    requires First(t, time) < |t| && final < |t|
    requires forall i: nat | i < |t| :: i < First(t, time) <==> t[i].createdAt < time
    requires forall i: nat | i < |t| :: InPages(pages, t[i]) <==> First(t, time) <= i <= final
    ensures (forall i: nat | i < |t| && t[i].createdAt >= time :: InPages(pages, t[i])) <==> final == |t| - 1
  {
    hide First, InPages;
    if final < |t| - 1 {
      assert !InPages(pages, t[|t| - 1]);
    }
  }

  /** The scan reaches the last row if and only if there is no jam from the cursor on. */
  lemma ReachesEnd(t: seq<Row>, limit: nat, time: int, last: nat)
    requires Table(t) && limit > 0 && last < |t| && Forward(t, limit, last)
    requires First(t, time) <= PageStart(t, last) && last == Min(First(t, time) + limit, |t|) - 1
    ensures FinalRow(t, limit, last) == |t| - 1 <==> forall i: nat | Jam(t, limit, i) :: t[i].createdAt < time
  {
    FinalForward(t, limit, last);
    FirstSplits(t, time);
    forall i: nat | Jam(t, limit, i) && t[i].createdAt >= time
      ensures FinalRow(t, limit, last) < |t| - 1
    {
      JamKeepsFinal(t, limit, last, i);
    }
    if FinalRow(t, limit, last) < |t| - 1 {
      var i := ShortScanJams(t, limit, last);
      assert t[i].createdAt >= time;
    }
  }

  lemma FirstIsMonotone(t: seq<Row>, time: int, last: nat)
    requires Table(t) && First(t, time) <= last < |t|
    ensures First(t, time) <= PageStart(t, last)
  {
    FirstSplits(t, time);
    FirstSplits(t, t[last].createdAt);
    assert t[PageStart(t, last)].createdAt >= time;
  }

  lemma PageFrom(t: seq<Row>, limit: nat, time: int, last: nat)
    requires Table(t) && limit > 0 && First(t, time) < |t| && last == Min(First(t, time) + limit, |t|) - 1
    ensures GetSearchQueries(t, Some(time), limit) == Page(t, First(t, time), last + 1)
    ensures var page := Page(t, First(t, time), last + 1);
            page != [] && page[|page| - 1] == t[last]
  {
  }

  /** The first page of a scan from a cursor, by index. */
  lemma FirstPage(t: seq<Row>, limit: nat, time: int) returns (last: nat)
    requires Table(t) && limit > 0 && First(t, time) < |t|
    ensures last == Min(First(t, time) + limit, |t|) - 1
    ensures First(t, time) <= last && First(t, time) <= PageStart(t, last) && Forward(t, limit, last)
    ensures Pages(t, limit, Some(time)) == [Page(t, First(t, time), last + 1)] + PagesAfter(t, limit, last)
  {
    last := Min(First(t, time) + limit, |t|) - 1;
    PageFrom(t, limit, time, last);
    PagesStart(t, limit, Some(time));
    hide Table, First, Pages, PagesAfter, GetSearchQueries, Page;
    FirstIsMonotone(t, time, last);
    SameIdSameRow(t, IndexOf(t, t[last]), last);
  }

  /** So many rows at once that a page cannot hold them. */
  function Crowded(limit: nat): seq<Row> {
    seq(limit + 1, i requires 0 <= i => Row(seq(i, _ => '1'), "a", 0, false))
  }

  /** The last of them never gets to a collapse. */
  lemma CrowdedRowIsMissed(limit: nat)
    requires limit > 0
    ensures Table(Crowded(limit)) && !InPages(Pages(Crowded(limit), limit, Some(0)), Crowded(limit)[limit])
  {
    var t := Crowded(limit);
    forall i, j | 0 <= i < j < |t| ensures t[i].id != t[j].id {
      assert |t[i].id| == i && |t[j].id| == j;
    }
    assert Table(t) && First(t, 0) == 0 && Jam(t, limit, 0);
    var last := FirstPage(t, limit, 0);
    hide Table, First, Pages, PagesAfter, Crowded, LaterCovers, InPages;
    JamBlocks(t, limit, last, 0, limit);
    LaterPages(t, limit, last, limit);
    InSlice(t, 0, last + 1, limit);
    InFirstOrRest(Page(t, 0, last + 1), PagesAfter(t, limit, last), t[limit]);
  }

  // ---------------------------------------------------------------- the first run, without a cursor

  /** The unmarked rows keep the order of the table. */
  lemma UnmarkedOrder(t: seq<Row>, i: nat, last: nat) returns (a: nat, b: nat)
    requires i < last < |t| && !t[i].isDuplicate && !t[last].isDuplicate
    ensures a < b < |Unmarked(t)| && Unmarked(t)[a] == t[i] && Unmarked(t)[b] == t[last]
  {
    hide Unmarked;
    assert t[..|t|] == t;
    UnmarkedIndex(t, |t|, i);
    UnmarkedIndex(t, |t|, last);
    UnmarkedIndex(t, last, i);
    a, b := |Unmarked(t[..i])|, |Unmarked(t[..last])|;
  }

  /** The first page without cursor holds every unmarked row up to that page's last row. */
  lemma FirstRunPage(t: seq<Row>, limit: nat, last: nat, i: nat)
    requires Table(t) && i <= last < |t| && !t[i].isDuplicate
    requires var page := Take(Unmarked(t), limit); page != [] && page[|page| - 1] == t[last]
    ensures t[i] in Take(Unmarked(t), limit)
  {
    UnmarkedFrom(t, t[last]);
    hide Table, Unmarked;
    if i < last {
      var page := Take(Unmarked(t), limit);
      var a, b := UnmarkedOrder(t, i, last);
      SamePlace(t, b, |page| - 1);
      assert page[a] == t[i];
    }
  }

  /** Pages that start at or before a jam never get past it. */
  lemma {:induction false} JamBlocks(t: seq<Row>, limit: nat, last: nat, i: nat, u: nat)
    requires Table(t) && Jam(t, limit, i) && last < |t| && t[last].createdAt <= t[i].createdAt
    requires i + limit <= u < |t|
    ensures !LaterCovers(t, limit, last, u)
    decreases Measure(t, limit, last)
  {
    MeasureDrops(t, limit, last);
    FirstSplits(t, t[last].createdAt);
    var next := PageEnd(t, limit, last) - 1;
    assert next <= i + limit - 1 && t[next].createdAt <= t[i].createdAt;
    if next != last {
      JamBlocks(t, limit, next, i, u);
    }
  }

  /** Without a jam in between, the pages after `last` get to row u. */
  lemma RestCovers(t: seq<Row>, limit: nat, last: nat, u: nat)
    requires Table(t) && limit > 0 && last < u < |t|
    requires forall i: nat | Jam(t, limit, i) && i + limit <= u :: i < PageStart(t, last)
    ensures LaterCovers(t, limit, last, u)
  {
    hide Table, First, Jam, FinalRow, Forward, PageStart, LaterCovers;
    MeasureDrops(t, limit, last);
    PageAround(t, limit, last);
    NextForward(t, limit, last);
    var next := PageEnd(t, limit, last) - 1;
    if next == last {
      StuckPage(t, limit, last);
      assert false;
    }
    FinalForward(t, limit, next);
    RangeCovered(t, limit, PageStart(t, last), next, u);
    LaterUnfold(t, limit, last, u);
    if FinalRow(t, limit, next) < u {
      var i := ShortScanJams(t, limit, next);
      assert false;
    }
  }

  lemma LaterUnfold(t: seq<Row>, limit: nat, last: nat, i: nat)
    requires Table(t) && limit > 0 && last < |t| && PageEnd(t, limit, last) - 1 != last
    ensures var next := PageEnd(t, limit, last) - 1;
            && 0 <= next < |t|
            && (LaterCovers(t, limit, last, i) <==> PageStart(t, last) <= i <= next || LaterCovers(t, limit, next, i))
  {
    MeasureDrops(t, limit, last);
  }

  lemma StuckPage(t: seq<Row>, limit: nat, last: nat)
    requires Table(t) && limit > 0 && last < |t| - 1 && PageEnd(t, limit, last) - 1 == last
    ensures Jam(t, limit, PageStart(t, last)) && PageStart(t, last) + limit == last + 1
  {
    PageAround(t, limit, last);
  }

  /** Every jam in front of row u is earlier than row `last`. */
  ghost predicate Passable(t: seq<Row>, limit: nat, last: nat, u: nat)
    requires last < |t|
  {
    forall i: nat | Jam(t, limit, i) && i + limit <= u :: t[i].createdAt < t[last].createdAt
  }

  /** One unmarked row is in the pages of a first run unless a jam keeps them from it. */
  lemma FirstRunRow(t: seq<Row>, limit: nat, last: nat, u: nat)
    requires Table(t) && limit > 0 && last < |t| && u < |t| && !t[u].isDuplicate
    requires var page := Take(Unmarked(t), limit); page != [] && page[|page| - 1] == t[last]
    ensures t[u] in Take(Unmarked(t), limit) || LaterCovers(t, limit, last, u) <==>
            u <= last || Passable(t, limit, last, u)
  {
    FirstSplits(t, t[last].createdAt);
    if u <= last {
      FirstRunPage(t, limit, last, u);
    } else {
      NotInFirstPage(t, limit, last, u);
      if Passable(t, limit, last, u) {
        RestCovers(t, limit, last, u);
      } else {
        var i: nat :| Jam(t, limit, i) && i + limit <= u && t[i].createdAt >= t[last].createdAt;
        JamBlocks(t, limit, last, i, u);
      }
    }
  }

  /** The first page ends with its last row. */
  lemma NotInFirstPage(t: seq<Row>, limit: nat, last: nat, u: nat)
    requires Table(t) && last < u < |t| && !t[u].isDuplicate
    requires var page := Take(Unmarked(t), limit); page != [] && page[|page| - 1] == t[last]
    ensures t[u] !in Take(Unmarked(t), limit)
  {
    var all, page := Unmarked(t), Take(Unmarked(t), limit);
    UnmarkedFrom(t, t[last]);
    hide Table, Unmarked;
    var a, b := UnmarkedOrder(t, last, u);
    SamePlace(t, a, |page| - 1);
    forall k | 0 <= k < |page| ensures page[k] != t[u] {
      if all[k] == t[u] {
        SamePlace(t, k, b);
      }
    }
  }

  /**
    The first run of a dataset, exactly: every row that was not yet marked is given to a collapse
    if and only if no such row behind the first page is also behind a jam that is not earlier than
    the first page's last row.
   */
  lemma FirstRunExactly(t: seq<Row>, limit: nat, last: nat)
    requires Table(t) && limit > 0 && last < |t|
    requires var page := GetSearchQueries(t, None, limit);
             page != [] && page[|page| - 1] == t[last]
    ensures (forall u: nat | u < |t| && !t[u].isDuplicate :: InPages(Pages(t, limit, None), t[u]))
       <==> (forall u: nat | last < u < |t| && !t[u].isDuplicate :: Passable(t, limit, last, u))
  {
    var page, pages := GetSearchQueries(t, None, limit), Pages(t, limit, None);
    PagesStart(t, limit, None);
    assert page == Take(Unmarked(t), limit);
    SameIdSameRow(t, IndexOf(t, t[last]), last);
    hide *;
    forall u: nat | u < |t| && !t[u].isDuplicate
      ensures InPages(pages, t[u]) <==> u <= last || Passable(t, limit, last, u)
    {
      InFirstOrRest(page, PagesAfter(t, limit, last), t[u]);
      LaterPages(t, limit, last, u);
      FirstRunRow(t, limit, last, u);
    }
  }
}
