/** Which chunks of a message its insert statement adds, read off the message and the table before. */
module Batches {
  import opened Options
  import opened ChunkStore
  import opened Ingestion

  /** Ids are drawn for each chunk, so no two chunks of a message share one. */
  ghost predicate DistinctChunks(data: seq<Chunk>) {
    forall i, j | 0 <= i < j < |data| :: data[i].row.id != data[j].row.id && data[i].row.pointId != data[j].row.pointId
  }

  ghost predicate DistinctRows(rows: seq<Row>) {
    forall i, j | 0 <= i < j < |rows| :: rows[i].id != rows[j].id && rows[i].pointId != rows[j].pointId
  }

  ghost predicate Apart(batch: seq<Row>) {
    forall i, j | 0 <= i < j < |batch| :: !Clash(batch[i], batch[j])
  }

  // ---------------------------------------------------------------- the statement

  /** Of a batch without clashes of its own, exactly the rows that do not clash with the table are added. */
  lemma {:induction false} InsertExactly(rows: Rows, batch: seq<Row>, r: Row)
    requires Consistent(rows) && Apart(batch) && r in batch
    ensures (r.id in InsertAll(rows, batch) && r.id !in rows) <==> !Conflicts(rows, r)
    ensures !Conflicts(rows, r) ==> r.id in InsertAll(rows, batch) && InsertAll(rows, batch)[r.id] == r
    decreases |batch|
  {
    var first, rest := batch[0], batch[1..];
    var next := if Conflicts(rows, first) then rows else rows[first.id := first];
    InsertOne(rows, first);
    if r == first {
      InsertAdds(next, rest);
      forall x | x in rest ensures x.id != first.id { RowOf(rest, x, first); }
    } else {
      var j :| 0 <= j < |batch| && batch[j] == r;
      assert rest[j - 1] == r && !Clash(first, r);
      if !Conflicts(rows, first) {
        ConflictStays(rows, first, r);
      }
      InsertExactly(next, rest, r);
    }
  }

  lemma RowOf(rest: seq<Row>, x: Row, first: Row)
    requires x in rest && Apart([first] + rest)
    ensures x.id != first.id
  {
    var k :| 0 <= k < |rest| && rest[k] == x;
    assert !Clash(([first] + rest)[0], ([first] + rest)[k + 1]);
  }

  lemma ConflictStays(rows: Rows, first: Row, r: Row)
    requires Consistent(rows) && !Clash(first, r) && !Conflicts(rows, first)
    ensures Conflicts(rows[first.id := first], r) <==> Conflicts(rows, r)
  {
    var next := rows[first.id := first];
    InsertOne(rows, first);
    if Conflicts(next, r) {
      var k :| k in next && Clash(next[k], r);
      assert k != first.id && Clash(rows[k], r);
    }
    if Conflicts(rows, r) {
      var k :| k in rows && Clash(rows[k], r);
      assert next[k] == rows[k];
    }
  }

  // ---------------------------------------------------------------- the batch

  lemma {:induction false} WithTrackingExactly(data: seq<Chunk>, wanted: bool, r: Row)
    ensures r in WithTracking(data, wanted) <==> r.trackingId.Some? == wanted && exists c <- data :: c.row == r
  {
    if data != [] {
      WithTrackingExactly(data[1..], wanted, r);
      assert data == [data[0]] + data[1..];
    }
  }

  lemma WithTrackingRows(data: seq<Chunk>, wanted: bool)
    ensures forall r <- WithTracking(data, wanted) :: r.trackingId.Some? == wanted
    ensures forall r <- WithTracking(data, wanted) :: exists c <- data :: c.row == r
  {
    forall r | r in WithTracking(data, wanted)
      ensures r.trackingId.Some? == wanted && exists c <- data :: c.row == r
    {
      WithTrackingExactly(data, wanted, r);
    }
  }

  lemma {:induction false} WithTrackingSnoc(data: seq<Chunk>, c: Chunk, wanted: bool)
    ensures WithTracking(data + [c], wanted) ==
            WithTracking(data, wanted) + if c.row.trackingId.Some? == wanted then [c.row] else []
  {
    if data == [] {
      assert data + [c] == [c] && [c][1..] == [];
    } else {
      assert (data + [c])[1..] == data[1..] + [c];
      WithTrackingSnoc(data[1..], c, wanted);
    }
  }

  lemma {:induction false} WithTrackingDistinct(data: seq<Chunk>, wanted: bool)
    requires DistinctChunks(data)
    ensures DistinctRows(WithTracking(data, wanted))
  {
    if data != [] {
      WithTrackingDistinct(data[1..], wanted);
      var rest := WithTracking(data[1..], wanted);
      forall k | 0 <= k < |rest| ensures rest[k].id != data[0].row.id && rest[k].pointId != data[0].row.pointId {
        WithTrackingExactly(data[1..], wanted, rest[k]);
        var c :| c in data[1..] && c.row == rest[k];
        var i :| 0 <= i < |data[1..]| && data[1..][i] == c;
        assert data[i + 1] == c;
      }
    }
  }

  lemma {:induction false} UniqueFrom(rows: seq<Row>, x: Row)
    requires x in UniqueTracking(rows)
    ensures x in rows
  {
    if x != rows[|rows| - 1] {
      UniqueFrom(rows[..|rows| - 1], x);
    }
  }

  lemma UniqueSnoc(rows: seq<Row>, r: Row)
    ensures UniqueTracking(rows + [r]) ==
            UniqueTracking(rows) + if exists x <- UniqueTracking(rows) :: SameTracking(x, r) then [] else [r]
  {
    assert (rows + [r])[..|rows|] == rows;
  }

  /** What the filter keeps stands for everything it saw. */
  lemma {:induction false} UniqueStands(rows: seq<Row>, r: Row)
    requires r.trackingId.Some?
    ensures (exists x <- UniqueTracking(rows) :: SameTracking(x, r)) <==> exists x <- rows :: SameTracking(x, r)
    ensures forall x <- UniqueTracking(rows) :: x in rows
  {
    if rows != [] {
      var front, last := rows[..|rows| - 1], rows[|rows| - 1];
      assert rows == front + [last];
      UniqueSnoc(front, last);
      UniqueStands(front, r);
      if last.trackingId.Some? {
        UniqueStands(front, last);
      }
    }
  }

  lemma {:induction false} UniqueApart(rows: seq<Row>)
    requires DistinctRows(rows) && forall r <- rows :: r.trackingId.Some?
    ensures Apart(UniqueTracking(rows))
  {
    if rows != [] {
      var front, last := rows[..|rows| - 1], rows[|rows| - 1];
      assert rows == front + [last];
      UniqueApart(front);
      UniqueSnoc(front, last);
      UniqueStands(front, last);
      forall x | x in UniqueTracking(front) ensures x.id != last.id && x.pointId != last.pointId {
        var i :| 0 <= i < |front| && front[i] == x;
        assert rows[i] == x;
      }
    }
  }

  lemma ApartConcat(a: seq<Row>, b: seq<Row>)
    requires Apart(a) && Apart(b) && forall x <- a, y <- b :: !Clash(x, y)
    ensures Apart(a + b)
  {
  }

  lemma UntrackedApart(rows: seq<Row>)
    requires DistinctRows(rows) && forall r <- rows :: r.trackingId.None?
    ensures Apart(rows)
  {
  }

  lemma BatchApart(data: seq<Chunk>)
    requires DistinctChunks(data)
    ensures Apart(Batch(data))
  {
    var a, b := WithTracking(data, false), WithTracking(data, true);
    WithTrackingDistinct(data, false);
    WithTrackingDistinct(data, true);
    WithTrackingRows(data, false);
    WithTrackingRows(data, true);
    UntrackedApart(a);
    UniqueApart(b);
    forall x, y | x in a && y in UniqueTracking(b) ensures !Clash(x, y) {
      UniqueFrom(b, y);
      DistinctOwners(data, x, y);
    }
    ApartConcat(a, UniqueTracking(b));
  }

  lemma DistinctOwners(data: seq<Chunk>, x: Row, y: Row)
    requires DistinctChunks(data) && x != y
    requires (exists c <- data :: c.row == x) && (exists c <- data :: c.row == y)
    ensures x.id != y.id && x.pointId != y.pointId
  {
    var c, d :| c in data && d in data && c.row == x && d.row == y;
    var i :| 0 <= i < |data| && data[i] == c;
    var j :| 0 <= j < |data| && data[j] == d;
    if i < j {
      assert data[i].row.id != data[j].row.id;
    } else {
      assert data[j].row.id != data[i].row.id;
    }
  }

  /** No earlier chunk of the message has the tracking id of chunk i. */
  predicate FirstTracked(data: seq<Chunk>, i: nat)
    requires i < |data|
  {
    forall j | 0 <= j < i :: !SameTracking(data[j].row, data[i].row)
  }

  lemma FrontDistinct(front: seq<Chunk>, last: Chunk)
    requires DistinctChunks(front + [last])
    ensures DistinctChunks(front) && forall i | 0 <= i < |front| :: front[i].row != last.row
  {
    var data := front + [last];
    forall i | 0 <= i < |front| ensures data[i] == front[i] && data[i].row.id != data[|front|].row.id {
    }
  }

  lemma {:induction false} UniqueExactly(data: seq<Chunk>, i: nat)
    requires DistinctChunks(data) && i < |data| && data[i].row.trackingId.Some?
    ensures data[i].row in UniqueTracking(WithTracking(data, true)) <==> FirstTracked(data, i)
  {
    var front, last := data[..|data| - 1], data[|data| - 1];
    assert data == front + [last];
    hide UniqueTracking, WithTracking, FirstTracked, SameTracking, DistinctChunks;
    FrontDistinct(front, last);
    UniqueLast(front, last);
    if i < |front| {
      UniqueExactly(front, i);
      assert data[i] == front[i];
      FirstInFront(front, last, i);
    } else {
      LastIsNew(front, last);
      LastIsFirst(front, last);
    }
  }

  lemma FirstInFront(front: seq<Chunk>, last: Chunk, i: nat)
    requires i < |front|
    ensures FirstTracked(front + [last], i) == FirstTracked(front, i)
  {
    forall j | 0 <= j <= i ensures (front + [last])[j] == front[j] {
    }
    if FirstTracked(front + [last], i) {
      forall j | 0 <= j < i ensures !SameTracking(front[j].row, front[i].row) {
        assert !SameTracking((front + [last])[j].row, (front + [last])[i].row);
      }
    }
  }

  lemma LastIsFirst(front: seq<Chunk>, last: Chunk)
    ensures FirstTracked(front + [last], |front|) <==> !exists c <- front :: SameTracking(c.row, last.row)
  {
    var data := front + [last];
    if FirstTracked(data, |front|) {
      forall c | c in front ensures !SameTracking(c.row, last.row) {
        var j :| 0 <= j < |front| && front[j] == c;
        assert data[j] == c;
      }
    } else {
      var j :| 0 <= j < |front| && SameTracking(data[j].row, last.row);
      assert data[j] in front;
    }
  }

  /** What the last chunk adds to the filtered rows. */
  lemma UniqueLast(front: seq<Chunk>, last: Chunk)
    ensures UniqueTracking(WithTracking(front + [last], true)) ==
            UniqueTracking(WithTracking(front, true))
            + if last.row.trackingId.None? || exists c <- front :: SameTracking(c.row, last.row) then [] else [last.row]
  {
    WithTrackingSnoc(front, last, true);
    var tracked := WithTracking(front, true);
    if last.row.trackingId.Some? {
      UniqueSnoc(tracked, last.row);
      UniqueStands(tracked, last.row);
      EarlierTracked(front, last.row);
    } else {
      assert tracked + [] == tracked;
    }
  }

  lemma EarlierTracked(front: seq<Chunk>, r: Row)
    ensures (exists x <- WithTracking(front, true) :: SameTracking(x, r))
       <==> exists c <- front :: SameTracking(c.row, r)
  {
    if exists x <- WithTracking(front, true) :: SameTracking(x, r) {
      var x :| x in WithTracking(front, true) && SameTracking(x, r);
      WithTrackingExactly(front, true, x);
    }
    if exists c <- front :: SameTracking(c.row, r) {
      var c :| c in front && SameTracking(c.row, r);
      WithTrackingExactly(front, true, c.row);
    }
  }

  lemma LastIsNew(front: seq<Chunk>, last: Chunk)
    requires DistinctChunks(front + [last]) && last.row.trackingId.Some?
    ensures last.row !in UniqueTracking(WithTracking(front, true))
  {
    forall x | x in UniqueTracking(WithTracking(front, true)) ensures x != last.row {
      UniqueStands(WithTracking(front, true), last.row);
      WithTrackingExactly(front, true, x);
      var c :| c in front && c.row == x;
      var i :| 0 <= i < |front| && front[i] == c;
      assert (front + [last])[i].row.id != (front + [last])[|front|].row.id;
    }
  }

  /** The statement gets the chunks without tracking id, and the first chunk of each tracking id. */
  lemma BatchExactly(data: seq<Chunk>, i: nat)
    requires DistinctChunks(data) && i < |data|
    ensures data[i].row in Batch(data) <==> data[i].row.trackingId.None? || FirstTracked(data, i)
  {
    var r := data[i].row;
    WithTrackingExactly(data, false, r);
    WithTrackingExactly(data, true, r);
    if r.trackingId.Some? {
      UniqueExactly(data, i);
    } else {
      assert data[i] in data;
    }
  }

  // ---------------------------------------------------------------- which chunks are new

  /**
    Chunk i is added: nothing in the table clashes with it, and it has no tracking id or is the
    first of the message with it.
   */
  predicate Adds(rows: Rows, data: seq<Chunk>, i: nat)
    requires i < |data|
  {
    !Conflicts(rows, data[i].row) && (data[i].row.trackingId.None? || FirstTracked(data, i))
  }

  /** Which chunks the bulk insert adds, exactly, from the message and the table before. */
  lemma AddsExactly(rows: Rows, data: seq<Chunk>, i: nat)
    requires Consistent(rows) && DistinctChunks(data) && i < |data|
    ensures var id := data[i].row.id;
            (id in InsertAll(rows, Batch(data)) && id !in rows) <==> Adds(rows, data, i)
  {
    var r, batch := data[i].row, Batch(data);
    BatchApart(data);
    BatchExactly(data, i);
    InsertAdds(rows, batch);
    if r in batch {
      InsertExactly(rows, batch, r);
    } else if r.id in InsertAll(rows, batch) && r.id !in rows {
      AddedIsInBatch(rows, data, i);
    }
  }

  lemma AddedIsInBatch(rows: Rows, data: seq<Chunk>, i: nat)
    requires Consistent(rows) && DistinctChunks(data) && i < |data|
    requires data[i].row.id in InsertAll(rows, Batch(data)) && data[i].row.id !in rows
    ensures data[i].row in Batch(data)
  {
    InsertAdds(rows, Batch(data));
    var x := InsertAll(rows, Batch(data))[data[i].row.id];
    BatchOwner(data, x);
    assert data[i] in data;
    if x != data[i].row {
      DistinctOwners(data, x, data[i].row);
    }
  }

  lemma BatchOwner(data: seq<Chunk>, x: Row)
    requires x in Batch(data)
    ensures exists c <- data :: c.row == x
  {
    WithTrackingExactly(data, false, x);
    WithTrackingExactly(data, true, x);
    if x !in WithTracking(data, false) {
      UniqueFrom(WithTracking(data, true), x);
    }
  }

  /** Every row the statement gets clashes with the table. */
  predicate AllClash(rows: Rows, data: seq<Chunk>) {
    forall r <- Batch(data) :: Conflicts(rows, r)
  }

  /** The statement changes nothing exactly when every row it gets clashes with the table before. */
  lemma InsertsNothing(rows: Rows, data: seq<Chunk>)
    requires Consistent(rows)
    ensures InsertAll(rows, Batch(data)) == rows <==> AllClash(rows, data)
  {
    if AllClash(rows, data) {
      InsertNothing(rows, Batch(data));
    } else if InsertAll(rows, Batch(data)) == rows {
      forall r | r in Batch(data) ensures Conflicts(rows, r) { InsertSaturates(rows, Batch(data), r); }
      assert false;
    }
  }
}
