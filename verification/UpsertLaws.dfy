/** What a bulk upload with upsert leaves in Postgres and in Qdrant. */
module UpsertLaws {
  import opened Options
  import opened ChunkStore
  import opened Ingestion
  import opened Batches
  import opened UpsertIngestion
  import IngestionLaws

  // ---------------------------------------------------------------- the rows

  lemma UpsertRowKeeps(rows: Rows, r: Row, k: Id)
    requires Consistent(rows) && k in rows && UpsertRow(rows, r).Some?
    ensures var next := UpsertRow(rows, r).value;
            k in next && next[k] == Touch(rows[k], r)
  {
    if !(exists j <- rows :: SameTracking(rows[j], r)) {
      InsertOne(rows, r);
    }
  }

  lemma RestApart(batch: seq<Row>, y: Row)
    requires Apart(batch) && batch != [] && y in batch[1..]
    ensures !Clash(batch[0], y)
  {
    var j :| 0 <= j < |batch[1..]| && batch[1..][j] == y;
    assert batch[j + 1] == y;
  }

  /** A row of the table gets the body of the batch row with its tracking id, and otherwise stays as it is. */
  lemma {:induction false} UpsertOld(rows: Rows, batch: seq<Row>, k: Id)
    requires Consistent(rows) && Apart(batch) && k in rows && UpsertAll(rows, batch).Some?
    ensures k in UpsertAll(rows, batch).value
    ensures (forall x <- batch :: !SameTracking(rows[k], x)) ==> UpsertAll(rows, batch).value[k] == rows[k]
    ensures forall x <- batch :: SameTracking(rows[k], x) ==>
              UpsertAll(rows, batch).value[k] == rows[k].(body := x.body)
    decreases |batch|
  {
    if batch != [] {
      var first, rest := batch[0], batch[1..];
      assert batch == [first] + rest;
      var next := UpsertRow(rows, first).value;
      UpsertRowConsistent(rows, first);
      UpsertRowKeeps(rows, first, k);
      UpsertOld(next, rest, k);
      forall y | y in rest ensures !SameTracking(first, y) { RestApart(batch, y); }
      hide UpsertRow, Consistent, Apart;
    }
  }

  /** A row of the batch that no table row can take is added as it is. */
  lemma {:induction false} UpsertNew(rows: Rows, batch: seq<Row>, x: Row)
    requires Consistent(rows) && Apart(batch) && x in batch && UpsertAll(rows, batch).Some?
    requires forall k <- rows :: !SameTracking(rows[k], x)
    ensures x.id !in rows && x.id in UpsertAll(rows, batch).value && UpsertAll(rows, batch).value[x.id] == x
    decreases |batch|
  {
    var first, rest := batch[0], batch[1..];
    assert batch == [first] + rest;
    var next := UpsertRow(rows, first).value;
    UpsertRowConsistent(rows, first);
    if x == first {
      InsertOne(rows, x);
      forall y | y in rest ensures !SameTracking(x, y) { RestApart(batch, y); }
      UpsertOld(next, rest, x.id);
    } else {
      RestApart(batch, x);
      StillUntracked(rows, first, x);
      UpsertNew(next, rest, x);
    }
  }

  lemma StillUntracked(rows: Rows, first: Row, x: Row)
    requires UpsertRow(rows, first).Some? && !Clash(first, x) && forall k <- rows :: !SameTracking(rows[k], x)
    ensures forall k <- UpsertRow(rows, first).value :: !SameTracking(UpsertRow(rows, first).value[k], x)
  {
  }

  /** No other row is added. */
  lemma {:induction false} UpsertOnly(rows: Rows, batch: seq<Row>, k: Id)
    requires UpsertAll(rows, batch).Some? && k in UpsertAll(rows, batch).value && k !in rows
    ensures exists x <- batch :: x.id == k
    decreases |batch|
  {
    if batch != [] {
      var first, rest := batch[0], batch[1..];
      assert batch == [first] + rest;
      var next := UpsertRow(rows, first).value;
      if k !in next {
        UpsertOnly(next, rest, k);
      }
    }
  }

  // ---------------------------------------------------------------- the returned chunks

  /** The table row for a tracked row of the batch: its tracking id, and its body. */
  lemma TrackedRow(rows: Rows, batch: seq<Row>, x: Row) returns (k: Id)
    requires Consistent(rows) && Apart(batch) && x in batch && x.trackingId.Some? && UpsertAll(rows, batch).Some?
    ensures var after := UpsertAll(rows, batch).value;
            k in after && SameTracking(after[k], x) && after[k].body == x.body
  {
    if j :| j in rows && SameTracking(rows[j], x) {
      UpsertOld(rows, batch, j);
      k := j;
    } else {
      UpsertNew(rows, batch, x);
      k := x.id;
    }
  }

  lemma {:induction false} FirstOf(data: seq<Chunk>, i: nat) returns (f: nat)
    requires i < |data| && data[i].row.trackingId.Some?
    ensures f <= i && FirstTracked(data, f) && SameTracking(data[f].row, data[i].row)
  {
    if FirstTracked(data, i) {
      f := i;
    } else {
      var j :| 0 <= j < i && SameTracking(data[j].row, data[i].row);
      f := FirstOf(data, j);
    }
  }

  /** Chunk `f` is the first of the message with the tracking id of chunk `i`. */
  predicate Leads(data: seq<Chunk>, f: nat, i: nat) {
    f < |data| && i < |data| && FirstTracked(data, f) && SameTracking(data[f].row, data[i].row)
  }

  /**
    The row of a returned chunk is the table's row with its tracking id, with the body of the first
    chunk of the message with that tracking id, or else, without a tracking id, its own.
   */
  lemma ReturnedRow(rows: Rows, data: seq<Chunk>, i: nat)
    requires Consistent(rows) && DistinctChunks(data) && i < |data| && UpsertAll(rows, Batch(data)).Some?
    ensures var after := UpsertAll(rows, Batch(data)).value;
            var r, c := Returned(after, data)[i].row, data[i].row;
            && r.id in after && after[r.id] == r
            && (c.trackingId.None? ==> r == c)
            && (c.trackingId.Some? ==>
                  SameTracking(r, c) && forall f: nat | Leads(data, f, i) :: r.body == data[f].row.body)
  {
    var after, c := UpsertAll(rows, Batch(data)).value, data[i].row;
    BatchApart(data);
    UpsertAllConsistent(rows, Batch(data));
    if c.trackingId.None? {
      BatchExactly(data, i);
      UpsertNew(rows, Batch(data), c);
    } else {
      var first := FirstOf(data, i);
      BatchExactly(data, first);
      var k := TrackedRow(rows, Batch(data), data[first].row);
      assert SameTracking(after[k], c);
      forall f: nat | Leads(data, f, i) ensures Returned(after, data)[i].row.body == data[f].row.body {
        BatchExactly(data, f);
        var j := TrackedRow(rows, Batch(data), data[f].row);
        TakesTrackedRow(after, data[i], j);
      }
      TakesTrackedRow(after, data[i], k);
    }
  }

  lemma TakesTrackedRow(after: Rows, c: Chunk, k: Id)
    requires Consistent(after) && k in after && SameTracking(after[k], c.row)
    ensures TableRow(after, c) == after[k]
  {
    forall j | j in after && SameTracking(after[j], c.row) ensures j == k { TrackedOnce(after, c.row, j, k); }
  }

  /** Chunks with different tracking ids, or without, end up in different rows, so with different points. */
  lemma ReturnedApart(rows: Rows, data: seq<Chunk>, i: nat, j: nat)
    requires Consistent(rows) && DistinctChunks(data) && i < j < |data| && UpsertAll(rows, Batch(data)).Some?
    requires !SameTracking(data[i].row, data[j].row)
    ensures var chunks := Returned(UpsertAll(rows, Batch(data)).value, data);
            chunks[i].row.pointId != chunks[j].row.pointId
  {
    ReturnedRow(rows, data, i);
    ReturnedRow(rows, data, j);
    UpsertAllConsistent(rows, Batch(data));
    var after := UpsertAll(rows, Batch(data)).value;
    var chunks := Returned(after, data);
    var a, b := chunks[i].row, chunks[j].row;
    hide Returned, UpsertAll, Batch;
    assert a.id == b.id ==> a == b;
    assert a.id != b.id ==> !Clash(after[a.id], after[b.id]);
  }

  // ---------------------------------------------------------------- the answer and the points

  lemma UpsertOutcome(s: Stores, cfg: Config, m: Message, calls: Calls)
    requires UpsertUpload(s, cfg, m, calls).0.Ok?
    ensures var (result, t) := UpsertUpload(s, cfg, m, calls);
            var data := Prepared(cfg, m.dataset, m.chunks);
            && UpsertAll(s.rows, Batch(data)) == Some(t.rows)
            && result.ids == Ids(Returned(t.rows, data))
            && t.points == UpsertPoints(s.points, BuildPoints(cfg, Returned(t.rows, data), data))
  {
    hide Prepared, UpsertAll, Batch;
    if Prepared(cfg, m.dataset, m.chunks) == [] {
      assert Returned(UpsertUpload(s, cfg, m, calls).1.rows, []) == [];
    }
  }

  /**
    The answer of an upsert upload, exactly: success if and only if the statement went through and
    every later call that is needed did; and then the table is that of the statement, and the
    answer has the id of each chunk's row, in the order of the message. A refused statement changes
    nothing, a later failure leaves the new table.
   */
  lemma UpsertAnswers(s: Stores, cfg: Config, m: Message, calls: Calls)
    ensures var (result, t) := UpsertUpload(s, cfg, m, calls);
            var data := Prepared(cfg, m.dataset, m.chunks);
            var after := UpsertAll(s.rows, Batch(data));
            && (result.Ok? <==>
                  calls.insert && after.Some? && calls.link && (data == [] || IngestionLaws.CallsSucceed(cfg, calls)))
            && t.rows == (if calls.insert && after.Some? then after.value else s.rows)
            && (result.Ok? ==>
                  && |result.ids| == |data|
                  && forall i | 0 <= i < |data| :: result.ids[i] == Returned(t.rows, data)[i].row.id)
  {
    hide Prepared, UpsertAll, Batch, UpsertPoints, BuildPoints;
  }

  /** No later chunk of the message shares the tracking id of chunk i. */
  predicate LastTracked(data: seq<Chunk>, i: nat)
    requires i < |data|
  {
    forall j | i < j < |data| :: !SameTracking(data[i].row, data[j].row)
  }

  /** The point has row `r` as payload, and the groups and the vectors of chunk `c`. */
  predicate Carries(cfg: Config, p: Point, r: Row, c: Chunk) {
    && p.row == r && p.groupIds == c.groupIds
    && p.dense == (if cfg.semantic then Some(Source(c.embeddingContent, c.semanticBoost)) else None)
    && p.sparse == (if cfg.fulltext then Some(Source(c.content, c.fulltextBoost)) else None)
    && p.bm25 == (if cfg.bm25 then Some(Source(c.content, c.fulltextBoost)) else None)
  }

  /**
    After a successful upsert upload every chunk's point is there, with the table row the chunk
    ended up in and its own groups and vectors; of several chunks that share a row, the last wins.
   */
  lemma UpsertedPoint(s: Stores, cfg: Config, m: Message, calls: Calls, i: nat)
    requires Consistent(s.rows) && DistinctChunks(Prepared(cfg, m.dataset, m.chunks))
    requires UpsertUpload(s, cfg, m, calls).0.Ok? && i < |Prepared(cfg, m.dataset, m.chunks)|
    requires LastTracked(Prepared(cfg, m.dataset, m.chunks), i)
    ensures var t := UpsertUpload(s, cfg, m, calls).1;
            var data := Prepared(cfg, m.dataset, m.chunks);
            var r := Returned(t.rows, data)[i].row;
            r.pointId in t.points && Carries(cfg, t.points[r.pointId], r, data[i])
  {
    UpsertOutcome(s, cfg, m, calls);
    var t := UpsertUpload(s, cfg, m, calls).1;
    var data := Prepared(cfg, m.dataset, m.chunks);
    var chunks := Returned(t.rows, data);
    var ps := BuildPoints(cfg, chunks, data);
    hide UpsertUpload, Prepared, UpsertAll, Batch, Consistent, DistinctChunks;
    forall j | i < j < |ps| ensures ps[j].row.pointId != ps[i].row.pointId {
      ReturnedApart(s.rows, data, i, j);
    }
    IngestionLaws.UpsertWrites(s.points, ps, i);
  }

  /** No other point is touched, and a failed upload touches none. */
  lemma UpsertOtherPoints(s: Stores, cfg: Config, m: Message, calls: Calls, id: Id)
    ensures var (result, t) := UpsertUpload(s, cfg, m, calls);
            var data := Prepared(cfg, m.dataset, m.chunks);
            && (result.Err? ==> t.points == s.points)
            && ((forall c <- Returned(t.rows, data) :: c.row.pointId != id) ==>
                  IngestionLaws.SamePoint(t.points, s.points, id))
  {
    var (result, t) := UpsertUpload(s, cfg, m, calls);
    var data := Prepared(cfg, m.dataset, m.chunks);
    if result.Ok? && forall c <- Returned(t.rows, data) :: c.row.pointId != id {
      UpsertOutcome(s, cfg, m, calls);
      hide UpsertUpload, Prepared;
      IngestionLaws.BuiltPoints(cfg, Returned(t.rows, data), data, s.points, id);
    }
  }

  /**
    Two chunks of a message with one tracking id: the row and the payload are those of the first,
    the groups and the vectors of the point those of the last.
   */
  lemma FirstRowLastVectors(s: Stores, cfg: Config, m: Message, calls: Calls, f: nat, l: nat)
    requires Consistent(s.rows) && DistinctChunks(Prepared(cfg, m.dataset, m.chunks))
    requires UpsertUpload(s, cfg, m, calls).0.Ok?
    requires Leads(Prepared(cfg, m.dataset, m.chunks), f, l) && LastTracked(Prepared(cfg, m.dataset, m.chunks), l)
    ensures var t := UpsertUpload(s, cfg, m, calls).1;
            var data := Prepared(cfg, m.dataset, m.chunks);
            exists r: Row ::
              && r.id in t.rows && t.rows[r.id] == r && SameTracking(r, data[f].row) && r.body == data[f].row.body
              && r.pointId in t.points && Carries(cfg, t.points[r.pointId], r, data[l])
  {
    UpsertOutcome(s, cfg, m, calls);
    UpsertedPoint(s, cfg, m, calls, l);
    var t := UpsertUpload(s, cfg, m, calls).1;
    var data := Prepared(cfg, m.dataset, m.chunks);
    hide UpsertUpload, Prepared, UpsertAll, Batch;
    ReturnedRow(s.rows, data, l);
    assert Carries(cfg, t.points[Returned(t.rows, data)[l].row.pointId], Returned(t.rows, data)[l].row, data[l]);
  }
}
