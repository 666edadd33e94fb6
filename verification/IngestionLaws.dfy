/** Rollback, alignment of vectors with chunks, and what retries add up to. */
module IngestionLaws {
  import opened Options
  import opened ChunkStore
  import opened Ingestion
  import opened Batches

  // ---------------------------------------------------------------- what is inserted

  lemma {:induction false} RetainedExactly(data: seq<Chunk>, before: Rows, after: Rows, c: Chunk)
    ensures c in Retained(data, before, after) <==> c in data && c.row.id in after && c.row.id !in before
  {
    if data != [] {
      RetainedExactly(data[1..], before, after, c);
    }
  }

  lemma IdsExactly(data: seq<Chunk>, id: Id)
    ensures id in Ids(data) <==> exists c <- data :: c.row.id == id
  {
    if c :| c in data && c.row.id == id {
      var i :| 0 <= i < |data| && data[i] == c;
      assert Ids(data)[i] == id;
    }
  }

  /** The ids answered are exactly the ids of the new rows. */
  lemma InsertedIds(s: Stores, cfg: Config, m: Message, id: Id)
    requires Consistent(s.rows)
    ensures id in Ids(Inserted(s, cfg, m)) <==>
            id in InsertAll(s.rows, Batch(Prepared(cfg, m.dataset, m.chunks))) && id !in s.rows
  {
    var data := Prepared(cfg, m.dataset, m.chunks);
    var rows := InsertAll(s.rows, Batch(data));
    InsertAdds(s.rows, Batch(data));
    IdsExactly(Inserted(s, cfg, m), id);
    if id in rows && id !in s.rows {
      BatchOwner(data, rows[id]);
      var c :| c in data && c.row == rows[id];
      RetainedExactly(data, s.rows, rows, c);
    }
    if c :| c in Inserted(s, cfg, m) && c.row.id == id {
      RetainedExactly(data, s.rows, rows, c);
    }
  }

  // ---------------------------------------------------------------- rollback

  /** Failures that leave no row behind: before the insert, or with a revert that succeeds. */
  predicate Compensated(stage: Stage, calls: Calls) {
    stage.InsertFails? || ((stage.DenseFails? || stage.SparseFails? || stage.UpsertFails?) && calls.revert)
  }

  lemma RevertRestores(s: Stores, cfg: Config, m: Message)
    requires Consistent(s.rows)
    ensures Revert(InsertAll(s.rows, Batch(Prepared(cfg, m.dataset, m.chunks))), Ids(Inserted(s, cfg, m))) == s.rows
  {
    var batch := Batch(Prepared(cfg, m.dataset, m.chunks));
    forall id ensures id in Ids(Inserted(s, cfg, m)) <==> id in InsertAll(s.rows, batch) && id !in s.rows {
      InsertedIds(s, cfg, m, id);
    }
    RevertUndoes(s.rows, batch, Ids(Inserted(s, cfg, m)));
  }

  lemma RowsGrow(s: Stores, cfg: Config, m: Message)
    requires Consistent(s.rows)
    ensures InsertAll(s.rows, Batch(Prepared(cfg, m.dataset, m.chunks))) == s.rows <==> Inserted(s, cfg, m) == []
  {
    var rows := InsertAll(s.rows, Batch(Prepared(cfg, m.dataset, m.chunks)));
    InsertAdds(s.rows, Batch(Prepared(cfg, m.dataset, m.chunks)));
    if Inserted(s, cfg, m) != [] {
      var id := Ids(Inserted(s, cfg, m))[0];
      assert id in Ids(Inserted(s, cfg, m));
      InsertedIds(s, cfg, m, id);
    } else {
      forall id | id in rows ensures id in s.rows { InsertedIds(s, cfg, m, id); }
    }
  }

  /** Nothing is inserted exactly when every row the statement gets clashes with the table before. */
  lemma NothingInserted(s: Stores, cfg: Config, m: Message)
    requires Consistent(s.rows)
    ensures Inserted(s, cfg, m) == [] <==> AllClash(s.rows, Prepared(cfg, m.dataset, m.chunks))
  {
    RowsGrow(s, cfg, m);
    InsertsNothing(s.rows, Prepared(cfg, m.dataset, m.chunks));
  }

  /**
    Rollback, exactly: after a failed upload both stores are as before if and only if every row of
    the message clashed with the table, or the failure came before the insert or was compensated by
    a successful revert. A failure while linking groups and tags or while building points is never
    compensated.
   */
  lemma RollbackExactly(s: Stores, cfg: Config, m: Message, calls: Calls)
    requires Consistent(s.rows) && Upload(s, cfg, m, calls).0.Err?
    ensures Upload(s, cfg, m, calls).1 == s <==>
            AllClash(s.rows, Prepared(cfg, m.dataset, m.chunks)) || Compensated(StageOf(cfg, true, calls), calls)
  {
    NothingInserted(s, cfg, m);
    RevertRestores(s, cfg, m);
    RowsGrow(s, cfg, m);
  }

  /** Uploads keep the uniqueness rules of the table, whatever fails. */
  lemma UploadConsistent(s: Stores, cfg: Config, m: Message, calls: Calls)
    requires Consistent(s.rows)
    ensures Consistent(Upload(s, cfg, m, calls).1.rows)
  {
    InsertAdds(s.rows, Batch(Prepared(cfg, m.dataset, m.chunks)));
    RevertRestores(s, cfg, m);
  }

  // ---------------------------------------------------------------- alignment

  ghost predicate DistinctIds(data: seq<Chunk>) {
    forall i, j | 0 <= i < j < |data| :: data[i].row.id != data[j].row.id
  }

  /** The i-th point carries the vectors of its own chunk. */
  ghost predicate Aligned(cfg: Config, inserted: seq<Chunk>, data: seq<Chunk>, i: nat) {
    i < |inserted| <= |data|
    && var p := BuildPoints(cfg, inserted, data)[i];
    var c := inserted[i];
    && p.row == c.row && p.groupIds == c.groupIds
    && p.dense == (if cfg.semantic then Some(Source(c.embeddingContent, c.semanticBoost)) else None)
    && p.sparse == (if cfg.fulltext then Some(Source(c.content, c.fulltextBoost)) else None)
    && p.bm25 == (if cfg.bm25 then Some(Source(c.content, c.fulltextBoost)) else None)
  }

  /** The chunks that were kept come first in the message. */
  ghost predicate KeptFirst(data: seq<Chunk>, before: Rows, after: Rows) {
    forall i, j | 0 <= i < j < |data| && data[j].row.id in after && data[j].row.id !in before ::
      data[i].row.id in after && data[i].row.id !in before
  }

  predicate Kept(c: Chunk, before: Rows, after: Rows) {
    c.row.id in after && c.row.id !in before
  }

  /** The first chunk was skipped: the retained ones are a prefix only if there are none. */
  lemma SkippedFirst(data: seq<Chunk>, before: Rows, after: Rows)
    requires DistinctIds(data) && data != [] && !Kept(data[0], before, after)
    ensures |Retained(data, before, after)| <= |data|
    ensures KeptFirst(data, before, after) <==>
            Retained(data, before, after) == data[..|Retained(data, before, after)|]
  {
    RetainedShorter(data, before, after);
    var kept := Retained(data, before, after);
    if kept != [] {
      RetainedExactly(data, before, after, kept[0]);
      var j :| 0 <= j < |data| && data[j] == kept[0];
      assert Kept(data[j], before, after) && j != 0;
      assert kept[0] != data[0];
    } else {
      forall j | 0 < j < |data| ensures !Kept(data[j], before, after) {
        RetainedExactly(data, before, after, data[j]);
      }
    }
  }

  lemma DistinctTail(data: seq<Chunk>)
    requires DistinctIds(data) && data != []
    ensures DistinctIds(data[1..])
  {
  }

  /** The retained chunks are a prefix of the data exactly when the skipped ones come last. */
  lemma {:induction false} RetainedPrefix(data: seq<Chunk>, before: Rows, after: Rows)
    requires DistinctIds(data)
    ensures |Retained(data, before, after)| <= |data|
    ensures KeptFirst(data, before, after) <==>
            Retained(data, before, after) == data[..|Retained(data, before, after)|]
  {
    if data != [] {
      DistinctTail(data);
      hide DistinctIds, KeptFirst;
      if Kept(data[0], before, after) {
        var first, rest := data[0], data[1..];
        RetainedPrefix(rest, before, after);
        var kept := Retained(rest, before, after);
        assert Retained(data, before, after) == [first] + kept;
        assert data[..|kept| + 1] == [first] + rest[..|kept|];
        SameTail(first, kept, rest[..|kept|]);
        SkippedTail(data, before, after);
      } else {
        SkippedFirst(data, before, after);
      }
    }
  }

  lemma SameTail<T>(x: T, a: seq<T>, b: seq<T>)
    ensures [x] + a == [x] + b <==> a == b
  {
    assert ([x] + a)[1..] == a && ([x] + b)[1..] == b;
  }

  lemma SkippedTail(data: seq<Chunk>, before: Rows, after: Rows)
    requires data != [] && data[0].row.id in after && data[0].row.id !in before
    ensures KeptFirst(data, before, after) <==> KeptFirst(data[1..], before, after)
  {
    if KeptFirst(data[1..], before, after) {
      forall i, j | 0 <= i < j < |data| && data[j].row.id in after && data[j].row.id !in before
        ensures data[i].row.id in after && data[i].row.id !in before
      {
        if i > 0 {
          assert data[i] == data[1..][i - 1] && data[j] == data[1..][j - 1];
        }
      }
    }
    if KeptFirst(data, before, after) {
      forall i, j | 0 <= i < j < |data[1..]| && data[1..][j].row.id in after && data[1..][j].row.id !in before
        ensures data[1..][i].row.id in after && data[1..][i].row.id !in before
      {
        assert data[1..][i] == data[i + 1] && data[1..][j] == data[j + 1];
      }
    }
  }

  /** What the bulk insert of a message makes of the table. */
  function RowsAfter(s: Stores, cfg: Config, m: Message): Rows {
    InsertAll(s.rows, Batch(Prepared(cfg, m.dataset, m.chunks)))
  }

  /** In the message, no chunk that the insert adds is behind one that it skips. */
  predicate SkippedLast(rows: Rows, data: seq<Chunk>) {
    forall i, j | 0 <= i < j < |data| && Adds(rows, data, j) :: Adds(rows, data, i)
  }

  lemma SkippedAreNotKept(s: Stores, cfg: Config, m: Message)
    requires Consistent(s.rows) && DistinctChunks(Prepared(cfg, m.dataset, m.chunks))
    ensures var data := Prepared(cfg, m.dataset, m.chunks);
            KeptFirst(data, s.rows, RowsAfter(s, cfg, m)) <==> SkippedLast(s.rows, data)
  {
    var data := Prepared(cfg, m.dataset, m.chunks);
    forall i | 0 <= i < |data|
      ensures Adds(s.rows, data, i) <==> data[i].row.id in RowsAfter(s, cfg, m) && data[i].row.id !in s.rows
    {
      AddsExactly(s.rows, data, i);
    }
    hide Adds, RowsAfter, Prepared;
  }

  /**
    When no chunk that is added is behind a skipped one, every point carries the vectors of its own
    chunk.
   */
  lemma AlignmentHolds(s: Stores, cfg: Config, m: Message, i: nat)
    requires Consistent(s.rows) && DistinctChunks(Prepared(cfg, m.dataset, m.chunks)) && i < |Inserted(s, cfg, m)|
    requires SkippedLast(s.rows, Prepared(cfg, m.dataset, m.chunks))
    ensures Aligned(cfg, Inserted(s, cfg, m), Prepared(cfg, m.dataset, m.chunks), i)
  {
    var data := Prepared(cfg, m.dataset, m.chunks);
    SkippedAreNotKept(s, cfg, m);
    RetainedPrefix(data, s.rows, RowsAfter(s, cfg, m));
    assert Inserted(s, cfg, m)[i] == data[..|Inserted(s, cfg, m)|][i];
  }

  /** No two chunks have the same source for the dense vector. */
  ghost predicate DistinctTexts(data: seq<Chunk>) {
    forall i, j | 0 <= i < j < |data| ::
      data[i].embeddingContent != data[j].embeddingContent || data[i].semanticBoost != data[j].semanticBoost
  }

  /** No two chunks have the same source for the sparse and the BM25 vector. */
  ghost predicate DistinctContents(data: seq<Chunk>) {
    forall i, j | 0 <= i < j < |data| ::
      data[i].content != data[j].content || data[i].fulltextBoost != data[j].fulltextBoost
  }

  /** Some vector that is switched on tells the chunks apart. */
  ghost predicate Telling(cfg: Config, data: seq<Chunk>) {
    (cfg.semantic && DistinctTexts(data)) || ((cfg.fulltext || cfg.bm25) && DistinctContents(data))
  }

  lemma AlignedIsOwn(cfg: Config, inserted: seq<Chunk>, data: seq<Chunk>, i: nat, j: nat)
    requires Telling(cfg, data) && Aligned(cfg, inserted, data, i) && j < |data| && inserted[i] == data[j]
    ensures i == j
  {
  }

  /**
    And only then: where some vector tells the chunks apart, the zip gives every point its own
    vectors if and only if, in the message, no chunk that is added is behind a skipped one.
   */
  lemma AlignmentExactly(s: Stores, cfg: Config, m: Message)
    requires Consistent(s.rows)
    requires var data := Prepared(cfg, m.dataset, m.chunks);
             DistinctChunks(data) && Telling(cfg, data)
    ensures var data := Prepared(cfg, m.dataset, m.chunks);
            (forall i: nat | i < |Inserted(s, cfg, m)| :: Aligned(cfg, Inserted(s, cfg, m), data, i))
            <==> SkippedLast(s.rows, data)
  {
    var data := Prepared(cfg, m.dataset, m.chunks);
    var inserted := Inserted(s, cfg, m);
    SkippedAreNotKept(s, cfg, m);
    RetainedPrefix(data, s.rows, RowsAfter(s, cfg, m));
    if SkippedLast(s.rows, data) {
      forall i: nat | i < |inserted| ensures Aligned(cfg, inserted, data, i) {
        AlignmentHolds(s, cfg, m, i);
      }
    }
    if forall i: nat | i < |inserted| :: Aligned(cfg, inserted, data, i) {
      forall i | 0 <= i < |inserted| ensures inserted[i] == data[i] {
        RetainedExactly(data, s.rows, RowsAfter(s, cfg, m), inserted[i]);
        var j :| 0 <= j < |data| && data[j] == inserted[i];
        AlignedIsOwn(cfg, inserted, data, i, j);
      }
      assert inserted == data[..|inserted|];
    }
  }

  const EXISTING: Rows := map[1 := Row(1, 101, 0, Some("t"), "old")]
  const CHUNK_A := Incoming(2, 102, Some("t"), Some("a"), Some(false), None, None, None, None, "A")
  const CHUNK_B := Incoming(3, 103, None, Some("b"), Some(false), None, None, None, None, "B")

  const PREPARED_A := Chunk(Row(2, 102, 0, Some("t"), "A"), "a", "a", None, None, None)
  const PREPARED_B := Chunk(Row(3, 103, 0, None, "B"), "b", "b", None, None, None)

  lemma ExampleData(cfg: Config)
    ensures Prepared(cfg, 0, [CHUNK_A, CHUNK_B]) == [PREPARED_A, PREPARED_B]
  {
    assert [CHUNK_A, CHUNK_B][1..] == [CHUNK_B] && [CHUNK_B][1..] == [];
    assert Prepared(cfg, 0, [CHUNK_B]) == [PREPARED_B];
  }

  lemma ExampleBatch()
    ensures Batch([PREPARED_A, PREPARED_B]) == [PREPARED_B.row, PREPARED_A.row]
  {
    assert [PREPARED_A, PREPARED_B][1..] == [PREPARED_B] && [PREPARED_B][1..] == [];
    assert WithTracking([], false) == [] && WithTracking([], true) == [];
    assert WithTracking([PREPARED_B], false) == [PREPARED_B.row] && WithTracking([PREPARED_B], true) == [];
    assert WithTracking([PREPARED_A, PREPARED_B], false) == [PREPARED_B.row];
    assert WithTracking([PREPARED_A, PREPARED_B], true) == [PREPARED_A.row];
    assert [PREPARED_A.row][..0] == [];
    assert UniqueTracking([PREPARED_A.row]) == [PREPARED_A.row];
  }

  lemma ExampleRows()
    ensures Consistent(EXISTING)
    ensures InsertAll(EXISTING, [PREPARED_B.row, PREPARED_A.row]) == EXISTING[3 := PREPARED_B.row]
    ensures Retained([PREPARED_A, PREPARED_B], EXISTING, EXISTING[3 := PREPARED_B.row]) == [PREPARED_B]
  {
    var rows := EXISTING[3 := PREPARED_B.row];
    assert [PREPARED_B.row, PREPARED_A.row][1..] == [PREPARED_A.row] && [PREPARED_A.row][1..] == [];
    assert Clash(rows[1], PREPARED_A.row) && Conflicts(rows, PREPARED_A.row) && !Conflicts(EXISTING, PREPARED_B.row);
    assert InsertAll(rows, [PREPARED_A.row]) == rows;
    assert [PREPARED_A, PREPARED_B][1..] == [PREPARED_B] && [PREPARED_B][1..] == [];
    assert Retained([PREPARED_B], EXISTING, rows) == [PREPARED_B];
  }

  /** A chunk whose tracking id is taken, then a new one: the new chunk's point is embedded from the other's text. */
  lemma MisalignedExample(cfg: Config)
    requires cfg.semantic
    ensures var s := Stores(EXISTING, map[]);
            var (result, t) := Upload(s, cfg, Message(0, [CHUNK_A, CHUNK_B]), ALL_SUCCEED);
            && Consistent(s.rows) && result == Ok([3])
            && 103 in t.points && t.points[103].row == PREPARED_B.row
            && t.points[103].dense == Some(Source(PREPARED_A.content, None))
  {
    ExampleData(cfg);
    ExampleBatch();
    ExampleRows();
    hide Prepared, Batch, InsertAll, Retained, Conflicts, Consistent, EXISTING, CHUNK_A, CHUNK_B;
    var ps := BuildPoints(cfg, [PREPARED_B], [PREPARED_A, PREPARED_B]);
    assert ps[1..] == [] && UpsertPoints(map[], ps) == map[103 := ps[0]];
    assert Ids([PREPARED_B]) == [3];
  }

  // ---------------------------------------------------------------- what a success leaves

  lemma {:induction false} UpsertKeepsOthers(points: Points, ps: seq<Point>, id: Id)
    requires forall p <- ps :: p.row.pointId != id
    ensures id in UpsertPoints(points, ps) <==> id in points
    ensures id in points ==> UpsertPoints(points, ps)[id] == points[id]
    decreases |ps|
  {
    if ps != [] {
      assert ps[0] in ps;
      UpsertKeepsOthers(points[ps[0].row.pointId := ps[0]], ps[1..], id);
    }
  }

  lemma {:induction false} UpsertWrites(points: Points, ps: seq<Point>, i: nat)
    requires i < |ps|
    requires forall j | i < j < |ps| :: ps[j].row.pointId != ps[i].row.pointId
    ensures ps[i].row.pointId in UpsertPoints(points, ps)
    ensures UpsertPoints(points, ps)[ps[i].row.pointId] == ps[i]
    decreases |ps|
  {
    var next := points[ps[0].row.pointId := ps[0]];
    if i == 0 {
      UpsertKeepsOthers(next, ps[1..], ps[0].row.pointId);
    } else {
      assert ps[i] == ps[1..][i - 1];
      UpsertWrites(next, ps[1..], i - 1);
    }
  }

  /** With distinct ids in the message, a retained chunk's row is the one in the table. */
  lemma InsertedRow(s: Stores, cfg: Config, m: Message, c: Chunk)
    requires Consistent(s.rows) && DistinctIds(Prepared(cfg, m.dataset, m.chunks)) && c in Inserted(s, cfg, m)
    ensures c.row.id in RowsAfter(s, cfg, m) && RowsAfter(s, cfg, m)[c.row.id] == c.row
  {
    var data := Prepared(cfg, m.dataset, m.chunks);
    var rows := RowsAfter(s, cfg, m);
    RetainedExactly(data, s.rows, rows, c);
    InsertAdds(s.rows, Batch(data));
    BatchOwner(data, rows[c.row.id]);
    var d :| d in data && d.row == rows[c.row.id];
    var i :| 0 <= i < |data| && data[i] == c;
    var j :| 0 <= j < |data| && data[j] == d;
    assert i == j;
  }

  lemma {:induction false} RetainedDistinct(data: seq<Chunk>, before: Rows, after: Rows)
    requires DistinctIds(data)
    ensures DistinctIds(Retained(data, before, after))
  {
    if data != [] {
      var kept := Retained(data[1..], before, after);
      RetainedDistinct(data[1..], before, after);
      forall i | 0 <= i < |kept| ensures kept[i].row.id != data[0].row.id {
        RetainedExactly(data[1..], before, after, kept[i]);
        var j :| 0 <= j < |data[1..]| && data[1..][j] == kept[i];
        assert data[j + 1] == kept[i];
      }
    }
  }

  lemma InsertedPointIds(s: Stores, cfg: Config, m: Message, i: nat, j: nat)
    requires Consistent(s.rows) && DistinctIds(Prepared(cfg, m.dataset, m.chunks))
    requires i < j < |Inserted(s, cfg, m)|
    ensures Inserted(s, cfg, m)[i].row.pointId != Inserted(s, cfg, m)[j].row.pointId
  {
    var ins := Inserted(s, cfg, m);
    InsertedRow(s, cfg, m, ins[i]);
    InsertedRow(s, cfg, m, ins[j]);
    RetainedDistinct(Prepared(cfg, m.dataset, m.chunks), s.rows, RowsAfter(s, cfg, m));
    InsertAdds(s.rows, Batch(Prepared(cfg, m.dataset, m.chunks)));
    assert !Clash(RowsAfter(s, cfg, m)[ins[i].row.id], RowsAfter(s, cfg, m)[ins[j].row.id]);
  }

  /**
    A successful upload stores, for every new row, the row itself and a point with that row as
    payload: one point an inserted row, in the order of the message.
   */
  lemma SuccessIsComplete(s: Stores, cfg: Config, m: Message, calls: Calls, i: nat)
    requires Consistent(s.rows) && DistinctIds(Prepared(cfg, m.dataset, m.chunks))
    requires Upload(s, cfg, m, calls).0.Ok? && i < |Inserted(s, cfg, m)|
    ensures var t := Upload(s, cfg, m, calls).1;
            var c := Inserted(s, cfg, m)[i];
            && c.row.id in t.rows && t.rows[c.row.id] == c.row
            && c.row.pointId in t.points && t.points[c.row.pointId].row == c.row
            && t.points[c.row.pointId].groupIds == c.groupIds
  {
    var data := Prepared(cfg, m.dataset, m.chunks);
    var ins := Inserted(s, cfg, m);
    RetainedShorter(data, s.rows, RowsAfter(s, cfg, m));
    var ps := BuildPoints(cfg, ins, data);
    InsertedRow(s, cfg, m, ins[i]);
    forall j | i < j < |ps| ensures ps[j].row.pointId != ps[i].row.pointId {
      InsertedPointIds(s, cfg, m, i, j);
    }
    UpsertWrites(s.points, ps, i);
  }

  /** Both maps hold the same under the key, or nothing. */
  predicate SamePoint(a: Points, b: Points, id: Id) {
    (id in a <==> id in b) && (id in a ==> a[id] == b[id])
  }

  lemma BuiltPoints(cfg: Config, inserted: seq<Chunk>, data: seq<Chunk>, points: Points, id: Id)
    requires |inserted| <= |data| && forall c <- inserted :: c.row.pointId != id
    ensures SamePoint(UpsertPoints(points, BuildPoints(cfg, inserted, data)), points, id)
  {
    var ps := BuildPoints(cfg, inserted, data);
    forall p | p in ps ensures p.row.pointId != id {
      var i :| 0 <= i < |ps| && ps[i] == p;
      assert inserted[i] in inserted;
    }
    UpsertKeepsOthers(points, ps, id);
  }

  lemma PointsAfter(s: Stores, cfg: Config, m: Message, calls: Calls)
    ensures |Inserted(s, cfg, m)| <= |Prepared(cfg, m.dataset, m.chunks)|
    ensures var (result, t) := Upload(s, cfg, m, calls);
            var ps := BuildPoints(cfg, Inserted(s, cfg, m), Prepared(cfg, m.dataset, m.chunks));
            t.points == s.points || (result.Ok? && t.points == UpsertPoints(s.points, ps))
  {
    RetainedShorter(Prepared(cfg, m.dataset, m.chunks), s.rows, RowsAfter(s, cfg, m));
    hide Prepared, InsertAll, Batch, Retained, BuildPoints, UpsertPoints, Revert, Ids;
  }

  /**
    An upload touches no point but those of the chunks it inserts: every other point is there
    afterwards exactly when it was before, with the same value, and a failed upload leaves all
    points as they were.
   */
  lemma OtherPointsStay(s: Stores, cfg: Config, m: Message, calls: Calls, id: Id)
    ensures var (result, t) := Upload(s, cfg, m, calls);
            && (result.Err? ==> t.points == s.points)
            && ((forall c <- Inserted(s, cfg, m) :: c.row.pointId != id) ==> SamePoint(t.points, s.points, id))
  {
    PointsAfter(s, cfg, m, calls);
    hide Upload, Inserted, Prepared, UpsertPoints, BuildPoints;
    if forall c <- Inserted(s, cfg, m) :: c.row.pointId != id {
      BuiltPoints(cfg, Inserted(s, cfg, m), Prepared(cfg, m.dataset, m.chunks), s.points, id);
    }
  }

  lemma NoIds()
    ensures Ids([]) == []
  {
  }

  /** Every call that the settings need succeeds. */
  predicate CallsSucceed(cfg: Config, calls: Calls) {
    (cfg.semantic ==> calls.dense) && (cfg.fulltext ==> calls.sparse) && calls.build && calls.upsert
  }

  /**
    The answer of an upload, exactly: success if and only if the insert and the links succeeded,
    and every row clashed with the table or every later call succeeded; and then the table is that
    of the insert, and the answered ids are the ids new in it.
   */
  lemma AnswersExactly(s: Stores, cfg: Config, m: Message, calls: Calls)
    requires Consistent(s.rows)
    ensures var (result, t) := Upload(s, cfg, m, calls);
            && (result.Ok? <==>
                  && calls.insert && calls.link
                  && (AllClash(s.rows, Prepared(cfg, m.dataset, m.chunks)) || CallsSucceed(cfg, calls)))
            && (result.Ok? ==> t.rows == RowsAfter(s, cfg, m))
            && (result.Ok? ==> forall id :: id in result.ids <==> id in t.rows && id !in s.rows)
  {
    hide Prepared, Inserted, InsertAll, Batch, Revert, Retained, BuildPoints, UpsertPoints, AllClash, Consistent, Ids;
    NothingInserted(s, cfg, m);
    NoIds();
    forall id
      ensures id in Ids(Inserted(s, cfg, m)) <==> id in RowsAfter(s, cfg, m) && id !in s.rows
    {
      InsertedIds(s, cfg, m, id);
    }
  }

  /** A point is that of the message's chunk `x`: what its payload and its vectors come from. */
  predicate IsPointOf(cfg: Config, dataset: Id, x: Incoming, p: Point) {
    var html := if x.html.Some? then x.html.value else "";
    var dense, sparse := p.dense, p.sparse;
    && p.row.id == x.id && p.row.pointId == x.pointId && p.row.dataset == dataset && p.row.body == x.body
    && p.groupIds == x.groupIds
    && (p.row.trackingId.Some? <==> x.trackingId.Some? && x.trackingId.value != "")
    && (p.row.trackingId.Some? ==> p.row.trackingId == x.trackingId)
    && (p.dense.Some? <==> cfg.semantic) && (p.sparse.Some? <==> cfg.fulltext) && (p.bm25.Some? <==> cfg.bm25)
    // The text is the HTML as it is only when the message says not to convert it.
    && (sparse.Some? && x.convertHtml == Some(false) ==> sparse.value.text == html)
    && (sparse.Some? && x.convertHtml != Some(false) ==> sparse.value.text == cfg.htmlToText(html))
    && (sparse.Some? ==> sparse.value.boost == if x.fulltextBoost == Some("") then None else x.fulltextBoost)
    && (p.bm25.Some? && sparse.Some? ==> p.bm25 == sparse)
    && (p.bm25.Some? && x.convertHtml == Some(false) ==> p.bm25.value.text == html)
    && (p.bm25.Some? && x.convertHtml != Some(false) ==> p.bm25.value.text == cfg.htmlToText(html))
    && (p.bm25.Some? ==> p.bm25.value.boost == if x.fulltextBoost == Some("") then None else x.fulltextBoost)
    // The dense vector prefers the semantic content, and has a boost of its own.
    && (dense.Some? && x.semanticContent.Some? ==> dense.value.text == x.semanticContent.value)
    && (dense.Some? && x.semanticContent.None? && x.convertHtml == Some(false) ==> dense.value.text == html)
    && (dense.Some? && x.semanticContent.None? && x.convertHtml != Some(false) ==>
          dense.value.text == cfg.htmlToText(html))
    && (dense.Some? ==> dense.value.boost == if x.semanticBoost == Some("") then None else x.semanticBoost)
  }

  lemma {:induction false} PreparedFrom(cfg: Config, dataset: Id, ms: seq<Incoming>, c: Chunk)
    ensures c in Prepared(cfg, dataset, ms) <==> exists x <- ms :: c == Prepare(cfg, dataset, x) && c.content != ""
  {
    if ms != [] {
      PreparedFrom(cfg, dataset, ms[1..], c);
      assert ms == [ms[0]] + ms[1..];
    }
  }

  /** The prepared chunks keep the order of the message. */
  lemma {:induction false} PreparedConcat(cfg: Config, dataset: Id, a: seq<Incoming>, b: seq<Incoming>)
    ensures Prepared(cfg, dataset, a + b) == Prepared(cfg, dataset, a) + Prepared(cfg, dataset, b)
  {
    if a == [] {
      assert a + b == b;
    } else {
      assert (a + b)[1..] == a[1..] + b;
      PreparedConcat(cfg, dataset, a[1..], b);
    }
  }

  lemma OwnPoint(cfg: Config, dataset: Id, x: Incoming, inserted: seq<Chunk>, data: seq<Chunk>, i: nat)
    requires Aligned(cfg, inserted, data, i) && inserted[i] == Prepare(cfg, dataset, x)
    ensures IsPointOf(cfg, dataset, x, BuildPoints(cfg, inserted, data)[i])
  {
  }

  lemma UploadedPoint(s: Stores, cfg: Config, m: Message, calls: Calls, i: nat)
    requires Consistent(s.rows) && DistinctIds(Prepared(cfg, m.dataset, m.chunks))
    requires Upload(s, cfg, m, calls).0.Ok? && i < |Inserted(s, cfg, m)| <= |Prepared(cfg, m.dataset, m.chunks)|
    ensures var t := Upload(s, cfg, m, calls).1;
            var ps := BuildPoints(cfg, Inserted(s, cfg, m), Prepared(cfg, m.dataset, m.chunks));
            ps[i].row.pointId in t.points && t.points[ps[i].row.pointId] == ps[i]
  {
    var ps := BuildPoints(cfg, Inserted(s, cfg, m), Prepared(cfg, m.dataset, m.chunks));
    forall j | i < j < |ps| ensures ps[j].row.pointId != ps[i].row.pointId {
      InsertedPointIds(s, cfg, m, i, j);
    }
    UpsertWrites(s.points, ps, i);
  }

  /**
    What a successful upload leaves for a chunk of the message, from the message itself: when no
    chunk that is added is behind a skipped one, the i-th inserted chunk is one of the message, and
    its point carries that chunk's own ids, groups, texts and boosts.
   */
  lemma PointFromMessage(s: Stores, cfg: Config, m: Message, calls: Calls, i: nat)
    requires Consistent(s.rows) && DistinctChunks(Prepared(cfg, m.dataset, m.chunks))
    requires SkippedLast(s.rows, Prepared(cfg, m.dataset, m.chunks))
    requires Upload(s, cfg, m, calls).0.Ok? && i < |Inserted(s, cfg, m)|
    ensures var t := Upload(s, cfg, m, calls).1;
            exists x <- m.chunks ::
              x.id == Inserted(s, cfg, m)[i].row.id && x.pointId in t.points
              && IsPointOf(cfg, m.dataset, x, t.points[x.pointId])
  {
    var data, inserted := Prepared(cfg, m.dataset, m.chunks), Inserted(s, cfg, m);
    RetainedShorter(data, s.rows, RowsAfter(s, cfg, m));
    AlignmentHolds(s, cfg, m, i);
    UploadedPoint(s, cfg, m, calls, i);
    RetainedExactly(data, s.rows, RowsAfter(s, cfg, m), inserted[i]);
    PreparedFrom(cfg, m.dataset, m.chunks, inserted[i]);
    var x :| x in m.chunks && inserted[i] == Prepare(cfg, m.dataset, x);
    OwnPoint(cfg, m.dataset, x, inserted, data, i);
    assert x.pointId == BuildPoints(cfg, inserted, data)[i].row.pointId;
  }

  // ---------------------------------------------------------------- retries

  const ALL_SUCCEED := Calls(true, true, true, true, true, true, true)

  /** The queue runs the message again until an upload answers without error. */
  function Attempts(s: Stores, cfg: Config, m: Message, attempts: seq<Calls>): (Result, Stores)
    decreases |attempts|
  {
    if attempts == [] then (Err, s)
    else
      var (result, t) := Upload(s, cfg, m, attempts[0]);
      if result.Ok? then (result, t) else Attempts(t, cfg, m, attempts[1..])
  }

  /** After a failure without compensation the rows are there, so every later attempt finds nothing new. */
  lemma {:induction false} StuckAfterHarm(s: Stores, cfg: Config, m: Message, attempts: seq<Calls>)
    requires Consistent(s.rows) && Inserted(s, cfg, m) == []
    ensures Attempts(s, cfg, m, attempts).1 == s
    ensures Attempts(s, cfg, m, attempts).0.Ok? ==> Attempts(s, cfg, m, attempts).0 == Ok([])
    decreases |attempts|
  {
    if attempts != [] {
      RowsGrow(s, cfg, m);
      StuckAfterHarm(s, cfg, m, attempts[1..]);
    }
  }

  lemma NothingNewAfter(s: Stores, cfg: Config, m: Message)
    requires Consistent(s.rows)
    ensures Consistent(RowsAfter(s, cfg, m))
    ensures Inserted(s.(rows := RowsAfter(s, cfg, m)), cfg, m) == []
  {
    var batch := Batch(Prepared(cfg, m.dataset, m.chunks));
    InsertAdds(s.rows, batch);
    InsertTwice(s.rows, batch);
    RowsGrow(s.(rows := RowsAfter(s, cfg, m)), cfg, m);
  }

  /** The chunks' points are new to Qdrant: their ids were drawn when the message was made. */
  ghost predicate FreshPoints(s: Stores, cfg: Config, m: Message) {
    forall c <- Prepared(cfg, m.dataset, m.chunks) :: c.row.pointId !in s.points
  }

  lemma SuccessWritesSomething(s: Stores, cfg: Config, m: Message)
    requires Consistent(s.rows) && DistinctIds(Prepared(cfg, m.dataset, m.chunks)) && FreshPoints(s, cfg, m)
    requires Inserted(s, cfg, m) != []
    ensures Upload(s, cfg, m, ALL_SUCCEED).1.points != s.points
    ensures Upload(s, cfg, m, ALL_SUCCEED).1.rows == RowsAfter(s, cfg, m)
  {
    SuccessIsComplete(s, cfg, m, ALL_SUCCEED, 0);
    RetainedExactly(Prepared(cfg, m.dataset, m.chunks), s.rows, RowsAfter(s, cfg, m), Inserted(s, cfg, m)[0]);
  }

  lemma FailedUpload(s: Stores, cfg: Config, m: Message, f: Calls)
    requires Consistent(s.rows) && Inserted(s, cfg, m) != [] && StageOf(cfg, true, f) != Completes
    ensures Upload(s, cfg, m, f).0 == Err
    ensures Upload(s, cfg, m, f).1 ==
            if Compensated(StageOf(cfg, true, f), f) then s else s.(rows := RowsAfter(s, cfg, m))
  {
    RevertRestores(s, cfg, m);
  }

  /**
    Retry transparency, exactly: failed attempts followed by one without failures leave both stores
    as an immediate success would if and only if every failed attempt was compensated, or every row
    of the message clashes with the table.
   */
  lemma {:induction false} RetryTransparentExactly(s: Stores, cfg: Config, m: Message, fails: seq<Calls>)
    requires Consistent(s.rows) && DistinctIds(Prepared(cfg, m.dataset, m.chunks)) && FreshPoints(s, cfg, m)
    requires forall f <- fails :: StageOf(cfg, true, f) != Completes
    ensures Attempts(s, cfg, m, fails + [ALL_SUCCEED]).1 == Upload(s, cfg, m, ALL_SUCCEED).1 <==>
            AllClash(s.rows, Prepared(cfg, m.dataset, m.chunks))
            || forall f <- fails :: Compensated(StageOf(cfg, true, f), f)
    decreases |fails|
  {
    NothingInserted(s, cfg, m);
    var attempts := fails + [ALL_SUCCEED];
    if Inserted(s, cfg, m) == [] {
      StuckAfterHarm(s, cfg, m, attempts);
      StuckAfterHarm(s, cfg, m, [ALL_SUCCEED]);
    } else if fails == [] {
      assert attempts == [ALL_SUCCEED];
    } else {
      var f := fails[0];
      assert f in fails && attempts[0] == f && attempts[1..] == fails[1..] + [ALL_SUCCEED];
      FailedUpload(s, cfg, m, f);
      hide Upload, StageOf, Inserted, Prepared, RowsAfter, DistinctIds, FreshPoints, Consistent, AllClash;
      if Compensated(StageOf(cfg, true, f), f) {
        RetryTransparentExactly(s, cfg, m, fails[1..]);
      } else {
        NothingNewAfter(s, cfg, m);
        StuckAfterHarm(s.(rows := RowsAfter(s, cfg, m)), cfg, m, attempts[1..]);
        SuccessWritesSomething(s, cfg, m);
      }
    }
  }

  /**
    What goes wrong otherwise: the next attempt finds nothing new, answers Ok and is acknowledged,
    and the inserted chunks have no points.
   */
  lemma UncompensatedIsSilent(s: Stores, cfg: Config, m: Message, f: Calls, attempts: seq<Calls>)
    requires Consistent(s.rows) && FreshPoints(s, cfg, m)
    requires !AllClash(s.rows, Prepared(cfg, m.dataset, m.chunks))
    requires var stage := StageOf(cfg, true, f);
             stage != Completes && !Compensated(stage, f)
    ensures var (result, t) := Attempts(s, cfg, m, [f] + attempts + [ALL_SUCCEED]);
            && result == Ok([]) && t.rows == RowsAfter(s, cfg, m)
            && forall c <- Inserted(s, cfg, m) :: c.row.id in t.rows && c.row.pointId !in t.points
  {
    NothingInserted(s, cfg, m);
    FailedUpload(s, cfg, m, f);
    hide Upload, StageOf, InsertAll, Inserted, Prepared, Batch, Consistent, Retained, AllClash, Compensated;
    var rest := attempts + [ALL_SUCCEED];
    var t := s.(rows := RowsAfter(s, cfg, m));
    assert ([f] + attempts + [ALL_SUCCEED])[1..] == rest;
    NothingNewAfter(s, cfg, m);
    StuckAfterHarm(t, cfg, m, rest);
    LastSucceeds(t, cfg, m, attempts);
    forall c | c in Inserted(s, cfg, m) ensures c.row.id in t.rows && c.row.pointId !in t.points {
      InsertedIsFresh(s, cfg, m, c);
    }
  }

  lemma InsertedIsFresh(s: Stores, cfg: Config, m: Message, c: Chunk)
    requires FreshPoints(s, cfg, m) && c in Inserted(s, cfg, m)
    ensures c.row.id in RowsAfter(s, cfg, m) && c.row.pointId !in s.points
  {
    RetainedExactly(Prepared(cfg, m.dataset, m.chunks), s.rows, RowsAfter(s, cfg, m), c);
  }

  lemma {:induction false} LastSucceeds(s: Stores, cfg: Config, m: Message, attempts: seq<Calls>)
    requires Consistent(s.rows) && Inserted(s, cfg, m) == []
    ensures Attempts(s, cfg, m, attempts + [ALL_SUCCEED]).0.Ok?
    decreases |attempts|
  {
    if attempts == [] {
      assert attempts + [ALL_SUCCEED] == [ALL_SUCCEED];
    } else {
      assert (attempts + [ALL_SUCCEED])[1..] == attempts[1..] + [ALL_SUCCEED];
      RowsGrow(s, cfg, m);
      LastSucceeds(s, cfg, m, attempts[1..]);
    }
  }
}
