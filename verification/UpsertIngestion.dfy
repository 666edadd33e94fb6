/**
  Bulk uploads that use upsert by tracking id: the insert statement updates the row that has the
  tracking id already, and no failure is ever reverted.
 */
module UpsertIngestion {
  import opened Options
  import opened ChunkStore
  import opened Ingestion
  import opened Batches
  import IngestionLaws

  function Touch(x: Row, r: Row): Row {
    if SameTracking(x, r) then x.(body := r.body) else x
  }

  function TouchAll(rows: Rows, r: Row): Rows {
    map k <- rows :: Touch(rows[k], r)
  }

  /** One row of `INSERT .. ON CONFLICT (tracking_id, dataset_id) DO UPDATE`; any other clash fails the statement. */
  function UpsertRow(rows: Rows, r: Row): Option<Rows> {
    if exists k <- rows :: SameTracking(rows[k], r) then Some(TouchAll(rows, r))
    else if Conflicts(rows, r) then None
    else Some(rows[r.id := r])
  }

  function UpsertAll(rows: Rows, batch: seq<Row>): Option<Rows>
    decreases |batch|
  {
    if batch == [] then Some(rows)
    else match UpsertRow(rows, batch[0])
      case None => None
      case Some(next) => UpsertAll(next, batch[1..])
  }

  /** The table row a chunk ended up in. */
  ghost function TableRow(rows: Rows, c: Chunk): Row {
    if k :| k in rows && SameTracking(rows[k], c.row) then rows[k]
    else if c.row.id in rows then rows[c.row.id]
    else c.row
  }

  ghost function Returned(rows: Rows, data: seq<Chunk>): seq<Chunk> {
    seq(|data|, i requires 0 <= i < |data| => data[i].(row := TableRow(rows, data[i])))
  }

  ghost function UpsertUpload(s: Stores, cfg: Config, m: Message, calls: Calls): (Result, Stores) {
    var data := Prepared(cfg, m.dataset, m.chunks);
    var upserted := UpsertAll(s.rows, Batch(data));
    if !calls.insert || upserted.None? then (Err, s)
    else
      var t := s.(rows := upserted.value);
      var chunks := Returned(t.rows, data);
      match StageOf(cfg, data != [], calls)
      case NothingNew => (Ok([]), t)
      case Completes => (Ok(Ids(chunks)), t.(points := UpsertPoints(s.points, BuildPoints(cfg, chunks, data))))
      case _ => (Err, t)
  }

  ghost function UpsertAttempts(s: Stores, cfg: Config, m: Message, attempts: seq<Calls>): (Result, Stores)
    decreases |attempts|
  {
    if attempts == [] then (Err, s)
    else
      var (result, t) := UpsertUpload(s, cfg, m, attempts[0]);
      if result.Ok? then (result, t) else UpsertAttempts(t, cfg, m, attempts[1..])
  }

  lemma UpsertRowConsistent(rows: Rows, r: Row)
    requires Consistent(rows) && UpsertRow(rows, r).Some?
    ensures Consistent(UpsertRow(rows, r).value) && rows.Keys <= UpsertRow(rows, r).value.Keys
  {
    var next := UpsertRow(rows, r).value;
    if exists k <- rows :: SameTracking(rows[k], r) {
      forall j, k | j in next && k in next && j != k ensures !Clash(next[j], next[k]) {
        assert !Clash(rows[j], rows[k]);
      }
    } else {
      InsertOne(rows, r);
    }
  }

  lemma {:induction false} UpsertAllConsistent(rows: Rows, batch: seq<Row>)
    requires Consistent(rows) && UpsertAll(rows, batch).Some?
    ensures Consistent(UpsertAll(rows, batch).value) && rows.Keys <= UpsertAll(rows, batch).value.Keys
    decreases |batch|
  {
    if batch != [] {
      UpsertRowConsistent(rows, batch[0]);
      UpsertAllConsistent(UpsertRow(rows, batch[0]).value, batch[1..]);
    }
  }

  // ---------------------------------------------------------------- the code

  lemma TrackedOnce(rows: Rows, r: Row, j: Id, k: Id)
    requires Consistent(rows) && j in rows && k in rows
    requires SameTracking(rows[j], r) && SameTracking(rows[k], r)
    ensures j == k
  {
    assert j != k ==> !Clash(rows[j], rows[k]);
  }

  /** The upsert statement and the matching of chunks with the rows it returned. */
  method BulkUpsert(db: Databases, data: seq<Chunk>) returns (chunks: Option<seq<Chunk>>)
    requires Consistent(db.rows)
    modifies db`rows
    ensures var after := UpsertAll(old(db.rows), Batch(data));
            && (after.None? ==> chunks.None? && db.rows == old(db.rows))
            && (after.Some? ==> chunks == Some(Returned(after.value, data)) && db.rows == after.value)
  {
    var after := UpsertAll(db.rows, Batch(data));
    if after.None? {
      return None;
    }
    UpsertAllConsistent(db.rows, Batch(data));
    db.rows := after.value;
    var found: seq<Chunk> := [];
    while |found| < |data|
      invariant db.rows == after.value
      invariant |found| <= |data| && found == Returned(after.value, data)[..|found|]
    {
      var c := data[|found|];
      var row := FindRow(after.value, c);
      found := found + [c.(row := row)];
    }
    assert found == Returned(after.value, data);
    return Some(found);
  }

  method FindRow(rows: Rows, c: Chunk) returns (row: Row)
    requires Consistent(rows)
    ensures row == TableRow(rows, c)
  {
    if k :| k in rows && SameTracking(rows[k], c.row) {
      forall j | j in rows && SameTracking(rows[j], c.row) ensures j == k { TrackedOnce(rows, c.row, j, k); }
      row := rows[k];
    } else if c.row.id in rows {
      row := rows[c.row.id];
    } else {
      row := c.row;
    }
  }

  /** The bulk upload of an upsert message, call by call; no failure is reverted. */
  method BulkUploadUpserts(db: Databases, cfg: Config, m: Message, calls: Calls) returns (result: Result)
    requires Consistent(db.rows)
    modifies db
    ensures (result, db.Contents()) == UpsertUpload(old(db.Contents()), cfg, m, calls)
  {
    hide Prepared, UpsertAll, Batch, BuildPoints, UpsertPoints, Ids, Consistent;
    var data := Prepared(cfg, m.dataset, m.chunks);
    if !calls.insert {
      return Err;
    }
    var chunks := BulkUpsert(db, data);
    if chunks.None? {
      return Err;
    }
    if !calls.link {
      return Err;
    }
    if chunks.value == [] {
      return Ok([]);
    }
    if cfg.semantic && !calls.dense {
      return Err;
    }
    if cfg.fulltext && !calls.sparse {
      return Err;
    }
    var built := BuildPoints(cfg, chunks.value, data);
    if !calls.build || !calls.upsert {
      return Err;
    }
    db.points := UpsertPoints(db.points, built);
    return Ok(Ids(chunks.value));
  }

  // ---------------------------------------------------------------- repeating the statement

  /** The table has the tracked row's contents. */
  predicate Holds(rows: Rows, r: Row) {
    exists k <- rows :: SameTracking(rows[k], r) && rows[k].body == r.body
  }

  lemma UpsertRowHolds(rows: Rows, r: Row, x: Row)
    requires UpsertRow(rows, r).Some? && r.trackingId.Some?
    requires x == r || (Holds(rows, x) && !SameTracking(x, r))
    requires Consistent(rows)
    ensures Holds(UpsertRow(rows, r).value, x)
  {
    var next := UpsertRow(rows, r).value;
    if x == r {
      if k :| k in rows && SameTracking(rows[k], r) {
        assert SameTracking(next[k], r) && next[k].body == r.body;
      } else {
        assert SameTracking(next[r.id], r);
      }
    } else {
      var k :| k in rows && SameTracking(rows[k], x) && rows[k].body == x.body;
      InsertOne(rows, r);
      assert next[k] == rows[k];
    }
  }

  ghost predicate DistinctTracking(batch: seq<Row>) {
    && (forall r <- batch :: r.trackingId.Some?)
    && (forall i, j | 0 <= i < j < |batch| :: !SameTracking(batch[i], batch[j]))
  }

  lemma {:induction false} UpsertAllHolds(rows: Rows, batch: seq<Row>, x: Row)
    requires Consistent(rows) && DistinctTracking(batch) && UpsertAll(rows, batch).Some?
    requires x in batch || (Holds(rows, x) && forall r <- batch :: !SameTracking(x, r))
    ensures Holds(UpsertAll(rows, batch).value, x)
    decreases |batch|
  {
    if batch != [] {
      var r, rest := batch[0], batch[1..];
      assert r in batch;
      UpsertRowConsistent(rows, r);
      if x == r {
        UpsertRowHolds(rows, r, x);
        forall y | y in rest ensures !SameTracking(x, y) {
          var j :| 0 <= j < |rest| && rest[j] == y;
          assert batch[j + 1] == y;
        }
      } else if x !in rest {
        UpsertRowHolds(rows, r, x);
      }
      UpsertAllHolds(UpsertRow(rows, r).value, rest, x);
    }
  }

  lemma UpsertRowNothing(rows: Rows, r: Row)
    requires Consistent(rows) && Holds(rows, r)
    ensures UpsertRow(rows, r) == Some(rows)
  {
    var k :| k in rows && SameTracking(rows[k], r) && rows[k].body == r.body;
    forall j | j in rows ensures Touch(rows[j], r) == rows[j] {
      assert j != k ==> !Clash(rows[j], rows[k]);
    }
    assert TouchAll(rows, r) == rows;
  }

  lemma {:induction false} UpsertNothing(rows: Rows, batch: seq<Row>)
    requires Consistent(rows) && forall r <- batch :: Holds(rows, r)
    ensures UpsertAll(rows, batch) == Some(rows)
    decreases |batch|
  {
    if batch != [] {
      assert batch[0] in batch;
      UpsertRowNothing(rows, batch[0]);
      UpsertNothing(rows, batch[1..]);
    }
  }

  /** With a tracking id on every row, running the statement again changes nothing. */
  lemma UpsertTwice(rows: Rows, batch: seq<Row>)
    requires Consistent(rows) && DistinctTracking(batch) && UpsertAll(rows, batch).Some?
    ensures UpsertAll(UpsertAll(rows, batch).value, batch) == UpsertAll(rows, batch)
  {
    var after := UpsertAll(rows, batch).value;
    UpsertAllConsistent(rows, batch);
    forall r | r in batch ensures Holds(after, r) {
      UpsertAllHolds(rows, batch, r);
    }
    UpsertNothing(after, batch);
  }

  /** A row without tracking id cannot be inserted twice: its id clashes, and the statement fails. */
  lemma UntrackedTwice(rows: Rows, batch: seq<Row>)
    requires Consistent(rows) && UpsertAll(rows, batch).Some?
    requires batch != [] && batch[0].trackingId.None?
    ensures UpsertAll(UpsertAll(rows, batch).value, batch) == None
  {
    var r, after := batch[0], UpsertAll(rows, batch).value;
    UpsertRowConsistent(rows, r);
    UpsertAllConsistent(rows, batch);
    UpsertAllConsistent(UpsertRow(rows, r).value, batch[1..]);
    assert Clash(after[r.id], r);
  }

  // ---------------------------------------------------------------- batches

  predicate AllTracked(data: seq<Chunk>) {
    forall c <- data :: c.row.trackingId.Some?
  }

  lemma {:induction false} TrackedPart(data: seq<Chunk>)
    ensures forall r <- WithTracking(data, true) :: r.trackingId.Some?
    ensures forall r <- WithTracking(data, false) :: r.trackingId.None?
    ensures WithTracking(data, false) == [] <==> AllTracked(data)
  {
    if data != [] {
      TrackedPart(data[1..]);
      assert data == [data[0]] + data[1..];
    }
  }

  lemma {:induction false} UniqueIsDistinct(rows: seq<Row>)
    requires forall r <- rows :: r.trackingId.Some?
    ensures DistinctTracking(UniqueTracking(rows))
  {
    if rows != [] {
      var front := UniqueTracking(rows[..|rows| - 1]);
      UniqueIsDistinct(rows[..|rows| - 1]);
      var all := UniqueTracking(rows);
      forall i, j | 0 <= i < j < |all| ensures !SameTracking(all[i], all[j]) {
        assert all[i] in front;
      }
    }
  }

  lemma BatchKinds(data: seq<Chunk>)
    ensures AllTracked(data) ==> DistinctTracking(Batch(data))
    ensures !AllTracked(data) ==> Batch(data) != [] && Batch(data)[0].trackingId.None?
  {
    TrackedPart(data);
    UniqueIsDistinct(WithTracking(data, true));
    if AllTracked(data) {
      assert Batch(data) == UniqueTracking(WithTracking(data, true));
    } else {
      assert Batch(data)[0] == WithTracking(data, false)[0];
      assert WithTracking(data, false)[0] in WithTracking(data, false);
    }
  }

  // ---------------------------------------------------------------- retries

  /** Each vector set is that of its own chunk: an upsert returns every chunk. */
  lemma UpsertAligned(rows: Rows, cfg: Config, data: seq<Chunk>, i: nat)
    requires i < |data|
    ensures |BuildPoints(cfg, Returned(rows, data), data)| == |data|
    ensures IngestionLaws.Aligned(cfg, Returned(rows, data), data, i)
  {
  }

  lemma {:induction false} AfterTracked(s: Stores, cfg: Config, m: Message, fails: seq<Calls>)
    requires UpsertAll(s.rows, Batch(Prepared(cfg, m.dataset, m.chunks))) == Some(s.rows)
    requires forall f <- fails :: StageOf(cfg, true, f) != Completes
    ensures UpsertAttempts(s, cfg, m, fails + [IngestionLaws.ALL_SUCCEED]) ==
            UpsertUpload(s, cfg, m, IngestionLaws.ALL_SUCCEED)
    decreases |fails|
  {
    var attempts := fails + [IngestionLaws.ALL_SUCCEED];
    if fails != [] {
      assert attempts[0] in fails && attempts[1..] == fails[1..] + [IngestionLaws.ALL_SUCCEED];
      AfterTracked(s, cfg, m, fails[1..]);
    }
  }

  lemma {:induction false} AlwaysRefused(s: Stores, cfg: Config, m: Message, attempts: seq<Calls>)
    requires UpsertAll(s.rows, Batch(Prepared(cfg, m.dataset, m.chunks))).None?
    ensures UpsertAttempts(s, cfg, m, attempts) == (Err, s)
    decreases |attempts|
  {
    if attempts != [] {
      AlwaysRefused(s, cfg, m, attempts[1..]);
    }
  }

  /** Retries of an upsert message, by whether the statement is refused. */
  lemma {:induction false} RetryByStatement(s: Stores, cfg: Config, m: Message, fails: seq<Calls>)
    requires Consistent(s.rows)
    requires forall f <- fails :: StageOf(cfg, true, f) != Completes
    ensures var data := Prepared(cfg, m.dataset, m.chunks);
            UpsertAttempts(s, cfg, m, fails + [IngestionLaws.ALL_SUCCEED]) ==
            UpsertUpload(s, cfg, m, IngestionLaws.ALL_SUCCEED)
            <==> UpsertAll(s.rows, Batch(data)).None? || AllTracked(data) || forall f <- fails :: !f.insert
    decreases |fails|
  {
    var data := Prepared(cfg, m.dataset, m.chunks);
    var attempts := fails + [IngestionLaws.ALL_SUCCEED];
    BatchKinds(data);
    if data == [] {
      AfterTracked(s, cfg, m, fails);
    } else if UpsertAll(s.rows, Batch(data)).None? {
      AlwaysRefused(s, cfg, m, attempts);
      AlwaysRefused(s, cfg, m, [IngestionLaws.ALL_SUCCEED]);
    } else if fails == [] {
      assert attempts == [IngestionLaws.ALL_SUCCEED];
    } else {
      assert attempts[0] in fails && attempts[1..] == fails[1..] + [IngestionLaws.ALL_SUCCEED];
      var t := s.(rows := UpsertAll(s.rows, Batch(data)).value);
      FailedUpsert(s, cfg, m, fails[0]);
      SuccessfulUpsert(s, cfg, m);
      if AllTracked(data) && fails[0].insert {
        UpsertTwice(s.rows, Batch(data));
        SameAnswer(s, t, cfg, m);
      }
      hide UpsertUpload, StageOf, Consistent, Batch, Prepared, UpsertAll, AllTracked, DistinctTracking;
      if !fails[0].insert {
        RetryByStatement(s, cfg, m, fails[1..]);
      } else if AllTracked(data) {
        AfterTracked(t, cfg, m, fails[1..]);
      } else {
        UntrackedTwice(s.rows, Batch(data));
        AlwaysRefused(t, cfg, m, attempts[1..]);
      }
    }
  }

  lemma FailedUpsert(s: Stores, cfg: Config, m: Message, f: Calls)
    requires Prepared(cfg, m.dataset, m.chunks) != [] && StageOf(cfg, true, f) != Completes
    requires UpsertAll(s.rows, Batch(Prepared(cfg, m.dataset, m.chunks))).Some?
    ensures UpsertUpload(s, cfg, m, f) ==
            (Err, if f.insert
                  then s.(rows := UpsertAll(s.rows, Batch(Prepared(cfg, m.dataset, m.chunks))).value) else s)
  {
  }

  lemma SuccessfulUpsert(s: Stores, cfg: Config, m: Message)
    requires UpsertAll(s.rows, Batch(Prepared(cfg, m.dataset, m.chunks))).Some?
    ensures UpsertUpload(s, cfg, m, IngestionLaws.ALL_SUCCEED).0.Ok?
  {
  }

  lemma SameAnswer(s: Stores, t: Stores, cfg: Config, m: Message)
    requires s.points == t.points
    requires var batch := Batch(Prepared(cfg, m.dataset, m.chunks));
             UpsertAll(s.rows, batch).Some? && UpsertAll(t.rows, batch) == UpsertAll(s.rows, batch)
    ensures UpsertUpload(s, cfg, m, IngestionLaws.ALL_SUCCEED) == UpsertUpload(t, cfg, m, IngestionLaws.ALL_SUCCEED)
  {
  }

  // ---------------------------------------------------------------- when the statement is refused

  /** The table has no row to update for `r`, and a row with its id or its point id. */
  predicate Refused(rows: Rows, r: Row) {
    Conflicts(rows, r) && !(exists k <- rows :: SameTracking(rows[k], r))
  }

  lemma RefusedStays(rows: Rows, first: Row, r: Row)
    requires Consistent(rows) && !Clash(first, r) && UpsertRow(rows, first).Some?
    ensures Refused(UpsertRow(rows, first).value, r) <==> Refused(rows, r)
  {
    var next := UpsertRow(rows, first).value;
    if exists k <- rows :: SameTracking(rows[k], first) {
      TouchedClash(rows, first, r);
    } else {
      ConflictStays(rows, first, r);
      InsertOne(rows, first);
      forall k | k in rows ensures next[k] == rows[k] {
      }
    }
  }

  /** Updating rows changes neither their ids nor their tracking ids. */
  lemma TouchedClash(rows: Rows, first: Row, r: Row)
    ensures Refused(TouchAll(rows, first), r) <==> Refused(rows, r)
  {
    var next := TouchAll(rows, first);
    forall k | k in rows
      ensures Clash(next[k], r) <==> Clash(rows[k], r)
      ensures SameTracking(next[k], r) <==> SameTracking(rows[k], r)
    {
    }
  }

  /** The statement is refused exactly when some row it gets clashes with the table and has none to update. */
  lemma {:induction false} RefusedExactly(rows: Rows, batch: seq<Row>)
    requires Consistent(rows) && Apart(batch)
    ensures UpsertAll(rows, batch).None? <==> exists r <- batch :: Refused(rows, r)
    decreases |batch|
  {
    if batch != [] {
      var first, rest := batch[0], batch[1..];
      assert batch == [first] + rest;
      assert UpsertRow(rows, first).None? <==> Refused(rows, first);
      if UpsertRow(rows, first).Some? {
        var next := UpsertRow(rows, first).value;
        UpsertRowConsistent(rows, first);
        RefusedExactly(next, rest);
        forall r | r in rest ensures Refused(next, r) <==> Refused(rows, r) {
          var j :| 0 <= j < |rest| && rest[j] == r;
          assert batch[j + 1] == r && !Clash(batch[0], batch[j + 1]);
          RefusedStays(rows, first, r);
        }
        hide UpsertRow, Refused, Apart, Consistent;
      }
    }
  }

  /**
    Retries of an upsert message, exactly: failed attempts and then one without failures answer and
    leave what an immediate attempt would if and only if some row of the message clashes with the
    table and has no row to update, or every chunk has a tracking id, or all the failures came
    before the insert. Otherwise the inserted rows make every later attempt fail.
   */
  lemma UpsertRetryExactly(s: Stores, cfg: Config, m: Message, fails: seq<Calls>)
    requires Consistent(s.rows) && DistinctChunks(Prepared(cfg, m.dataset, m.chunks))
    requires forall f <- fails :: StageOf(cfg, true, f) != Completes
    ensures var data := Prepared(cfg, m.dataset, m.chunks);
            UpsertAttempts(s, cfg, m, fails + [IngestionLaws.ALL_SUCCEED]) ==
            UpsertUpload(s, cfg, m, IngestionLaws.ALL_SUCCEED)
            <==> (exists r <- Batch(data) :: Refused(s.rows, r)) || AllTracked(data) || forall f <- fails :: !f.insert
  {
    var data := Prepared(cfg, m.dataset, m.chunks);
    BatchApart(data);
    RefusedExactly(s.rows, Batch(data));
    RetryByStatement(s, cfg, m, fails);
    hide UpsertAttempts, UpsertUpload, Batch, Prepared, UpsertAll, AllTracked, Refused;
  }

  /** One chunk without tracking id: when its embedding fails once, no later attempt succeeds. */
  lemma UpsertNeverRecovers(cfg: Config, attempts: seq<Calls>)
    requires cfg.semantic
    ensures var s, m := Stores(map[], map[]), Message(0, [IngestionLaws.CHUNK_B]);
            var f := IngestionLaws.ALL_SUCCEED.(dense := false);
            && UpsertUpload(s, cfg, m, IngestionLaws.ALL_SUCCEED).0.Ok?
            && UpsertAttempts(s, cfg, m, [f] + attempts) == (Err, s.(rows := map[3 := IngestionLaws.PREPARED_B.row]))
  {
    var s, m := Stores(map[], map[]), Message(0, [IngestionLaws.CHUNK_B]);
    var f := IngestionLaws.ALL_SUCCEED.(dense := false);
    var r := IngestionLaws.PREPARED_B.row;
    OneUntracked(cfg);
    var t := s.(rows := map[3 := r]);
    UntrackedTwice(s.rows, [r]);
    assert UpsertUpload(s, cfg, m, f) == (Err, t);
    AlwaysRefused(t, cfg, m, attempts);
    assert ([f] + attempts)[1..] == attempts;
  }

  lemma OneUntracked(cfg: Config)
    ensures Prepared(cfg, 0, [IngestionLaws.CHUNK_B]) == [IngestionLaws.PREPARED_B]
    ensures Batch([IngestionLaws.PREPARED_B]) == [IngestionLaws.PREPARED_B.row]
    ensures UpsertAll(map[], [IngestionLaws.PREPARED_B.row]) == Some(map[3 := IngestionLaws.PREPARED_B.row])
  {
    var b := IngestionLaws.PREPARED_B;
    assert [IngestionLaws.CHUNK_B][1..] == [] && [b][1..] == [] && [b.row][1..] == [];
    assert WithTracking([b], false) == [b.row] && WithTracking([b], true) == [];
    assert UpsertRow(map[], b.row) == Some(map[3 := b.row]);
  }
}
