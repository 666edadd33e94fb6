/** The chunk table in Postgres: its uniqueness rules, the bulk insert of a message, and its revert. */
module ChunkStore {
  import opened Options

  type Id = nat // a UUID

  /** A row of `chunk_metadata`; `body` stands for the columns no rule looks at. */
  datatype Row = Row(id: Id, pointId: Id, dataset: Id, trackingId: Option<string>, body: string)

  type Rows = map<Id, Row>

  /** Both rows have the same tracking id in the same dataset. */
  predicate SameTracking(a: Row, b: Row) {
    a.trackingId.Some? && a.trackingId == b.trackingId && a.dataset == b.dataset
  }

  /** The primary key and the two unique constraints. */
  predicate Clash(a: Row, b: Row) {
    a.id == b.id || a.pointId == b.pointId || SameTracking(a, b)
  }

  predicate Conflicts(rows: Rows, r: Row) {
    exists k <- rows :: Clash(rows[k], r)
  }

  predicate Consistent(rows: Rows) {
    && (forall k <- rows :: rows[k].id == k)
    && (forall j, k | j in rows && k in rows && j != k :: !Clash(rows[j], rows[k]))
  }

  /** `INSERT .. ON CONFLICT DO NOTHING`, row by row. */
  function InsertAll(rows: Rows, batch: seq<Row>): Rows
    decreases |batch|
  {
    if batch == [] then rows
    else InsertAll(if Conflicts(rows, batch[0]) then rows else rows[batch[0].id := batch[0]], batch[1..])
  }

  /** Insertion only adds rows of the batch, under ids that were free. */
  lemma {:induction false} InsertAdds(rows: Rows, batch: seq<Row>)
    requires Consistent(rows)
    ensures var after := InsertAll(rows, batch);
            && Consistent(after)
            && rows.Keys <= after.Keys
            && (forall k <- rows :: after[k] == rows[k])
            && (forall k <- after :: k in rows || (after[k].id == k && after[k] in batch))
    decreases |batch|
  {
    if batch != [] {
      var next := if Conflicts(rows, batch[0]) then rows else rows[batch[0].id := batch[0]];
      InsertOne(rows, batch[0]);
      InsertAdds(next, batch[1..]);
    }
  }

  lemma InsertOne(rows: Rows, r: Row)
    requires Consistent(rows)
    ensures Consistent(if Conflicts(rows, r) then rows else rows[r.id := r])
    ensures !Conflicts(rows, r) ==> r.id !in rows
  {
    if r.id in rows {
      assert Clash(rows[r.id], r);
    }
    if !Conflicts(rows, r) {
      var after := rows[r.id := r];
      forall j, k | j in after && k in after && j != k ensures !Clash(after[j], after[k]) {
        if j == r.id {
          assert !Clash(rows[k], r);
        } else if k == r.id {
          assert !Clash(rows[j], r);
        }
      }
    }
  }

  lemma {:induction false} InsertKeeps(rows: Rows, batch: seq<Row>, k: Id)
    requires Consistent(rows) && k in rows
    ensures k in InsertAll(rows, batch) && InsertAll(rows, batch)[k] == rows[k]
  {
    InsertAdds(rows, batch);
  }

  /** After an insertion every row of the batch conflicts with the table, if only with itself. */
  lemma {:induction false} InsertSaturates(rows: Rows, batch: seq<Row>, r: Row)
    requires Consistent(rows) && r in batch
    ensures Conflicts(InsertAll(rows, batch), r)
    decreases |batch|
  {
    var first := batch[0];
    var next := if Conflicts(rows, first) then rows else rows[first.id := first];
    InsertOne(rows, first);
    if r == first {
      if !Conflicts(rows, first) {
        assert Clash(next[first.id], first);
      }
      assert Conflicts(next, first);
      var k :| k in next && Clash(next[k], first);
      InsertKeeps(next, batch[1..], k);
    } else {
      InsertSaturates(next, batch[1..], r);
    }
  }

  /** A batch of which every row conflicts changes nothing. */
  lemma {:induction false} InsertNothing(rows: Rows, batch: seq<Row>)
    requires forall r <- batch :: Conflicts(rows, r)
    ensures InsertAll(rows, batch) == rows
  {
    if batch != [] {
      assert batch[0] in batch;
      InsertNothing(rows, batch[1..]);
    }
  }

  /** Inserting the same batch again is a no-op: this is what a retry meets after a missing revert. */
  lemma InsertTwice(rows: Rows, batch: seq<Row>)
    requires Consistent(rows)
    ensures InsertAll(InsertAll(rows, batch), batch) == InsertAll(rows, batch)
  {
    forall r | r in batch ensures Conflicts(InsertAll(rows, batch), r) {
      InsertSaturates(rows, batch, r);
    }
    InsertNothing(InsertAll(rows, batch), batch);
  }

  /** The revert deletes by id, and the group bookmarks go with the rows. */
  function Revert(rows: Rows, ids: seq<Id>): Rows {
    rows - (set id <- ids)
  }

  /** Deleting exactly the new ids undoes the insertion. */
  lemma RevertUndoes(rows: Rows, batch: seq<Row>, ids: seq<Id>)
    requires Consistent(rows)
    requires forall id :: id in ids <==> id in InsertAll(rows, batch) && id !in rows
    ensures Revert(InsertAll(rows, batch), ids) == rows
  {
    InsertAdds(rows, batch);
  }
}
