/**
  The bulk upload of the ingestion worker: insert the chunks of a message in Postgres, compute
  their vectors, upsert the points in Qdrant, and take the rows back when a later call fails.
 */
module Ingestion {
  import opened Options
  import opened ChunkStore

  /** One message of a bulk upload; its ids are fixed when the message is created. */
  datatype Incoming = Incoming(
    id: Id,
    pointId: Id,
    trackingId: Option<string>,
    html: Option<string>,
    convertHtml: Option<bool>,
    semanticContent: Option<string>,
    fulltextBoost: Option<string>, // the boost phrase
    semanticBoost: Option<string>,
    groupIds: Option<seq<Id>>,
    body: string)

  datatype Message = Message(dataset: Id, chunks: seq<Incoming>)

  /** A prepared chunk. */
  datatype Chunk = Chunk(
    row: Row,
    content: string,
    embeddingContent: string,
    fulltextBoost: Option<string>,
    semanticBoost: Option<string>,
    groupIds: Option<seq<Id>>)

  /** What a vector was computed from. */
  datatype Source = Source(text: string, boost: Option<string>)

  /** `sparse` is None for the constant vector used when full-text search is off. */
  datatype Point = Point(
    row: Row,
    groupIds: Option<seq<Id>>,
    dense: Option<Source>,
    sparse: Option<Source>,
    bm25: Option<Source>)

  type Points = map<Id, Point>

  datatype Config = Config(semantic: bool, fulltext: bool, bm25: bool, htmlToText: string -> string)

  datatype Result = Ok(ids: seq<Id>) | Err

  /** Which external calls succeed. */
  datatype Calls = Calls(
    insert: bool,
    link: bool,   // group bookmarks and tags, after the rows were inserted
    dense: bool,
    sparse: bool,
    build: bool,  // group lookup and vector size check for the points
    upsert: bool,
    revert: bool)

  function NonEmpty(s: Option<string>): Option<string> {
    if s.Some? && s.value == "" then None else s
  }

  function Prepare(cfg: Config, dataset: Id, m: Incoming): Chunk {
    var html := if m.html.Some? then m.html.value else "";
    var content := if m.convertHtml == Some(false) then html else cfg.htmlToText(html);
    Chunk(
      Row(m.id, m.pointId, dataset, NonEmpty(m.trackingId), m.body),
      content,
      if m.semanticContent.Some? then m.semanticContent.value else content,
      NonEmpty(m.fulltextBoost),
      NonEmpty(m.semanticBoost),
      m.groupIds)
  }

  /** The chunks of the message with some content, in order. */
  function Prepared(cfg: Config, dataset: Id, ms: seq<Incoming>): seq<Chunk> {
    if ms == [] then []
    else
      var c := Prepare(cfg, dataset, ms[0]);
      (if c.content == "" then [] else [c]) + Prepared(cfg, dataset, ms[1..])
  }

  // ---------------------------------------------------------------- bulk insert

  function WithTracking(data: seq<Chunk>, wanted: bool): seq<Row> {
    if data == [] then []
    else (if data[0].row.trackingId.Some? == wanted then [data[0].row] else []) + WithTracking(data[1..], wanted)
  }

  /** Keeps the first row of each tracking id. */
  function UniqueTracking(rows: seq<Row>): seq<Row> {
    if rows == [] then []
    else
      var front := UniqueTracking(rows[..|rows| - 1]);
      var r := rows[|rows| - 1];
      if exists x <- front :: SameTracking(x, r) then front else front + [r]
  }

  /** The rows of the insert statement: first those without a tracking id, then one for each tracking id. */
  function Batch(data: seq<Chunk>): seq<Row> {
    WithTracking(data, false) + UniqueTracking(WithTracking(data, true))
  }

  /** The chunks whose id was inserted, in their original order. */
  function Retained(data: seq<Chunk>, before: Rows, after: Rows): seq<Chunk> {
    if data == [] then []
    else (if data[0].row.id in after && data[0].row.id !in before then [data[0]] else [])
         + Retained(data[1..], before, after)
  }

  function Ids(data: seq<Chunk>): seq<Id> {
    seq(|data|, i requires 0 <= i < |data| => data[i].row.id)
  }

  // ---------------------------------------------------------------- points

  /** `izip!`: the i-th inserted chunk meets the vectors of the i-th prepared chunk. */
  function BuildPoints(cfg: Config, inserted: seq<Chunk>, data: seq<Chunk>): seq<Point>
    requires |inserted| <= |data|
  {
    seq(|inserted|, i requires 0 <= i < |inserted| =>
      Point(
        inserted[i].row,
        inserted[i].groupIds,
        if cfg.semantic then Some(Source(data[i].embeddingContent, data[i].semanticBoost)) else None,
        if cfg.fulltext then Some(Source(data[i].content, data[i].fulltextBoost)) else None,
        if cfg.bm25 then Some(Source(data[i].content, data[i].fulltextBoost)) else None))
  }

  function UpsertPoints(points: Points, ps: seq<Point>): Points
    decreases |ps|
  {
    if ps == [] then points else UpsertPoints(points[ps[0].row.pointId := ps[0]], ps[1..])
  }

  lemma {:induction false} RetainedShorter(data: seq<Chunk>, before: Rows, after: Rows)
    ensures |Retained(data, before, after)| <= |data|
  {
    if data != [] {
      RetainedShorter(data[1..], before, after);
    }
  }

  lemma RetainedNext(data: seq<Chunk>, i: nat, before: Rows, after: Rows)
    requires i < |data|
    ensures Retained(data[i..], before, after) ==
            (if data[i].row.id in after && data[i].row.id !in before then [data[i]] else [])
            + Retained(data[i + 1..], before, after)
  {
    assert data[i..][1..] == data[i + 1..];
  }

  lemma RetainedNone(data: seq<Chunk>, before: Rows, after: Rows)
    ensures Retained(data[|data|..], before, after) == []
  {
  }

  // ---------------------------------------------------------------- the saga

  datatype Stores = Stores(rows: Rows, points: Points)

  /** Where the upload stops. */
  datatype Stage =
    InsertFails | LinkFails | NothingNew | DenseFails | SparseFails | BuildFails | UpsertFails | Completes

  function StageOf(cfg: Config, new_: bool, calls: Calls): Stage {
    if !calls.insert then InsertFails
    else if !calls.link then LinkFails
    else if !new_ then NothingNew
    else if cfg.semantic && !calls.dense then DenseFails
    else if cfg.fulltext && !calls.sparse then SparseFails
    else if !calls.build then BuildFails
    else if !calls.upsert then UpsertFails
    else Completes
  }

  function Inserted(s: Stores, cfg: Config, m: Message): seq<Chunk> {
    var data := Prepared(cfg, m.dataset, m.chunks);
    Retained(data, s.rows, InsertAll(s.rows, Batch(data)))
  }

  /** The upload as a whole: the answer and both stores afterwards. */
  function Upload(s: Stores, cfg: Config, m: Message, calls: Calls): (Result, Stores) {
    var data := Prepared(cfg, m.dataset, m.chunks);
    var rows := InsertAll(s.rows, Batch(data));
    var inserted := Inserted(s, cfg, m);
    var reverted := if calls.revert then Revert(rows, Ids(inserted)) else rows;
    RetainedShorter(data, s.rows, rows);
    match StageOf(cfg, inserted != [], calls)
    case InsertFails => (Err, s)
    case LinkFails => (Err, s.(rows := rows))
    case NothingNew => (Ok([]), s.(rows := rows))
    case DenseFails => (Err, s.(rows := reverted))
    case SparseFails => (Err, s.(rows := reverted))
    case BuildFails => (Err, s.(rows := rows))
    case UpsertFails => (Err, s.(rows := reverted))
    case Completes => (Ok(Ids(inserted)), Stores(rows, UpsertPoints(s.points, BuildPoints(cfg, inserted, data))))
  }

  /** Postgres and Qdrant. */
  class Databases {
    var rows: Rows
    var points: Points

    function Contents(): Stores
      reads this
    {
      Stores(rows, points)
    }

    /** The insert statement: each row that clashes is skipped, the others are returned. */
    method InsertSkippingClashes(batch: seq<Row>) returns (returned: seq<Row>)
      requires Consistent(rows)
      modifies `rows
      ensures rows == InsertAll(old(rows), batch)
      ensures forall id :: (exists r <- returned :: r.id == id) <==> id in rows && id !in old(rows)
    {
      returned := [];
      var i := 0;
      while i < |batch|
        invariant 0 <= i <= |batch| && Consistent(rows)
        invariant InsertAll(rows, batch[i..]) == InsertAll(old(rows), batch)
        invariant old(rows).Keys <= rows.Keys
        invariant forall id :: (exists r <- returned :: r.id == id) <==> id in rows && id !in old(rows)
      {
        var r := batch[i];
        InsertOne(rows, r);
        assert batch[i..][1..] == batch[i + 1..];
        if !(exists k <- rows :: Clash(rows[k], r)) {
          ghost var before := returned;
          rows, returned := rows[r.id := r], returned + [r];
          assert forall x :: x in returned <==> x in before || x == r;
        }
        i := i + 1;
      }
    }

    /** The bulk insert without upsert, with the chunks whose row was returned. */
    method BulkInsert(data: seq<Chunk>) returns (inserted: seq<Chunk>)
      requires Consistent(rows)
      modifies `rows
      ensures rows == InsertAll(old(rows), Batch(data))
      ensures inserted == Retained(data, old(rows), rows)
    {
      hide *;
      var returned := InsertSkippingClashes(Batch(data));
      inserted := [];
      assert data[0..] == data;
      var i := 0;
      while i < |data|
        invariant 0 <= i <= |data| && rows == InsertAll(old(rows), Batch(data))
        invariant inserted + Retained(data[i..], old(rows), rows) == Retained(data, old(rows), rows)
      {
        RetainedNext(data, i, old(rows), rows);
        if exists r <- returned :: r.id == data[i].row.id {
          inserted := inserted + [data[i]];
        }
        i := i + 1;
      }
      RetainedNone(data, old(rows), rows);
    }

    /** The bulk upload, call by call. */
    method BulkUploadChunks(cfg: Config, m: Message, calls: Calls) returns (result: Result)
      requires Consistent(rows)
      modifies this
      ensures (result, Contents()) == Upload(old(Contents()), cfg, m, calls)
    {
      hide Prepared, Retained, InsertAll, Batch, BuildPoints, UpsertPoints, Revert, Ids;
      var data := Prepared(cfg, m.dataset, m.chunks);
      if !calls.insert {
        return Err;
      }
      ghost var before := rows;
      var inserted := BulkInsert(data);
      RetainedShorter(data, before, rows);
      if !calls.link {
        return Err;
      }
      if inserted == [] {
        return Ok([]);
      }
      var ids := Ids(inserted);
      if cfg.semantic && !calls.dense {
        if calls.revert {
          rows := Revert(rows, ids);
        }
        return Err;
      }
      if cfg.fulltext && !calls.sparse {
        if calls.revert {
          rows := Revert(rows, ids);
        }
        return Err;
      }
      var built := BuildPoints(cfg, inserted, data);
      if !calls.build {
        return Err; // no revert here
      }
      if !calls.upsert {
        if calls.revert {
          rows := Revert(rows, ids);
        }
        return Err;
      }
      points := UpsertPoints(points, built);
      return Ok(ids);
    }
  }
}
