/**
  The BM25 migration: a cursor scroll fills a queue with pages of point ids, and a worker drains
  it, copying each point with its BM25 vector into the new collection.
 */
module Migration {
  import opened RedisLists
  import opened Options

  /** A point id; UUIDs in their order, so the nil UUID is 0. */
  type Id = nat

  // ---------------------------------------------------------------- the scroll

  predicate Sorted(ids: seq<Id>) {
    forall i, j | 0 <= i < j < |ids| :: ids[i] < ids[j]
  }

  /** The ids at or after the cursor. */
  function From(ids: seq<Id>, offset: Id): (rest: seq<Id>)
    ensures |rest| <= |ids|
  {
    if ids == [] || ids[0] >= offset then ids else From(ids[1..], offset)
  }

  /** One page, and the first id behind it as the next cursor. */
  function Scroll(ids: seq<Id>, offset: Id, limit: nat): (seq<Id>, Option<Id>) {
    var rest := From(ids, offset);
    if |rest| <= limit then (rest, None) else (rest[..limit], Some(rest[limit]))
  }

  lemma {:induction false} FromSuffix(ids: seq<Id>, offset: Id, k: nat)
    requires Sorted(ids) && k < |From(ids, offset)|
    ensures From(ids, From(ids, offset)[k]) == From(ids, offset)[k..]
  {
    if ids[0] >= offset {
      FromAt(ids, k);
    } else {
      FromSuffix(ids[1..], offset, k);
      FromMember(ids[1..], offset, k);
    }
  }

  lemma {:induction false} FromAt(ids: seq<Id>, k: nat)
    requires Sorted(ids) && k < |ids|
    ensures From(ids, ids[k]) == ids[k..]
  {
    if k > 0 {
      FromAt(ids[1..], k - 1);
      assert ids[1..][k - 1..] == ids[k..];
    }
  }

  lemma {:induction false} FromMember(ids: seq<Id>, offset: Id, k: nat)
    requires k < |From(ids, offset)|
    ensures From(ids, offset)[k] in ids
  {
    if ids[0] < offset {
      FromMember(ids[1..], offset, k);
    }
  }

  /** The pages from a cursor on. */
  function Pages(ids: seq<Id>, offset: Id, limit: nat): (pages: seq<seq<Id>>)
    requires Sorted(ids) && limit > 0
    ensures pages != []
    decreases |From(ids, offset)|
  {
    var (page, next) := Scroll(ids, offset, limit);
    if next.None? then [page]
    else FromSuffix(ids, offset, limit); [page] + Pages(ids, next.value, limit)
  }

  // ---------------------------------------------------------------- the queue

  function Pushes(queue: seq<seq<Id>>, pages: seq<seq<Id>>): seq<seq<Id>>
    decreases |pages|
  {
    if pages == [] then queue else Pushes(LPush(queue, pages[0]), pages[1..])
  }

  /** The ids in the queue, in the order in which they are popped. */
  function Flat(queue: seq<seq<Id>>): seq<Id> {
    if queue == [] then [] else queue[|queue| - 1] + Flat(queue[..|queue| - 1])
  }

  lemma {:induction false} FlatPush(queue: seq<seq<Id>>, page: seq<Id>)
    ensures Flat(LPush(queue, page)) == Flat(queue) + page
  {
    var longer := LPush(queue, page);
    if queue == [] {
      assert longer[..0] == [];
    } else {
      var front := queue[..|queue| - 1];
      FlatPush(front, page);
      assert longer[..|longer| - 1] == LPush(front, page);
    }
  }

  /** The first page, and what comes after it. */
  lemma PagesUnfold(ids: seq<Id>, offset: Id, limit: nat)
    requires Sorted(ids) && limit > 0
    ensures var (page, next) := Scroll(ids, offset, limit);
            var pages, rest := Pages(ids, offset, limit), From(ids, offset);
            && pages[0] == page && |page| <= limit
            && if next.None? then pages[1..] == [] && page == rest
               else
                 && pages[1..] == Pages(ids, next.value, limit) && page != [] && |page| == limit
                 && rest == page + From(ids, next.value) && |From(ids, next.value)| < |rest|
  {
    var rest := From(ids, offset);
    if |rest| > limit {
      FromSuffix(ids, offset, limit);
      assert rest == rest[..limit] + rest[limit..];
      assert Pages(ids, offset, limit) == [rest[..limit]] + Pages(ids, rest[limit], limit);
    }
  }

  lemma {:induction false} PageSizes(ids: seq<Id>, offset: Id, limit: nat)
    requires Sorted(ids) && limit > 0
    ensures forall page <- Pages(ids, offset, limit) :: |page| <= limit && (page == [] ==> From(ids, offset) == [])
    ensures var pages := Pages(ids, offset, limit);
            forall k | 0 <= k < |pages| - 1 :: |pages[k]| == limit
    decreases |From(ids, offset)|
  {
    PagesUnfold(ids, offset, limit);
    var pages := Pages(ids, offset, limit);
    var (page, next) := Scroll(ids, offset, limit);
    if next.Some? {
      hide Pages, Scroll, Sorted;
      PageSizes(ids, next.value, limit);
    }
    hide *;
    assert pages == [pages[0]] + pages[1..];
    forall k | 0 <= k < |pages| - 1 ensures |pages[k]| == limit {
      assert k > 0 ==> pages[k] == pages[1..][k - 1];
    }
  }

  lemma {:induction false} PagesFlat(ids: seq<Id>, offset: Id, limit: nat, queue: seq<seq<Id>>)
    requires Sorted(ids) && limit > 0
    ensures Flat(Pushes(queue, Pages(ids, offset, limit))) == Flat(queue) + From(ids, offset)
    decreases |From(ids, offset)|
  {
    PagesUnfold(ids, offset, limit);
    var (page, next) := Scroll(ids, offset, limit);
    var pages := Pages(ids, offset, limit);
    assert Pushes(queue, pages) == Pushes(LPush(queue, page), pages[1..]);
    hide *;
    FlatPush(queue, page);
    if next.Some? {
      PagesFlat(ids, next.value, limit, LPush(queue, page));
      assert (Flat(queue) + page) + From(ids, next.value) == Flat(queue) + (page + From(ids, next.value));
    } else {
      PushesNone(LPush(queue, page));
    }
  }

  lemma PushesNone(queue: seq<seq<Id>>)
    ensures Pushes(queue, []) == queue
  {
  }

  /**
    The messages of a collection partition its ids: popped in order they give every id exactly
    once, page by page; every page but the last is full, and only an empty collection has an empty
    page.
   */
  lemma PagesPartition(ids: seq<Id>, limit: nat, queue: seq<seq<Id>>)
    requires Sorted(ids) && limit > 0
    ensures Flat(Pushes(queue, Pages(ids, 0, limit))) == Flat(queue) + ids
    ensures forall page <- Pages(ids, 0, limit) :: |page| <= limit && (page == [] ==> ids == [])
    ensures var pages := Pages(ids, 0, limit);
            forall k | 0 <= k < |pages| - 1 :: |pages[k]| == limit
  {
    PagesFlat(ids, 0, limit, queue);
    PageSizes(ids, 0, limit);
  }

  lemma PushesOne(queue: seq<seq<Id>>, pages: seq<seq<Id>>, k: nat)
    requires k < |pages|
    ensures Pushes(queue, pages[..k + 1]) == LPush(Pushes(queue, pages[..k]), pages[k])
    decreases k
  {
    if k == 0 {
      assert pages[..1][1..] == [] && pages[..0] == [];
    } else {
      PushesOne(LPush(queue, pages[0]), pages[1..], k - 1);
      assert pages[..k + 1][1..] == pages[1..][..k] && pages[..k][1..] == pages[1..][..k - 1];
    }
  }

  // ---------------------------------------------------------------- one point

  datatype Value = Text(text: string) | Other(json: string)

  /** `Bm25` is the vector computed from a content. */
  datatype Vector = Given(data: string) | Bm25(content: string)

  datatype Stored = Stored(payload: map<string, Value>, vectors: Option<map<string, Vector>>)

  type Points = map<Id, Stored>

  const CONTENT := "content"
  const BM25_VECTORS := "bm25_vectors"

  /** The code panics on any other point. */
  predicate Migratable(p: Stored) {
    CONTENT in p.payload && p.payload[CONTENT].Text? && p.vectors.Some?
  }

  function WithBm25(p: Stored): Stored
    requires Migratable(p)
  {
    p.(vectors := Some(p.vectors.value[BM25_VECTORS := Bm25(p.payload[CONTENT].text)]))
  }

  /** `t` is the migrated form of `p`: payload and other vectors as they were, and the BM25 vector of the content. */
  predicate IsMigrated(p: Stored, t: Stored) {
    && Migratable(p) && t.payload == p.payload && t.vectors.Some?
    && t.vectors.value.Keys == p.vectors.value.Keys + {BM25_VECTORS}
    && t.vectors.value[BM25_VECTORS] == Bm25(p.payload[CONTENT].text)
    && forall name <- p.vectors.value :: name != BM25_VECTORS ==> t.vectors.value[name] == p.vectors.value[name]
  }

  lemma MigratedForm(p: Stored, t: Stored)
    requires Migratable(p)
    ensures IsMigrated(p, t) <==> t == WithBm25(p)
  {
    if IsMigrated(p, t) {
      assert t.vectors.value == WithBm25(p).vectors.value;
    }
  }

  datatype Point = Point(id: Id, stored: Stored)

  /** `get_points`: ids that are gone are left out. */
  function Retrieve(source: Points, ids: seq<Id>): seq<Point> {
    if ids == [] then []
    else (if ids[0] in source then [Point(ids[0], source[ids[0]])] else []) + Retrieve(source, ids[1..])
  }

  function NewPoints(points: seq<Point>): seq<Point>
    requires forall p <- points :: Migratable(p.stored)
  {
    seq(|points|, i requires 0 <= i < |points| =>
      assert points[i] in points; Point(points[i].id, WithBm25(points[i].stored)))
  }

  function Upsert(target: Points, points: seq<Point>): Points
    decreases |points|
  {
    if points == [] then target else Upsert(target[points[0].id := points[0].stored], points[1..])
  }

  // ---------------------------------------------------------------- the drain

  datatype Turn =
    | NothingPopped // timeout, or an error before the pop
    | Unread        // popped, but the reply was lost or did not decode
    | GetFails
    | UpsertFails
    | Works

  predicate AllMigratable(source: Points, ids: seq<Id>) {
    forall id <- ids :: id in source ==> Migratable(source[id])
  }

  /** The message is carried out. */
  predicate Applies(source: Points, ids: seq<Id>, turn: Turn) {
    turn.Works? && ids != [] && AllMigratable(source, ids)
  }

  lemma {:induction false} RetrieveMigratable(source: Points, ids: seq<Id>)
    ensures AllMigratable(source, ids) <==> forall p <- Retrieve(source, ids) :: Migratable(p.stored)
  {
    if ids != [] {
      var rest := Retrieve(source, ids[1..]);
      RetrieveMigratable(source, ids[1..]);
      assert ids == [ids[0]] + ids[1..];
      if ids[0] in source {
        var first := Point(ids[0], source[ids[0]]);
        assert Retrieve(source, ids) == [first] + rest && first in [first] + rest;
        assert forall p <- rest :: p in [first] + rest;
      } else {
        assert Retrieve(source, ids) == rest;
      }
    }
  }

  function Migrate(source: Points, target: Points, ids: seq<Id>): Points
    requires AllMigratable(source, ids)
  {
    RetrieveMigratable(source, ids);
    Upsert(target, NewPoints(Retrieve(source, ids)))
  }

  datatype State = State(queue: seq<seq<Id>>, target: Points)

  predicate Pops(s: State, turn: Turn) {
    !turn.NothingPopped? && s.queue != []
  }

  function Step(source: Points, s: State, turn: Turn): State {
    if !Pops(s, turn) then s
    else
      var ids := s.queue[|s.queue| - 1];
      State(s.queue[..|s.queue| - 1], if Applies(source, ids, turn) then Migrate(source, s.target, ids) else s.target)
  }

  function Steps(source: Points, s: State, turns: seq<Turn>): State
    decreases |turns|
  {
    if turns == [] then s else Steps(source, Step(source, s, turns[0]), turns[1..])
  }

  lemma {:induction false} StepsSnoc(source: Points, s: State, turns: seq<Turn>, turn: Turn)
    ensures Steps(source, s, turns + [turn]) == Step(source, Steps(source, s, turns), turn)
    decreases |turns|
  {
    if turns == [] {
      assert turns + [turn] == [turn] && [turn][1..] == [];
    } else {
      assert (turns + [turn])[1..] == turns[1..] + [turn];
      StepsSnoc(source, Step(source, s, turns[0]), turns[1..], turn);
    }
  }

  /** The process ends: a message with points was popped, and they cannot be fetched or one is malformed. */
  predicate Dies(source: Points, s: State, turn: Turn) {
    && Pops(s, turn) && !turn.Unread?
    && var ids := s.queue[|s.queue| - 1];
    ids != [] && (turn.GetFails? || !AllMigratable(source, ids))
  }

  /** The Redis list of messages and the new collection. */
  class Reindex {
    var queue: seq<seq<Id>>
    var target: Points

    ghost function Snapshot(): State
      reads this
    {
      State(queue, target)
    }

    /** The producer; it stops early when the `fails`-th scroll or push fails. */
    method QueueCollection(ids: seq<Id>, limit: nat, fails: Option<nat>) returns (ok: bool)
      requires Sorted(ids) && limit > 0
      modifies `queue
      ensures var pages := Pages(ids, 0, limit);
              ok == (fails.None? || fails.value >= |pages|)
              && queue == Pushes(old(queue), if ok then pages else pages[..fails.value])
    {
      ghost var pages := Pages(ids, 0, limit);
      var pushed: nat := 0;
      var offset: Option<Id> := Some(0);
      while offset.Some?
        invariant pushed <= |pages| && queue == Pushes(old(queue), pages[..pushed])
        invariant offset.Some? <==> pushed < |pages|
        invariant offset.Some? ==> pages[pushed..] == Pages(ids, offset.value, limit)
        invariant fails.Some? ==> fails.value >= pushed
        decreases |pages| - pushed
      {
        if fails == Some(pushed) {
          return false;
        }
        var (page, next) := Scroll(ids, offset.value, limit);
        assert pages[pushed] == page && pages[pushed + 1..] == pages[pushed..][1..];
        PushesOne(old(queue), pages, pushed);
        queue := LPush(queue, page);
        pushed, offset := pushed + 1, next;
      }
      assert pages[..|pages|] == pages;
      return true;
    }

    /** One pass of the drain loop; the process ends when the points cannot be fetched, or by a panic. */
    method Turn1(source: Points, turn: Turn) returns (alive: bool)
      modifies this
      ensures Snapshot() == Step(source, old(Snapshot()), turn)
      ensures alive == !Dies(source, old(Snapshot()), turn)
    {
      if turn.NothingPopped? || queue == [] {
        return true;
      }
      var ids := queue[|queue| - 1];
      queue := queue[..|queue| - 1];
      if turn.Unread? || ids == [] {
        return true;
      }
      if turn.GetFails? {
        return false;
      }
      var points := Retrieve(source, ids);
      RetrieveMigratable(source, ids);
      if exists p <- points :: !Migratable(p.stored) {
        return false;
      }
      var newPoints := NewPoints(points);
      if turn.UpsertFails? {
        return true; // the push to the dead letters is built but never sent
      }
      target := Upsert(target, newPoints);
      return true;
    }

    /** The drain loop of one process: it takes every turn, up to the one in which the process ends. */
    method Drain(source: Points, turns: seq<Turn>) returns (done: nat)
      modifies this
      ensures done <= |turns| && Snapshot() == Steps(source, old(Snapshot()), turns[..done])
      ensures forall k | 0 <= k < done - 1 :: !Dies(source, Steps(source, old(Snapshot()), turns[..k]), turns[k])
      ensures done < |turns| ==>
                done > 0 && Dies(source, Steps(source, old(Snapshot()), turns[..done - 1]), turns[done - 1])
    {
      hide Dies, Step;
      var alive := true;
      done := 0;
      while done < |turns| && alive
        invariant done <= |turns| && Snapshot() == Steps(source, old(Snapshot()), turns[..done])
        invariant forall k | 0 <= k < done - 1 :: !Dies(source, Steps(source, old(Snapshot()), turns[..k]), turns[k])
        invariant done > 0 ==>
                    alive == !Dies(source, Steps(source, old(Snapshot()), turns[..done - 1]), turns[done - 1])
        invariant !alive ==> done > 0
      {
        alive := Turn1(source, turns[done]);
        StepsSnoc(source, old(Snapshot()), turns[..done], turns[done]);
        assert turns[..done] + [turns[done]] == turns[..done + 1];
        done := done + 1;
      }
    }
  }
}
