/** What a drained migration leaves in the new collection. */
module MigrationLaws {
  import opened Options
  import opened Migration

  // ---------------------------------------------------------------- one message

  ghost predicate Same(a: Points, b: Points, id: Id) {
    (id in a <==> id in b) && (id in a ==> a[id] == b[id])
  }

  /** The target holds the migrated form of the source's point. */
  ghost predicate Good(source: Points, target: Points, id: Id) {
    id in source && id in target && IsMigrated(source[id], target[id])
  }

  lemma {:induction false} UpsertKeeps(target: Points, points: seq<Point>, id: Id)
    requires forall p <- points :: p.id != id
    ensures Same(Upsert(target, points), target, id)
    decreases |points|
  {
    if points != [] {
      assert points[0] in points;
      UpsertKeeps(target[points[0].id := points[0].stored], points[1..], id);
    }
  }

  lemma {:induction false} UpsertSets(target: Points, points: seq<Point>, id: Id, stored: Stored)
    requires forall p <- points :: p.id == id ==> p.stored == stored
    requires (exists p <- points :: p.id == id) || (id in target && target[id] == stored)
    ensures id in Upsert(target, points) && Upsert(target, points)[id] == stored
    decreases |points|
  {
    if points != [] {
      assert points == [points[0]] + points[1..] && points[0] in points;
      UpsertSets(target[points[0].id := points[0].stored], points[1..], id, stored);
    }
  }

  lemma {:induction false} RetrieveExactly(source: Points, ids: seq<Id>, p: Point)
    ensures p in Retrieve(source, ids) <==> p.id in ids && p.id in source && p.stored == source[p.id]
  {
    if ids != [] {
      RetrieveExactly(source, ids[1..], p);
      assert ids == [ids[0]] + ids[1..];
    }
  }

  lemma NewPointsExactly(source: Points, ids: seq<Id>, p: Point)
    requires AllMigratable(source, ids)
    ensures (forall q <- Retrieve(source, ids) :: Migratable(q.stored))
    ensures p in NewPoints(Retrieve(source, ids)) <==>
            p.id in ids && p.id in source && p.stored == WithBm25(source[p.id])
  {
    var points := Retrieve(source, ids);
    RetrieveMigratable(source, ids);
    if p in NewPoints(points) {
      var i :| 0 <= i < |points| && NewPoints(points)[i] == p;
      RetrieveExactly(source, ids, points[i]);
    }
    if p.id in ids && p.id in source && p.stored == WithBm25(source[p.id]) {
      var q := Point(p.id, source[p.id]);
      RetrieveExactly(source, ids, q);
      var i :| 0 <= i < |points| && points[i] == q;
      assert NewPoints(points)[i] == p;
    }
  }

  /** A message that is carried out puts exactly its points in the target, and touches no other. */
  lemma MigrateExactly(source: Points, target: Points, ids: seq<Id>, id: Id)
    requires AllMigratable(source, ids)
    ensures var after := Migrate(source, target, ids);
            if id in ids && id in source then Good(source, after, id) else Same(after, target, id)
  {
    RetrieveMigratable(source, ids);
    var points := NewPoints(Retrieve(source, ids));
    forall p: Point { NewPointsExactly(source, ids, p); }
    if id in ids && id in source {
      var p := Point(id, WithBm25(source[id]));
      assert p in points;
      UpsertSets(target, points, id, p.stored);
      MigratedForm(source[id], p.stored);
    } else {
      UpsertKeeps(target, points, id);
    }
  }

  lemma MigrateNothing(source: Points, target: Points, ids: seq<Id>)
    requires AllMigratable(source, ids)
    requires forall id <- ids :: id in source ==> Good(source, target, id)
    ensures Migrate(source, target, ids) == target
  {
    var after := Migrate(source, target, ids);
    forall id: Id
      ensures id in after <==> id in target
      ensures id in after ==> after[id] == target[id]
    {
      MigrateExactly(source, target, ids, id);
      if id in ids && id in source {
        MigratedForm(source[id], after[id]);
        MigratedForm(source[id], target[id]);
      }
    }
    assert after == target;
  }

  // ---------------------------------------------------------------- the whole drain

  /** What is in place stays in place, through failures, replays and other messages. */
  lemma {:induction false} GoodStays(source: Points, s: State, turns: seq<Turn>, id: Id)
    requires Good(source, s.target, id)
    ensures Good(source, Steps(source, s, turns).target, id)
    decreases |turns|
  {
    if turns != [] {
      if Pops(s, turns[0]) && Applies(source, s.queue[|s.queue| - 1], turns[0]) {
        MigrateExactly(source, s.target, s.queue[|s.queue| - 1], id);
      }
      GoodStays(source, Step(source, s, turns[0]), turns[1..], id);
    }
  }

  /** Replaying a message that was carried out changes nothing, whatever was drained in between. */
  lemma ReplayNothing(source: Points, before: Points, ids: seq<Id>, queue: seq<seq<Id>>, turns: seq<Turn>)
    requires AllMigratable(source, ids)
    ensures var t := Steps(source, State(queue, Migrate(source, before, ids)), turns).target;
            Migrate(source, t, ids) == t
  {
    var s := State(queue, Migrate(source, before, ids));
    forall id | id in ids && id in source ensures Good(source, Steps(source, s, turns).target, id) {
      MigrateExactly(source, before, ids, id);
      GoodStays(source, s, turns, id);
    }
    MigrateNothing(source, Steps(source, s, turns).target, ids);
  }

  /** The turn does not pop a message with points in vain. */
  predicate Harmless(s: State, turn: Turn) {
    Pops(s, turn) ==> turn.Works? || s.queue[|s.queue| - 1] == []
  }

  /** No message with points met a failing turn. */
  predicate NoLoss(source: Points, s: State, turns: seq<Turn>)
    decreases |turns|
  {
    turns == [] || (Harmless(s, turns[0]) && NoLoss(source, Step(source, s, turns[0]), turns[1..]))
  }

  lemma {:induction false} OtherIdsStay(source: Points, s: State, turns: seq<Turn>, id: Id)
    requires id !in Flat(s.queue)
    ensures Same(Steps(source, s, turns).target, s.target, id)
    decreases |turns|
  {
    if turns != [] {
      if Pops(s, turns[0]) && Applies(source, s.queue[|s.queue| - 1], turns[0]) {
        MigrateExactly(source, s.target, s.queue[|s.queue| - 1], id);
      }
      OtherIdsStay(source, Step(source, s, turns[0]), turns[1..], id);
    }
  }

  ghost predicate Complete(source: Points, target: Points, ids: seq<Id>) {
    forall id <- ids :: Good(source, target, id)
  }

  ghost predicate Fresh(source: Points, target: Points, ids: seq<Id>) {
    forall id <- ids :: id in source && id !in target
  }

  lemma Apart(a: seq<Id>, b: seq<Id>, id: Id)
    requires Sorted(a + b) && id in a
    ensures id !in b && id in a + b
  {
    var i :| 0 <= i < |a| && a[i] == id;
    forall j | 0 <= j < |b| ensures b[j] != id {
      assert (a + b)[i] < (a + b)[|a| + j];
    }
  }

  /** One turn of the drain, for the ids of its own message. */
  lemma FirstMessage(source: Points, s: State, turns: seq<Turn>)
    requires turns != [] && Pops(s, turns[0]) && Sorted(Flat(s.queue)) && Fresh(source, s.target, Flat(s.queue))
    ensures var ids := s.queue[|s.queue| - 1];
            Complete(source, Steps(source, s, turns).target, ids)
            <==> Harmless(s, turns[0]) && AllMigratable(source, ids)
  {
    var ids, t := s.queue[|s.queue| - 1], Step(source, s, turns[0]);
    var rest := Flat(t.queue);
    assert Flat(s.queue) == ids + rest;
    forall id | id in ids
      ensures id in source
      ensures Good(source, Steps(source, s, turns).target, id) <==> Applies(source, ids, turns[0])
    {
      Apart(ids, rest, id);
      OtherIdsStay(source, t, turns[1..], id);
      if Applies(source, ids, turns[0]) {
        MigrateExactly(source, s.target, ids, id);
      }
    }
    if ids != [] {
      assert ids[0] in ids;
    }
  }

  /** The remaining ids are as fresh after a turn as before. */
  lemma StillFresh(source: Points, s: State, turn: Turn)
    requires Sorted(Flat(s.queue)) && Fresh(source, s.target, Flat(s.queue))
    ensures var t := Step(source, s, turn);
            Sorted(Flat(t.queue)) && Fresh(source, t.target, Flat(t.queue))
  {
    if Pops(s, turn) {
      var ids, t := s.queue[|s.queue| - 1], Step(source, s, turn);
      var rest := Flat(t.queue);
      assert Flat(s.queue) == ids + rest;
      forall i, j | 0 <= i < j < |rest| ensures rest[i] < rest[j] {
        assert Flat(s.queue)[|ids| + i] < Flat(s.queue)[|ids| + j];
      }
      forall id | id in rest ensures id in source && id !in t.target {
        assert id in Flat(s.queue);
        assert id !in ids by { forall x | x in ids { Apart(ids, rest, x); } }
        if Applies(source, ids, turn) {
          MigrateExactly(source, s.target, ids, id);
        }
      }
    }
  }

  lemma {:induction false} DrainExactly(source: Points, s: State, turns: seq<Turn>)
    requires Sorted(Flat(s.queue)) && Fresh(source, s.target, Flat(s.queue))
    requires Steps(source, s, turns).queue == []
    ensures Complete(source, Steps(source, s, turns).target, Flat(s.queue))
       <==> NoLoss(source, s, turns) && AllMigratable(source, Flat(s.queue))
    decreases |turns|
  {
    if turns != [] {
      var t := Step(source, s, turns[0]);
      StillFresh(source, s, turns[0]);
      DrainExactly(source, t, turns[1..]);
      if Pops(s, turns[0]) {
        FirstMessage(source, s, turns);
        assert Flat(s.queue) == s.queue[|s.queue| - 1] + Flat(t.queue);
      }
    }
  }

  /**
    Completeness, exactly: after the messages of a collection were queued and the queue was drained
    into an empty target, every source point is there in its migrated form if and only if no
    message with points met a failing call and no point makes the worker panic. A failed message
    is not in the dead letters either: the push there is built but never sent.
   */
  lemma MigrationExactly(source: Points, ids: seq<Id>, limit: nat, turns: seq<Turn>)
    requires Sorted(ids) && limit > 0 && forall id :: id in ids <==> id in source
    requires Steps(source, State(Pushes([], Pages(ids, 0, limit)), map[]), turns).queue == []
    ensures var s := State(Pushes([], Pages(ids, 0, limit)), map[]);
            (forall id <- source :: Good(source, Steps(source, s, turns).target, id))
            <==> NoLoss(source, s, turns) && forall id <- source :: Migratable(source[id])
  {
    var s := State(Pushes([], Pages(ids, 0, limit)), map[]);
    PagesPartition(ids, limit, []);
    assert Flat(s.queue) == ids;
    DrainExactly(source, s, turns);
    hide Pages, Steps, NoLoss, Flat, Pushes;
  }

  /** One point whose upsert fails once: the queue is empty, and the point is neither there nor anywhere else. */
  lemma FailedMessageIsLost(p: Stored, more: seq<Turn>)
    requires Migratable(p)
    ensures var s := State(Pushes([], Pages([1], 0, 1000)), map[]);
            Steps(map[1 := p], s, [UpsertFails] + more) == State([], map[])
  {
    var s := State(Pushes([], Pages([1], 0, 1000)), map[]);
    assert Pages([1], 0, 1000) == [[1]];
    assert Pushes([], [[1]]) == [[1]] by {
      assert [[1]][1..] == [];
    }
    var t := Step(map[1 := p], s, UpsertFails);
    assert t == State([], map[]);
    assert ([UpsertFails] + more)[1..] == more;
    NothingQueued(map[1 := p], t, more);
  }

  lemma {:induction false} NothingQueued(source: Points, s: State, turns: seq<Turn>)
    requires s.queue == []
    ensures Steps(source, s, turns) == s
    decreases |turns|
  {
    if turns != [] {
      NothingQueued(source, s, turns[1..]);
    }
  }
}
