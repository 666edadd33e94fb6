/**
  The loop of a queue worker and its retry function, as the code runs them: one Redis command
  after the other, with every call able to fail. Each is proved to take only steps of the
  work-queue protocol.
 */
module Worker {
  import opened RedisLists
  import opened WorkQueue

  datatype Service = DeleteDataset | UploadFile | UpdateGroup | Ingest

  /** The attempt number at which a service gives up. */
  function Limit(service: Service): nat {
    if service.Ingest? then 10 else 3
  }

  datatype ServiceError = DuplicateTrackingId | Other

  /** How the handler of a turn ends. */
  datatype Outcome =
    | Ok
    | OkWithoutChunks                              // file worker: nothing to create chunks for
    | Failed(error: ServiceError, isUpdate: bool)  // isUpdate: an ingestion message of the update kind
    | Undecodable

  /** Which of the calls of a turn fail. */
  datatype Faults = Faults(
    popFails: bool,      // brpoplpush never ran
    popReplyLost: bool,  // brpoplpush ran, its reply was lost
    ackFails: bool,      // LREM after a success
    noConnection: bool,  // first connection of the retry function
    lremFails: bool,     // LREM of the retry function
    pushFails: bool)     // its second connection, or the lpush
  {
    predicate None() {
      !popFails && !popReplyLost && !ackFails && !noConnection && !lremFails && !pushFails
    }
  }

  datatype Turn = Turn(outcome: Outcome, faults: Faults)

  datatype Status = Returned | ReturnedError

  /** The three Redis lists of one service. */
  class Redis {
    var queue: seq<Message>
    var processing: seq<Message>
    var dead: seq<Message>
    ghost var log: seq<Event>

    /** The protocol state of a lone worker at `pc` on these lists. */
    ghost function Snapshot(pc: Pc): State
      reads this
    {
      State(queue, processing, dead, [pc], log)
    }

    method BRPopLPush() returns (ok: bool, m: Message)
      modifies `queue, `processing
      ensures ok == (old(queue) != [])
      ensures !ok ==> queue == old(queue) && processing == old(processing)
      ensures ok ==> old(queue) == queue + [m] && processing == LPush(old(processing), m)
    {
      ok, m := queue != [], Message("", 0);
      if ok {
        m := queue[|queue| - 1];
        queue, processing := queue[..|queue| - 1], LPush(processing, m);
      }
    }

    method RemoveFromProcessing(m: Message)
      modifies `processing
      ensures processing == LRem(old(processing), m)
    {
      processing := LRem(processing, m);
    }
  }

  /** The protocol steps worker 0 takes once the handler of `m` has failed. */
  function RetryActions(service: Service, m: Message, error: ServiceError, isUpdate: bool, f: Faults): seq<Action> {
    if service.Ingest? && (error.DuplicateTrackingId? || isUpdate) then [Park(0)]
    else if f.noConnection then [Fail(0), NoConnection(0)]
    else [Fail(0), RemoveAction(f), PushAction(service, m, f)]
  }

  function RemoveAction(f: Faults): Action {
    if f.lremFails then RemoveFails(0) else Remove(0)
  }

  function PushAction(service: Service, m: Message, f: Faults): Action {
    if f.pushFails then Drop(0) else if m.attempt + 1 == Limit(service) then Bury(0) else Requeue(0)
  }

  lemma RunNothing(limit: nat, s: State)
    ensures Runs(limit, s, [], s)
  {
  }

  lemma Run1(limit: nat, s: State, a: Action)
    requires Enabled(s, a)
    ensures Runs(limit, s, [a], Apply(limit, s, a))
  {
    assert [a][1..] == [];
  }

  lemma RunsCons(limit: nat, s: State, a: Action, t: State, rest: seq<Action>, u: State)
    requires Enabled(s, a) && t == Apply(limit, s, a) && Runs(limit, t, rest, u)
    ensures Runs(limit, s, [a] + rest, u)
  {
    assert ([a] + rest)[1..] == rest;
  }

  lemma RunsHead(limit: nat, s: State, acts: seq<Action>, t: State) returns (next: State)
    requires acts != [] && Runs(limit, s, acts, t)
    ensures Enabled(s, acts[0]) && next == Apply(limit, s, acts[0]) && Runs(limit, next, acts[1..], t)
  {
    next := Apply(limit, s, acts[0]);
  }

  lemma {:induction false} RunsJoin(
    limit: nat, s: State, a: seq<Action>, t: State, b: seq<Action>, u: State, ab: seq<Action>)
    requires Runs(limit, s, a, t) && Runs(limit, t, b, u) && ab == a + b
    ensures Runs(limit, s, ab, u)
    decreases |a|
  {
    hide Apply, Enabled;
    if a == [] {
      assert ab == b;
    } else {
      var next := RunsHead(limit, s, a, t);
      assert ab[1..] == a[1..] + b;
      RunsJoin(limit, next, a[1..], t, b, u, ab[1..]);
    }
  }

  lemma RunsConcat(limit: nat, s: State, a: seq<Action>, t: State, b: seq<Action>, u: State)
    requires Runs(limit, s, a, t) && Runs(limit, t, b, u)
    ensures Runs(limit, s, a + b, u)
  {
    RunsJoin(limit, s, a, t, b, u, a + b);
  }

  /** The retry function: what it does to the lists is a path of the protocol. */
  method ReaddErrorToQueue(redis: Redis, service: Service, m: Message, error: ServiceError, isUpdate: bool, f: Faults)
    returns (status: Status)
    modifies redis
    ensures Runs(Limit(service), old(redis.Snapshot(Handling(m))),
                 RetryActions(service, m, error, isUpdate, f), redis.Snapshot(Idle))
    ensures status == if service.Ingest? && (error.DuplicateTrackingId? || isUpdate) then Returned
                      else if f.noConnection || f.pushFails || m.attempt + 1 == Limit(service) then ReturnedError
                      else Returned
  {
    ghost var limit := Limit(service);
    ghost var s0 := redis.Snapshot(Handling(m));
    if service.Ingest? && (error.DuplicateTrackingId? || isUpdate) {
      redis.log := [Event(Parked, m)] + redis.log;
      Run1(limit, s0, Park(0));
      return Returned;
    }
    ghost var s1 := redis.Snapshot(Failing(m));
    assert Apply(limit, s0, Fail(0)) == s1;
    if f.noConnection {
      redis.log := [Event(Abandoned, m)] + redis.log;
      Run1(limit, s1, NoConnection(0));
      RunsCons(limit, s0, Fail(0), s1, [NoConnection(0)], redis.Snapshot(Idle));
      assert [Fail(0)] + [NoConnection(0)] == [Fail(0), NoConnection(0)];
      return ReturnedError;
    }
    RemoveOld(redis, service, m, f);
    ghost var s2 := redis.Snapshot(AfterRemove(limit, m));
    ghost var remove, push := RemoveAction(f), PushAction(service, m, f);
    status := Finish(redis, service, m, f);
    Run1(limit, s2, push);
    RunsCons(limit, s1, remove, s2, [push], redis.Snapshot(Idle));
    RunsCons(limit, s0, Fail(0), s1, [remove] + [push], redis.Snapshot(Idle));
    assert [Fail(0)] + ([remove] + [push]) == [Fail(0), remove, push];
  }

  /** The retry function's LREM of the old serialisation; its failure is ignored. */
  method RemoveOld(redis: Redis, service: Service, m: Message, f: Faults)
    modifies redis
    ensures var s := old(redis.Snapshot(Failing(m)));
            && Enabled(s, RemoveAction(f))
            && redis.Snapshot(AfterRemove(Limit(service), m)) == Apply(Limit(service), s, RemoveAction(f))
  {
    if f.lremFails {
      redis.log := [Event(Copied, m)] + redis.log;
    } else {
      redis.RemoveFromProcessing(m);
    }
  }

  /** The end of the retry function: the limit test with `==`, and the lpush. */
  method Finish(redis: Redis, service: Service, m: Message, f: Faults) returns (status: Status)
    modifies redis
    ensures var limit := Limit(service);
            var s := old(redis.Snapshot(AfterRemove(limit, m)));
            var push := PushAction(service, m, f);
            Enabled(s, push) && redis.Snapshot(Idle) == Apply(limit, s, push)
    ensures status == if f.pushFails || m.attempt + 1 == Limit(service) then ReturnedError else Returned
  {
    var attempt := m.attempt + 1;
    if f.pushFails {
      redis.log := [Event(Dropped, m)] + redis.log;
      return ReturnedError;
    }
    if attempt == Limit(service) {
      redis.dead := LPush(redis.dead, m);
      return ReturnedError;
    }
    redis.queue := LPush(redis.queue, Message(m.payload, attempt));
    redis.log := [Event(Retried, m), Event(Arrived, Next(m))] + redis.log;
    return Returned;
  }

  // ---------------------------------------------------------------- the worker loop

  /** The steps of a turn after its pop. */
  function HandlingActions(service: Service, m: Message, turn: Turn): seq<Action> {
    match turn.outcome
    case Ok => [Succeed(0), if turn.faults.ackFails then AcknowledgeFails(0) else Acknowledge(0)]
    case OkWithoutChunks => [Park(0)]
    case Failed(error, isUpdate) => RetryActions(service, m, error, isUpdate, turn.faults)
    // The delete and file workers panic on undecodable input, the others log it.
    case Undecodable => if service.DeleteDataset? || service.UploadFile? then [Crash(0)] else [Park(0)]
  }

  function TurnActions(service: Service, queue: seq<Message>, turn: Turn): seq<Action> {
    if turn.faults.popFails || queue == [] then []
    else if turn.faults.popReplyLost then [PopReplyLost(0)]
    else [Pop(0)] + HandlingActions(service, queue[|queue| - 1], turn)
  }

  // ---------------------------------------------------------------- what a turn does to the lists

  /** The worker panics: the message was popped and does not decode. */
  predicate Dies(service: Service, queue: seq<Message>, turn: Turn) {
    && queue != [] && !turn.faults.popFails && !turn.faults.popReplyLost
    && turn.outcome.Undecodable? && (service.DeleteDataset? || service.UploadFile?)
  }

  /** `t` has these lists and this history, and an idle worker. */
  predicate Leaves(t: State, queue: seq<Message>, processing: seq<Message>, dead: seq<Message>, log: seq<Event>) {
    t.queue == queue && t.processing == processing && t.dead == dead && t.workers == [Idle] && t.log == log
  }

  /**
    What the handling of `m` leaves: `kept` is the processing list with `m` still in it, and
    `removed` the one without.
   */
  predicate HandledEffect(
    service: Service, m: Message, turn: Turn, queue: seq<Message>, kept: seq<Message>, removed: seq<Message>,
    dead: seq<Message>, log: seq<Event>, t: State)
  {
    var f := turn.faults;
    match turn.outcome
    case Ok =>
      if f.ackFails then Leaves(t, queue, kept, dead, [Event(Done, m), Event(Copied, m)] + log)
      else Leaves(t, queue, removed, dead, [Event(Done, m)] + log)
    case OkWithoutChunks => Leaves(t, queue, kept, dead, [Event(Parked, m)] + log)
    case Failed(error, isUpdate) =>
      if service.Ingest? && (error.DuplicateTrackingId? || isUpdate) then
        Leaves(t, queue, kept, dead, [Event(Parked, m)] + log)
      else if f.noConnection then Leaves(t, queue, kept, dead, [Event(Abandoned, m)] + log)
      else
        var processing := if f.lremFails then kept else removed;
        var copied := if f.lremFails then [Event(Copied, m)] + log else log;
        if f.pushFails then Leaves(t, queue, processing, dead, [Event(Dropped, m)] + copied)
        else if m.attempt + 1 == (if service.Ingest? then 10 else 3) then
          Leaves(t, queue, processing, [m] + dead, copied)
        else
          var next := Message(m.payload, m.attempt + 1);
          Leaves(t, [next] + queue, processing, dead, [Event(Retried, m), Event(Arrived, next)] + copied)
    case Undecodable =>
      var fate := if service.DeleteDataset? || service.UploadFile? then Abandoned else Parked;
      Leaves(t, queue, kept, dead, [Event(fate, m)] + log)
  }

  /** What a whole turn leaves. */
  predicate TurnEffect(service: Service, turn: Turn, s: State, t: State) {
    if turn.faults.popFails || s.queue == [] then Leaves(t, s.queue, s.processing, s.dead, s.log)
    else
      var m, rest := s.queue[|s.queue| - 1], s.queue[..|s.queue| - 1];
      if turn.faults.popReplyLost then
        Leaves(t, rest, [m] + s.processing, s.dead, [Event(Popped, m), Event(Unseen, m)] + s.log)
      else
        HandledEffect(service, m, turn, rest, [m] + s.processing, s.processing, s.dead,
                      [Event(Popped, m), Event(Handled, m)] + s.log, t)
  }

  lemma OneStep(limit: nat, s: State, a: Action, t: State)
    requires Runs(limit, s, [a], t)
    ensures Enabled(s, a) && t == Apply(limit, s, a)
  {
    assert [a][1..] == [];
  }

  lemma TwoSteps(limit: nat, s: State, a: Action, b: Action, t: State) returns (u: State)
    requires Runs(limit, s, [a, b], t)
    ensures Enabled(s, a) && u == Apply(limit, s, a) && Enabled(u, b) && t == Apply(limit, u, b)
  {
    u := RunsHead(limit, s, [a, b], t);
    assert [a, b][1..] == [b];
    OneStep(limit, u, b, t);
  }

  lemma HandledOk(limit: nat, s: State, m: Message, fails: bool, t: State)
    requires s.workers == [Handling(m)]
    requires Runs(limit, s, [Succeed(0), if fails then AcknowledgeFails(0) else Acknowledge(0)], t)
    ensures if fails then Leaves(t, s.queue, s.processing, s.dead, [Event(Done, m), Event(Copied, m)] + s.log)
            else Leaves(t, s.queue, LRem(s.processing, m), s.dead, [Event(Done, m)] + s.log)
  {
    hide Runs, LRem;
    var u := TwoSteps(limit, s, Succeed(0), if fails then AcknowledgeFails(0) else Acknowledge(0), t);
    assert u == State(s.queue, s.processing, s.dead, [Finishing(m)], s.log);
  }

  lemma HandledOnce(limit: nat, s: State, m: Message, a: Action, t: State)
    requires s.workers == [Handling(m)] && (a == Park(0) || a == Crash(0)) && Runs(limit, s, [a], t)
    ensures Leaves(t, s.queue, s.processing, s.dead, [Event(if a.Park? then Parked else Abandoned, m)] + s.log)
  {
    hide Runs, LRem;
    OneStep(limit, s, a, t);
  }

  lemma HandledWithoutConnection(limit: nat, s: State, m: Message, t: State)
    requires s.workers == [Handling(m)] && Runs(limit, s, [Fail(0), NoConnection(0)], t)
    ensures Leaves(t, s.queue, s.processing, s.dead, [Event(Abandoned, m)] + s.log)
  {
    hide Runs, LRem;
    var u := TwoSteps(limit, s, Fail(0), NoConnection(0), t);
    assert u == State(s.queue, s.processing, s.dead, [Failing(m)], s.log);
  }

  lemma HandledByRetry(service: Service, s: State, m: Message, f: Faults, t: State)
    requires s.workers == [Handling(m)]
    requires Runs(Limit(service), s, [Fail(0), RemoveAction(f), PushAction(service, m, f)], t)
    ensures var processing := if f.lremFails then s.processing else LRem(s.processing, m);
            var copied := if f.lremFails then [Event(Copied, m)] + s.log else s.log;
            if f.pushFails then Leaves(t, s.queue, processing, s.dead, [Event(Dropped, m)] + copied)
            else if m.attempt + 1 == Limit(service) then Leaves(t, s.queue, processing, [m] + s.dead, copied)
            else Leaves(t, [Next(m)] + s.queue, processing, s.dead,
                        [Event(Retried, m), Event(Arrived, Next(m))] + copied)
  {
    hide Runs, LRem, Limit;
    var limit := Limit(service);
    var acts := [Fail(0), RemoveAction(f), PushAction(service, m, f)];
    var u := RunsHead(limit, s, acts, t);
    assert u == State(s.queue, s.processing, s.dead, [Failing(m)], s.log);
    assert acts[1..] == [RemoveAction(f), PushAction(service, m, f)];
    var v := TwoSteps(limit, u, RemoveAction(f), PushAction(service, m, f), t);
    RemovedOld(limit, u, m, f, v);
    hide RemoveAction;
    if !f.pushFails && m.attempt + 1 != limit {
      assert t.queue == LPush(v.queue, Next(m));
    }
  }

  lemma RemovedOld(limit: nat, u: State, m: Message, f: Faults, v: State)
    requires u.workers == [Failing(m)] && Enabled(u, RemoveAction(f)) && v == Apply(limit, u, RemoveAction(f))
    ensures v == State(u.queue, if f.lremFails then u.processing else LRem(u.processing, m), u.dead,
                       [AfterRemove(limit, m)], if f.lremFails then [Event(Copied, m)] + u.log else u.log)
  {
    hide LRem, AfterRemove;
  }

  /** The steps of the handling leave what they should. */
  lemma HandledAsPromised(service: Service, s: State, m: Message, turn: Turn, t: State)
    requires s.workers == [Handling(m)] && Runs(Limit(service), s, HandlingActions(service, m, turn), t)
    ensures HandledEffect(service, m, turn, s.queue, s.processing, LRem(s.processing, m), s.dead, s.log, t)
  {
    hide Runs, LRem, Leaves, PushAction, RemoveAction;
    var f, limit := turn.faults, Limit(service);
    match turn.outcome {
      case Ok => HandledOk(limit, s, m, f.ackFails, t);
      case OkWithoutChunks => HandledOnce(limit, s, m, Park(0), t);
      case Undecodable =>
        HandledOnce(limit, s, m, if service.DeleteDataset? || service.UploadFile? then Crash(0) else Park(0), t);
      case Failed(error, isUpdate) =>
        if service.Ingest? && (error.DuplicateTrackingId? || isUpdate) {
          HandledOnce(limit, s, m, Park(0), t);
        } else if f.noConnection {
          HandledWithoutConnection(limit, s, m, t);
        } else {
          HandledByRetry(service, s, m, f, t);
        }
    }
  }

  /** One pass through the loop body; `alive` is false when the worker panicked. */
  method RunTurn(redis: Redis, service: Service, turn: Turn) returns (alive: bool)
    modifies redis
    ensures Runs(Limit(service), old(redis.Snapshot(Idle)), TurnActions(service, old(redis.queue), turn),
                 redis.Snapshot(Idle))
    ensures TurnEffect(service, turn, old(redis.Snapshot(Idle)), redis.Snapshot(Idle))
    ensures alive == !Dies(service, old(redis.queue), turn)
  {
    hide Runs, HandlingActions, Limit, HandledEffect;
    ghost var limit := Limit(service);
    ghost var s0 := redis.Snapshot(Idle);
    ghost var queue0 := redis.queue;
    RunNothing(limit, s0);
    if turn.faults.popFails {
      return true;
    }
    var got, m := redis.BRPopLPush();
    if !got {
      return true;
    }
    assert queue0[..|queue0| - 1] == redis.queue && queue0[|queue0| - 1] == m;
    if turn.faults.popReplyLost {
      redis.log := [Event(Popped, m), Event(Unseen, m)] + redis.log;
      assert Apply(limit, s0, PopReplyLost(0)) == redis.Snapshot(Idle);
      Run1(limit, s0, PopReplyLost(0));
      return true;
    }
    redis.log := [Event(Popped, m), Event(Handled, m)] + redis.log;
    ghost var s1 := redis.Snapshot(Handling(m));
    Run1(limit, s0, Pop(0));
    assert Apply(limit, s0, Pop(0)) == s1;
    alive := Handle(redis, service, m, turn);
    RunsConcat(limit, s0, [Pop(0)], s1, HandlingActions(service, m, turn), redis.Snapshot(Idle));
  }

  /** The match on the handler's result. */
  method Handle(redis: Redis, service: Service, m: Message, turn: Turn) returns (alive: bool)
    modifies redis
    ensures Runs(Limit(service), old(redis.Snapshot(Handling(m))), HandlingActions(service, m, turn),
                 redis.Snapshot(Idle))
    ensures var s := old(redis.Snapshot(Handling(m)));
            HandledEffect(service, m, turn, s.queue, s.processing, LRem(s.processing, m), s.dead, s.log,
                          redis.Snapshot(Idle))
    ensures alive <==> !(turn.outcome.Undecodable? && (service.DeleteDataset? || service.UploadFile?))
  {
    hide Runs, LRem, RetryActions, Limit, HandledEffect;
    ghost var limit := Limit(service);
    ghost var s0 := redis.Snapshot(Handling(m));
    alive := true;
    match turn.outcome {
      case Ok =>
        ghost var s1 := redis.Snapshot(Finishing(m));
        ghost var ack := if turn.faults.ackFails then AcknowledgeFails(0) else Acknowledge(0);
        Run1(limit, s0, Succeed(0));
        assert Apply(limit, s0, Succeed(0)) == s1;
        if turn.faults.ackFails {
          redis.log := [Event(Done, m), Event(Copied, m)] + redis.log;
        } else {
          redis.RemoveFromProcessing(m);
          redis.log := [Event(Done, m)] + redis.log;
        }
        assert Apply(limit, s1, ack) == redis.Snapshot(Idle);
        Run1(limit, s1, ack);
        RunsConcat(limit, s0, [Succeed(0)], s1, [ack], redis.Snapshot(Idle));
        assert [Succeed(0)] + [ack] == [Succeed(0), ack];
      case OkWithoutChunks =>
        redis.log := [Event(Parked, m)] + redis.log;
        assert Apply(limit, s0, Park(0)) == redis.Snapshot(Idle);
        Run1(limit, s0, Park(0));
      case Failed(error, isUpdate) =>
        var _ := ReaddErrorToQueue(redis, service, m, error, isUpdate, turn.faults);
      case Undecodable =>
        if service.DeleteDataset? || service.UploadFile? {
          redis.log := [Event(Abandoned, m)] + redis.log;
          assert Apply(limit, s0, Crash(0)) == redis.Snapshot(Idle);
          Run1(limit, s0, Crash(0));
          alive := false;
        } else {
          redis.log := [Event(Parked, m)] + redis.log;
          assert Apply(limit, s0, Park(0)) == redis.Snapshot(Idle);
          Run1(limit, s0, Park(0));
        }
    }
    HandledAsPromised(service, s0, m, turn, redis.Snapshot(Idle));
  }

  /** A turn in which no call fails and the message decodes takes no fault step. */
  lemma CleanTurn(service: Service, queue: seq<Message>, turn: Turn)
    requires turn.faults.None() && !turn.outcome.Undecodable?
    ensures forall a <- TurnActions(service, queue, turn) :: !a.Fault() && !a.Submit?
  {
  }

  predicate AllClean(turns: seq<Turn>) {
    forall turn <- turns :: turn.faults.None() && !turn.outcome.Undecodable?
  }

  /**
    The worker loop over any sequence of turns (it ends when told to terminate, or by a panic):
    every turn is taken, one after the other, up to a panic; all of it is a path of the protocol,
    and a fault-free one when no call fails. `states` are the states between the turns.
   */
  method RunWorker(redis: Redis, service: Service, turns: seq<Turn>)
    returns (ghost acts: seq<Action>, ghost states: seq<State>)
    modifies redis
    ensures Runs(Limit(service), old(redis.Snapshot(Idle)), acts, redis.Snapshot(Idle))
    ensures AllClean(turns) ==> forall a <- acts :: !a.Fault()
    ensures 1 <= |states| <= |turns| + 1
    ensures states[0] == old(redis.Snapshot(Idle)) && states[|states| - 1] == redis.Snapshot(Idle)
    ensures forall k | 0 <= k < |states| - 1 :: TurnEffect(service, turns[k], states[k], states[k + 1])
    ensures forall k | 0 <= k < |states| - 2 :: !Dies(service, states[k].queue, turns[k])
    ensures |states| <= |turns| ==> |states| > 1 && Dies(service, states[|states| - 2].queue, turns[|states| - 2])
  {
    hide TurnEffect, Dies, TurnActions, Runs;
    acts, states := [], [redis.Snapshot(Idle)];
    RunNothing(Limit(service), redis.Snapshot(Idle));
    var i, alive := 0, true;
    while i < |turns| && alive
      invariant 0 <= i <= |turns| && |states| == i + 1
      invariant Runs(Limit(service), old(redis.Snapshot(Idle)), acts, redis.Snapshot(Idle))
      invariant AllClean(turns) ==> forall a <- acts :: !a.Fault()
      invariant states[0] == old(redis.Snapshot(Idle)) && states[i] == redis.Snapshot(Idle)
      invariant forall k | 0 <= k < i :: TurnEffect(service, turns[k], states[k], states[k + 1])
      invariant forall k | 0 <= k < i - 1 :: !Dies(service, states[k].queue, turns[k])
      invariant if alive then i > 0 ==> !Dies(service, states[i - 1].queue, turns[i - 1])
                else i > 0 && Dies(service, states[i - 1].queue, turns[i - 1])
    {
      ghost var s, queue := redis.Snapshot(Idle), redis.queue;
      alive := RunTurn(redis, service, turns[i]);
      ghost var more := TurnActions(service, queue, turns[i]);
      RunsConcat(Limit(service), old(redis.Snapshot(Idle)), acts, s, more, redis.Snapshot(Idle));
      if AllClean(turns) {
        assert turns[i] in turns;
        CleanTurn(service, queue, turns[i]);
      }
      acts, states := acts + more, states + [redis.Snapshot(Idle)];
      i := i + 1;
    }
  }

  // ---------------------------------------------------------------- a lone worker in the crowd

  /** The same action, taken by worker `w`. */
  function By(a: Action, w: nat): Action
    requires !a.Submit?
  {
    match a
    case Pop(_) => Pop(w)
    case Succeed(_) => Succeed(w)
    case Fail(_) => Fail(w)
    case Park(_) => Park(w)
    case Acknowledge(_) => Acknowledge(w)
    case Remove(_) => Remove(w)
    case Requeue(_) => Requeue(w)
    case Bury(_) => Bury(w)
    case PopReplyLost(_) => PopReplyLost(w)
    case AcknowledgeFails(_) => AcknowledgeFails(w)
    case NoConnection(_) => NoConnection(w)
    case RemoveFails(_) => RemoveFails(w)
    case Drop(_) => Drop(w)
    case Crash(_) => Crash(w)
  }

  /** `s` seen with other workers around: `others[w]` is where the lone worker of `s` stands. */
  function Crowd(s: State, others: seq<Pc>, w: nat): State
    requires |s.workers| == 1 && w < |others|
  {
    s.(workers := others[w := s.workers[0]])
  }

  /** Each step of a lone worker is a step of worker `w` among any others, with the same effect. */
  lemma StepInCrowd(limit: nat, s: State, a: Action, others: seq<Pc>, w: nat)
    requires |s.workers| == 1 && w < |others| && !a.Submit? && Enabled(s, a)
    ensures Enabled(Crowd(s, others, w), By(a, w))
    ensures Apply(limit, Crowd(s, others, w), By(a, w)) == Crowd(Apply(limit, s, a), others, w)
  {
    var c := Crowd(s, others, w);
    assert c.workers[w] == s.workers[0] && a.w == 0;
    var pc := Moved(limit, s, a);
    assert others[w := s.workers[0]][w := pc] == others[w := pc];
  }
}
