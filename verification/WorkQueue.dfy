/**
  The Redis work-queue protocol the delete, file, group-update and ingestion workers share,
  as a transition system: any number of workers, every Redis command a step of its own, and
  a fault step at every point where a command or a connection can fail.
 */
module WorkQueue {
  import opened RedisLists

  /** A serialised job: the attempt counter, and everything else in the JSON. */
  datatype Message = Message(payload: string, attempt: nat)

  /** Where a worker is in its loop, with the message it holds. */
  datatype Pc =
    | Idle
    | Handling(msg: Message)   // popped, handler running
    | Finishing(msg: Message)  // handler succeeded, LREM still to come
    | Failing(msg: Message)    // handler failed, inside the retry function before its LREM
    | Requeuing(msg: Message)  // after that LREM, before the lpush back to the queue
    | Burying(msg: Message)    // after that LREM, before the lpush to the dead letters
  {
    /** The worker holds a message whose processing-list entry it has not removed yet. */
    predicate Claims() { Handling? || Finishing? || Failing? }

    /** The worker holds a message that is in no Redis list on its account. */
    predicate Owes() { Requeuing? || Burying? }
  }

  /** What happened to a message. History only: none of it is stored in Redis. */
  datatype Kind =
    | Submitted // pushed by a handler of the API
    | Arrived   // pushed on the queue by anyone
    | Popped    // taken off the queue
    | Unseen    // popped, but the reply never reached a worker
    | Handled   // given to a handler
    | Parked    // left in the processing list on purpose
    | Abandoned // left in the processing list by a fault
    | Copied    // left in the processing list by a failed LREM
    | Done
    | Retried   // pushed back with the next attempt number
    | Dropped   // removed from processing and never pushed anywhere

  datatype Event = Event(kind: Kind, msg: Message)

  /** `log` is the history, newest event first. */
  datatype State = State(
    queue: seq<Message>,
    processing: seq<Message>,
    dead: seq<Message>,
    workers: seq<Pc>,
    log: seq<Event>)

  function Init(n: nat): State {
    State([], [], [], seq(n, i => Idle), [])
  }

  datatype Action =
    | Submit(payload: string)
    | Pop(w: nat)
    | Succeed(w: nat)
    | Fail(w: nat)
    | Park(w: nat)
    | Acknowledge(w: nat)
    | Remove(w: nat)
    | Requeue(w: nat)
    | Bury(w: nat)
    // faults
    | PopReplyLost(w: nat)
    | AcknowledgeFails(w: nat)
    | NoConnection(w: nat)
    | RemoveFails(w: nat)
    | Drop(w: nat)
    | Crash(w: nat)
  {
    predicate Fault() {
      PopReplyLost? || AcknowledgeFails? || NoConnection? || RemoveFails? || Drop? || Crash?
    }
  }

  predicate Enabled(s: State, a: Action) {
    a.Submit? || (
      && a.w < |s.workers|
      && var pc := s.workers[a.w];
      match a
      case Pop(_) => pc.Idle? && s.queue != []
      case PopReplyLost(_) => pc.Idle? && s.queue != []
      case Succeed(_) => pc.Handling?
      case Fail(_) => pc.Handling?
      case Park(_) => pc.Handling?
      case Acknowledge(_) => pc.Finishing?
      case AcknowledgeFails(_) => pc.Finishing?
      case NoConnection(_) => pc.Failing?
      case Remove(_) => pc.Failing?
      case RemoveFails(_) => pc.Failing?
      case Requeue(_) => pc.Requeuing?
      case Bury(_) => pc.Burying?
      case Drop(_) => pc.Owes()
      case Crash(_) => !pc.Idle?)
  }

  /** The message an action is about. */
  function Subject(s: State, a: Action): Message
    requires Enabled(s, a)
  {
    if a.Submit? then Message(a.payload, 0)
    else if a.Pop? || a.PopReplyLost? then s.queue[|s.queue| - 1]
    else s.workers[a.w].msg
  }

  function Next(m: Message): Message {
    Message(m.payload, m.attempt + 1)
  }

  /** What the retry function does next: the incremented counter is compared with `==`. */
  function AfterRemove(limit: nat, m: Message): Pc {
    if m.attempt + 1 == limit then Burying(m) else Requeuing(m)
  }

  /** Where the acting worker is after the action. */
  function Moved(limit: nat, s: State, a: Action): Pc
    requires Enabled(s, a) && !a.Submit?
  {
    var m := Subject(s, a);
    match a
    case Pop(_) => Handling(m)
    case Succeed(_) => Finishing(m)
    case Fail(_) => Failing(m)
    case Remove(_) => AfterRemove(limit, m)
    case RemoveFails(_) => AfterRemove(limit, m)
    case _ => Idle // a crashed process is replaced by a fresh one
  }

  function Events(s: State, a: Action): seq<Event>
    requires Enabled(s, a)
  {
    var m := Subject(s, a);
    match a
    case Submit(_) => [Event(Submitted, m), Event(Arrived, m)]
    case Pop(_) => [Event(Popped, m), Event(Handled, m)]
    case PopReplyLost(_) => [Event(Popped, m), Event(Unseen, m)]
    case Park(_) => [Event(Parked, m)]
    case Acknowledge(_) => [Event(Done, m)]
    case AcknowledgeFails(_) => [Event(Done, m), Event(Copied, m)]
    case NoConnection(_) => [Event(Abandoned, m)]
    case RemoveFails(_) => [Event(Copied, m)]
    case Requeue(_) => [Event(Retried, m), Event(Arrived, Next(m))]
    case Drop(_) => [Event(Dropped, m)]
    case Crash(w) => [Event(if s.workers[w].Owes() then Dropped else Abandoned, m)]
    case _ => []
  }

  function Apply(limit: nat, s: State, a: Action): State
    requires Enabled(s, a)
  {
    var m := Subject(s, a);
    State(
      match a {
        case Submit(_) => LPush(s.queue, m)
        case Requeue(_) => LPush(s.queue, Next(m))
        case Pop(_) => s.queue[..|s.queue| - 1]
        case PopReplyLost(_) => s.queue[..|s.queue| - 1]
        case _ => s.queue
      },
      match a {
        case Pop(_) => LPush(s.processing, m)
        case PopReplyLost(_) => LPush(s.processing, m)
        case Acknowledge(_) => LRem(s.processing, m)
        case Remove(_) => LRem(s.processing, m)
        case _ => s.processing
      },
      if a.Bury? then LPush(s.dead, m) else s.dead,
      if a.Submit? then s.workers else s.workers[a.w := Moved(limit, s, a)],
      Events(s, a) + s.log)
  }

  /** The actions can be taken one after the other from `s`, and lead to `t`. */
  predicate Runs(limit: nat, s: State, acts: seq<Action>, t: State)
    decreases |acts|
  {
    if acts == [] then s == t
    else Enabled(s, acts[0]) && Runs(limit, Apply(limit, s, acts[0]), acts[1..], t)
  }

  // ---------------------------------------------------------------- counting messages

  /** A question to count by: this very message, or this job whatever its attempt number. */
  datatype Probe = This(msg: Message) | Job(payload: string) {
    function Of(m: Message): nat {
      match this
      case This(x) => if m == x then 1 else 0
      case Job(p) => if m.payload == p then 1 else 0
    }
  }

  function Count(ms: seq<Message>, p: Probe): nat {
    if ms == [] then 0 else p.Of(ms[0]) + Count(ms[1..], p)
  }

  /** The messages that workers claim in the processing list. */
  function Claimed(ws: seq<Pc>, p: Probe): nat {
    if ws == [] then 0
    else (if ws[0].Claims() then p.Of(ws[0].msg) else 0) + Claimed(ws[1..], p)
  }

  /** The messages that only a worker still knows of. */
  function Owed(ws: seq<Pc>, p: Probe): nat {
    if ws == [] then 0
    else (if ws[0].Owes() then p.Of(ws[0].msg) else 0) + Owed(ws[1..], p)
  }

  function Logged(log: seq<Event>, k: Kind): seq<Message> {
    if log == [] then []
    else (if log[0].kind == k then [log[0].msg] else []) + Logged(log[1..], k)
  }

  function Seen(log: seq<Event>, k: Kind, p: Probe): nat {
    Count(Logged(log, k), p)
  }

  lemma {:induction false} CountConcat(a: seq<Message>, b: seq<Message>, p: Probe)
    ensures Count(a + b, p) == Count(a, p) + Count(b, p)
  {
    if a == [] {
      assert a + b == b;
    } else {
      assert (a + b)[1..] == a[1..] + b;
      CountConcat(a[1..], b, p);
    }
  }

  /** Counting one message is its multiplicity. */
  lemma {:induction false} CountIsMultiplicity(ms: seq<Message>, m: Message)
    ensures Count(ms, This(m)) == multiset(ms)[m]
  {
    if ms != [] {
      assert ms == [ms[0]] + ms[1..];
      CountIsMultiplicity(ms[1..], m);
    }
  }

  lemma {:induction false} LoggedConcat(a: seq<Event>, b: seq<Event>, k: Kind)
    ensures Logged(a + b, k) == Logged(a, k) + Logged(b, k)
  {
    if a == [] {
      assert a + b == b;
    } else {
      assert (a + b)[1..] == a[1..] + b;
      LoggedConcat(a[1..], b, k);
    }
  }

  lemma {:induction false} CountLRem(ms: seq<Message>, m: Message, p: Probe)
    requires m in ms
    ensures Count(LRem(ms, m), p) == Count(ms, p) - p.Of(m)
  {
    if ms[0] != m {
      CountLRem(ms[1..], m, p);
      CountConcat([ms[0]], LRem(ms[1..], m), p);
    }
  }

  lemma {:induction false} ClaimedUpdate(ws: seq<Pc>, i: nat, pc: Pc, p: Probe)
    requires i < |ws|
    ensures Claimed(ws[i := pc], p) - (if pc.Claims() then p.Of(pc.msg) else 0)
         == Claimed(ws, p) - (if ws[i].Claims() then p.Of(ws[i].msg) else 0)
  {
    if i == 0 {
      assert ws[0 := pc][1..] == ws[1..];
    } else {
      assert ws[i := pc][1..] == ws[1..][i - 1 := pc];
      ClaimedUpdate(ws[1..], i - 1, pc, p);
    }
  }

  lemma {:induction false} OwedUpdate(ws: seq<Pc>, i: nat, pc: Pc, p: Probe)
    requires i < |ws|
    ensures Owed(ws[i := pc], p) - (if pc.Owes() then p.Of(pc.msg) else 0)
         == Owed(ws, p) - (if ws[i].Owes() then p.Of(ws[i].msg) else 0)
  {
    if i == 0 {
      assert ws[0 := pc][1..] == ws[1..];
    } else {
      assert ws[i := pc][1..] == ws[1..][i - 1 := pc];
      OwedUpdate(ws[1..], i - 1, pc, p);
    }
  }

  lemma {:induction false} ClaimCounts(ws: seq<Pc>, i: nat, p: Probe)
    requires i < |ws| && ws[i].Claims()
    ensures Claimed(ws, p) >= p.Of(ws[i].msg)
  {
    if i > 0 {
      ClaimCounts(ws[1..], i - 1, p);
    }
  }

  function TwoEvents(es: seq<Event>, k: Kind, p: Probe): nat {
    (if |es| > 0 && es[0].kind == k then p.Of(es[0].msg) else 0)
    + (if |es| > 1 && es[1].kind == k then p.Of(es[1].msg) else 0)
  }

  lemma SeenOne(e: Event, k: Kind, p: Probe)
    ensures Seen([e], k, p) == if e.kind == k then p.Of(e.msg) else 0
  {
    var ms := if e.kind == k then [e.msg] else [];
    assert [e][1..] == [];
    assert Logged([e], k) == ms + Logged([], k) == ms;
    if e.kind == k {
      assert ms[1..] == [] && Count(ms, p) == p.Of(e.msg) + Count([], p);
    }
  }

  lemma SeenConcat(a: seq<Event>, b: seq<Event>, k: Kind, p: Probe)
    ensures Seen(a + b, k, p) == Seen(a, k, p) + Seen(b, k, p)
  {
    LoggedConcat(a, b, k);
    CountConcat(Logged(a, k), Logged(b, k), p);
  }

  lemma SeenFew(es: seq<Event>, log: seq<Event>, k: Kind, p: Probe)
    requires |es| <= 2
    ensures Seen(es + log, k, p) == TwoEvents(es, k, p) + Seen(log, k, p)
  {
    SeenConcat(es, log, k, p);
    if |es| == 1 {
      assert es == [es[0]];
      SeenOne(es[0], k, p);
    } else if |es| == 2 {
      assert es == [es[0]] + [es[1]];
      SeenConcat([es[0]], [es[1]], k, p);
      SeenOne(es[0], k, p);
      SeenOne(es[1], k, p);
    }
  }

  /** Which steps log which kind of event. */
  predicate Logs(s: State, a: Action, k: Kind)
    requires Enabled(s, a)
  {
    match k
    case Submitted => a.Submit?
    case Arrived => a.Submit? || a.Requeue?
    case Popped => a.Pop? || a.PopReplyLost?
    case Unseen => a.PopReplyLost?
    case Handled => a.Pop?
    case Parked => a.Park?
    case Abandoned => a.NoConnection? || (a.Crash? && !s.workers[a.w].Owes())
    case Copied => a.AcknowledgeFails? || a.RemoveFails?
    case Done => a.Acknowledge? || a.AcknowledgeFails?
    case Retried => a.Requeue?
    case Dropped => a.Drop? || (a.Crash? && s.workers[a.w].Owes())
  }

  function Share(s: State, a: Action, k: Kind, p: Probe): nat
    requires Enabled(s, a)
  {
    if !Logs(s, a, k) then 0
    else p.Of(if k.Arrived? && a.Requeue? then Next(Subject(s, a)) else Subject(s, a))
  }

  lemma EventShare(s: State, a: Action, k: Kind, p: Probe)
    requires Enabled(s, a)
    ensures |Events(s, a)| <= 2 && TwoEvents(Events(s, a), k, p) == Share(s, a, k, p)
  {
  }

  lemma ApplyLog(limit: nat, s: State, a: Action)
    requires Enabled(s, a)
    ensures Apply(limit, s, a).log == Events(s, a) + s.log
  {
  }

  /** How much a step adds to the count of a kind of event. */
  lemma Gained(limit: nat, s: State, a: Action, k: Kind, p: Probe)
    requires Enabled(s, a)
    ensures Seen(Apply(limit, s, a).log, k, p) == Seen(s.log, k, p) + Share(s, a, k, p)
  {
    hide *;
    ApplyLog(limit, s, a);
    EventShare(s, a, k, p);
    SeenFew(Events(s, a), s.log, k, p);
  }

  // ---------------------------------------------------------------- the three lists and the workers, per step

  predicate GivesUpClaim(s: State, a: Action)
    requires Enabled(s, a)
  {
    a.Park? || a.Acknowledge? || a.AcknowledgeFails? || a.NoConnection? || a.Remove? || a.RemoveFails?
    || (a.Crash? && s.workers[a.w].Claims())
  }

  predicate SettlesDebt(s: State, a: Action)
    requires Enabled(s, a)
  {
    a.Requeue? || a.Bury? || a.Drop? || (a.Crash? && s.workers[a.w].Owes())
  }

  /** How a step changes what the workers claim and owe. */
  lemma WorkerShare(limit: nat, s: State, a: Action, p: Probe)
    requires Enabled(s, a)
    ensures Claimed(Apply(limit, s, a).workers, p) ==
            Claimed(s.workers, p) + (if a.Pop? then p.Of(Subject(s, a)) else 0)
            - (if GivesUpClaim(s, a) then p.Of(Subject(s, a)) else 0)
    ensures Owed(Apply(limit, s, a).workers, p) ==
            Owed(s.workers, p) + (if a.Remove? || a.RemoveFails? then p.Of(Subject(s, a)) else 0)
            - (if SettlesDebt(s, a) then p.Of(Subject(s, a)) else 0)
  {
    hide Claimed, Owed, Events;
    if !a.Submit? {
      ClaimedUpdate(s.workers, a.w, Moved(limit, s, a), p);
      OwedUpdate(s.workers, a.w, Moved(limit, s, a), p);
    }
  }

  /** The bookkeeping of one step from `s` to `t`; `n` is what its message counts for. */
  predicate Tally(s: State, a: Action, t: State, p: Probe, n: nat)
    requires Enabled(s, a)
  {
    && (forall k: Kind | k != Arrived :: Seen(t.log, k, p) == Seen(s.log, k, p) + if Logs(s, a, k) then n else 0)
    && Claimed(t.workers, p) ==
       Claimed(s.workers, p) + (if a.Pop? then n else 0) - (if GivesUpClaim(s, a) then n else 0)
    && Owed(t.workers, p) ==
       Owed(s.workers, p) + (if a.Remove? || a.RemoveFails? then n else 0) - (if SettlesDebt(s, a) then n else 0)
    && Count(t.dead, p) == Count(s.dead, p) + if a.Bury? then n else 0
  }

  lemma StepTally(limit: nat, s: State, a: Action, p: Probe)
    requires Enabled(s, a)
    ensures Tally(s, a, Apply(limit, s, a), p, p.Of(Subject(s, a)))
  {
    forall k: Kind { Gained(limit, s, a, k, p); }
    WorkerShare(limit, s, a, p);
    CountConcat([Subject(s, a)], s.dead, p);
  }

  lemma PopSplits(q: seq<Message>, p: Probe)
    requires q != []
    ensures var n := |q| - 1;
            && q == q[..n] + [q[n]]
            && Count(q, p) == Count(q[..n], p) + p.Of(q[n])
  {
    var n := |q| - 1;
    CountConcat(q[..n], [q[n]], p);
    assert [q[n]][1..] == [];
  }

  // ---------------------------------------------------------------- invariants

  /** First in, first out: the arrivals are what is still queued, then what was popped. */
  predicate Fifo(s: State) {
    Logged(s.log, Arrived) == s.queue + Logged(s.log, Popped)
  }

  /** Every arrival is a submission at attempt 0 or the next attempt of a retried message. */
  predicate Arrivals(s: State, m: Message) {
    Seen(s.log, Arrived, This(m)) ==
    Seen(s.log, Submitted, This(m))
    + if m.attempt == 0 then 0 else Seen(s.log, Retried, This(Message(m.payload, m.attempt - 1)))
  }

  /** Every popped message reaches a handler, unless the reply was lost. */
  predicate PoppedOnce(s: State, p: Probe) {
    Seen(s.log, Popped, p) == Seen(s.log, Unseen, p) + Seen(s.log, Handled, p)
  }

  /** Every handled message has exactly one fate. */
  predicate Fates(s: State, p: Probe) {
    Seen(s.log, Handled, p) ==
       Claimed(s.workers, p) + Owed(s.workers, p) + Seen(s.log, Parked, p) + Seen(s.log, Abandoned, p)
       + Seen(s.log, Done, p) + Seen(s.log, Dropped, p) + Seen(s.log, Retried, p) + Count(s.dead, p)
  }

  /** The processing list holds exactly the workers' claims and what was left behind in it. */
  predicate ProcessingExact(s: State, p: Probe) {
    Count(s.processing, p) ==
    Claimed(s.workers, p) + Seen(s.log, Parked, p) + Seen(s.log, Unseen, p) + Seen(s.log, Abandoned, p)
    + Seen(s.log, Copied, p)
  }

  /** Retrying keeps the job, so per job the arrivals are the submissions and the retries. */
  predicate ArrivalJobs(s: State, payload: string) {
    Seen(s.log, Arrived, Job(payload)) ==
    Seen(s.log, Submitted, Job(payload)) + Seen(s.log, Retried, Job(payload))
  }

  predicate BoundedLists(limit: nat, s: State) {
    && (forall m <- s.queue :: m.attempt < limit)
    && (forall m <- s.processing :: m.attempt < limit)
    && (forall m <- s.dead :: m.attempt + 1 == limit)
  }

  /** A worker at work on an attempt below the limit; only the last attempt is ever buried. */
  predicate BoundedPc(limit: nat, pc: Pc) {
    && (!pc.Idle? ==> pc.msg.attempt < limit)
    && (pc.Burying? ==> pc.msg.attempt + 1 == limit)
    && (pc.Requeuing? ==> pc.msg.attempt + 1 < limit)
  }

  predicate BoundedEvent(limit: nat, e: Event) {
    && e.msg.attempt < limit
    && (e.kind == Submitted ==> e.msg.attempt == 0)
    && (e.kind == Retried ==> e.msg.attempt + 1 < limit)
  }

  /** Attempt numbers stay below the limit everywhere. */
  predicate Bounded(limit: nat, s: State) {
    && BoundedLists(limit, s)
    && (forall pc <- s.workers :: BoundedPc(limit, pc))
    && (forall e <- s.log :: BoundedEvent(limit, e))
  }

  ghost predicate Inv(limit: nat, s: State) {
    && Fifo(s)
    && Bounded(limit, s)
    && (forall m :: Arrivals(s, m))
    && (forall p :: PoppedOnce(s, p))
    && (forall p :: Fates(s, p))
    && (forall p :: ProcessingExact(s, p))
    && (forall payload :: ArrivalJobs(s, payload))
  }

  lemma LoggedFew(es: seq<Event>, log: seq<Event>, k: Kind)
    requires |es| <= 2
    ensures Logged(es + log, k) ==
            (if |es| > 0 && es[0].kind == k then [es[0].msg] else [])
            + (if |es| > 1 && es[1].kind == k then [es[1].msg] else [])
            + Logged(log, k)
  {
    LoggedConcat(es, log, k);
    if |es| == 1 {
      assert es[1..] == [];
    } else if |es| == 2 {
      assert es[1..] == [es[1]];
      assert es[1..][1..] == [];
    }
  }

  /** What a step pushes on the queue, and what it pops. */
  function Pushed(s: State, a: Action): seq<Message>
    requires Enabled(s, a)
  {
    if a.Submit? then [Subject(s, a)] else if a.Requeue? then [Next(Subject(s, a))] else []
  }

  function Taken(s: State, a: Action): seq<Message>
    requires Enabled(s, a)
  {
    if a.Pop? || a.PopReplyLost? then [Subject(s, a)] else []
  }

  lemma StepQueue(limit: nat, s: State, a: Action)
    requires Enabled(s, a)
    ensures Pushed(s, a) + s.queue == Apply(limit, s, a).queue + Taken(s, a)
  {
    if a.Pop? || a.PopReplyLost? {
      PopSplits(s.queue, This(Subject(s, a)));
    }
  }

  lemma StepArrived(limit: nat, s: State, a: Action)
    requires Enabled(s, a)
    ensures Logged(Apply(limit, s, a).log, Arrived) == Pushed(s, a) + Logged(s.log, Arrived)
  {
    var es := Events(s, a);
    LoggedFew(es, s.log, Arrived);
    assert Logged(es + s.log, Arrived) == Pushed(s, a) + Logged(s.log, Arrived);
  }

  lemma StepTaken(limit: nat, s: State, a: Action)
    requires Enabled(s, a)
    ensures Logged(Apply(limit, s, a).log, Popped) == Taken(s, a) + Logged(s.log, Popped)
  {
    var es := Events(s, a);
    LoggedFew(es, s.log, Popped);
    assert Logged(es + s.log, Popped) == Taken(s, a) + Logged(s.log, Popped);
  }

  lemma StepFifo(limit: nat, s: State, a: Action)
    requires Enabled(s, a) && Fifo(s)
    ensures Fifo(Apply(limit, s, a))
  {
    StepQueue(limit, s, a);
    StepArrived(limit, s, a);
    StepTaken(limit, s, a);
    var t := Apply(limit, s, a);
    Regroup(Pushed(s, a), s.queue, t.queue, Taken(s, a), Logged(s.log, Popped));
  }

  lemma Regroup<T>(a: seq<T>, b: seq<T>, c: seq<T>, d: seq<T>, rest: seq<T>)
    requires a + b == c + d
    ensures a + (b + rest) == c + (d + rest)
  {
    assert a + (b + rest) == (a + b) + rest;
    assert c + (d + rest) == (c + d) + rest;
  }

  lemma StepArrivals(limit: nat, s: State, a: Action, m: Message)
    requires Enabled(s, a) && Arrivals(s, m)
    ensures Arrivals(Apply(limit, s, a), m)
  {
    Gained(limit, s, a, Arrived, This(m));
    Gained(limit, s, a, Submitted, This(m));
    if m.attempt > 0 {
      Gained(limit, s, a, Retried, This(Message(m.payload, m.attempt - 1)));
    }
  }

  lemma StepArrivalJobs(limit: nat, s: State, a: Action, payload: string)
    requires Enabled(s, a) && ArrivalJobs(s, payload)
    ensures ArrivalJobs(Apply(limit, s, a), payload)
  {
    Gained(limit, s, a, Arrived, Job(payload));
    Gained(limit, s, a, Submitted, Job(payload));
    Gained(limit, s, a, Retried, Job(payload));
  }

  lemma StepFates(s: State, a: Action, t: State, p: Probe, n: nat)
    requires Enabled(s, a) && Tally(s, a, t, p, n)
    requires PoppedOnce(s, p) && Fates(s, p)
    ensures PoppedOnce(t, p) && Fates(t, p)
  {
    hide Seen, Logged, Count, Claimed, Owed;
  }

  /** A worker's claim is always in the processing list, whatever went wrong before. */
  lemma ClaimIsListed(s: State, w: nat)
    requires w < |s.workers| && s.workers[w].Claims()
    requires ProcessingExact(s, This(s.workers[w].msg))
    ensures s.workers[w].msg in s.processing
  {
    var m := s.workers[w].msg;
    ClaimCounts(s.workers, w, This(m));
    CountIsMultiplicity(s.processing, m);
  }

  /** How a step changes the processing list. */
  lemma ProcessingChange(limit: nat, s: State, a: Action, p: Probe)
    requires Enabled(s, a)
    requires a.Acknowledge? || a.Remove? ==> s.workers[a.w].msg in s.processing
    ensures Count(Apply(limit, s, a).processing, p) ==
            Count(s.processing, p) + (if a.Pop? || a.PopReplyLost? then p.Of(Subject(s, a)) else 0)
            - (if a.Acknowledge? || a.Remove? then p.Of(Subject(s, a)) else 0)
  {
    if a.Acknowledge? || a.Remove? {
      CountLRem(s.processing, s.workers[a.w].msg, p);
    }
  }

  lemma StepProcessing(limit: nat, s: State, a: Action, p: Probe)
    requires Enabled(s, a) && ProcessingExact(s, p)
    requires !a.Submit? && s.workers[a.w].Claims() ==> ProcessingExact(s, This(s.workers[a.w].msg))
    ensures ProcessingExact(Apply(limit, s, a), p)
  {
    if a.Acknowledge? || a.Remove? {
      ClaimIsListed(s, a.w);
    }
    ProcessingChange(limit, s, a, p);
    StepTally(limit, s, a, p);
    ProcessingBalance(s, a, Apply(limit, s, a), p, p.Of(Subject(s, a)));
  }

  lemma ProcessingBalance(s: State, a: Action, t: State, p: Probe, n: nat)
    requires Enabled(s, a) && Tally(s, a, t, p, n) && ProcessingExact(s, p)
    requires Count(t.processing, p) ==
             Count(s.processing, p) + (if a.Pop? || a.PopReplyLost? then n else 0)
             - (if a.Acknowledge? || a.Remove? then n else 0)
    ensures ProcessingExact(t, p)
  {
    hide Seen, Logged, Count, Claimed, Owed;
  }

  lemma LRemKeeps(limit: nat, ms: seq<Message>, m: Message)
    requires forall x <- ms :: x.attempt < limit
    ensures forall x <- LRem(ms, m) :: x.attempt < limit
  {
    LRemByValue(ms, m);
    forall x | x in LRem(ms, m) ensures x in ms {
      assert x in multiset(LRem(ms, m));
    }
  }

  lemma SubjectBounded(limit: nat, s: State, a: Action)
    requires limit > 0
    requires Enabled(s, a) && Bounded(limit, s)
    ensures Subject(s, a).attempt < limit
    ensures a.Submit? || BoundedPc(limit, Moved(limit, s, a))
    ensures a.Bury? ==> Subject(s, a).attempt + 1 == limit
    ensures a.Requeue? ==> Subject(s, a).attempt + 1 < limit
  {
    if !a.Submit? {
      assert BoundedPc(limit, s.workers[a.w]);
    }
  }

  lemma StepBounded(limit: nat, s: State, a: Action)
    requires limit > 0
    requires Enabled(s, a) && Bounded(limit, s)
    ensures Bounded(limit, Apply(limit, s, a))
  {
    var t := Apply(limit, s, a);
    var m := Subject(s, a);
    SubjectBounded(limit, s, a);
    LRemKeeps(limit, s.processing, m);
    forall e | e in t.log ensures BoundedEvent(limit, e) {
      assert e in Events(s, a) || e in s.log;
    }
    if !a.Submit? {
      forall pc | pc in t.workers ensures BoundedPc(limit, pc) {
        assert pc == Moved(limit, s, a) || pc in s.workers;
      }
    }
  }

  lemma StepInv(limit: nat, s: State, a: Action)
    requires limit > 0
    requires Enabled(s, a) && Inv(limit, s)
    ensures Inv(limit, Apply(limit, s, a))
  {
    StepFifo(limit, s, a);
    StepBounded(limit, s, a);
    forall m ensures Arrivals(Apply(limit, s, a), m) { StepArrivals(limit, s, a, m); }
    forall p ensures PoppedOnce(Apply(limit, s, a), p) && Fates(Apply(limit, s, a), p) {
      StepTally(limit, s, a, p);
      StepFates(s, a, Apply(limit, s, a), p, p.Of(Subject(s, a)));
    }
    forall p ensures ProcessingExact(Apply(limit, s, a), p) { StepProcessing(limit, s, a, p); }
    forall j ensures ArrivalJobs(Apply(limit, s, a), j) { StepArrivalJobs(limit, s, a, j); }
  }
}
