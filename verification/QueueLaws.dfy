/** What the work-queue protocol guarantees over every run of any number of workers. */
module QueueLaws {
  import opened RedisLists
  import opened WorkQueue

  /** Reached from the empty system by some interleaving of the steps of any `n` workers. */
  ghost predicate Reachable(limit: nat, s: State) {
    exists n: nat, acts: seq<Action> :: Runs(limit, Init(n), acts, s)
  }

  lemma {:induction false} InitialWorkers(n: nat, p: Probe)
    ensures Claimed(Init(n).workers, p) == 0 && Owed(Init(n).workers, p) == 0
  {
    if n > 0 {
      assert Init(n).workers[1..] == Init(n - 1).workers;
      InitialWorkers(n - 1, p);
    }
  }

  lemma InitInv(limit: nat, n: nat)
    ensures Inv(limit, Init(n))
  {
    forall p: Probe { InitialWorkers(n, p); }
  }

  lemma {:induction false} RunInv(limit: nat, s: State, acts: seq<Action>, t: State)
    requires limit > 0 && Inv(limit, s) && Runs(limit, s, acts, t)
    ensures Inv(limit, t)
    decreases |acts|
  {
    if acts != [] {
      StepInv(limit, s, acts[0]);
      RunInv(limit, Apply(limit, s, acts[0]), acts[1..], t);
    }
  }

  lemma ReachableInv(limit: nat, s: State)
    requires limit > 0 && Reachable(limit, s)
    ensures Inv(limit, s)
  {
    var n: nat, acts: seq<Action> :| Runs(limit, Init(n), acts, s);
    InitInv(limit, n);
    RunInv(limit, Init(n), acts, s);
  }

  // ---------------------------------------------------------------- ledgers

  /** Under every fault, each submitted job is in exactly one place. */
  lemma JobLedger(limit: nat, s: State, payload: string)
    requires limit > 0 && Reachable(limit, s)
    ensures var p := Job(payload);
            Seen(s.log, Submitted, p) ==
            Count(s.queue, p) + Claimed(s.workers, p) + Owed(s.workers, p) + Count(s.dead, p)
            + Seen(s.log, Done, p) + Seen(s.log, Parked, p)
            + Seen(s.log, Unseen, p) + Seen(s.log, Abandoned, p) + Seen(s.log, Dropped, p)
  {
    ReachableInv(limit, s);
    var p := Job(payload);
    assert ArrivalJobs(s, payload) && PoppedOnce(s, p) && Fates(s, p);
    CountConcat(s.queue, Logged(s.log, Popped), p);
  }

  /** The ledger read off the Redis lists: a failed LREM leaves a copy, a fault after LREM loses one. */
  lemma ListLedger(limit: nat, s: State, payload: string)
    requires limit > 0 && Reachable(limit, s)
    ensures var p := Job(payload);
            Seen(s.log, Submitted, p) + Seen(s.log, Copied, p) ==
            Count(s.queue, p) + Count(s.processing, p) + Owed(s.workers, p) + Count(s.dead, p)
            + Seen(s.log, Done, p) + Seen(s.log, Dropped, p)
  {
    ReachableInv(limit, s);
    JobLedger(limit, s, payload);
    assert ProcessingExact(s, Job(payload));
  }

  // ---------------------------------------------------------------- LREM works by value

  /**
    Even under faults and with identical payloads, LREM finds its message and leaves enough
    copies for every claim of every other worker.
   */
  lemma LRemNeverMisses(limit: nat, s: State, a: Action, t: State, m: Message)
    requires limit > 0 && Reachable(limit, s)
    requires Enabled(s, a) && (a.Acknowledge? || a.Remove?) && t == Apply(limit, s, a)
    ensures s.workers[a.w].msg in s.processing
    ensures Claimed(t.workers, This(m)) <= multiset(t.processing)[m]
  {
    ReachableInv(limit, s);
    ClaimIsListed(s, a.w);
    StepInv(limit, s, a);
    assert ProcessingExact(t, This(m));
    CountIsMultiplicity(t.processing, m);
  }

  predicate FaultFree(acts: seq<Action>) {
    forall a <- acts :: !a.Fault()
  }

  predicate Clean(s: State) {
    forall e <- s.log :: e.kind !in {Unseen, Abandoned, Copied, Dropped}
  }

  lemma {:induction false} FaultFreeClean(limit: nat, s: State, acts: seq<Action>, t: State)
    requires FaultFree(acts) && Runs(limit, s, acts, t) && Clean(s)
    ensures Clean(t)
    decreases |acts|
  {
    if acts != [] {
      var u := Apply(limit, s, acts[0]);
      assert acts[0] in acts;
      forall e | e in u.log ensures e.kind !in {Unseen, Abandoned, Copied, Dropped} {
        assert e in Events(s, acts[0]) || e in s.log;
      }
      FaultFreeClean(limit, u, acts[1..], t);
    }
  }

  lemma {:induction false} NothingSeen(log: seq<Event>, k: Kind, p: Probe)
    requires forall e <- log :: e.kind != k
    ensures Seen(log, k, p) == 0
  {
    if log != [] {
      assert log[0] in log;
      NothingSeen(log[1..], k, p);
      assert Logged(log, k) == Logged(log[1..], k);
    }
  }

  /** Reached by a run in which nothing fails. */
  ghost predicate CleanlyReachable(limit: nat, s: State) {
    exists n: nat, acts: seq<Action> :: FaultFree(acts) && Runs(limit, Init(n), acts, s)
  }

  lemma CleanlyReached(limit: nat, s: State)
    requires CleanlyReachable(limit, s)
    ensures Reachable(limit, s) && Clean(s)
  {
    var n: nat, acts: seq<Action> :| FaultFree(acts) && Runs(limit, Init(n), acts, s);
    FaultFreeClean(limit, Init(n), acts, s);
  }

  /**
    Without faults the processing list is, as a multiset, exactly the messages workers claim and
    the parked ones, and no job is ever lost.
   */
  lemma FaultFreeLists(limit: nat, s: State, m: Message)
    requires limit > 0 && CleanlyReachable(limit, s)
    ensures multiset(s.processing)[m] == Claimed(s.workers, This(m)) + multiset(Logged(s.log, Parked))[m]
    ensures var p := Job(m.payload);
            Seen(s.log, Submitted, p) ==
            Count(s.queue, p) + Count(s.processing, p) + Owed(s.workers, p) + Count(s.dead, p) + Seen(s.log, Done, p)
  {
    CleanlyReached(limit, s);
    ReachableInv(limit, s);
    assert ProcessingExact(s, This(m));
    CountIsMultiplicity(s.processing, m);
    CountIsMultiplicity(Logged(s.log, Parked), m);
    ListLedger(limit, s, m.payload);
    NothingSeen(s.log, Unseen, This(m));
    NothingSeen(s.log, Abandoned, This(m));
    NothingSeen(s.log, Copied, This(m));
    NothingSeen(s.log, Copied, Job(m.payload));
    NothingSeen(s.log, Dropped, Job(m.payload));
  }

  // ---------------------------------------------------------------- attempts

  /** How often message `payload` was given to a handler with attempt number `attempt`. */
  function HandledAt(s: State, payload: string, attempt: nat): nat {
    Seen(s.log, Handled, This(Message(payload, attempt)))
  }

  function ByAttempt(ms: seq<Message>, payload: string, limit: nat): nat {
    if limit == 0 then 0
    else Count(ms, This(Message(payload, limit - 1))) + ByAttempt(ms, payload, limit - 1)
  }

  lemma {:induction false} ByAttemptPush(m: Message, ms: seq<Message>, payload: string, limit: nat)
    ensures ByAttempt([m] + ms, payload, limit) ==
            ByAttempt(ms, payload, limit) + if m.payload == payload && m.attempt < limit then 1 else 0
  {
    if limit > 0 {
      ByAttemptPush(m, ms, payload, limit - 1);
      assert ([m] + ms)[1..] == ms;
    }
  }

  /** A job's messages, sorted by attempt number. */
  lemma {:induction false} CountByAttempt(ms: seq<Message>, payload: string, limit: nat)
    requires forall m <- ms :: m.attempt < limit
    ensures Count(ms, Job(payload)) == ByAttempt(ms, payload, limit)
  {
    if ms == [] {
      NoneByAttempt(payload, limit);
    } else {
      assert ms == [ms[0]] + ms[1..] && ms[0] in ms;
      CountByAttempt(ms[1..], payload, limit);
      ByAttemptPush(ms[0], ms[1..], payload, limit);
    }
  }

  lemma {:induction false} NoneByAttempt(payload: string, limit: nat)
    ensures ByAttempt([], payload, limit) == 0
  {
    if limit > 0 {
      NoneByAttempt(payload, limit - 1);
    }
  }

  /** When all attempt numbers agree, counting the job is counting that message. */
  lemma {:induction false} CountOneAttempt(ms: seq<Message>, payload: string, attempt: nat)
    requires forall m <- ms :: m.attempt == attempt
    ensures Count(ms, Job(payload)) == Count(ms, This(Message(payload, attempt)))
  {
    if ms != [] {
      assert ms[0] in ms;
      CountOneAttempt(ms[1..], payload, attempt);
    }
  }

  lemma {:induction false} LoggedFrom(log: seq<Event>, k: Kind, m: Message)
    requires m in Logged(log, k)
    ensures Event(k, m) in log
  {
    if !(log[0].kind == k && log[0].msg == m) {
      LoggedFrom(log[1..], k, m);
    }
  }

  lemma SubmittedAtZero(limit: nat, s: State, payload: string, attempt: nat)
    requires Inv(limit, s)
    ensures Seen(s.log, Submitted, Job(payload)) == Seen(s.log, Submitted, This(Message(payload, 0)))
    ensures attempt > 0 ==> Seen(s.log, Submitted, This(Message(payload, attempt))) == 0
  {
    var ms := Logged(s.log, Submitted);
    forall m | m in ms ensures m.attempt == 0 {
      LoggedFrom(s.log, Submitted, m);
      assert BoundedEvent(limit, Event(Submitted, m));
    }
    CountOneAttempt(ms, payload, 0);
    var later := Message(payload, attempt);
    CountIsMultiplicity(ms, later);
    assert attempt > 0 ==> later !in ms;
  }

  /** First attempts come from submissions only. */
  lemma FirstHandled(limit: nat, s: State, payload: string)
    requires Inv(limit, s)
    ensures HandledAt(s, payload, 0) <= Seen(s.log, Submitted, Job(payload))
  {
    var first := Message(payload, 0);
    assert Arrivals(s, first) && PoppedOnce(s, This(first));
    CountConcat(s.queue, Logged(s.log, Popped), This(first));
    SubmittedAtZero(limit, s, payload, 0);
  }

  /** A retry happens at most once per handling, and each later handling needs one. */
  lemma HandledChain(limit: nat, s: State, payload: string, attempt: nat)
    requires Inv(limit, s)
    ensures HandledAt(s, payload, attempt + 1) <= HandledAt(s, payload, attempt)
  {
    var m, next := Message(payload, attempt), Message(payload, attempt + 1);
    assert Arrivals(s, next) && PoppedOnce(s, This(next)) && Fates(s, This(m));
    CountConcat(s.queue, Logged(s.log, Popped), This(next));
    SubmittedAtZero(limit, s, payload, attempt + 1);
  }

  lemma {:induction false} HandledAtMostSubmitted(limit: nat, s: State, payload: string, attempt: nat)
    requires Inv(limit, s)
    ensures HandledAt(s, payload, attempt) <= Seen(s.log, Submitted, Job(payload))
  {
    if attempt == 0 {
      FirstHandled(limit, s, payload);
    } else {
      HandledChain(limit, s, payload, attempt - 1);
      HandledAtMostSubmitted(limit, s, payload, attempt - 1);
    }
  }

  /** Every dead letter of a job has its own handling at each attempt number below the limit. */
  lemma {:induction false} HandledAtLeastBuried(limit: nat, s: State, payload: string, attempt: nat)
    requires limit > 0 && Inv(limit, s) && attempt < limit
    ensures Count(s.dead, Job(payload)) <= HandledAt(s, payload, attempt)
    decreases limit - attempt
  {
    if attempt == limit - 1 {
      CountOneAttempt(s.dead, payload, attempt);
      assert Fates(s, This(Message(payload, attempt)));
    } else {
      HandledAtLeastBuried(limit, s, payload, attempt + 1);
      HandledChain(limit, s, payload, attempt);
    }
  }

  lemma AddOneMore(n: nat, low: nat, high: nat, total: nat, x: nat)
    requires n > 0 && (n - 1) * low <= total <= (n - 1) * high && low <= x <= high
    ensures n * low <= total + x <= n * high
  {
  }

  lemma {:induction false} HandledSum(limit: nat, s: State, payload: string, upTo: nat)
    requires limit > 0 && Inv(limit, s) && upTo <= limit
    ensures var total := ByAttempt(Logged(s.log, Handled), payload, upTo);
            upTo * Count(s.dead, Job(payload)) <= total <= upTo * Seen(s.log, Submitted, Job(payload))
  {
    if upTo > 0 {
      HandledSum(limit, s, payload, upTo - 1);
      HandledAtMostSubmitted(limit, s, payload, upTo - 1);
      HandledAtLeastBuried(limit, s, payload, upTo - 1);
      AddOneMore(upTo, Count(s.dead, Job(payload)), Seen(s.log, Submitted, Job(payload)),
                 ByAttempt(Logged(s.log, Handled), payload, upTo - 1), HandledAt(s, payload, upTo - 1));
    }
  }

  lemma HandledBelowLimit(limit: nat, s: State)
    requires Inv(limit, s)
    ensures forall m <- Logged(s.log, Handled) :: m.attempt < limit
  {
    forall m | m in Logged(s.log, Handled) ensures m.attempt < limit {
      LoggedFrom(s.log, Handled, m);
      assert BoundedEvent(limit, Event(Handled, m));
    }
  }

  /**
    The attempt bound, under every fault: what is queued or in processing is below the limit, a
    job reaches a handler at most `limit` times per submission, and at least `limit` times per
    dead letter, whose attempt number is `limit - 1`.
   */
  lemma AttemptBound(limit: nat, s: State, payload: string)
    requires limit > 0 && Reachable(limit, s)
    ensures forall m :: m in s.queue || m in s.processing ==> m.attempt < limit
    ensures forall m <- s.dead :: m.attempt == limit - 1
    ensures limit * Count(s.dead, Job(payload)) <= Seen(s.log, Handled, Job(payload))
    ensures Seen(s.log, Handled, Job(payload)) <= limit * Seen(s.log, Submitted, Job(payload))
  {
    ReachableInv(limit, s);
    var ms := Logged(s.log, Handled);
    HandledBelowLimit(limit, s);
    CountByAttempt(ms, payload, limit);
    HandledSum(limit, s, payload, limit);
  }

  /** A job submitted once and dead-lettered was handled exactly once at each attempt number. */
  lemma BuriedAfterEveryAttempt(limit: nat, s: State, payload: string, attempt: nat)
    requires limit > 0 && Reachable(limit, s)
    requires Seen(s.log, Submitted, Job(payload)) == 1 && Message(payload, limit - 1) in s.dead
    ensures HandledAt(s, payload, attempt) == if attempt < limit then 1 else 0
    ensures Seen(s.log, Handled, Job(payload)) == limit
  {
    ReachableInv(limit, s);
    CountOneAttempt(s.dead, payload, limit - 1);
    CountIsMultiplicity(s.dead, Message(payload, limit - 1));
    AttemptBound(limit, s, payload);
    HandledAtMostSubmitted(limit, s, payload, attempt);
    if attempt < limit {
      HandledAtLeastBuried(limit, s, payload, attempt);
    } else {
      HandledBelowLimit(limit, s);
      CountIsMultiplicity(Logged(s.log, Handled), Message(payload, attempt));
    }
    MulGe(limit, Count(s.dead, Job(payload)));
  }

  lemma MulGe(a: nat, b: nat)
    requires b >= 1
    ensures a * b >= a
  {
  }

  // ---------------------------------------------------------------- no starvation

  /** What a run pushes on the queue, newest first. */
  function RunPushed(limit: nat, s: State, acts: seq<Action>, t: State): seq<Message>
    requires Runs(limit, s, acts, t)
    decreases |acts|
  {
    if acts == [] then []
    else RunPushed(limit, Apply(limit, s, acts[0]), acts[1..], t) + Pushed(s, acts[0])
  }

  /** What a run pops, newest first. */
  function RunTaken(limit: nat, s: State, acts: seq<Action>, t: State): seq<Message>
    requires Runs(limit, s, acts, t)
    decreases |acts|
  {
    if acts == [] then []
    else RunTaken(limit, Apply(limit, s, acts[0]), acts[1..], t) + Taken(s, acts[0])
  }

  lemma {:induction false} RunQueue(limit: nat, s: State, acts: seq<Action>, t: State)
    requires Runs(limit, s, acts, t)
    ensures RunPushed(limit, s, acts, t) + s.queue == t.queue + RunTaken(limit, s, acts, t)
    decreases |acts|
  {
    if acts != [] {
      var u := Apply(limit, s, acts[0]);
      StepQueue(limit, s, acts[0]);
      RunQueue(limit, u, acts[1..], t);
      var up, ut := RunPushed(limit, u, acts[1..], t), RunTaken(limit, u, acts[1..], t);
      hide Apply, Enabled, Pushed, Taken;
      Chain(up, Pushed(s, acts[0]), s.queue, u.queue, Taken(s, acts[0]), t.queue, ut);
    }
  }

  lemma Chain<T>(up: seq<T>, a: seq<T>, q0: seq<T>, q1: seq<T>, b: seq<T>, q2: seq<T>, ut: seq<T>)
    requires a + q0 == q1 + b && up + q1 == q2 + ut
    ensures (up + a) + q0 == q2 + (ut + b)
  {
    assert (up + a) + q0 == up + (a + q0);
    assert up + (q1 + b) == (up + q1) + b;
    assert (q2 + ut) + b == q2 + (ut + b);
  }

  /**
    Retries and submissions enter at the other end: a message `d` places from the pop end moves
    one place with every pop whatever else happens, and is the one taken by pop number `d + 1`.
   */
  lemma NoStarvation(limit: nat, s: State, acts: seq<Action>, t: State, d: nat)
    requires Runs(limit, s, acts, t) && d < |s.queue|
    ensures var m := s.queue[|s.queue| - 1 - d];
            var taken := RunTaken(limit, s, acts, t);
            if |taken| <= d
            then |t.queue| > d - |taken| && t.queue[|t.queue| - 1 - (d - |taken|)] == m
            else taken[|taken| - 1 - d] == m
  {
    hide *;
    RunQueue(limit, s, acts, t);
    SameFromTheBack(RunPushed(limit, s, acts, t), s.queue, t.queue, RunTaken(limit, s, acts, t), d);
  }

  lemma SameFromTheBack<T>(a: seq<T>, q0: seq<T>, q1: seq<T>, b: seq<T>, d: nat)
    requires a + q0 == q1 + b && d < |q0|
    ensures if |b| <= d
            then |q1| > d - |b| && q1[|q1| - 1 - (d - |b|)] == q0[|q0| - 1 - d]
            else b[|b| - 1 - d] == q0[|q0| - 1 - d]
  {
    var all := a + q0;
    assert all[|all| - 1 - d] == q0[|q0| - 1 - d];
    assert all == q1 + b;
  }

  // ---------------------------------------------------------------- termination

  /** The steps a message can still cause: four per attempt it has left. */
  function Left(limit: nat, m: Message): nat {
    if m.attempt < limit then 4 * (limit - m.attempt) else 3
  }

  function PcCost(limit: nat, pc: Pc): nat {
    match pc
    case Idle => 0
    case Handling(m) => Left(limit, m) - 1
    case Finishing(m) => Left(limit, m) - 2
    case Failing(m) => Left(limit, m) - 2
    case Requeuing(m) => Left(limit, m) - 3
    case Burying(m) => Left(limit, m) - 3
  }

  function QueueCost(limit: nat, q: seq<Message>): nat {
    if q == [] then 0 else Left(limit, q[0]) + QueueCost(limit, q[1..])
  }

  function WorkersCost(limit: nat, ws: seq<Pc>): nat {
    if ws == [] then 0 else PcCost(limit, ws[0]) + WorkersCost(limit, ws[1..])
  }

  function Cost(limit: nat, s: State): nat {
    QueueCost(limit, s.queue) + WorkersCost(limit, s.workers)
  }

  lemma {:induction false} QueueCostConcat(limit: nat, a: seq<Message>, b: seq<Message>)
    ensures QueueCost(limit, a + b) == QueueCost(limit, a) + QueueCost(limit, b)
  {
    if a == [] {
      assert a + b == b;
    } else {
      assert (a + b)[1..] == a[1..] + b;
      QueueCostConcat(limit, a[1..], b);
    }
  }

  lemma {:induction false} WorkersCostUpdate(limit: nat, ws: seq<Pc>, i: nat, pc: Pc)
    requires i < |ws|
    ensures WorkersCost(limit, ws[i := pc]) == WorkersCost(limit, ws) - PcCost(limit, ws[i]) + PcCost(limit, pc)
  {
    if i == 0 {
      assert ws[0 := pc][1..] == ws[1..];
    } else {
      assert ws[i := pc][1..] == ws[1..][i - 1 := pc];
      WorkersCostUpdate(limit, ws[1..], i - 1, pc);
    }
  }

  lemma QueueCostOne(limit: nat, m: Message)
    ensures QueueCost(limit, [m]) == Left(limit, m)
  {
    assert [m][1..] == [];
  }

  /** Every step except a submission brings the cost down. */
  lemma StepCost(limit: nat, s: State, a: Action)
    requires limit > 0 && Bounded(limit, s) && Enabled(s, a)
    ensures a.Submit? ==> Cost(limit, Apply(limit, s, a)) == Cost(limit, s) + 4 * limit
    ensures !a.Submit? ==> Cost(limit, Apply(limit, s, a)) < Cost(limit, s)
  {
    var t := Apply(limit, s, a);
    StepQueue(limit, s, a);
    QueueCostConcat(limit, Pushed(s, a), s.queue);
    QueueCostConcat(limit, t.queue, Taken(s, a));
    QueueCostOne(limit, Subject(s, a));
    QueueCostOne(limit, Next(Subject(s, a)));
    SubjectBounded(limit, s, a);
    if !a.Submit? {
      WorkersCostUpdate(limit, s.workers, a.w, Moved(limit, s, a));
    }
  }

  function Submissions(acts: seq<Action>): nat {
    if acts == [] then 0 else (if acts[0].Submit? then 1 else 0) + Submissions(acts[1..])
  }

  /** Total work: every other step of a run is paid for by `4 * limit` steps per submission. */
  lemma {:induction false} WorkBound(limit: nat, s: State, acts: seq<Action>, t: State)
    requires limit > 0 && Inv(limit, s) && Runs(limit, s, acts, t)
    ensures |acts| - Submissions(acts) + Cost(limit, t) <= Cost(limit, s) + 4 * limit * Submissions(acts)
    decreases |acts|
  {
    if acts != [] {
      StepInv(limit, s, acts[0]);
      StepCost(limit, s, acts[0]);
      WorkBound(limit, Apply(limit, s, acts[0]), acts[1..], t);
      if acts[0].Submit? {
        Distribute(4 * limit, Submissions(acts[1..]));
      }
    }
  }

  lemma Distribute(a: nat, b: nat)
    ensures a * (b + 1) == a * b + a
  {
  }

  /** From the empty system, `k` submissions cause at most `4 * limit * k` further steps. */
  lemma TotalWork(limit: nat, n: nat, acts: seq<Action>, t: State)
    requires limit > 0 && Runs(limit, Init(n), acts, t)
    ensures |acts| - Submissions(acts) <= 4 * limit * Submissions(acts)
  {
    InitInv(limit, n);
    WorkBound(limit, Init(n), acts, t);
    InitialCost(limit, n);
  }

  lemma {:induction false} InitialCost(limit: nat, n: nat)
    ensures Cost(limit, Init(n)) == 0
  {
    if n > 0 {
      assert Init(n).workers[1..] == Init(n - 1).workers;
      InitialCost(limit, n - 1);
    }
  }

  /** Only a submission can happen next. */
  ghost predicate Quiescent(s: State) {
    forall a: Action :: Enabled(s, a) ==> a.Submit?
  }

  lemma {:induction false} IdleHoldNothing(ws: seq<Pc>, p: Probe)
    requires forall pc <- ws :: pc.Idle?
    ensures Claimed(ws, p) == 0 && Owed(ws, p) == 0
  {
    if ws != [] {
      assert ws[0] in ws;
      IdleHoldNothing(ws[1..], p);
    }
  }

  /**
    No deadlock: the system only rests with an empty queue and idle workers, and then every job
    is done, dead, parked, or was caught by a fault.
   */
  lemma DrainedLedger(limit: nat, s: State, payload: string)
    requires limit > 0 && Reachable(limit, s) && Quiescent(s) && s.workers != []
    ensures s.queue == [] && forall pc <- s.workers :: pc.Idle?
    ensures var p := Job(payload);
            Seen(s.log, Submitted, p) ==
            Seen(s.log, Done, p) + Count(s.dead, p) + Seen(s.log, Parked, p)
            + Seen(s.log, Unseen, p) + Seen(s.log, Abandoned, p) + Seen(s.log, Dropped, p)
  {
    forall w: nat | w < |s.workers| ensures s.workers[w].Idle? {
      assert !Enabled(s, Crash(w));
    }
    assert !Enabled(s, Pop(0));
    IdleHoldNothing(s.workers, Job(payload));
    JobLedger(limit, s, payload);
  }
}
