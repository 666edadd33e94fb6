/**
  Deferred deletion of an organization: the API soft-deletes the datasets it finds, queues a
  message for each, flags the organization in Postgres and then marks it in Redis; every delete
  worker that has removed a dataset checks the mark, then the remaining datasets, and then deletes
  the organization. All of these are steps of their own, and any number of requests and workers
  interleave them.
 */
module OrgDeletion {
  type Org = nat
  type DatasetId = nat

  datatype Dataset = Dataset(org: Org, softDeleted: bool)

  /** A request to delete an organization; `todo` holds the datasets it loaded and did not get to yet. */
  datatype Request =
    | SoftDeleting(org: Org, todo: set<DatasetId>)
    | Marking(org: Org)
    | Over

  /** Where a delete worker is between two messages. */
  datatype Pc =
    | Idle
    | Deleting(d: DatasetId)  // message popped, dataset row not removed yet
    | CheckMark(org: Org)     // row removed, SISMEMBER to come
    | CheckEmpty(org: Org)    // marked, query for soft-deleted datasets to come
    | DeleteOrg(org: Org)     // none left, delete of the organization to come
    | Unmark(org: Org)        // deleted, SREM to come

  datatype State = State(
    orgs: set<Org>,
    flagged: set<Org>,              // organizations.deleted == 1
    datasets: map<DatasetId, Dataset>,
    drawn: set<DatasetId>,          // every dataset id there ever was
    creating: map<DatasetId, Org>,  // requests for a dataset that are past their look at the flag
    requests: seq<Request>,
    marked: set<Org>,
    pending: multiset<DatasetId>,   // messages queued or waiting for a retry
    workers: seq<Pc>)

  datatype Action =
    | Admit(d: DatasetId, org: Org)
    | Insert(d: DatasetId)
    | SoftDelete(d: DatasetId)
    | Begin(org: Org)
    | SoftDeleteNext(r: nat, d: DatasetId)
    | SetFlag(r: nat)
    | SetMark(r: nat)
    | Pick(w: nat, d: DatasetId)
    | Remove(w: nat)
    | Retry(w: nat)
    | GiveUp(w: nat)         // the message goes to the dead letters
    | SeeMark(w: nat)
    | SeeDatasets(w: nat)
    | HardDelete(w: nat)
    | Forget(w: nat)
    // faults
    | PushFails(d: DatasetId) // soft-deleted, but the lpush of its message failed
    | RequestFails(r: nat)
    | RemoveThenFail(w: nat, last: bool) // the row is gone, but the analytics clean-up after it failed
    | Abort(w: nat)          // a Redis or Postgres call of the check fails, or the process dies
  {
    /** A step of a worker, and not of the API. */
    predicate ByWorker() {
      Pick? || Remove? || Retry? || GiveUp? || SeeMark? || SeeDatasets? || HardDelete? || Forget?
      || RemoveThenFail? || Abort?
    }

    predicate Fault() { PushFails? || RequestFails? || RemoveThenFail? || Abort? }
  }

  /** The organizations, none under deletion; one that is created later may as well be there from the start. */
  function Init(orgs: set<Org>, n: nat): State {
    State(orgs, {}, map[], {}, map[], [], {}, multiset{}, seq(n, i => Idle))
  }

  predicate Of(s: State, d: DatasetId, org: Org) {
    d in s.datasets && s.datasets[d].org == org
  }

  predicate HasDataset(s: State, org: Org) {
    exists d <- s.datasets :: Of(s, d, org)
  }

  /** What the worker's query looks for. */
  predicate HasSoftDeleted(s: State, org: Org) {
    exists d <- s.datasets :: Of(s, d, org) && s.datasets[d].softDeleted
  }

  predicate AllSoft(s: State, org: Org) {
    forall d <- s.datasets :: Of(s, d, org) ==> s.datasets[d].softDeleted
  }

  predicate At(s: State, w: nat) {
    w < |s.workers|
  }

  predicate Enabled(s: State, a: Action) {
    match a
    // The look at the flag and the insert of the row are two statements.
    case Admit(d, org) => d !in s.drawn && org in s.orgs && org !in s.flagged
    // The foreign key refuses a dataset of an organization that is gone.
    case Insert(d) => d in s.creating && s.creating[d] in s.orgs
    // The row may be gone already: the update then changes nothing, and the message is pushed.
    case SoftDelete(d) => d in s.drawn && d !in s.creating
    case PushFails(d) => d in s.drawn && d !in s.creating
    case Begin(org) => org in s.orgs
    case SoftDeleteNext(r, d) =>
      r < |s.requests| && s.requests[r].SoftDeleting? && d in s.requests[r].todo && d in s.drawn && d !in s.creating
    case SetFlag(r) => r < |s.requests| && s.requests[r].SoftDeleting? && s.requests[r].todo == {}
    case SetMark(r) => r < |s.requests| && s.requests[r].Marking?
    case RequestFails(r) => r < |s.requests|
    case Pick(w, d) => At(s, w) && s.workers[w].Idle? && d in s.pending
    case Remove(w) => At(s, w) && s.workers[w].Deleting? && s.workers[w].d in s.datasets
    case RemoveThenFail(w, _) => At(s, w) && s.workers[w].Deleting? && s.workers[w].d in s.datasets
    case Retry(w) => At(s, w) && s.workers[w].Deleting?
    case GiveUp(w) => At(s, w) && s.workers[w].Deleting?
    case SeeMark(w) => At(s, w) && s.workers[w].CheckMark?
    case SeeDatasets(w) => At(s, w) && s.workers[w].CheckEmpty?
    case HardDelete(w) => At(s, w) && s.workers[w].DeleteOrg?
    case Forget(w) => At(s, w) && s.workers[w].Unmark?
    case Abort(w) => At(s, w) && !s.workers[w].Idle? && !s.workers[w].Deleting?
  }

  function Turn(s: State, r: nat, request: Request): State
    requires r < |s.requests|
  {
    s.(requests := s.requests[r := request])
  }

  function Without(m: map<DatasetId, Dataset>, d: DatasetId): map<DatasetId, Dataset> {
    m - {d}
  }

  function Softened(m: map<DatasetId, Dataset>, d: DatasetId): map<DatasetId, Dataset> {
    if d in m then m[d := m[d].(softDeleted := true)] else m
  }

  /** The update of the row, and the push of the message. */
  function Pushed(s: State, d: DatasetId): State {
    s.(datasets := Softened(s.datasets, d), pending := s.pending + multiset{d})
  }

  /** What a step does to everything but the workers. */
  function Effect(s: State, a: Action): (t: State)
    requires Enabled(s, a)
    ensures t.workers == s.workers
  {
    match a
    case Admit(d, org) => s.(drawn := s.drawn + {d}, creating := s.creating[d := org])
    case Insert(d) => s.(datasets := s.datasets[d := Dataset(s.creating[d], false)], creating := s.creating - {d})
    case SoftDelete(d) => Pushed(s, d)
    case PushFails(d) => s.(datasets := Softened(s.datasets, d))
    // The datasets are loaded whether they are soft-deleted or not.
    case Begin(org) => s.(requests := s.requests + [SoftDeleting(org, set d <- s.datasets | Of(s, d, org))])
    case SoftDeleteNext(r, d) =>
      Turn(Pushed(s, d), r, SoftDeleting(s.requests[r].org, s.requests[r].todo - {d}))
    case SetFlag(r) => Turn(s.(flagged := s.flagged + {s.requests[r].org}), r, Marking(s.requests[r].org))
    case SetMark(r) => Turn(s.(marked := s.marked + {s.requests[r].org}), r, Over)
    case RequestFails(r) => Turn(s, r, Over)
    case Pick(w, d) => s.(pending := s.pending - multiset{d})
    case Remove(w) => s.(datasets := Without(s.datasets, s.workers[w].d))
    case RemoveThenFail(w, last) =>
      var gone := s.(datasets := Without(s.datasets, s.workers[w].d));
      if last then gone else gone.(pending := s.pending + multiset{s.workers[w].d})
    case Retry(w) => s.(pending := s.pending + multiset{s.workers[w].d})
    // The foreign key of the datasets does not cascade: with one left, the delete fails.
    case HardDelete(w) => if HasDataset(s, s.workers[w].org) then s else s.(orgs := s.orgs - {s.workers[w].org})
    case Forget(w) => s.(marked := s.marked - {s.workers[w].org})
    case _ => s
  }

  /** Where the acting worker is after the step. */
  function Moved(s: State, a: Action): Pc
    requires Enabled(s, a) && a.ByWorker()
  {
    match a
    case Pick(w, d) => Deleting(d)
    case Remove(w) => CheckMark(s.datasets[s.workers[w].d].org)
    case SeeMark(w) => if s.workers[w].org in s.marked then CheckEmpty(s.workers[w].org) else Idle
    case SeeDatasets(w) => if HasSoftDeleted(s, s.workers[w].org) then Idle else DeleteOrg(s.workers[w].org)
    case HardDelete(w) => if HasDataset(s, s.workers[w].org) then Idle else Unmark(s.workers[w].org)
    case _ => Idle
  }

  function Apply(s: State, a: Action): State
    requires Enabled(s, a)
  {
    var t := Effect(s, a);
    if a.ByWorker() then t.(workers := s.workers[a.w := Moved(s, a)]) else t
  }

  predicate Runs(s: State, acts: seq<Action>, t: State)
    decreases |acts|
  {
    if acts == [] then s == t
    else Enabled(s, acts[0]) && Runs(Apply(s, acts[0]), acts[1..], t)
  }

  ghost predicate Reachable(s: State) {
    exists orgs: set<Org>, n: nat, acts: seq<Action> :: Runs(Init(orgs, n), acts, s)
  }

  // ---------------------------------------------------------------- safety

  /** A message about the dataset is queued or in a worker's hands. */
  predicate HasMessage(s: State, d: DatasetId) {
    d in s.pending || Deleting(d) in s.workers
  }

  /** A worker past the mark check works on an organization that is marked or gone. */
  predicate PcSafe(s: State, pc: Pc) {
    match pc
    case CheckEmpty(org) => org in s.orgs ==> org in s.marked
    case DeleteOrg(org) => org in s.orgs ==> org in s.marked
    case Unmark(org) => org !in s.orgs
    case _ => true
  }

  /** A dataset with a message is soft-deleted or gone for good. */
  predicate MessageSafe(s: State, d: DatasetId) {
    HasMessage(s, d) ==> d in s.drawn && d !in s.creating && (d in s.datasets ==> s.datasets[d].softDeleted)
  }

  predicate RowSafe(s: State, d: DatasetId) {
    && (d in s.datasets ==> d in s.drawn && d !in s.creating && s.datasets[d].org in s.orgs)
    && (d in s.creating ==> d in s.drawn)
  }

  ghost predicate Safe(s: State) {
    && (forall pc <- s.workers :: PcSafe(s, pc))
    && (forall d :: MessageSafe(s, d))
    && (forall d :: RowSafe(s, d))
  }

  /** Only the acting worker moves. */
  lemma OthersStay(s: State, a: Action, i: nat)
    requires Enabled(s, a)
    ensures |Apply(s, a).workers| == |s.workers| && (a.ByWorker() ==> a.w < |s.workers|)
    ensures i < |s.workers| && !(a.ByWorker() && a.w == i) ==> Apply(s, a).workers[i] == s.workers[i]
  {
    hide HasDataset, HasSoftDeleted, Effect, Moved;
  }

  lemma NewWorker(s: State, a: Action, pc: Pc)
    requires Enabled(s, a) && pc in Apply(s, a).workers && pc !in s.workers
    ensures a.ByWorker() && a.w < |Apply(s, a).workers| && pc == Apply(s, a).workers[a.w]
  {
    hide Apply, Enabled;
    var i :| 0 <= i < |Apply(s, a).workers| && Apply(s, a).workers[i] == pc;
    OthersStay(s, a, i);
  }

  /** A worker that does not move is still there. */
  lemma StillThere(s: State, a: Action, pc: Pc)
    requires Enabled(s, a) && pc in s.workers && pc !in Apply(s, a).workers
    ensures a.ByWorker() && a.w < |s.workers| && s.workers[a.w] == pc && a.w < |Apply(s, a).workers|
  {
    hide Apply, Enabled;
    var i :| 0 <= i < |s.workers| && s.workers[i] == pc;
    OthersStay(s, a, i);
  }

  /** Organizations only go, and the mark of one that is left stays. */
  lemma StepOrgs(s: State, a: Action, org: Org)
    requires Enabled(s, a) && Safe(s)
    ensures var t := Apply(s, a);
            && (org in t.orgs ==> org in s.orgs)
            && (org in t.orgs && org in s.marked ==> org in t.marked)
  {
    if a.Forget? {
      assert PcSafe(s, s.workers[a.w]);
    }
  }

  lemma StepPcSafe(s: State, a: Action, pc: Pc)
    requires Enabled(s, a) && Safe(s) && pc in s.workers
    ensures PcSafe(Apply(s, a), pc)
  {
    assert PcSafe(s, pc);
    if pc.CheckEmpty? || pc.DeleteOrg? || pc.Unmark? {
      StepOrgs(s, a, pc.org);
    }
  }

  lemma NewPcSafe(s: State, a: Action)
    requires Enabled(s, a) && Safe(s) && a.ByWorker()
    ensures PcSafe(Apply(s, a), Apply(s, a).workers[a.w])
  {
    assert PcSafe(s, s.workers[a.w]);
    assert Apply(s, a).workers[a.w] == Moved(s, a);
    hide Pushed, Turn, Without, HasDataset, HasSoftDeleted;
    if !(a.SeeMark? || a.SeeDatasets? || a.HardDelete?) {
      hide Effect;
      assert Moved(s, a).Idle? || Moved(s, a).Deleting? || Moved(s, a).CheckMark?;
    }
  }

  /** Where the rows of a step come from. */
  lemma StepRows(s: State, a: Action, d: DatasetId)
    requires Enabled(s, a)
    ensures var t := Apply(s, a);
            && s.drawn <= t.drawn
            && (d in t.datasets ==>
                  || (d in s.datasets && s.datasets[d].org == t.datasets[d].org && (a.Insert? ==> d != a.d))
                  || (a == Insert(d) && d in s.creating && t.datasets[d].org == s.creating[d] && d !in t.creating))
            && (d in t.creating ==>
                  (d in s.creating && a != Insert(d)) || (a.Admit? && a.d == d && d !in s.drawn && d in t.drawn))
  {
    hide Moved, HasDataset;
  }

  lemma StepKeepsOrg(s: State, a: Action, d: DatasetId)
    requires Enabled(s, a) && d in s.datasets && s.datasets[d].org in s.orgs
    ensures s.datasets[d].org in Apply(s, a).orgs
  {
    assert Of(s, d, s.datasets[d].org);
    hide Moved;
  }

  lemma StepRowSafe(s: State, a: Action, d: DatasetId)
    requires Enabled(s, a) && Safe(s)
    ensures RowSafe(Apply(s, a), d)
  {
    assert RowSafe(s, d);
    if a == Insert(d) {
      assert d in s.drawn && s.creating[d] in s.orgs && Apply(s, a).orgs == s.orgs;
    }
    StepRows(s, a, d);
    if d in s.datasets {
      StepKeepsOrg(s, a, d);
    }
    hide Apply, Enabled;
  }

  lemma NewPending(s: State, a: Action, d: DatasetId)
    requires Enabled(s, a) && d in Apply(s, a).pending
    ensures HasMessage(s, d) || ((a.SoftDelete? || a.SoftDeleteNext?) && a.d == d)
  {
    hide Moved, HasDataset;
  }

  lemma NewHandling(s: State, a: Action, d: DatasetId)
    requires Enabled(s, a) && a.ByWorker() && Moved(s, a) == Deleting(d)
    ensures d in s.pending
  {
  }

  /** A step that creates a message is about a dataset that is soft-deleted from then on. */
  lemma NewMessage(s: State, a: Action, d: DatasetId)
    requires Enabled(s, a) && HasMessage(Apply(s, a), d)
    ensures HasMessage(s, d) || ((a.SoftDelete? || a.SoftDeleteNext?) && a.d == d)
  {
    hide Effect, Moved;
    if d in Apply(s, a).pending {
      NewPending(s, a, d);
    } else if Deleting(d) !in s.workers {
      NewWorker(s, a, Deleting(d));
      NewHandling(s, a, d);
    }
  }

  lemma StepMessageSafe(s: State, a: Action, d: DatasetId)
    requires Enabled(s, a) && Safe(s)
    ensures MessageSafe(Apply(s, a), d)
  {
    var t := Apply(s, a);
    assert MessageSafe(s, d) && RowSafe(s, d);
    if HasMessage(t, d) {
      NewMessage(s, a, d);
      hide HasMessage, HasDataset, HasSoftDeleted;
    }
  }

  lemma StepSafe(s: State, a: Action)
    requires Enabled(s, a) && Safe(s)
    ensures Safe(Apply(s, a))
  {
    hide Apply, Enabled, PcSafe, MessageSafe, RowSafe;
    var t := Apply(s, a);
    forall pc | pc in t.workers ensures PcSafe(t, pc) {
      if pc in s.workers {
        StepPcSafe(s, a, pc);
      } else {
        NewWorker(s, a, pc);
        NewPcSafe(s, a);
      }
    }
    forall d ensures MessageSafe(t, d) { StepMessageSafe(s, a, d); }
    forall d ensures RowSafe(t, d) { StepRowSafe(s, a, d); }
  }

  lemma {:induction false} RunSafe(s: State, acts: seq<Action>, t: State)
    requires Safe(s) && Runs(s, acts, t)
    ensures Safe(t)
    decreases |acts|
  {
    if acts != [] {
      StepSafe(s, acts[0]);
      RunSafe(Apply(s, acts[0]), acts[1..], t);
    }
  }

  lemma ReachableSafe(s: State)
    requires Reachable(s)
    ensures Safe(s)
  {
    var orgs: set<Org>, n: nat, acts: seq<Action> :| Runs(Init(orgs, n), acts, s);
    RunSafe(Init(orgs, n), acts, s);
  }

  /**
    Never early: when a step deletes an organization, it is marked and no dataset of it is left,
    however requests and workers interleave and whatever fails.
   */
  lemma NeverEarly(s: State, a: Action, org: Org)
    requires Reachable(s) && Enabled(s, a) && org in s.orgs && org !in Apply(s, a).orgs
    ensures a.HardDelete? && s.workers[a.w] == DeleteOrg(org)
    ensures org in s.marked && !HasDataset(s, org)
  {
    ReachableSafe(s);
    assert PcSafe(s, s.workers[a.w]);
  }

  // ---------------------------------------------------------------- what the request has seen

  /** Every dataset that is still live is one the request will get to. */
  predicate Covered(s: State, r: nat) {
    r < |s.requests| &&
    match s.requests[r]
    case SoftDeleting(org, todo) => forall d <- s.datasets :: Of(s, d, org) && !s.datasets[d].softDeleted ==> d in todo
    case Marking(org) => AllSoft(s, org)
    case Over => true
  }

  predicate InsertsInto(s: State, a: Action, org: Org) {
    a.Insert? && a.d in s.creating && s.creating[a.d] == org
  }

  lemma StepRow(s: State, a: Action, d: DatasetId, org: Org)
    requires Enabled(s, a) && Of(Apply(s, a), d, org) && !InsertsInto(s, a, org)
    ensures Of(s, d, org) && (s.datasets[d].softDeleted ==> Apply(s, a).datasets[d].softDeleted)
  {
  }

  lemma StepLive(s: State, a: Action, d: DatasetId)
    requires Enabled(s, a) && d in Apply(s, a).datasets && !Apply(s, a).datasets[d].softDeleted
    ensures a == Insert(d) || (d in s.datasets && s.datasets[d] == Apply(s, a).datasets[d])
    ensures a.SoftDeleteNext? ==> a.d != d
  {
  }

  lemma StepRequest(s: State, a: Action, r: nat)
    requires Enabled(s, a) && r < |s.requests|
    ensures r < |Apply(s, a).requests|
    ensures var before, after := s.requests[r], Apply(s, a).requests[r];
            || after == before || after.Over?
            || (before.SoftDeleting? && before.todo == {} && after == Marking(before.org))
            || (a.SoftDeleteNext? && before.SoftDeleting? && after == SoftDeleting(before.org, before.todo - {a.d}))
  {
    hide Moved, HasDataset, Softened, Of;
  }

  lemma StepCovered(s: State, a: Action, r: nat)
    requires Enabled(s, a) && Covered(s, r)
    requires s.requests[r].Over? || !InsertsInto(s, a, s.requests[r].org)
    ensures Covered(Apply(s, a), r)
    ensures Apply(s, a).requests[r].Over? || (!s.requests[r].Over? && Apply(s, a).requests[r].org == s.requests[r].org)
  {
    var t := Apply(s, a);
    StepRequest(s, a, r);
    if !s.requests[r].Over? {
      var org := s.requests[r].org;
      forall d | d in t.datasets && Of(t, d, org) && !t.datasets[d].softDeleted
        ensures Of(s, d, org) && !s.datasets[d].softDeleted && (a.SoftDeleteNext? ==> a.d != d)
      {
        StepLive(s, a, d);
        StepRow(s, a, d, org);
      }
    }
    hide Apply, Enabled;
  }

  /** No dataset is inserted into the organization during the run. */
  predicate NoInsert(s: State, acts: seq<Action>, org: Org)
    decreases |acts|
  {
    acts == [] || (
      && Enabled(s, acts[0]) && !InsertsInto(s, acts[0], org)
      && NoInsert(Apply(s, acts[0]), acts[1..], org))
  }

  lemma {:induction false} RunCovered(s: State, acts: seq<Action>, t: State, r: nat, org: Org)
    requires Runs(s, acts, t) && Covered(s, r) && NoInsert(s, acts, org)
    requires s.requests[r].Over? || s.requests[r].org == org
    ensures Covered(t, r) && (t.requests[r].Over? || t.requests[r].org == org)
    decreases |acts|
  {
    if acts != [] {
      StepCovered(s, acts[0], r);
      RunCovered(Apply(s, acts[0]), acts[1..], t, r, org);
    }
  }

  /**
    What the request soft-deletes: if no dataset is inserted after it loaded them, every dataset
    of the organization is soft-deleted when it sets the mark.
   */
  lemma MarkedWhenSoft(s: State, org: Org, acts: seq<Action>, t: State)
    requires Enabled(s, Begin(org)) && Runs(Apply(s, Begin(org)), acts, t)
    requires NoInsert(Apply(s, Begin(org)), acts, org)
    requires Enabled(t, SetMark(|s.requests|))
    ensures t.requests[|s.requests|].org == org && AllSoft(t, org)
  {
    RunCovered(Apply(s, Begin(org)), acts, t, |s.requests|, org);
  }

  // ---------------------------------------------------------------- no lost clean-up

  predicate Looks(pc: Pc, org: Org) {
    pc == CheckMark(org) || pc == CheckEmpty(org) || pc == DeleteOrg(org)
  }

  /** Somebody will still look: a dataset is left, or a worker stands before the end of its check. */
  predicate Alive(s: State, org: Org) {
    HasDataset(s, org) || exists pc <- s.workers :: Looks(pc, org)
  }

  /** Every dataset that is left is soft-deleted, and a message about it is on its way. */
  predicate Served(s: State, org: Org) {
    forall d <- s.datasets :: Of(s, d, org) ==> s.datasets[d].softDeleted && HasMessage(s, d)
  }

  /** The API changes the datasets of the organization. */
  predicate Touches(s: State, a: Action, org: Org) {
    InsertsInto(s, a, org) || ((a.SoftDelete? || a.SoftDeleteNext? || a.PushFails?) && Of(s, a.d, org))
  }

  /** The worker holds the only message about its dataset. */
  predicate LastMessage(s: State, w: nat) {
    && At(s, w) && s.workers[w].Deleting? && s.workers[w].d !in s.pending
    && forall j | 0 <= j < |s.workers| && j != w :: s.workers[j] != s.workers[w]
  }

  predicate LastDataset(s: State, d: DatasetId, org: Org) {
    Of(s, d, org) && forall e <- s.datasets :: Of(s, e, org) ==> e == d
  }

  /** A worker gives up the last message about a dataset of the organization that is still there. */
  predicate CostsMessage(s: State, a: Action, org: Org) {
    a.GiveUp? && LastMessage(s, a.w) && Of(s, s.workers[a.w].d, org)
  }

  /** The check is cut short when the organization has no dataset left to bring it about again. */
  predicate CostsCheck(s: State, a: Action, org: Org) {
    match a
    case RemoveThenFail(w, _) => At(s, w) && s.workers[w].Deleting? && LastDataset(s, s.workers[w].d, org)
    case Abort(w) => At(s, w) && Looks(s.workers[w], org) && !HasDataset(s, org)
    case _ => false
  }

  /** The message about a dataset goes only with its row, or in the hands of a worker that gives up. */
  lemma StepMessage(s: State, a: Action, d: DatasetId)
    requires Enabled(s, a) && HasMessage(s, d) && d in Apply(s, a).datasets
    requires !(a.GiveUp? && s.workers[a.w] == Deleting(d) && LastMessage(s, a.w))
    ensures HasMessage(Apply(s, a), d)
  {
    var t := Apply(s, a);
    if Deleting(d) in s.workers && Deleting(d) !in t.workers {
      StillThere(s, a, Deleting(d));
      if a.GiveUp? && d !in s.pending {
        var j :| 0 <= j < |s.workers| && j != a.w && s.workers[j] == s.workers[a.w];
        OthersStay(s, a, j);
      } else {
        LetsGo(s, a, d);
      }
    } else if a.Pick? && a.d == d {
      assert t.workers[a.w] == Deleting(d);
    }
  }

  /** A worker that lets go of a dataset has removed it, pushes its message back, or gives up. */
  lemma LetsGo(s: State, a: Action, d: DatasetId)
    requires Enabled(s, a) && a.ByWorker() && s.workers[a.w] == Deleting(d) && d in Apply(s, a).datasets
    ensures d in Apply(s, a).pending || (a.GiveUp? && Apply(s, a).pending == s.pending)
  {
  }

  lemma StepServed(s: State, a: Action, org: Org)
    requires Enabled(s, a) && Served(s, org) && !Touches(s, a, org) && !CostsMessage(s, a, org)
    ensures Served(Apply(s, a), org)
  {
    var t := Apply(s, a);
    forall d | d in t.datasets && Of(t, d, org) ensures t.datasets[d].softDeleted && HasMessage(t, d) {
      StepRow(s, a, d, org);
      StepMessage(s, a, d);
    }
  }

  lemma StillLooks(s: State, a: Action, org: Org, pc: Pc)
    requires Enabled(s, a) && org in s.marked && pc in s.workers && Looks(pc, org)
    requires !HasDataset(s, org) && !CostsCheck(s, a, org)
    ensures org !in Apply(s, a).orgs || Alive(Apply(s, a), org)
  {
    if pc !in Apply(s, a).workers {
      StillThere(s, a, pc);
      assert Apply(s, a).workers[a.w] in Apply(s, a).workers;
      Advances(s, a, org);
      hide Apply, Enabled, HasDataset;
    }
  }

  /** A worker that looks at a marked organization without datasets goes on to the next look, or deletes it. */
  lemma Advances(s: State, a: Action, org: Org)
    requires Enabled(s, a) && a.ByWorker() && Looks(s.workers[a.w], org) && org in s.marked
    requires !HasDataset(s, org) && !CostsCheck(s, a, org)
    ensures a.w < |Apply(s, a).workers|
    ensures Looks(Apply(s, a).workers[a.w], org) || org !in Apply(s, a).orgs
  {
  }

  lemma StillHasDataset(s: State, a: Action, org: Org)
    requires Safe(s) && Enabled(s, a) && HasDataset(s, org) && !CostsCheck(s, a, org)
    ensures Alive(Apply(s, a), org)
  {
    var t := Apply(s, a);
    var d :| d in s.datasets && Of(s, d, org);
    assert RowSafe(s, d);
    if d in t.datasets {
      assert Of(t, d, org);
    } else if a.Remove? {
      assert t.workers[a.w] == CheckMark(org) && t.workers[a.w] in t.workers;
    } else {
      var e :| e in s.datasets && Of(s, e, org) && e != d;
      assert Of(t, e, org);
    }
  }

  /**
    The obligation to clean up a marked organization survives every step until it is deleted,
    except for a failure after its last dataset went.
   */
  lemma StepAlive(s: State, a: Action, org: Org)
    requires Safe(s) && Enabled(s, a) && org in s.marked && org in s.orgs && Alive(s, org)
    requires !CostsCheck(s, a, org)
    ensures var t := Apply(s, a);
            org !in t.orgs || (org in t.marked && Alive(t, org))
  {
    StepOrgs(s, a, org);
    if HasDataset(s, org) {
      StillHasDataset(s, a, org);
    } else {
      var pc :| pc in s.workers && Looks(pc, org);
      StillLooks(s, a, org, pc);
    }
  }

  /** Without a dataset and a worker that looks, an organization is forgotten, until one is inserted. */
  lemma StepForgotten(s: State, a: Action, org: Org)
    requires Enabled(s, a) && org in s.orgs && !Alive(s, org) && !InsertsInto(s, a, org)
    ensures org in Apply(s, a).orgs && !Alive(Apply(s, a), org)
  {
    if a.HardDelete? {
      assert s.workers[a.w] in s.workers;
    }
    var t := Apply(s, a);
    forall d | d in t.datasets ensures !Of(t, d, org) {
      if Of(t, d, org) { StepRow(s, a, d, org); }
    }
    forall pc | pc in t.workers ensures !Looks(pc, org) { NoNewLook(s, a, org, pc); }
  }

  lemma NoNewLook(s: State, a: Action, org: Org, pc: Pc)
    requires Enabled(s, a) && !Alive(s, org) && pc in Apply(s, a).workers
    ensures !Looks(pc, org)
  {
    if pc !in s.workers && Looks(pc, org) {
      NewWorker(s, a, pc);
      OthersStay(s, a, a.w);
      assert s.workers[a.w] in s.workers;
      StartsLooking(s, a, org);
      hide Apply, Enabled;
    }
  }

  /** A worker starts to look at an organization by removing one of its datasets. */
  lemma StartsLooking(s: State, a: Action, org: Org)
    requires Enabled(s, a) && a.ByWorker() && a.w < |s.workers| == |Apply(s, a).workers|
    requires Looks(Apply(s, a).workers[a.w], org)
    ensures Looks(s.workers[a.w], org) || HasDataset(s, org)
  {
    if a.Remove? {
      assert Of(s, s.workers[a.w].d, s.datasets[s.workers[a.w].d].org);
    }
  }

  /** A dataset without a message keeps its organization, until the API touches it. */
  lemma StepBlocked(s: State, a: Action, d: DatasetId, org: Org)
    requires Safe(s) && Enabled(s, a) && Of(s, d, org) && !HasMessage(s, d) && !Touches(s, a, org)
    ensures Of(Apply(s, a), d, org) && !HasMessage(Apply(s, a), d)
  {
    assert RowSafe(s, d);
    if HasMessage(Apply(s, a), d) {
      NewMessage(s, a, d);
    }
    if a.Remove? || a.RemoveThenFail? {
      assert s.workers[a.w] in s.workers;
    }
  }

  /** The API is done with the organization's datasets, and no failure costs it its clean-up. */
  predicate Undisturbed(s: State, acts: seq<Action>, org: Org)
    decreases |acts|
  {
    acts == [] || (
      && Enabled(s, acts[0]) && !Touches(s, acts[0], org)
      && !CostsMessage(s, acts[0], org) && !CostsCheck(s, acts[0], org)
      && Undisturbed(Apply(s, acts[0]), acts[1..], org))
  }

  lemma {:induction false} RunAlive(s: State, acts: seq<Action>, t: State, org: Org)
    requires Safe(s) && Runs(s, acts, t) && Undisturbed(s, acts, org)
    requires Served(s, org) && (org in s.orgs ==> org in s.marked && Alive(s, org))
    ensures Served(t, org) && (org in t.orgs ==> org in t.marked && Alive(t, org))
    decreases |acts|
  {
    if acts != [] {
      StepSafe(s, acts[0]);
      StepServed(s, acts[0], org);
      StepOrgs(s, acts[0], org);
      if org in s.orgs {
        StepAlive(s, acts[0], org);
      }
      RunAlive(Apply(s, acts[0]), acts[1..], t, org);
    }
  }

  lemma {:induction false} RunForgotten(s: State, acts: seq<Action>, t: State, org: Org)
    requires Runs(s, acts, t) && NoInsert(s, acts, org) && org in s.orgs && !Alive(s, org)
    ensures org in t.orgs
    decreases |acts|
  {
    if acts != [] {
      StepForgotten(s, acts[0], org);
      RunForgotten(Apply(s, acts[0]), acts[1..], t, org);
    }
  }

  lemma {:induction false} RunBlocked(s: State, acts: seq<Action>, t: State, d: DatasetId, org: Org)
    requires Safe(s) && Runs(s, acts, t) && Undisturbed(s, acts, org)
    requires Of(s, d, org) && !HasMessage(s, d)
    ensures org in t.orgs
    decreases |acts|
  {
    if acts == [] {
      assert RowSafe(s, d);
    } else {
      StepSafe(s, acts[0]);
      StepBlocked(s, acts[0], d, org);
      RunBlocked(Apply(s, acts[0]), acts[1..], t, d, org);
    }
  }

  lemma {:induction false} UndisturbedNoInsert(s: State, acts: seq<Action>, org: Org)
    requires Undisturbed(s, acts, org)
    ensures NoInsert(s, acts, org)
    decreases |acts|
  {
    if acts != [] {
      UndisturbedNoInsert(Apply(s, acts[0]), acts[1..], org);
    }
  }

  /** Nothing is queued and every worker is idle. */
  predicate Quiet(s: State) {
    s.pending == multiset{} && forall pc <- s.workers :: pc.Idle?
  }

  /**
    The clean-up, exactly. Take any state in which an organization is marked and the API is done
    with its datasets. A run from there that comes to rest, with no failure that costs this
    organization its check or a dataset its last message, has deleted it if and only if every
    dataset it had was soft-deleted with a message on its way, and it had one, or some worker was
    still before the end of its check.
   */
  lemma CleanedUpExactly(s: State, acts: seq<Action>, t: State, org: Org)
    requires Reachable(s) && org in s.marked && org in s.orgs
    requires Runs(s, acts, t) && Undisturbed(s, acts, org) && Quiet(t)
    ensures org !in t.orgs <==> Served(s, org) && Alive(s, org)
  {
    ReachableSafe(s);
    if !Served(s, org) {
      var d :| Of(s, d, org) && !(s.datasets[d].softDeleted && HasMessage(s, d));
      assert MessageSafe(s, d);
      RunBlocked(s, acts, t, d, org);
    } else if Alive(s, org) {
      RunAlive(s, acts, t, org);
    } else {
      UndisturbedNoInsert(s, acts, org);
      RunForgotten(s, acts, t, org);
    }
  }

  // ---------------------------------------------------------------- two runs that lose a clean-up

  predicate FaultFree(acts: seq<Action>) {
    forall a <- acts :: !a.Fault()
  }

  /** Reached without any fault from one organization and one worker. */
  ghost predicate Cleanly(s: State) {
    exists acts: seq<Action> :: FaultFree(acts) && Runs(Init({1}, 1), acts, s)
  }

  lemma {:induction false} RunsSnoc(s: State, acts: seq<Action>, t: State, a: Action)
    requires Runs(s, acts, t) && Enabled(t, a)
    ensures Runs(s, acts + [a], Apply(t, a))
    decreases |acts|
  {
    if acts == [] {
      assert acts + [a] == [a] && [a][1..] == [];
    } else {
      assert (acts + [a])[1..] == acts[1..] + [a];
      RunsSnoc(Apply(s, acts[0]), acts[1..], t, a);
    }
  }

  /** Puts a step in front of a run. */
  lemma RunsCons(s: State, a: Action, t: State, rest: seq<Action>, u: State)
    requires Enabled(s, a) && t == Apply(s, a) && Runs(t, rest, u)
    ensures Runs(s, [a] + rest, u)
  {
    assert ([a] + rest)[1..] == rest;
  }

  lemma CleanStep(s: State, a: Action, t: State)
    requires Cleanly(s) && Enabled(s, a) && t == Apply(s, a) && !a.Fault()
    ensures Cleanly(t)
  {
    var acts: seq<Action> :| FaultFree(acts) && Runs(Init({1}, 1), acts, s);
    RunsSnoc(Init({1}, 1), acts, s, a);
    assert FaultFree(acts + [a]);
  }

  lemma CleanStart()
    ensures Cleanly(State({1}, {}, map[], {}, map[], [], {}, multiset{}, [Idle]))
  {
    var s := Init({1}, 1);
    assert s == State({1}, {}, map[], {}, map[], [], {}, multiset{}, [Idle]);
    assert FaultFree([]) && Runs(s, [], s);
  }

  const FORGOTTEN: State := State({1}, {1}, map[], {7}, map[], [Over], {1}, multiset{}, [Idle])

  /**
    The API pushes the messages first and marks last: a quick worker removes the only dataset and
    passes the check in between. Then everything rests, and no run at all ever deletes the
    organization.
   */
  lemma CleanupMayBeLost(more: seq<Action>, t: State)
    requires Runs(FORGOTTEN, more, t)
    ensures Cleanly(FORGOTTEN) && Quiet(FORGOTTEN) && 1 in FORGOTTEN.marked && 1 in t.orgs
  {
    QuickWorker();
    assert !Alive(FORGOTTEN, 1);
    hide Runs, Cleanly, Alive;
    NeverInserted(FORGOTTEN, more, t, 1);
    RunForgotten(FORGOTTEN, more, t, 1);
  }

  /** Nothing is inserted into a flagged organization once no creation is under way. */
  lemma {:induction false} NeverInserted(s: State, acts: seq<Action>, t: State, org: Org)
    requires Runs(s, acts, t) && org in s.flagged && forall d <- s.creating :: s.creating[d] != org
    ensures NoInsert(s, acts, org)
    decreases |acts|
  {
    if acts != [] {
      NeverInserted(Apply(s, acts[0]), acts[1..], t, org);
    }
  }

  lemma OneDataset()
    ensures Cleanly(State({1}, {}, map[7 := Dataset(1, false)], {7}, map[], [], {}, multiset{}, [Idle]))
  {
    hide Cleanly;
    CleanStart();
    var s0 := State({1}, {}, map[], {}, map[], [], {}, multiset{}, [Idle]);
    var s1 := State({1}, {}, map[], {7}, map[7 := 1], [], {}, multiset{}, [Idle]);
    CleanStep(s0, Admit(7, 1), s1);
    CleanStep(s1, Insert(7), State({1}, {}, map[7 := Dataset(1, false)], {7}, map[], [], {}, multiset{}, [Idle]));
  }

  lemma Loads(s: State, t: State)
    requires Cleanly(s) && 1 in s.orgs && s.datasets == map[7 := Dataset(1, false)] && s.requests == []
    requires t == s.(requests := [SoftDeleting(1, {7})])
    ensures Cleanly(t)
  {
    hide Cleanly;
    assert (set d <- s.datasets | Of(s, d, 1)) == {7};
    CleanStep(s, Begin(1), t);
  }

  lemma Softens(s: State, t: State)
    requires Cleanly(s) && Of(s, 7, 1) && 7 in s.drawn && 7 !in s.creating
    requires s.requests == [SoftDeleting(1, {7})] && s.pending == multiset{}
    requires t == s.(datasets := s.datasets[7 := Dataset(1, true)], requests := [SoftDeleting(1, {})],
                    pending := multiset{7})
    ensures Cleanly(t)
  {
    hide Cleanly;
    assert {7} - {7} == {};
    CleanStep(s, SoftDeleteNext(0, 7), t);
  }

  lemma QuickWorker()
    ensures Cleanly(FORGOTTEN)
  {
    hide Cleanly, HasDataset, HasSoftDeleted;
    OneDataset();
    var s2 := State({1}, {}, map[7 := Dataset(1, false)], {7}, map[], [], {}, multiset{}, [Idle]);
    var s3 := s2.(requests := [SoftDeleting(1, {7})]);
    Loads(s2, s3);
    var s4 := s3.(datasets := map[7 := Dataset(1, true)], requests := [SoftDeleting(1, {})], pending := multiset{7});
    Softens(s3, s4);
    var s5 := s4.(pending := multiset{}, workers := [Deleting(7)]);
    CleanStep(s4, Pick(0, 7), s5);
    QuickCheck(s5);
  }

  lemma QuickCheck(s5: State)
    requires Cleanly(s5)
    requires s5 == State({1}, {}, map[7 := Dataset(1, true)], {7}, map[], [SoftDeleting(1, {})], {}, multiset{},
                         [Deleting(7)])
    ensures Cleanly(FORGOTTEN)
  {
    hide Cleanly, HasDataset, HasSoftDeleted;
    var s6 := s5.(datasets := map[], workers := [CheckMark(1)]);
    CleanStep(s5, Remove(0), s6);
    var s7 := s6.(workers := [Idle]);
    CleanStep(s6, SeeMark(0), s7);
    var s8 := s7.(flagged := {1}, requests := [Marking(1)]);
    CleanStep(s7, SetFlag(0), s8);
    CleanStep(s8, SetMark(0), FORGOTTEN);
  }

  const BLOCKED: State :=
    State({1}, {1}, map[8 := Dataset(1, false)], {7, 8}, map[], [Over], {1}, multiset{}, [Idle])

  /**
    A dataset whose creation passed its look at the flag is inserted after the deletion has loaded
    its list. It stays live, so the worker finds no soft-deleted dataset, the delete fails on the
    foreign key, and nobody looks again.
   */
  lemma LateDatasetBlocks(more: seq<Action>, t: State)
    requires Runs(BLOCKED, more, t) && Undisturbed(BLOCKED, more, 1)
    ensures Cleanly(BLOCKED) && Quiet(BLOCKED) && 1 in BLOCKED.marked && 1 in t.orgs
  {
    LateDataset();
    hide Runs, Undisturbed;
    var acts: seq<Action> :| FaultFree(acts) && Runs(Init({1}, 1), acts, BLOCKED);
    ReachableSafe(BLOCKED);
    assert Of(BLOCKED, 8, 1) && !HasMessage(BLOCKED, 8);
    RunBlocked(BLOCKED, more, t, 8, 1);
  }

  lemma LateDataset()
    ensures Cleanly(BLOCKED)
  {
    hide Cleanly, HasDataset, HasSoftDeleted;
    OneDataset();
    var s2 := State({1}, {}, map[7 := Dataset(1, false)], {7}, map[], [], {}, multiset{}, [Idle]);
    var s3 := s2.(drawn := {7, 8}, creating := map[8 := 1]);
    CleanStep(s2, Admit(8, 1), s3);
    var s4 := s3.(requests := [SoftDeleting(1, {7})]);
    Loads(s3, s4);
    var s5 := s4.(datasets := map[7 := Dataset(1, false), 8 := Dataset(1, false)], creating := map[]);
    CleanStep(s4, Insert(8), s5);
    var s6 := s5.(datasets := map[7 := Dataset(1, true), 8 := Dataset(1, false)],
                  requests := [SoftDeleting(1, {})], pending := multiset{7});
    Softens(s5, s6);
    LateWorker(s6);
  }

  lemma LateWorker(s6: State)
    requires Cleanly(s6)
    requires s6 == State({1}, {}, map[7 := Dataset(1, true), 8 := Dataset(1, false)], {7, 8}, map[],
                         [SoftDeleting(1, {})], {}, multiset{7}, [Idle])
    ensures Cleanly(BLOCKED)
  {
    hide Cleanly;
    var s7 := s6.(flagged := {1}, requests := [Marking(1)]);
    CleanStep(s6, SetFlag(0), s7);
    var s8 := s7.(marked := {1}, requests := [Over]);
    CleanStep(s7, SetMark(0), s8);
    var s9 := s8.(pending := multiset{}, workers := [Deleting(7)]);
    CleanStep(s8, Pick(0, 7), s9);
    LateCheck(s9);
  }

  lemma LateCheck(s9: State)
    requires Cleanly(s9)
    requires s9 == State({1}, {1}, map[7 := Dataset(1, true), 8 := Dataset(1, false)], {7, 8}, map[], [Over], {1},
                         multiset{}, [Deleting(7)])
    ensures Cleanly(BLOCKED)
  {
    hide Cleanly;
    var s10 := s9.(datasets := map[8 := Dataset(1, false)], workers := [CheckMark(1)]);
    CleanStep(s9, Remove(0), s10);
    var s11 := s10.(workers := [CheckEmpty(1)]);
    CleanStep(s10, SeeMark(0), s11);
    var s12 := s11.(workers := [DeleteOrg(1)]);
    CleanStep(s11, SeeDatasets(0), s12);
    assert Of(s12, 8, 1);
    CleanStep(s12, HardDelete(0), BLOCKED);
  }
}
