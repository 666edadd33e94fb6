/** The delete worker's code behind the steps of `OrgDeletion`, call by call. */
module DeleteWorker {
  import opened OrgDeletion

  /** Which calls fail while a dataset's message is handled. */
  datatype Calls = Calls(
    lookup: bool,    // finding the dataset, soft-deleted or not
    remove: bool,    // deleting its row
    analytics: bool, // the clean-up after the row is gone
    isMarked: bool,  // SISMEMBER
    query: bool,     // the remaining soft-deleted datasets
    delete: bool,    // the organization's row
    unmark: bool)    // SREM

  /** What the worker does with the message afterwards. */
  datatype Fate = Acknowledged | Readded

  /** The steps once no soft-deleted dataset was found: with a live one left, the delete is refused. */
  function DeleteActions(s: State, org: Org, failed: Calls): seq<Action> {
    if failed.delete then [Abort(0)]
    else [HardDelete(0)] + if HasDataset(s, org) then [] else [if failed.unmark then Abort(0) else Forget(0)]
  }

  /** The steps once the mark was seen. */
  function DatasetsActions(s: State, org: Org, failed: Calls): seq<Action> {
    if failed.query then [Abort(0)]
    else [SeeDatasets(0)] + if HasSoftDeleted(s, org) then [] else DeleteActions(s, org, failed)
  }

  /** The steps of the check that follows the removal of a dataset of `org`. */
  function CheckActions(s: State, org: Org, failed: Calls): seq<Action> {
    if failed.isMarked then [Abort(0)]
    else [SeeMark(0)] + if org in s.marked then DatasetsActions(s, org, failed) else []
  }

  predicate NoDataset(s: State, d: DatasetId, failed: Calls) {
    failed.lookup || d !in s.datasets || failed.remove
  }

  /** The steps for the message of dataset `d`, which is at its last attempt or not. */
  function HandleActions(s: State, d: DatasetId, last: bool, failed: Calls): seq<Action> {
    if NoDataset(s, d, failed) then [if last then GiveUp(0) else Retry(0)]
    else if failed.analytics then [RemoveThenFail(0, last)]
    else
      var org := s.datasets[d].org;
      [Remove(0)] + CheckActions(s.(datasets := Without(s.datasets, d)), org, failed)
  }

  lemma RunNothing(s: State)
    ensures Runs(s, [], s)
  {
  }

  lemma RunOne(s: State, a: Action, t: State)
    requires Enabled(s, a) && t == Apply(s, a)
    ensures Runs(s, [a], t)
  {
    assert [a][1..] == [];
  }

  /** The retry function pushes the message back, or to the dead letters. */
  function Requeued(pending: multiset<DatasetId>, d: DatasetId, last: bool): multiset<DatasetId> {
    if last then pending else pending + multiset{d}
  }

  lemma ReaddRun(s: State, d: DatasetId, last: bool)
    requires s.workers == [Deleting(d)]
    ensures Runs(s, [if last then GiveUp(0) else Retry(0)],
                 s.(workers := [Idle], pending := Requeued(s.pending, d, last)))
  {
    hide Runs;
    RunOne(s, if last then GiveUp(0) else Retry(0), s.(workers := [Idle], pending := Requeued(s.pending, d, last)));
  }

  lemma RemoveThenFailRun(s: State, d: DatasetId, last: bool)
    requires s.workers == [Deleting(d)] && d in s.datasets
    ensures Runs(s, [RemoveThenFail(0, last)],
                 s.(workers := [Idle], datasets := Without(s.datasets, d), pending := Requeued(s.pending, d, last)))
  {
    hide Runs;
    RunOne(s, RemoveThenFail(0, last),
           s.(workers := [Idle], datasets := Without(s.datasets, d), pending := Requeued(s.pending, d, last)));
  }

  lemma RemoveStep(s: State, d: DatasetId)
    requires s.workers == [Deleting(d)] && d in s.datasets
    ensures Enabled(s, Remove(0))
    ensures Apply(s, Remove(0)) == s.(workers := [CheckMark(s.datasets[d].org)], datasets := Without(s.datasets, d))
  {
  }

  lemma RefusedRun(s: State, org: Org, failed: Calls)
    requires s.workers == [DeleteOrg(org)] && (failed.delete || HasDataset(s, org))
    ensures Runs(s, DeleteActions(s, org, failed), s.(workers := [Idle]))
  {
    hide Runs;
    RunOne(s, if failed.delete then Abort(0) else HardDelete(0), s.(workers := [Idle]));
    assert [HardDelete(0)] + [] == [HardDelete(0)];
  }

  lemma DeleteRun(s: State, org: Org, failed: Calls)
    requires s.workers == [DeleteOrg(org)] && !failed.delete && !HasDataset(s, org)
    ensures Runs(s, DeleteActions(s, org, failed),
                 s.(workers := [Idle], orgs := s.orgs - {org},
                    marked := if failed.unmark then s.marked else s.marked - {org}))
  {
    hide Runs, HasSoftDeleted;
    var t := s.(workers := [Unmark(org)], orgs := s.orgs - {org});
    var u := t.(workers := [Idle], marked := if failed.unmark then s.marked else s.marked - {org});
    var end := if failed.unmark then Abort(0) else Forget(0);
    RunOne(t, end, u);
    RunsCons(s, HardDelete(0), t, [end], u);
  }

  /** The check gets as far as deleting the organization: no call before that fails, and no dataset is left. */
  predicate Deletes(org: Org, marked: set<Org>, datasets: map<DatasetId, Dataset>, failed: Calls) {
    && !failed.isMarked && org in marked && !failed.query && !failed.delete
    && forall d <- datasets :: datasets[d].org != org
  }

  predicate NoFailure(failed: Calls) {
    && !failed.lookup && !failed.remove && !failed.analytics && !failed.isMarked && !failed.query
    && !failed.delete && !failed.unmark
  }

  /** When no call fails, no fault step is taken. */
  lemma CleanHandling(s: State, d: DatasetId, last: bool, failed: Calls)
    requires NoFailure(failed)
    ensures forall a <- HandleActions(s, d, last, failed) :: !a.Fault()
  {
  }

  /** The rows in Postgres and the mark set in Redis. The ghost fields are the rest of the system. */
  class Stores {
    var orgs: set<Org>
    var datasets: map<DatasetId, Dataset>
    var marked: set<Org>
    ghost var flagged: set<Org>
    ghost var drawn: set<DatasetId>
    ghost var creating: map<DatasetId, Org>
    ghost var requests: seq<Request>
    ghost var pending: multiset<DatasetId>

    /** The state of the protocol with a lone worker at `pc`. */
    ghost function Snapshot(pc: Pc): State
      reads this
    {
      State(orgs, flagged, datasets, drawn, creating, requests, marked, pending, [pc])
    }

    /** The delete of the organization, and of its mark. */
    method DeleteOrganization(org: Org, failed: Calls)
      modifies `orgs, `marked
      ensures var s := old(Snapshot(DeleteOrg(org)));
              Runs(s, DeleteActions(s, org, failed), Snapshot(Idle))
      ensures var gone := !failed.delete && forall d <- datasets :: datasets[d].org != org;
              && orgs == old(orgs) - (if gone then {org} else {})
              && marked == old(marked) - (if gone && !failed.unmark then {org} else {})
    {
      hide Runs, DeleteActions, Enabled, Apply;
      ghost var s := Snapshot(DeleteOrg(org));
      if failed.delete {
        RefusedRun(s, org, failed);
        return;
      }
      if d :| d in datasets && datasets[d].org == org {
        assert Of(s, d, org);
        RefusedRun(s, org, failed);
        return;
      }
      DeleteRun(s, org, failed);
      orgs := orgs - {org};
      if !failed.unmark {
        marked := marked - {org};
      }
    }

    /** The look for soft-deleted datasets of a marked organization. */
    method CheckDatasets(org: Org, failed: Calls)
      modifies `orgs, `marked
      ensures var s := old(Snapshot(CheckEmpty(org)));
              Runs(s, DatasetsActions(s, org, failed), Snapshot(Idle))
      ensures var gone := !failed.query && !failed.delete && forall d <- datasets :: datasets[d].org != org;
              && orgs == old(orgs) - (if gone then {org} else {})
              && marked == old(marked) - (if gone && !failed.unmark then {org} else {})
    {
      hide Runs, DeleteActions;
      ghost var s := Snapshot(CheckEmpty(org));
      if failed.query {
        RunOne(s, Abort(0), Snapshot(Idle));
        return;
      }
      if d :| d in datasets && datasets[d].org == org && datasets[d].softDeleted {
        assert Of(s, d, org) && HasSoftDeleted(s, org);
        RunOne(s, SeeDatasets(0), Snapshot(Idle));
        assert [SeeDatasets(0)] + [] == [SeeDatasets(0)];
        return;
      }
      assert !HasSoftDeleted(s, org);
      ghost var t := Snapshot(DeleteOrg(org));
      DeleteOrganization(org, failed);
      SameDelete(s, t, org, failed);
      RunsCons(s, SeeDatasets(0), t, DeleteActions(s, org, failed), Snapshot(Idle));
    }

    /**
      The check after a dataset of `org` was removed: a path of the protocol. A marked organization
      without datasets is deleted and unmarked, unless a call fails; nothing else changes.
     */
    method Check(org: Org, failed: Calls)
      modifies `orgs, `marked
      ensures var s := old(Snapshot(CheckMark(org)));
              Runs(s, CheckActions(s, org, failed), Snapshot(Idle))
      ensures var gone := Deletes(org, old(marked), datasets, failed);
              && orgs == old(orgs) - (if gone then {org} else {})
              && marked == old(marked) - (if gone && !failed.unmark then {org} else {})
    {
      hide Runs, DatasetsActions;
      ghost var s, t := Snapshot(CheckMark(org)), Snapshot(CheckEmpty(org));
      if failed.isMarked {
        RunOne(s, Abort(0), Snapshot(Idle));
      } else if org !in marked {
        RunOne(s, SeeMark(0), Snapshot(Idle));
        assert [SeeMark(0)] + [] == [SeeMark(0)];
      } else {
        CheckDatasets(org, failed);
        SameDatasets(s, t, org, failed);
        RunsCons(s, SeeMark(0), t, DatasetsActions(s, org, failed), Snapshot(Idle));
      }
    }

    /**
      The handling of one message, from the look-up of its dataset on: a path of the protocol. The
      dataset is removed, and with the last one of a marked organization the organization.
     */
    method Handle(d: DatasetId, last: bool, failed: Calls) returns (fate: Fate)
      modifies this
      ensures var s := old(Snapshot(Deleting(d)));
              Runs(s, HandleActions(s, d, last, failed), Snapshot(Idle))
      ensures var found := !failed.lookup && d in old(datasets) && !failed.remove;
              && (fate == Acknowledged <==> found && !failed.analytics)
              && datasets == (if found then old(datasets) - {d} else old(datasets))
      ensures pending == (if fate == Readded && !last then old(pending) + multiset{d} else old(pending))
      ensures fate == Readded ==> orgs == old(orgs) && marked == old(marked)
      ensures fate == Acknowledged ==>
                d in old(datasets)
                && var org := old(datasets)[d].org;
                var gone := Deletes(org, old(marked), datasets, failed);
                && orgs == old(orgs) - (if gone then {org} else {})
                && marked == old(marked) - (if gone && !failed.unmark then {org} else {})
      ensures flagged == old(flagged) && drawn == old(drawn) && creating == old(creating) && requests == old(requests)
    {
      hide Runs, CheckActions, Enabled, Apply, Deletes;
      ghost var s := Snapshot(Deleting(d));
      if failed.lookup || d !in datasets || failed.remove {
        ReaddRun(s, d, last);
        Readd(d, last);
        return Readded;
      }
      var org := datasets[d].org;
      datasets := Without(datasets, d);
      if failed.analytics {
        RemoveThenFailRun(s, d, last);
        Readd(d, last);
        return Readded;
      }
      RemoveStep(s, d);
      ghost var t := Snapshot(CheckMark(org));
      Check(org, failed);
      SameCheck(s.(datasets := Without(s.datasets, d)), t, org, failed);
      RunsCons(s, Remove(0), t, CheckActions(t, org, failed), Snapshot(Idle));
      return Acknowledged;
    }

    /** What the retry function means for the dataset. */
    ghost method Readd(d: DatasetId, last: bool)
      modifies `pending
      ensures pending == Requeued(old(pending), d, last)
    {
      if !last {
        pending := pending + multiset{d};
      }
    }
  }

  lemma SameDelete(s: State, t: State, org: Org, failed: Calls)
    requires s.datasets == t.datasets
    ensures DeleteActions(s, org, failed) == DeleteActions(t, org, failed)
  {
    assert forall d <- s.datasets :: Of(s, d, org) == Of(t, d, org);
  }

  lemma SameDatasets(s: State, t: State, org: Org, failed: Calls)
    requires s.datasets == t.datasets
    ensures DatasetsActions(s, org, failed) == DatasetsActions(t, org, failed)
  {
    SameDelete(s, t, org, failed);
    assert forall d <- s.datasets :: Of(s, d, org) == Of(t, d, org);
  }

  lemma SameCheck(s: State, t: State, org: Org, failed: Calls)
    requires s.datasets == t.datasets && s.marked == t.marked
    ensures CheckActions(s, org, failed) == CheckActions(t, org, failed)
  {
    SameDatasets(s, t, org, failed);
  }

  // ---------------------------------------------------------------- a lone worker in the crowd

  /** The same action, taken by worker `w`. */
  function By(a: Action, w: nat): Action
    requires a.ByWorker()
  {
    match a
    case Pick(_, d) => Pick(w, d)
    case Remove(_) => Remove(w)
    case Retry(_) => Retry(w)
    case SeeMark(_) => SeeMark(w)
    case SeeDatasets(_) => SeeDatasets(w)
    case HardDelete(_) => HardDelete(w)
    case Forget(_) => Forget(w)
    case GiveUp(_) => GiveUp(w)
    case RemoveThenFail(_, last) => RemoveThenFail(w, last)
    case Abort(_) => Abort(w)
  }

  /** `s` seen with other workers around: `others[w]` is where the lone worker of `s` stands. */
  function Crowd(s: State, others: seq<Pc>, w: nat): State
    requires w < |others|
  {
    s.(workers := if s.workers == [] then others else others[w := s.workers[0]])
  }

  lemma SameRows(s: State, c: State)
    requires s.datasets == c.datasets
    ensures forall org :: HasDataset(c, org) == HasDataset(s, org)
    ensures forall org :: HasSoftDeleted(c, org) == HasSoftDeleted(s, org)
  {
    assert forall d <- s.datasets, org :: Of(s, d, org) == Of(c, d, org);
  }

  /** Each step of a lone worker is a step of worker `w` among any others, with the same effect. */
  lemma StepInCrowd(s: State, a: Action, others: seq<Pc>, w: nat)
    requires |s.workers| == 1 && w < |others| && a.ByWorker() && Enabled(s, a)
    ensures var c, b := Crowd(s, others, w), By(a, w);
            Enabled(c, b) && Apply(c, b) == Crowd(Apply(s, a), others, w)
  {
    var c := Crowd(s, others, w);
    assert c.workers[w] == s.workers[0] && a.w == 0;
    SameRows(s, c);
    hide HasDataset, HasSoftDeleted;
    var pc := Apply(s, a).workers[0];
    assert s.workers[0 := pc] == [pc];
    assert others[w := s.workers[0]][w := pc] == others[w := pc];
  }
}
