/** Work items are stored twice, as columns and as payload.  Every call keeps the two in step but
    `unregister`, whose cascade reaches only the columns; the sweep reads the columns. */
module Columns {
  import opened Wrappers
  import opened Ordering
  import opened Events
  import opened ControlPlane
  import opened StaleRecovery
  import opened ControlPlaneRuns

  predicate RowAgrees(row: ItemRow) {
    row.assignedColumn == row.item.assignee && row.leaseColumn == row.item.leaseId
  }

  lemma AgreementByRow(s: State)
    ensures ColumnsAgree(s) <==> forall id :: id in s.items ==> RowAgrees(s.items[id])
  {
  }

  /** The only row that may differ is one whose columns were just written. */
  ghost predicate RowsKept(s: State, t: State) {
    forall id :: id in t.items ==> RowAgrees(t.items[id]) || (id in s.items && t.items[id] == s.items[id])
  }

  lemma RowsKeptAgree(s: State, t: State)
    requires ColumnsAgree(s) && RowsKept(s, t)
    ensures ColumnsAgree(t)
  {
    AgreementByRow(s);
    AgreementByRow(t);
  }

  lemma AppendKeepsItems(env: Env, s: State)
    ensures forall t, d :: Append(env, t, d).items == t.items
  {
  }

  lemma TransitionKeepsRows(env: Env, s: State, id: Id, r: Request, who: Caller)
    ensures RowsKept(s, TransitionStep(env, s, id, r, who).0)
  {
    hide ValidCaller, ValidRequest, AllowedTransitions, References, Updated, Append;
    AppendKeepsItems(env, s);
  }

  lemma ScheduleKeepsRows(env: Env, s: State, id: Id, who: Caller)
    ensures RowsKept(s, ScheduleStep(env, s, id, who).0)
  {
    hide TransitionStep, ValidCaller, RankedClients;
    if id in s.items && RankedClients(s, s.items[id].item) != [] {
      TransitionKeepsRows(env, s, id, AssignTo(RankedClients(s, s.items[id].item)[0]), who.(summary := None));
    }
  }

  lemma SweepKeepsRows(env: Env, s: State, now: int, limit: int, autoReassign: bool)
    requires Keyed(s)
    ensures RowsKept(s, Sweep(env, s, now, limit, autoReassign))
  {
    hide Sweep, Keyed;
    SweepRecovers(env, s, now, limit, autoReassign);
    var t, stale := Sweep(env, s, now, limit, autoReassign), StaleClients(s, now, limit);
    forall id | id in t.items ensures RowAgrees(t.items[id]) || t.items[id] == s.items[id] {
      if id in Abandoned(s, stale) {
        assert RecoveredRow(t, stale, s.items[id], t.items[id], autoReassign);
      }
    }
  }

  lemma IngestKeepsItems(env: Env, s: State)
    ensures forall e :: IngestStep(env, s, e).0.items == s.items
  {
  }

  lemma StepKeepsRows(env: Env, s: State, op: Op)
    requires Keyed(s) && !op.OpUnregister?
    ensures RowsKept(s, Step(env, s, op))
  {
    hide TransitionStep, ScheduleStep, Sweep, ValidCaller, References, Keyed, HolderError, Readable, IngestStep;
    IngestKeepsItems(env, s);
    match op {
      case OpSweep(now, limit, auto_) => SweepKeepsRows(env, s, now, limit, auto_);
      case OpTransition(id, r, who) => TransitionKeepsRows(env, s, id, r, who);
      case OpSchedule(id, who) => ScheduleKeepsRows(env, s, id, who);
      case OpScheduleNext(run, who) =>
        var candidates := ListItems(s, Candidates(s, run));
        if candidates != [] {
          ScheduleKeepsRows(env, s, candidates[0], who);
        }
      case _ =>
    }
  }

  /** An item that names the client, or a lease of the client, in its payload. */
  predicate Names(s: State, item: WorkItem, c: Id) {
    item.assignee == Some(c) || (item.leaseId.Some? && item.leaseId.value in LeasesOf(s, c))
  }

  lemma DetachedAgrees(s: State, row: ItemRow, c: Id)
    requires RowAgrees(row)
    ensures RowAgrees(Detached(row, c, LeasesOf(s, c))) <==> !Names(s, row.item, c)
  {
  }

  /** Unregistering a client keeps columns and payloads in step exactly when no item names the
      client or one of its leases. */
  lemma UnregisterKeepsColumns(env: Env, s: State, c: Id)
    requires ColumnsAgree(s) && c in s.manifests
    ensures ColumnsAgree(UnregisterStep(env, s, c).0) <==> forall id :: id in s.items ==> !Names(s, s.items[id].item, c)
  {
    hide Names, Detached, RowAgrees;
    AgreementByRow(s);
    var t := UnregisterStep(env, s, c).0;
    AgreementByRow(t);
    assert t.items.Keys == s.items.Keys;
    forall id | id in s.items ensures RowAgrees(t.items[id]) <==> !Names(s, s.items[id].item, c) {
      DetachedAgrees(s, s.items[id], c);
    }
  }

  /** Every call keeps columns and payloads in step, with that one exception. */
  lemma StepKeepsColumns(env: Env, s: State, op: Op)
    requires Keyed(s) && ColumnsAgree(s)
    ensures ColumnsAgree(Step(env, s, op)) <==>
      (op.OpUnregister? && op.c in s.manifests ==> forall id :: id in s.items ==> !Names(s, s.items[id].item, op.c))
  {
    hide ColumnsAgree, Keyed, Names;
    if op.OpUnregister? {
      if op.c in s.manifests {
        UnregisterKeepsColumns(env, s, op.c);
      }
    } else {
      StepKeepsRows(env, s, op);
      RowsKeptAgree(s, Step(env, s, op));
    }
  }

  lemma {:induction false} RunKeepsColumns(env: Env, ops: seq<Op>)
    requires forall k :: 0 <= k < |ops| ==> WellTyped(ops[k]) && !ops[k].OpUnregister?
    ensures ColumnsAgree(Run(env, Empty(), ops))
  {
    hide Step, Inv, WellTyped, Names;
    if ops != [] {
      hide ColumnsAgree;
      var n := |ops| - 1;
      RunKeepsColumns(env, ops[..n]);
      ReachableInv(env, ops[..n]);
      InvKeyed(Run(env, Empty(), ops[..n]));
      StepKeepsColumns(env, Run(env, Empty(), ops[..n]), ops[n]);
    }
  }

  lemma InvKeyed(s: State)
    requires Inv(s)
    ensures Keyed(s)
  {
  }

  /** After any run without `unregister`, a sweep leaves no unfinished work with a stale client,
      neither by column nor by payload. */
  lemma SweepInRuns(env: Env, ops: seq<Op>, now: int, limit: int, autoReassign: bool)
    requires forall k :: 0 <= k < |ops| ==> WellTyped(ops[k]) && !ops[k].OpUnregister?
    ensures var s := Run(env, Empty(), ops);
      var t, stale := Sweep(env, s, now, limit, autoReassign), StaleClients(s, now, limit);
      && SweepOutcome(s, t, stale, autoReassign)
      && forall id :: id in t.items && Recoverable(t.items[id].item.status) ==>
           Unassigned(t.items[id], stale) && Released(t.items[id], stale)
  {
    hide Inv, Keyed, SweepOutcome, Sweep, ColumnsAgree, Unassigned, Released, Run;
    ReachableInv(env, ops);
    InvKeyed(Run(env, Empty(), ops));
    RunKeepsColumns(env, ops);
    SweepRecovers(env, Run(env, Empty(), ops), now, limit, autoReassign);
    StaleClientsHoldNothing(env, Run(env, Empty(), ops), now, limit, autoReassign);
  }
}
