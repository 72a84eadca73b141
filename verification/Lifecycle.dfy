/** The life of clients and work items over whole runs. */
module Lifecycle {
  import opened Wrappers
  import opened Ordering
  import opened Events
  import opened ControlPlane
  import opened StaleRecovery
  import opened ControlPlaneRuns

  // ---------------------------------------------------------------------------------------------
  // Work items

  /** What no call ever changes about an item. */
  predicate SameIdentity(a: WorkItem, b: WorkItem) {
    && a.id == b.id && a.runId == b.runId && a.role == b.role && a.capability == b.capability
    && a.priority == b.priority && a.createdAt == b.createdAt
  }

  predicate Final(status: WorkItemStatus) {
    status == Completed || status == Cancelled
  }

  /** One call moves an item along one allowed transition.  Only a sweep may take two: to REQUEUED
      and, handing the item out again, from there to ASSIGNED. */
  predicate Moves(from: WorkItemStatus, to: WorkItemStatus, sweep: bool) {
    || to in AllowedTransitions(from)
    || (sweep && Requeued in AllowedTransitions(from) && to == Assigned && Assigned in AllowedTransitions(Requeued))
  }

  /** The payload is untouched, or the item moved on. */
  predicate Follows(before: WorkItem, after: WorkItem, sweep: bool) {
    after == before || (SameIdentity(before, after) && Moves(before.status, after.status, sweep))
  }

  ghost predicate AllFollow(s: State, t: State, sweep: bool) {
    forall id :: id in s.items ==> id in t.items && Follows(s.items[id].item, t.items[id].item, sweep)
  }

  lemma TransitionFollows(env: Env, s: State, id: Id, r: Request, who: Caller)
    requires Keyed(s)
    ensures AllFollow(s, TransitionStep(env, s, id, r, who).0, false)
  {
    hide ValidCaller, ValidRequest, References, AllowedTransitions;
  }

  lemma ScheduleFollows(env: Env, s: State, id: Id, who: Caller)
    requires Keyed(s)
    ensures AllFollow(s, ScheduleStep(env, s, id, who).0, false)
  {
    hide TransitionStep, ValidCaller, RankedClients, Follows, Keyed;
    SameFollows(s);
    if id in s.items && RankedClients(s, s.items[id].item) != [] {
      TransitionFollows(env, s, id, AssignTo(RankedClients(s, s.items[id].item)[0]), who.(summary := None));
    }
  }

  lemma SameFollows(s: State)
    ensures forall item: WorkItem, sweep: bool :: Follows(item, item, sweep)
    ensures AllFollow(s, s, false)
  {
  }

  lemma RecoverableMayRequeue(status: WorkItemStatus)
    requires Recoverable(status)
    ensures Requeued in AllowedTransitions(status) && Assigned in AllowedTransitions(Requeued)
  {
  }

  lemma SweepFollows(env: Env, s: State, now: int, limit: int, autoReassign: bool)
    requires Keyed(s)
    ensures AllFollow(s, Sweep(env, s, now, limit, autoReassign), true)
  {
    hide Sweep, AllowedTransitions, Recoverable, Keyed, Adds, Eligible, LeastLoaded, LostLeases, SweepTally;
    SweepRecovers(env, s, now, limit, autoReassign);
    var t, stale := Sweep(env, s, now, limit, autoReassign), StaleClients(s, now, limit);
    forall id | id in s.items ensures Follows(s.items[id].item, t.items[id].item, true) {
      if id in Abandoned(s, stale) {
        assert RecoveredRow(t, stale, s.items[id], t.items[id], autoReassign);
        RecoverableMayRequeue(s.items[id].item.status);
      }
    }
  }

  /** Every call keeps every item, its identity, and moves it only along the table of transitions, a
      single step unless it is a sweep. */
  lemma StepFollowsTable(env: Env, s: State, op: Op)
    requires Inv(s)
    ensures AllFollow(s, Step(env, s, op), op.OpSweep?)
  {
    hide AllFollow, Sweep, ForeignKeys, RunTasksAgree, LeasesKeyed;
    SameFollows(s);
    match op {
      case OpSweep(now, limit, auto_) => SweepFollows(env, s, now, limit, auto_);
      case OpTransition(id, r, who) => TransitionFollows(env, s, id, r, who);
      case OpSchedule(id, who) => ScheduleFollows(env, s, id, who);
      case OpScheduleNext(run, who) =>
        var candidates := ListItems(s, Candidates(s, run));
        if candidates != [] {
          ScheduleFollows(env, s, candidates[0], who);
        }
      case _ => OtherStepsFollow(env, s, op);
    }
  }

  /** All other calls leave the payloads of stored items alone. */
  lemma OtherStepsFollow(env: Env, s: State, op: Op)
    requires !op.OpSweep? && !op.OpTransition? && !op.OpSchedule? && !op.OpScheduleNext?
    ensures AllFollow(s, Step(env, s, op), false)
  {
    hide ValidCaller, References, HolderError, AllowedTransitions, Detached;
    DetachedKeepsItem();
  }

  lemma DetachedKeepsItem()
    ensures forall row: ItemRow, c: Id, gone: set<Id> :: Detached(row, c, gone).item == row.item
  {
  }

  lemma FinalMovesNowhere(item: WorkItem, after: WorkItem, sweep: bool)
    requires Final(item.status) && Follows(item, after, sweep)
    ensures after == item
  {
  }

  /** A completed or cancelled item keeps its payload through every further run, and no item is ever
      lost or changes its identity. */
  lemma {:induction false} FinalIsForever(env: Env, s: State, ops: seq<Op>, id: Id)
    requires Inv(s) && id in s.items && forall k :: 0 <= k < |ops| ==> WellTyped(ops[k])
    ensures id in Run(env, s, ops).items
    ensures SameIdentity(s.items[id].item, Run(env, s, ops).items[id].item)
    ensures Final(s.items[id].item.status) ==> Run(env, s, ops).items[id].item == s.items[id].item
  {
    hide Inv, Step, Follows, Final, WellTyped;
    if ops != [] {
      var n := |ops| - 1;
      FinalIsForever(env, s, ops[..n], id);
      RunKeepsInv(env, s, ops[..n]);
      var t := Run(env, s, ops[..n]);
      StepFollowsTable(env, t, ops[n]);
      var u := Step(env, t, ops[n]);
      assert id in u.items && Follows(t.items[id].item, u.items[id].item, ops[n].OpSweep?);
      FollowsKeepsIdentity(t.items[id].item, u.items[id].item, ops[n].OpSweep?);
      if Final(s.items[id].item.status) {
        FinalMovesNowhere(t.items[id].item, u.items[id].item, ops[n].OpSweep?);
      }
    }
  }

  lemma FollowsKeepsIdentity(a: WorkItem, b: WorkItem, sweep: bool)
    requires Follows(a, b, sweep)
    ensures SameIdentity(a, b)
  {
  }

  /** An item that is completed now and was not before was RUNNING or APPROVED; one that is approved
      now and was not before was VERIFYING. */
  lemma CompletionIsEarned(env: Env, s: State, op: Op, id: Id)
    requires Inv(s) && id in s.items
    ensures var before, t := s.items[id].item.status, Step(env, s, op);
      && id in t.items
      && (t.items[id].item.status == Completed ==> before == Completed || before == Running || before == Approved)
      && (t.items[id].item.status == Approved ==> before == Approved || before == Verifying)
  {
    hide Step, Inv;
    StepFollowsTable(env, s, op);
  }

  // ---------------------------------------------------------------------------------------------
  // Clients

  /** Unregistering undoes registering: every table is as before, and the ledger has two more events. */
  lemma RegisterUnregisterRestores(env: Env, s: State, m: Manifest)
    requires Inv(s) && m.clientId !in s.manifests
    ensures var t := UnregisterStep(env, RegisterStep(env, s, m).0, m.clientId).0;
      t == s.(events := t.events) && |t.events| == |s.events| + 2 && s.events <= t.events
  {
    var r := RegisterStep(env, s, m).0;
    var t := UnregisterStep(env, r, m.clientId).0;
    assert LeasesOf(r, m.clientId) == {};
    assert t.manifests == s.manifests;
    assert t.heartbeats == s.heartbeats;
    assert t.leases == s.leases;
    forall id | id in s.items ensures t.items[id] == s.items[id] {
      assert s.items[id].assignedColumn != Some(m.clientId);
    }
    assert t.items == s.items;
    assert t.events[..|s.events|] == s.events;
  }

  /** A client that has just sent a heartbeat is safe from a sweep until the threshold has passed:
      its status, its leases and its work stay. */
  lemma HeartbeatProtects(env: Env, s: State, h: HeartbeatMsg, now: int, limit: int, autoReassign: bool)
    requires Keyed(s) && h.clientId in s.manifests && now - h.observedAt <= limit
    ensures var t := HeartbeatStep(env, s, h).0;
      var u := Sweep(env, t, now, limit, autoReassign);
      && h.clientId in t.heartbeats && h.clientId in u.heartbeats
      && u.heartbeats[h.clientId] == t.heartbeats[h.clientId]
      && u.heartbeats[h.clientId].status == h.status && u.heartbeats[h.clientId].lastAt == Some(h.observedAt)
      && ActiveLeases(u, h.clientId) == ActiveLeases(s, h.clientId)
      && (forall id :: id in s.items && s.items[id].assignedColumn == Some(h.clientId) ==>
            id in u.items && u.items[id] == s.items[id])
  {
    hide Sweep, Adds, RecoveredRow, LostLeases, SweepTally;
    var t := HeartbeatStep(env, s, h).0;
    assert Keyed(t);
    SweepRecovers(env, t, now, limit, autoReassign);
    hide Keyed;
    var u := Sweep(env, t, now, limit, autoReassign);
    assert h.clientId !in StaleClients(t, now, limit);
    assert forall l :: l in t.leases && t.leases[l].clientId == h.clientId ==> u.leases[l] == t.leases[l];
  }

  /** A connected client whose last heartbeat is older than the threshold is marked by the next
      sweep, whatever its recorded status. */
  lemma SilenceIsNoticed(env: Env, s: State, c: Id, now: int, limit: int, autoReassign: bool)
    requires Keyed(s) && c in s.manifests && c in s.heartbeats
    ensures var u := Sweep(env, s, now, limit, autoReassign);
      && c in u.heartbeats
      && (IsStale(s, c, now, limit) ==> u.heartbeats[c].status == ClientStale && ActiveLeases(u, c) == {})
      && (!IsStale(s, c, now, limit) ==> u.heartbeats[c] == s.heartbeats[c] && ActiveLeases(u, c) == ActiveLeases(s, c))
  {
    hide Sweep, IsStale, Adds, RecoveredRow, LostLeases, SweepTally, Abandoned, Keyed;
    SweepRecovers(env, s, now, limit, autoReassign);
    var u := Sweep(env, s, now, limit, autoReassign);
    assert c in StaleClients(s, now, limit) <==> IsStale(s, c, now, limit);
    forall l | l in u.leases ensures l in s.leases {
    }
  }
}
