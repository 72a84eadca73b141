/** What unregistering a client does to the work that names it, and how such work comes back. */
module OrphanedWork {
  import opened Wrappers
  import opened Ordering
  import opened Events
  import opened ControlPlane
  import opened StaleRecovery
  import opened ControlPlaneRuns
  import opened Columns
  import opened Scheduling

  // ---------------------------------------------------------------------------------------------
  // Which calls write the row of an item

  /** Some client is eligible for the item, and the lease it names is stored. */
  ghost predicate Assigns(s: State, id: Id) {
    && id in s.items && Schedulable(s.items[id].item)
    && Eligible(s, s.items[id].item) != {} && !DanglingLease(s, s.items[id].item)
  }

  /** The call creates, moves, schedules or recovers the item. */
  ghost predicate Writes(s: State, op: Op, id: Id) {
    match op
    case OpCreate(item, _) => item.id == id && id !in s.items && References(s, item)
    case OpTransition(i, r, _) => i == id && Saves(s, id, r)
    case OpSchedule(i, _) => i == id && Assigns(s, id)
    case OpScheduleNext(run, _) => FirstInQueue(s, run, id) && Assigns(s, id)
    case OpSweep(now, limit, _) => id in Abandoned(s, StaleClients(s, now, limit))
    case _ => false
  }

  /** A call that writes the item leaves columns and payload in step; any other leaves the payload as
      it was, and the columns too, but for those that unregistering a client clears. */
  ghost predicate RowMoves(s: State, t: State, op: Op, id: Id) {
    && (id in t.items <==> id in s.items || Writes(s, op, id))
    && (Writes(s, op, id) ==> id in t.items && RowAgrees(t.items[id]))
    && (!Writes(s, op, id) && id in s.items ==>
          id in t.items
          && t.items[id] == if op.OpUnregister? && op.c in s.manifests
                            then Detached(s.items[id], op.c, LeasesOf(s, op.c)) else s.items[id])
  }

  lemma CreateMoves(env: Env, s: State, item: WorkItem, who: Caller, id: Id)
    ensures RowMoves(s, Step(env, s, OpCreate(item, who)), OpCreate(item, who), id)
  {
    hide ValidCaller, References;
  }

  lemma TransitionMoves(env: Env, s: State, i: Id, r: Request, who: Caller, id: Id)
    requires Keyed(s)
    ensures RowMoves(s, Step(env, s, OpTransition(i, r, who)), OpTransition(i, r, who), id)
  {
    hide ValidCaller, Saves, TransitionStep;
    SavedByTransition(env, s, i, r, who);
    if Saves(s, i, r) {
      SavesStored(s, i, r);
    }
  }

  lemma SavesStored(s: State, id: Id, r: Request)
    requires Saves(s, id, r)
    ensures id in s.items
  {
  }

  /** The row of `id` is written or left alone. */
  ghost predicate RowWritten(s: State, t: State, id: Id, written: bool) {
    if written then id in t.items && RowAgrees(t.items[id])
    else (id in t.items <==> id in s.items) && (id in s.items ==> t.items[id] == s.items[id])
  }

  lemma ScheduleWrites(env: Env, s: State, i: Id, who: Caller, id: Id)
    requires Inv(s)
    ensures RowWritten(s, ScheduleStep(env, s, i, who).0, id, i == id && Assigns(s, id))
  {
    hide Inv, ScheduleStep, LeastLoaded, DanglingLease, Schedulable, DeniedFor, AssignedFor, Eligible;
    if i in s.items {
      ScheduleDecides(env, s, i, who);
      var (t, outcome) := ScheduleStep(env, s, i, who);
      var told := ValidCaller(who.(summary := None));
      if Assigns(s, i) {
        var c :| LeastLoaded(s, s.items[i].item, c) && AssignedFor(s, t, i, c, told);
        AssignedAgrees(s, t, i, c, told, id);
      } else {
        DecidedKeeps(s, t, outcome, i, told);
      }
    } else {
      UnknownIsKept(env, s, i, who);
    }
  }

  lemma UnknownIsKept(env: Env, s: State, i: Id, who: Caller)
    requires i !in s.items
    ensures ScheduleStep(env, s, i, who).0 == s
  {
  }

  lemma AssignedAgrees(s: State, t: State, i: Id, c: Id, told: bool, id: Id)
    requires i in s.items && AssignedFor(s, t, i, c, told)
    ensures RowWritten(s, t, id, i == id)
  {
  }

  lemma DecidedKeeps(s: State, t: State, outcome: Outcome, i: Id, told: bool)
    requires i in s.items && Decided(s, t, outcome, i, told) && !Assigns(s, i)
    ensures t.items == s.items
  {
    hide LeastLoaded, AssignedFor, Eligible;
  }

  lemma ScheduleMoves(env: Env, s: State, i: Id, who: Caller, id: Id)
    requires Inv(s)
    ensures RowMoves(s, Step(env, s, OpSchedule(i, who)), OpSchedule(i, who), id)
  {
    hide Inv, ScheduleStep, Assigns;
    ScheduleWrites(env, s, i, who, id);
    if Assigns(s, id) {
      AssignsStored(s, id);
    }
  }

  lemma AssignsStored(s: State, id: Id)
    requires Assigns(s, id)
    ensures id in s.items
  {
  }

  lemma ScheduleNextMoves(env: Env, s: State, run: Option<Id>, who: Caller, id: Id)
    requires Inv(s)
    ensures RowMoves(s, Step(env, s, OpScheduleNext(run, who)), OpScheduleNext(run, who), id)
  {
    var candidates := ListItems(s, Candidates(s, run));
    if candidates == [] {
      NobodyIsFirst(s, run, candidates, id);
    } else {
      assert candidates[0] in candidates && FirstInQueue(s, run, candidates[0]);
      FirstMoves(env, s, run, who, candidates[0], id);
    }
  }

  lemma FirstMoves(env: Env, s: State, run: Option<Id>, who: Caller, first: Id, id: Id)
    requires Inv(s) && FirstInQueue(s, run, first)
    ensures RowMoves(s, ScheduleStep(env, s, first, who).0, OpScheduleNext(run, who), id)
  {
    hide Inv, ScheduleStep, Assigns, FirstInQueue;
    if FirstInQueue(s, run, id) {
      SameFirst(s, run, first, id);
    }
    ScheduleWrites(env, s, first, who, id);
    if Assigns(s, id) {
      AssignsStored(s, id);
    }
  }

  lemma SameFirst(s: State, run: Option<Id>, a: Id, b: Id)
    requires FirstInQueue(s, run, a) && FirstInQueue(s, run, b)
    ensures a == b
  {
    LexIsTotalOrder();
  }

  lemma NobodyIsFirst(s: State, run: Option<Id>, candidates: seq<Id>, id: Id)
    requires candidates == [] && forall i :: i in candidates <==> i in Candidates(s, run)
    ensures !FirstInQueue(s, run, id)
  {
    assert id !in candidates;
  }

  lemma SweepMoves(env: Env, s: State, op: Op, id: Id)
    requires Keyed(s) && op.OpSweep?
    ensures RowMoves(s, Step(env, s, op), op, id)
  {
    hide Sweep, Keyed, Adds, LostLeases, Eligible, LeastLoaded, MarkedStale, SweepTally;
    SweepRecovers(env, s, op.now, op.limit, op.autoReassign);
    var t, stale := Sweep(env, s, op.now, op.limit, op.autoReassign), StaleClients(s, op.now, op.limit);
    if id in Abandoned(s, stale) {
      assert RecoveredRow(t, stale, s.items[id], t.items[id], op.autoReassign);
    }
  }

  lemma UnregisterMoves(env: Env, s: State, c: Id, id: Id)
    ensures RowMoves(s, Step(env, s, OpUnregister(c)), OpUnregister(c), id)
  {
    hide Detached;
  }

  lemma OtherMoves(env: Env, s: State, op: Op, id: Id)
    requires !op.OpCreate? && !op.OpTransition? && !op.OpSchedule? && !op.OpScheduleNext?
    requires !op.OpSweep? && !op.OpUnregister?
    ensures RowMoves(s, Step(env, s, op), op, id)
  {
    hide Detached, Readable, HolderError, IngestStep;
    IngestKeepsItems(env, s);
  }

  lemma StepMoves(env: Env, s: State, op: Op, id: Id)
    requires Inv(s)
    ensures RowMoves(s, Step(env, s, op), op, id)
  {
    InvKeyed(s);
    hide RowMoves, Inv, Keyed, Step;
    match op {
      case OpCreate(item, who) => CreateMoves(env, s, item, who, id);
      case OpTransition(i, r, who) => TransitionMoves(env, s, i, r, who, id);
      case OpSchedule(i, who) => ScheduleMoves(env, s, i, who, id);
      case OpScheduleNext(run, who) => ScheduleNextMoves(env, s, run, who, id);
      case OpSweep(_, _, _) => SweepMoves(env, s, op, id);
      case OpUnregister(c) => UnregisterMoves(env, s, c, id);
      case _ => OtherMoves(env, s, op, id);
    }
  }

  // ---------------------------------------------------------------------------------------------
  // Columns by history

  /** At call `k` the client was unregistered, and no later call wrote the item. */
  ghost predicate ClearedAt(env: Env, ops: seq<Op>, id: Id, c: Id, k: nat) {
    && k < |ops| && ops[k] == OpUnregister(c)
    && forall j :: k < j < |ops| ==> !Writes(At(env, ops, j), ops[j], id)
  }

  /** The client was unregistered after the item was written last. */
  ghost predicate Orphaned(env: Env, ops: seq<Op>, id: Id, c: Id) {
    exists k :: ClearedAt(env, ops, id, c, k)
  }

  lemma OrphanedNext(env: Env, ops: seq<Op>, id: Id, c: Id)
    requires ops != []
    ensures var n := |ops| - 1;
      Orphaned(env, ops, id, c) <==>
      ops[n] == OpUnregister(c) || (Orphaned(env, ops[..n], id, c) && !Writes(At(env, ops, n), ops[n], id))
  {
    hide Writes, At;
    var n := |ops| - 1;
    forall k | 0 <= k <= n ensures At(env, ops[..n], k) == At(env, ops, k) {
      AtPrefix(env, ops, n, k);
    }
    if ops[n] == OpUnregister(c) {
      assert ClearedAt(env, ops, id, c, n);
    } else {
      forall k ensures ClearedAt(env, ops, id, c, k)
                  <==> ClearedAt(env, ops[..n], id, c, k) && !Writes(At(env, ops, n), ops[n], id) {
      }
    }
  }

  /** The column of a row by what the payload says and whether the client it names was unregistered. */
  ghost predicate ColumnTells(env: Env, ops: seq<Op>, id: Id, row: ItemRow) {
    row.assignedColumn == match row.item.assignee
                          case None => None
                          case Some(c) => if Orphaned(env, ops, id, c) then None else Some(c)
  }

  lemma ColumnNext(env: Env, ops: seq<Op>, id: Id, s: State, t: State)
    requires ops != [] && s == At(env, ops, |ops| - 1) && Inv(s)
    requires RowMoves(s, t, ops[|ops| - 1], id) && id in t.items
    requires id in s.items ==> ColumnTells(env, ops[..|ops| - 1], id, s.items[id])
    ensures ColumnTells(env, ops, id, t.items[id])
  {
    hide Orphaned, Writes, At;
    var n := |ops| - 1;
    var op, row := ops[n], t.items[id];
    if row.item.assignee.Some? {
      var c := row.item.assignee.value;
      OrphanedNext(env, ops, id, c);
      if Writes(s, op, id) {
        UnregisterWritesNothing(s, op, id);
      } else if op == OpUnregister(c) && c !in s.manifests {
        assert s.items[id].assignedColumn != Some(c);
      }
    }
  }

  lemma UnregisterWritesNothing(s: State, op: Op, id: Id)
    requires Writes(s, op, id)
    ensures !op.OpUnregister?
  {
  }

  /** In every reachable state the column of an item names the client that its payload names, unless
      that client was unregistered after the last call that wrote the item; then it is empty, even if
      the client has been registered again. */
  lemma {:induction false} ColumnByHistory(env: Env, ops: seq<Op>, id: Id)
    requires forall k :: 0 <= k < |ops| ==> WellTyped(ops[k])
    requires id in Run(env, Empty(), ops).items
    ensures ColumnTells(env, ops, id, Run(env, Empty(), ops).items[id])
  {
    hide Step, Inv, WellTyped, ColumnTells, RowMoves;
    assert ops != [];
    var n := |ops| - 1;
    var s := Run(env, Empty(), ops[..n]);
    assert s == At(env, ops, n);
    ReachableInv(env, ops[..n]);
    StepMoves(env, s, ops[n], id);
    if id in s.items {
      ColumnByHistory(env, ops[..n], id);
    }
    ColumnNext(env, ops, id, s, Step(env, s, ops[n]));
  }

  /** After any run a sweep recovers an unfinished item whose payload names a stale client if and only
      if that client was not unregistered after the item was written last.  Otherwise it leaves the
      item as it is, with a client that is stale. */
  lemma UnregisterOrphansWork(env: Env, ops: seq<Op>, id: Id, c: Id, now: int, limit: int, autoReassign: bool)
    requires forall k :: 0 <= k < |ops| ==> WellTyped(ops[k])
    requires var s := Run(env, Empty(), ops);
      && id in s.items && s.items[id].item.assignee == Some(c) && Recoverable(s.items[id].item.status)
      && IsStale(s, c, now, limit)
    ensures var s := Run(env, Empty(), ops);
      var t, stale := Sweep(env, s, now, limit, autoReassign), StaleClients(s, now, limit);
      && id in t.items
      && if Orphaned(env, ops, id, c) then t.items[id] == s.items[id]
         else RecoveredRow(t, stale, s.items[id], t.items[id], autoReassign)
  {
    hide Sweep, Orphaned, Recoverable, IsStale, RecoveredRow, Adds, MarkedStale, WellTyped, Inv, Keyed, Run, SweepTally;
    var s := Run(env, Empty(), ops);
    ReachableInv(env, ops);
    InvKeyed(s);
    ColumnByHistory(env, ops, id);
    SweepRecovers(env, s, now, limit, autoReassign);
    StaleIsListed(s, c, now, limit);
    assert id in Abandoned(s, StaleClients(s, now, limit)) <==> !Orphaned(env, ops, id, c);
  }

  lemma StaleIsListed(s: State, c: Id, now: int, limit: int)
    requires IsStale(s, c, now, limit)
    ensures c in StaleClients(s, now, limit)
  {
  }

  // ---------------------------------------------------------------------------------------------
  // How orphaned work comes back

  function ToBlocked(): Request {
    Request(ItemBlocked, None, None, None, None)
  }

  /** The item is running at the client, and columns and payload say so. */
  ghost predicate RunsAt(s: State, id: Id, c: Id) {
    && id in s.items && RowAgrees(s.items[id])
    && s.items[id].item.status == Running && s.items[id].item.assignee == Some(c) && s.items[id].item.leaseId.None?
  }

  /** The client is unregistered, registered again and heard from once. */
  function RegisteredAgain(env: Env, s: State, m: Manifest, h: HeartbeatMsg): State {
    HeartbeatStep(env, RegisterStep(env, UnregisterStep(env, s, m.clientId).0, m).0, h).0
  }

  lemma RegisteredAgainKeepsInv(env: Env, s: State, m: Manifest, h: HeartbeatMsg)
    requires Inv(s) && ValidId(m.clientId)
    ensures Inv(RegisteredAgain(env, s, m, h))
  {
    hide Inv, UnregisterStep, RegisterStep, HeartbeatStep;
    var u := UnregisterStep(env, s, m.clientId).0;
    UnregisterKeepsInv(env, s, m.clientId);
    RegisterKeepsInv(env, u, m);
    HeartbeatKeepsInv(env, RegisterStep(env, u, m).0, h);
  }

  lemma StaleAgainWithout(env: Env, s: State, m: Manifest, id: Id, h: HeartbeatMsg, now: int, limit: int)
    requires RunsAt(s, id, m.clientId) && m.clientId in s.manifests
    requires h.clientId == m.clientId && h.status != ClientDisconnected && now - h.observedAt > limit
    ensures var w := RegisteredAgain(env, s, m, h);
      && IsStale(w, m.clientId, now, limit)
      && id in w.items && w.items[id] == s.items[id].(assignedColumn := None)
      && w.items[id].item.status == Running && w.items[id].item.assignee == Some(m.clientId)
      && w.items[id].item.leaseId.None?
  {
    UnregisterMoves(env, s, m.clientId, id);
    var u := UnregisterStep(env, s, m.clientId).0;
    assert m.clientId !in u.manifests;
  }

  /** A client that is unregistered, registered again and then silent: a sweep passes over the item
      that it was running.  If the item is moved first, say to BLOCKED, the column names the client
      again and the sweep recovers it. */
  lemma SavingBringsWorkBack(env: Env, s: State, m: Manifest, id: Id, h: HeartbeatMsg, who: Caller,
                             now: int, limit: int, autoReassign: bool)
    requires Inv(s) && RunsAt(s, id, m.clientId) && m.clientId in s.manifests && ValidId(m.clientId)
    requires h.clientId == m.clientId && h.status != ClientDisconnected && now - h.observedAt > limit
    ensures var w := RegisteredAgain(env, s, m, h);
      var x := TransitionStep(env, w, id, ToBlocked(), who).0;
      var left, recovered := Sweep(env, w, now, limit, autoReassign), Sweep(env, x, now, limit, autoReassign);
      && id in w.items && w.items[id].assignedColumn.None? && id in left.items && left.items[id] == w.items[id]
      && id in x.items && x.items[id].assignedColumn == Some(m.clientId) && id in recovered.items
      && RecoveredRow(recovered, StaleClients(x, now, limit), x.items[id], recovered.items[id], autoReassign)
  {
    RegisteredAgainKeepsInv(env, s, m, h);
    StaleAgainWithout(env, s, m, id, h, now, limit);
    hide *;
    var w := RegisteredAgain(env, s, m, h);
    SweepPassesOver(env, w, id, now, limit, autoReassign);
    BlockedAgain(env, w, m.clientId, id, who, now, limit);
    var x := TransitionStep(env, w, id, ToBlocked(), who).0;
    SweepTakesBack(env, x, m.clientId, id, now, limit, autoReassign);
  }

  lemma SweepPassesOver(env: Env, s: State, id: Id, now: int, limit: int, autoReassign: bool)
    requires Inv(s) && id in s.items && s.items[id].assignedColumn.None?
    ensures var t := Sweep(env, s, now, limit, autoReassign); id in t.items && t.items[id] == s.items[id]
  {
    InvKeyed(s);
    hide Sweep, Inv, Keyed, RecoveredRow, Adds, MarkedStale, SweepTally;
    SweepRecovers(env, s, now, limit, autoReassign);
  }

  lemma SweepTakesBack(env: Env, s: State, c: Id, id: Id, now: int, limit: int, autoReassign: bool)
    requires Inv(s) && c in StaleClients(s, now, limit) && id in s.items
    requires s.items[id].assignedColumn == Some(c) && s.items[id].item.status == ItemBlocked
    ensures var t := Sweep(env, s, now, limit, autoReassign);
      && id in t.items
      && RecoveredRow(t, StaleClients(s, now, limit), s.items[id], t.items[id], autoReassign)
  {
    InvKeyed(s);
    hide Sweep, Inv, Keyed, RecoveredRow, Adds, MarkedStale, SweepTally, StaleClients;
    SweepRecovers(env, s, now, limit, autoReassign);
    assert id in Abandoned(s, StaleClients(s, now, limit));
  }

  lemma BlockedAgain(env: Env, w: State, c: Id, id: Id, who: Caller, now: int, limit: int)
    requires Inv(w) && IsStale(w, c, now, limit) && id in w.items
    requires w.items[id].item.status == Running
    requires w.items[id].item.assignee == Some(c) && w.items[id].item.leaseId.None?
    ensures var x := TransitionStep(env, w, id, ToBlocked(), who).0;
      && Inv(x) && IsStale(x, c, now, limit) && c in StaleClients(x, now, limit)
      && id in x.items && x.items[id].assignedColumn == Some(c) && x.items[id].item.status == ItemBlocked
  {
    hide ValidCaller;
    TransitionKeepsInv(env, w, id, ToBlocked(), who);
    InvKeyed(w);
    hide Inv;
    SavedByTransition(env, w, id, ToBlocked(), who);
    hide TransitionStep;
    assert Saves(w, id, ToBlocked());
  }

  /** An item whose payload names a client that is not registered can be moved only by a request that
      requeues it or names a registered client, with a lease that is stored if there is one; every
      other valid request along the table fails over the broken reference and changes nothing. */
  lemma OrphanMoves(env: Env, s: State, id: Id, r: Request, who: Caller)
    requires Keyed(s) && id in s.items
    requires var item := s.items[id].item; item.assignee.Some? && item.assignee.value !in s.manifests
    ensures var item := s.items[id].item;
      var (t, outcome) := TransitionStep(env, s, id, r, who);
      var lease := Or(r.leaseId, item.leaseId);
      var possible := r.status == Requeued
                      || (r.assignee.Some? && r.assignee.value in s.manifests
                          && (lease.Some? ==> lease.value in s.leases));
      var valid := r.status in AllowedTransitions(item.status) && ValidRequest(r);
      && (outcome == Done(200) <==> valid && possible && ValidCaller(who))
      && (valid && !possible ==> (t, outcome) == (s, Raised(BrokenReference)))
      && (valid && possible ==> id in t.items && t.items[id].item == Updated(item, r, env(|s.events|).now))
  {
    hide ValidCaller, ValidRequest, AllowedTransitions;
  }
}
