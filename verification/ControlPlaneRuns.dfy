/** Runs of the control plane: what every service call keeps, and what holds across whole runs. */
module ControlPlaneRuns {
  import opened Wrappers
  import opened Ordering
  import opened Events
  import opened ControlPlane
  import opened StaleRecovery

  /** The calls that change the store.  `OpIngest` is the endpoint through which a caller submits a
      complete event, sequence number included. */
  datatype Op =
    | OpRegister(m: Manifest)
    | OpUnregister(c: Id)
    | OpHeartbeat(h: HeartbeatMsg)
    | OpSweep(now: int, limit: int, autoReassign: bool)
    | OpCreate(item: WorkItem, who: Caller)
    | OpTransition(id: Id, r: Request, who: Caller)
    | OpSchedule(id: Id, who: Caller)
    | OpScheduleNext(run: Option<Id>, who: Caller)
    | OpAcquire(acquire: AcquireRequest)
    | OpRenew(t: Id, c: Id, ttlSeconds: int)
    | OpRelease(t: Id, c: Id, reason: Option<string>)
    | OpExpire(t: Id)
    | OpIngest(e: Event)

  function Step(env: Env, s: State, op: Op): State {
    match op
    case OpRegister(m) => RegisterStep(env, s, m).0
    case OpUnregister(c) => UnregisterStep(env, s, c).0
    case OpHeartbeat(h) => HeartbeatStep(env, s, h).0
    case OpSweep(now, limit, auto_) => Sweep(env, s, now, limit, auto_)
    case OpCreate(item, who) => CreateStep(env, s, item, who).0
    case OpTransition(id, r, who) => TransitionStep(env, s, id, r, who).0
    case OpSchedule(id, who) => ScheduleStep(env, s, id, who).0
    case OpScheduleNext(run, who) => ScheduleNextStep(env, s, run, who).0
    case OpAcquire(r) => AcquireStep(env, s, r).0
    case OpRenew(t, c, ttl) => RenewStep(env, s, t, c, ttl).0
    case OpRelease(t, c, reason) => ReleaseStep(env, s, t, c, reason).0
    case OpExpire(t) => ExpireStep(env, s, t).0
    case OpIngest(e) => IngestStep(env, s, e).0
  }

  function Run(env: Env, s: State, ops: seq<Op>): State {
    if ops == [] then s
    else
      var n := |ops| - 1;
      Step(env, Run(env, s, ops[..n]), ops[n])
  }

  function Empty(): State {
    State(map[], map[], map[], map[], map[], [])
  }

  /** Manifests and requests are validated before they can be passed to a call. */
  predicate WellTyped(op: Op) {
    && (op.OpRegister? ==> ValidId(op.m.clientId))
    && (op.OpRelease? && op.reason.Some? ==> |op.reason.value| <= 300)
  }

  // ---------------------------------------------------------------------------------------------
  // The tables

  /** Foreign keys hold: nothing refers to a client or a lease that is not stored. */
  ghost predicate ForeignKeys(s: State) {
    && (forall c :: c in s.heartbeats ==> c in s.manifests)
    && (forall t :: t in s.leases ==> s.leases[t].clientId in s.manifests)
    && (forall id :: id in s.items ==>
          && (s.items[id].assignedColumn.Some? ==> s.items[id].assignedColumn.value in s.manifests)
          && (s.items[id].leaseColumn.Some? ==> s.items[id].leaseColumn.value in s.leases))
  }

  /** The run-task table is `RunTaskState.from_work_item` of the work-item table. */
  ghost predicate RunTasksAgree(s: State) {
    && (forall id :: id in s.items ==>
          var key := (s.items[id].item.runId, id);
          key in s.runTasks && s.runTasks[key] == FromWorkItem(s.items[id].item))
    && (forall key :: key in s.runTasks ==> key.1 in s.items && s.items[key.1].item.runId == key.0)
  }

  /** Leases are stored under their tasks, and an active lease has no release reason yet. */
  ghost predicate LeasesKeyed(s: State) {
    forall t :: t in s.leases ==>
      s.leases[t].taskId == t && Reasoned(s.leases[t])
  }

  predicate Reasoned(lease: Lease) {
    lease.status == LeaseActive ==> lease.releaseReason.None?
  }

  ghost predicate Inv(s: State) {
    Keyed(s) && ForeignKeys(s) && RunTasksAgree(s) && LeasesKeyed(s)
  }

  /** An item may be saved under its id when it keeps its run and refers to stored rows. */
  ghost predicate Storable(s: State, item: WorkItem) {
    References(s, item) && (item.id in s.items ==> s.items[item.id].item.runId == item.runId)
  }

  lemma PutItemKeepsInv(s: State, item: WorkItem)
    requires Inv(s) && Storable(s, item)
    ensures Inv(PutItem(s, item))
  {
  }

  lemma MoreEventsKeepInv(s: State, e: Event)
    requires Inv(s)
    ensures Inv(s.(events := s.events + [e]))
  {
  }

  /** The lease table after the first `n` listed leases were expired. */
  ghost function ExpiredUpTo(s: State, listed: seq<Id>, n: nat): map<Id, Lease>
    requires n <= |listed|
  {
    map t | t in s.leases :: if t in listed[..n] then Expired(s.leases[t]) else s.leases[t]
  }

  lemma AppendKeepsInv(env: Env, s: State, d: Draft)
    requires Inv(s)
    ensures Inv(Append(env, s, d))
  {
    hide Inv;
    MoreEventsKeepInv(s, Stamped(env, |s.events|, d));
  }

  lemma PutLeaseKeepsInv(s: State, t: Id, lease: Lease)
    requires Inv(s) && lease.clientId in s.manifests && lease.taskId == t && Reasoned(lease)
    ensures Inv(s.(leases := s.leases[t := lease]))
  {
  }

  lemma UpdatedIsStorable(s: State, id: Id, r: Request, now: int)
    requires Inv(s) && id in s.items && References(s, Updated(s.items[id].item, r, now))
    ensures Storable(s, Updated(s.items[id].item, r, now))
  {
  }

  /** The call gets as far as saving the item. */
  predicate Saves(s: State, id: Id, r: Request) {
    && id in s.items && r.status in AllowedTransitions(s.items[id].item.status) && ValidRequest(r)
    && References(s, Updated(s.items[id].item, r, 0))
  }

  lemma SavedByTransition(env: Env, s: State, id: Id, r: Request, who: Caller)
    ensures var t := TransitionStep(env, s, id, r, who).0;
      if Saves(s, id, r)
      then var u := Updated(s.items[id].item, r, env(|s.events|).now);
           t == if ValidCaller(who) then Append(env, PutItem(s, u), ItemDraft(u, who)) else PutItem(s, u)
      else t == s || (id in s.items && t == Append(env, s, DenialDraft(s.items[id].item, who.(summary := None))))
  {
    hide ValidCaller, ValidRequest, AllowedTransitions;
    if id in s.items {
      assert References(s, Updated(s.items[id].item, r, 0)) <==>
             References(s, Updated(s.items[id].item, r, env(|s.events|).now));
    }
  }

  lemma TransitionKeepsInv(env: Env, s: State, id: Id, r: Request, who: Caller)
    requires Inv(s)
    ensures Inv(TransitionStep(env, s, id, r, who).0)
  {
    hide Inv, References;
    if id in s.items {
      var current := s.items[id].item;
      AppendKeepsInv(env, s, DenialDraft(current, who.(summary := None)));
      var u := Updated(current, r, env(|s.events|).now);
      if References(s, u) {
        UpdatedIsStorable(s, id, r, env(|s.events|).now);
        PutItemKeepsInv(s, u);
        AppendKeepsInv(env, PutItem(s, u), ItemDraft(u, who));
      }
    }
  }

  lemma ScheduleKeepsInv(env: Env, s: State, id: Id, who: Caller)
    requires Inv(s)
    ensures Inv(ScheduleStep(env, s, id, who).0)
  {
    hide Inv, RankedClients, TransitionStep;
    if id in s.items {
      var item := s.items[id].item;
      AppendKeepsInv(env, s, DenialDraft(item, who.(summary := None)));
      if RankedClients(s, item) != [] {
        TransitionKeepsInv(env, s, id, AssignTo(RankedClients(s, item)[0]), who.(summary := None));
      }
    }
  }

  lemma WithoutClientKeepsInv(s: State, c: Id)
    requires Inv(s)
    ensures Inv(WithoutClient(s, c))
  {
    var t := WithoutClient(s, c);
    forall id | id in t.items
      ensures t.items[id].assignedColumn.Some? ==> t.items[id].assignedColumn.value in t.manifests
      ensures t.items[id].leaseColumn.Some? ==> t.items[id].leaseColumn.value in t.leases
    {
      assert t.items[id] == Detached(s.items[id], c, LeasesOf(s, c));
    }
  }

  lemma UnregisterKeepsInv(env: Env, s: State, c: Id)
    requires Inv(s)
    ensures Inv(UnregisterStep(env, s, c).0)
  {
    hide Inv, WithoutClient;
    if c in s.manifests {
      WithoutClientKeepsInv(s, c);
      AppendKeepsInv(env, WithoutClient(s, c), RegistryDraft(s.manifests[c], Stale));
    }
  }

  lemma MarkKeepsInv(s: State, c: Id)
    requires Inv(s) && c in s.manifests
    ensures Inv(MarkStale(s, c))
  {
  }

  lemma MarkStaleKeepsInv(env: Env, s: State, c: Id)
    requires Inv(s) && c in s.manifests
    ensures Inv(MarkStaleStep(env, s, c))
  {
    hide Inv, MarkStale;
    MarkKeepsInv(s, c);
    MarkKeepsClient(s, c);
    AppendKeepsInv(env, MarkStale(s, c), StaleDraft(MarkStale(s, c), c));
  }

  lemma MarkKeepsClient(s: State, c: Id)
    requires c in s.manifests
    ensures c in MarkStale(s, c).manifests && c in MarkStale(s, c).heartbeats
  {
  }

  lemma RequeueKeepsInv(env: Env, s: State, m: Manifest, id: Id)
    requires Inv(s) && id in s.items
    ensures Inv(RequeueStep(env, s, m, id).0)
  {
    TransitionKeepsInv(env, s, id, ToRequeued(), RecoveryCaller(m));
  }

  lemma {:induction false} RequeueFirstKeepsInv(env: Env, s: State, m: Manifest, ids: seq<Id>, n: nat)
    requires Inv(s) && n <= |ids| && forall id :: id in ids ==> id in s.items
    ensures Inv(RequeueFirst(env, s, m, ids, n).0)
  {
    hide Inv, RequeueStep;
    if n != 0 {
      assert ids[n - 1] in ids;
      RequeueFirstKeepsInv(env, s, m, ids, n - 1);
      RequeueKeepsInv(env, RequeueFirst(env, s, m, ids, n - 1).0, m, ids[n - 1]);
    }
  }

  lemma RecoverClientKeepsInv(env: Env, s: State, c: Id)
    requires Inv(s) && c in s.manifests
    ensures Inv(RecoverClient(env, s, c).0)
  {
    MarkStaleKeepsInv(env, s, c);
    var u := MarkStaleStep(env, s, c);
    var ids := ListItems(u, AssignedIds(u, c));
    RequeueFirstKeepsInv(env, u, s.manifests[c], ids, |ids|);
  }

  lemma {:induction false} MarkFirstKeepsInv(env: Env, s: State, clients: seq<Id>, n: nat)
    requires Inv(s) && n <= |clients| && forall c :: c in clients ==> c in s.manifests
    ensures Inv(MarkFirst(env, s, clients, n).0)
  {
    hide Inv, RecoverClient;
    if n != 0 {
      assert clients[n - 1] in clients;
      MarkFirstKeepsInv(env, s, clients, n - 1);
      RecoverClientKeepsInv(env, MarkFirst(env, s, clients, n - 1).0, clients[n - 1]);
    }
  }

  lemma {:induction false} ReassignFirstKeepsInv(env: Env, s: State, ids: seq<Id>, n: nat)
    requires Inv(s) && n <= |ids|
    ensures Inv(ReassignFirst(env, s, ids, n))
  {
    hide Inv, ScheduleStep;
    if n != 0 {
      ReassignFirstKeepsInv(env, s, ids, n - 1);
      ScheduleKeepsInv(env, ReassignFirst(env, s, ids, n - 1), ids[n - 1], RecoveryScheduler());
    }
  }

  lemma SweepKeepsInv(env: Env, s: State, now: int, limit: int, autoReassign: bool)
    requires Inv(s)
    ensures Inv(Sweep(env, s, now, limit, autoReassign))
  {
    var clients := ListClients(s, StaleClients(s, now, limit));
    MarkFirstKeepsInv(env, s, clients, |clients|);
    var (t, r) := MarkFirst(env, s, clients, |clients|);
    ReassignFirstKeepsInv(env, t, SortedStrings(r), |SortedStrings(r)|);
  }

  /** A lease call appends at most one event, after storing at most one lease of a known client. */
  lemma LeaseStepKeepsInv(env: Env, s: State, t: Id, lease: Lease, d: Draft)
    requires Inv(s) && lease.clientId in s.manifests && lease.taskId == t && Reasoned(lease)
    ensures Inv(Append(env, s, d)) && Inv(Append(env, s.(leases := s.leases[t := lease]), d))
  {
    AppendKeepsInv(env, s, d);
    PutLeaseKeepsInv(s, t, lease);
    AppendKeepsInv(env, s.(leases := s.leases[t := lease]), d);
  }

  lemma AcquireKeepsInv(env: Env, s: State, r: AcquireRequest)
    requires Inv(s)
    ensures Inv(AcquireStep(env, s, r).0)
  {
    if r.clientId in s.manifests {
      var lease := NewLease(r, env(|s.events|).now);
      LeaseStepKeepsInv(env, s, r.taskId, lease, LeaseDraft(lease, Active));
      if r.taskId in s.leases {
        LeaseStepKeepsInv(env, s, r.taskId, lease, LeaseDraft(s.leases[r.taskId], Blocked));
      }
    }
  }

  lemma RenewKeepsInv(env: Env, s: State, t: Id, c: Id, ttlSeconds: int)
    requires Inv(s)
    ensures Inv(RenewStep(env, s, t, c, ttlSeconds).0)
  {
    if HolderError(s, t, c).None? {
      var lease := s.leases[t].(expiresAt := env(|s.events|).now + ttlSeconds);
      LeaseStepKeepsInv(env, s, t, lease, LeaseDraft(lease, Active));
    }
  }

  lemma ReleaseKeepsInv(env: Env, s: State, t: Id, c: Id, reason: Option<string>)
    requires Inv(s)
    ensures Inv(ReleaseStep(env, s, t, c, reason).0)
  {
    if HolderError(s, t, c).None? {
      var lease := s.leases[t].(status := LeaseReleased, releaseReason := reason);
      LeaseStepKeepsInv(env, s, t, lease, LeaseDraft(lease, Passed));
    }
  }

  lemma ExpireKeepsInv(env: Env, s: State, t: Id)
    requires Inv(s)
    ensures Inv(ExpireStep(env, s, t).0)
  {
    if t in s.leases {
      var lease := s.leases[t].(status := LeaseExpired, releaseReason := Some("lease expired"));
      LeaseStepKeepsInv(env, s, t, lease, LeaseDraft(lease, Stale));
    }
  }

  lemma RegisterKeepsInv(env: Env, s: State, m: Manifest)
    requires Inv(s) && ValidId(m.clientId)
    ensures Inv(RegisterStep(env, s, m).0)
  {
    if m.clientId !in s.manifests {
      assert Inv(s.(manifests := s.manifests[m.clientId := m]));
    }
  }

  lemma HeartbeatKeepsInv(env: Env, s: State, h: HeartbeatMsg)
    requires Inv(s)
    ensures Inv(HeartbeatStep(env, s, h).0)
  {
  }

  lemma IngestKeepsInv(env: Env, s: State, e: Event)
    requires Inv(s)
    ensures Inv(IngestStep(env, s, e).0)
  {
    hide Inv, Permitted, IsNewEvent;
    MoreEventsKeepInv(s, e);
    MoreEventsKeepInv(s, SubmissionDenial(env, s, e));
  }

  lemma CreateKeepsInv(env: Env, s: State, item: WorkItem, who: Caller)
    requires Inv(s)
    ensures Inv(CreateStep(env, s, item, who).0)
  {
    hide Inv;
    if item.id !in s.items && References(s, item) {
      PutItemKeepsInv(s, item);
      AppendKeepsInv(env, PutItem(s, item), ItemDraft(item, who));
    }
  }

  /** Every call keeps keys, foreign keys and the run-task table consistent. */
  lemma StepKeepsInv(env: Env, s: State, op: Op)
    requires Inv(s) && WellTyped(op)
    ensures Inv(Step(env, s, op))
  {
    hide Inv, RegisterStep, UnregisterStep, HeartbeatStep, Sweep, CreateStep, TransitionStep, ScheduleStep,
         AcquireStep, RenewStep, ReleaseStep, ExpireStep;
    match op {
      case OpUnregister(c) => UnregisterKeepsInv(env, s, c);
      case OpSweep(now, limit, auto_) => SweepKeepsInv(env, s, now, limit, auto_);
      case OpCreate(item, who) => CreateKeepsInv(env, s, item, who);
      case OpTransition(id, r, who) => TransitionKeepsInv(env, s, id, r, who);
      case OpSchedule(id, who) => ScheduleKeepsInv(env, s, id, who);
      case OpScheduleNext(run, who) =>
        var candidates := ListItems(s, Candidates(s, run));
        if candidates != [] {
          ScheduleKeepsInv(env, s, candidates[0], who);
        }
      case OpRegister(m) => RegisterKeepsInv(env, s, m);
      case OpHeartbeat(h) => HeartbeatKeepsInv(env, s, h);
      case OpIngest(e) => IngestKeepsInv(env, s, e);
      case OpAcquire(r) => AcquireKeepsInv(env, s, r);
      case OpRenew(t, c, ttl) => RenewKeepsInv(env, s, t, c, ttl);
      case OpRelease(t, c, reason) => ReleaseKeepsInv(env, s, t, c, reason);
      case OpExpire(t) => ExpireKeepsInv(env, s, t);
    }
  }

  lemma {:induction false} RunKeepsInv(env: Env, s: State, ops: seq<Op>)
    requires Inv(s) && forall k :: 0 <= k < |ops| ==> WellTyped(ops[k])
    ensures Inv(Run(env, s, ops))
  {
    hide Inv, Step;
    if ops != [] {
      var n := |ops| - 1;
      RunKeepsInv(env, s, ops[..n]);
      StepKeepsInv(env, Run(env, s, ops[..n]), ops[n]);
    }
  }

  lemma EmptyInv()
    ensures Inv(Empty())
  {
  }

  /** In every reachable state each stored lease belongs to a registered client, foreign keys hold,
      and the run-task table mirrors the work items. */
  lemma ReachableInv(env: Env, ops: seq<Op>)
    requires forall k :: 0 <= k < |ops| ==> WellTyped(ops[k])
    ensures Inv(Run(env, Empty(), ops))
  {
    hide *;
    EmptyInv();
    RunKeepsInv(env, Empty(), ops);
  }

  /** The state before call `k` of a run. */
  ghost function At(env: Env, ops: seq<Op>, k: nat): State
    requires k <= |ops|
  {
    Run(env, Empty(), ops[..k])
  }

  lemma AtNext(env: Env, ops: seq<Op>, k: nat)
    requires k < |ops|
    ensures At(env, ops, k + 1) == Step(env, At(env, ops, k), ops[k])
  {
    assert ops[..k + 1][..k] == ops[..k];
  }

  lemma AtPrefix(env: Env, ops: seq<Op>, n: nat, k: nat)
    requires k <= n <= |ops|
    ensures At(env, ops[..n], k) == At(env, ops, k)
  {
    assert ops[..n][..k] == ops[..k];
  }

  lemma AtInv(env: Env, ops: seq<Op>, k: nat)
    requires k <= |ops| && forall i :: 0 <= i < |ops| ==> WellTyped(ops[i])
    ensures Inv(At(env, ops, k))
  {
    hide Inv;
    ReachableInv(env, ops[..k]);
  }
}
