/** The ledger agrees with the tables: events are numbered densely, and the newest work-item event of
    every stored item shows the item as it is stored. */
module LedgerAgreement {
  import opened Wrappers
  import opened Ordering
  import opened Events
  import opened ControlPlane
  import opened StaleRecovery
  import opened ControlPlaneRuns

  predicate Concerns(e: Event, id: Id) {
    e.kind == WorkItemChange && e.taskId == Some(id)
  }

  ghost predicate IsLatest(events: seq<Event>, k: nat, id: Id) {
    k < |events| && Concerns(events[k], id) && forall j :: k < j < |events| ==> !Concerns(events[j], id)
  }

  predicate Shows(e: Event, item: WorkItem) {
    && Concerns(e, item.id) && e.runId == Some(item.runId)
    && e.status == EventStatusOf(item.status) && e.digest == item.digest
  }

  ghost predicate LatestShows(events: seq<Event>, item: WorkItem) {
    exists k: nat :: IsLatest(events, k, item.id) && Shows(events[k], item)
  }

  /** Every work-item event is about a stored item. */
  ghost predicate Grounded(s: State) {
    forall e :: e in s.events && e.kind == WorkItemChange ==> e.taskId.Some? && e.taskId.value in s.items
  }

  ghost predicate ItemsShown(s: State) {
    forall id :: id in s.items ==> LatestShows(s.events, s.items[id].item)
  }

  ghost predicate Ledger(s: State) {
    Dense(s.events) && Grounded(s) && ItemsShown(s)
  }

  // ---------------------------------------------------------------------------------------------
  // Appending

  lemma StillLatest(events: seq<Event>, e: Event, item: WorkItem)
    requires LatestShows(events, item) && !Concerns(e, item.id)
    ensures LatestShows(events + [e], item)
  {
    var k: nat :| IsLatest(events, k, item.id) && Shows(events[k], item);
    assert IsLatest(events + [e], k, item.id);
  }

  lemma NowLatest(events: seq<Event>, e: Event, item: WorkItem)
    requires Shows(e, item)
    ensures LatestShows(events + [e], item)
  {
    assert IsLatest(events + [e], |events|, item.id);
  }

  lemma LatestUnique(events: seq<Event>, i: nat, j: nat, id: Id)
    requires IsLatest(events, i, id) && IsLatest(events, j, id)
    ensures i == j
  {
  }

  lemma DenseAppend(env: Env, s: State, d: Draft)
    requires Dense(s.events)
    ensures Dense(Append(env, s, d).events)
  {
  }

  /** Items may lose columns; their payloads are the same. */
  ghost predicate SamePayloads(s: State, t: State) {
    && t.items.Keys == s.items.Keys
    && forall id :: id in s.items ==> t.items[id].item == s.items[id].item
  }

  /** One event was appended, and it is not about a work item. */
  ghost predicate QuietEvent(before: seq<Event>, after: seq<Event>) {
    && |after| == |before| + 1 && after == before + [after[|before|]]
    && after[|before|].kind != WorkItemChange && after[|before|].sequence == |after|
  }

  ghost predicate Quiet(s: State, t: State) {
    t == s || (SamePayloads(s, t) && QuietEvent(s.events, t.events))
  }

  lemma QuietKeepsLedger(s: State, t: State)
    requires Ledger(s) && Quiet(s, t)
    ensures Ledger(t)
  {
    if t != s {
      var e := t.events[|s.events|];
      forall id | id in t.items ensures LatestShows(t.events, t.items[id].item) {
        assert id in s.items;
        StillLatest(s.events, e, s.items[id].item);
      }
    }
  }

  lemma AppendKeepsLedger(env: Env, s: State, d: Draft)
    requires Ledger(s) && d.kind != WorkItemChange
    ensures Ledger(Append(env, s, d))
  {
    hide Ledger;
    QuietKeepsLedger(s, Append(env, s, d));
  }

  /** Saving an item together with its event. */
  lemma SaveKeepsLedger(env: Env, s: State, item: WorkItem, c: Caller)
    requires Keyed(s) && Ledger(s)
    ensures Ledger(Append(env, PutItem(s, item), ItemDraft(item, c)))
  {
    var t := PutItem(s, item);
    DenseAppend(env, t, ItemDraft(item, c));
    var e := Stamped(env, |s.events|, ItemDraft(item, c));
    forall id | id in t.items ensures LatestShows(s.events + [e], t.items[id].item) {
      if id == item.id {
        NowLatest(s.events, e, item);
      } else {
        assert t.items[id] == s.items[id];
        StillLatest(s.events, e, s.items[id].item);
      }
    }
  }

  /** Saving an item without its event keeps agreement exactly when there was nothing new to show. */
  lemma SilentSave(s: State, item: WorkItem)
    requires Keyed(s) && Ledger(s)
    ensures Ledger(PutItem(s, item)) <==> LatestShows(s.events, item)
  {
    var t := PutItem(s, item);
    if LatestShows(s.events, item) {
      forall id | id in t.items ensures LatestShows(t.events, t.items[id].item) {
        assert id == item.id || t.items[id] == s.items[id];
      }
    } else {
      assert item.id in t.items && t.items[item.id].item == item;
    }
  }

  /** What a ledger event shows of an item. */
  predicate SameShown(a: WorkItem, b: WorkItem) {
    a.id == b.id && a.runId == b.runId && EventStatusOf(a.status) == EventStatusOf(b.status) && a.digest == b.digest
  }

  lemma ShownOnce(events: seq<Event>, a: WorkItem, b: WorkItem)
    requires LatestShows(events, a) && a.id == b.id
    ensures LatestShows(events, b) <==> SameShown(a, b)
  {
    var i: nat :| IsLatest(events, i, a.id) && Shows(events[i], a);
    if LatestShows(events, b) {
      var j: nat :| IsLatest(events, j, b.id) && Shows(events[j], b);
      LatestUnique(events, i, j, a.id);
    }
  }

  lemma NeverShown(s: State, item: WorkItem)
    requires Grounded(s) && item.id !in s.items
    ensures !LatestShows(s.events, item)
  {
  }

  // ---------------------------------------------------------------------------------------------
  // Work items

  /** The transition changes nothing that an event would show. */
  predicate Invisible(item: WorkItem, r: Request) {
    EventStatusOf(r.status) == EventStatusOf(item.status) && Or(r.digest, item.digest) == item.digest
  }

  /** A transition keeps the ledger in agreement exactly when it saves nothing, its event can be
      built, or the event would have shown nothing new. */
  lemma TransitionKeepsLedger(env: Env, s: State, id: Id, r: Request, who: Caller)
    requires Keyed(s) && Ledger(s)
    ensures Ledger(TransitionStep(env, s, id, r, who).0)
       <==> (Saves(s, id, r) ==> ValidCaller(who) || Invisible(s.items[id].item, r))
  {
    hide Ledger, TransitionStep, ValidCaller, LatestShows;
    SavedByTransition(env, s, id, r, who);
    if Saves(s, id, r) {
      var item := s.items[id].item;
      var u := Updated(item, r, env(|s.events|).now);
      if ValidCaller(who) {
        SaveKeepsLedger(env, s, u, who);
      } else {
        SilentSave(s, u);
        assert LatestShows(s.events, item) by { StoredIsShown(s, id); }
        assert u.id == item.id && (SameShown(item, u) <==> Invisible(item, r));
        ShownOnce(s.events, item, u);
      }
    } else if id in s.items {
      AppendKeepsLedger(env, s, DenialDraft(s.items[id].item, who.(summary := None)));
    }
  }

  lemma StoredIsShown(s: State, id: Id)
    requires Ledger(s) && id in s.items
    ensures LatestShows(s.events, s.items[id].item)
  {
  }

  /** Creating an item keeps agreement exactly when it stores nothing or its event can be built. */
  lemma CreateKeepsLedger(env: Env, s: State, item: WorkItem, who: Caller)
    requires Keyed(s) && Ledger(s)
    ensures Ledger(CreateStep(env, s, item, who).0)
       <==> (item.id !in s.items && References(s, item) ==> ValidCaller(who))
  {
    if item.id !in s.items && References(s, item) {
      if ValidCaller(who) {
        SaveKeepsLedger(env, s, item, who);
      } else {
        SilentSave(s, item);
        NeverShown(s, item);
      }
    }
  }

  lemma ScheduleKeepsLedger(env: Env, s: State, id: Id, who: Caller)
    requires Keyed(s) && Ledger(s) && ValidCaller(who)
    ensures Ledger(ScheduleStep(env, s, id, who).0)
  {
    hide Ledger, Keyed, RankedClients, TransitionStep;
    if id in s.items {
      var item := s.items[id].item;
      AppendKeepsLedger(env, s, DenialDraft(item, who.(summary := None)));
      if RankedClients(s, item) != [] {
        TransitionKeepsLedger(env, s, id, AssignTo(RankedClients(s, item)[0]), who.(summary := None));
      }
    }
  }

  // ---------------------------------------------------------------------------------------------
  // The sweep

  lemma MarkStaleKeepsLedger(env: Env, s: State, c: Id)
    requires Ledger(s) && c in s.manifests
    ensures Ledger(MarkStaleStep(env, s, c))
  {
    hide Ledger;
    QuietKeepsLedger(s, MarkStaleStep(env, s, c));
  }

  lemma RequeueKeepsLedger(env: Env, s: State, m: Manifest, id: Id)
    requires Keyed(s) && Ledger(s) && id in s.items && ValidId(m.clientId)
    ensures Ledger(RequeueStep(env, s, m, id).0)
  {
    hide Ledger, Keyed, TransitionStep, ValidCaller;
    RecoveryCallerIsValid(m);
    TransitionKeepsLedger(env, s, id, ToRequeued(), RecoveryCaller(m));
    var s1 := TransitionStep(env, s, id, ToRequeued(), RecoveryCaller(m)).0;
    if id in s1.items {
      AppendKeepsLedger(env, s1, RecoveryDraft(s1.items[id].item, m));
    }
  }

  lemma InvIsKeyed(s: State)
    requires Inv(s)
    ensures Keyed(s)
  {
  }

  lemma ClientIdValid(s: State, c: Id)
    requires Inv(s) && c in s.manifests
    ensures ValidId(s.manifests[c].clientId)
  {
  }

  lemma {:induction false} RequeueFirstKeepsLedger(env: Env, s: State, m: Manifest, ids: seq<Id>, n: nat)
    requires Inv(s) && Ledger(s) && n <= |ids| && ValidId(m.clientId)
    requires forall id :: id in ids ==> id in s.items
    ensures Ledger(RequeueFirst(env, s, m, ids, n).0)
  {
    hide Ledger, Inv, RequeueStep, ValidId;
    if n != 0 {
      assert ids[n - 1] in ids;
      RequeueFirstKeepsLedger(env, s, m, ids, n - 1);
      RequeueFirstKeepsInv(env, s, m, ids, n - 1);
      InvIsKeyed(RequeueFirst(env, s, m, ids, n - 1).0);
      RequeueKeepsLedger(env, RequeueFirst(env, s, m, ids, n - 1).0, m, ids[n - 1]);
    }
  }

  lemma RecoverClientKeepsLedger(env: Env, s: State, c: Id)
    requires Inv(s) && Ledger(s) && c in s.manifests
    ensures Ledger(RecoverClient(env, s, c).0)
  {
    hide Ledger, Inv, MarkStaleStep, ValidId;
    MarkStaleKeepsInv(env, s, c);
    MarkStaleKeepsLedger(env, s, c);
    ClientIdValid(s, c);
    var u := MarkStaleStep(env, s, c);
    var ids := ListItems(u, AssignedIds(u, c));
    RequeueFirstKeepsLedger(env, u, s.manifests[c], ids, |ids|);
  }

  lemma {:induction false} MarkFirstKeepsLedger(env: Env, s: State, clients: seq<Id>, n: nat)
    requires Inv(s) && Ledger(s) && n <= |clients| && forall c :: c in clients ==> c in s.manifests
    ensures Ledger(MarkFirst(env, s, clients, n).0)
  {
    hide Ledger, Inv, RecoverClient;
    if n != 0 {
      assert clients[n - 1] in clients;
      MarkFirstKeepsLedger(env, s, clients, n - 1);
      MarkFirstKeepsInv(env, s, clients, n - 1);
      RecoverClientKeepsLedger(env, MarkFirst(env, s, clients, n - 1).0, clients[n - 1]);
    }
  }

  lemma {:induction false} ReassignFirstKeepsLedger(env: Env, s: State, ids: seq<Id>, n: nat)
    requires Inv(s) && Ledger(s) && n <= |ids|
    ensures Ledger(ReassignFirst(env, s, ids, n))
  {
    hide Ledger, Inv, ScheduleStep, ValidCaller;
    RecoverySchedulerIsValid();
    if n != 0 {
      ReassignFirstKeepsLedger(env, s, ids, n - 1);
      ReassignFirstKeepsInv(env, s, ids, n - 1);
      InvIsKeyed(ReassignFirst(env, s, ids, n - 1));
      ScheduleKeepsLedger(env, ReassignFirst(env, s, ids, n - 1), ids[n - 1], RecoveryScheduler());
    }
  }

  lemma SweepKeepsLedger(env: Env, s: State, now: int, limit: int, autoReassign: bool)
    requires Inv(s) && Ledger(s)
    ensures Ledger(Sweep(env, s, now, limit, autoReassign))
  {
    hide Ledger, Inv, MarkFirst, ReassignFirst;
    var clients := ListClients(s, StaleClients(s, now, limit));
    MarkFirstKeepsLedger(env, s, clients, |clients|);
    MarkFirstKeepsInv(env, s, clients, |clients|);
    var (t, r) := MarkFirst(env, s, clients, |clients|);
    ReassignFirstKeepsLedger(env, t, SortedStrings(r), |SortedStrings(r)|);
  }

  // ---------------------------------------------------------------------------------------------
  // Clients and leases

  /** Calls that concern clients and leases leave the payloads alone and append at most one event
      that is not about a work item. */
  lemma OtherStepsAreQuiet(env: Env, s: State, op: Op)
    requires op.OpRegister? || op.OpUnregister? || op.OpHeartbeat?
          || op.OpAcquire? || op.OpRenew? || op.OpRelease? || op.OpExpire?
    ensures Quiet(s, Step(env, s, op))
  {
    hide *;
    match op {
      case OpRegister(m) => RegisterIsQuiet(env, s, m);
      case OpUnregister(c) => UnregisterIsQuiet(env, s, c);
      case OpHeartbeat(h) => HeartbeatIsQuiet(env, s, h);
      case OpAcquire(r) => AcquireIsQuiet(env, s, r);
      case OpRenew(t, c, ttl) => RenewIsQuiet(env, s, t, c, ttl);
      case OpRelease(t, c, reason) => ReleaseIsQuiet(env, s, t, c, reason);
      case OpExpire(t) => ExpireIsQuiet(env, s, t);
    }
  }

  lemma RegisterIsQuiet(env: Env, s: State, m: Manifest)
    ensures Quiet(s, Step(env, s, OpRegister(m)))
  {
  }

  lemma UnregisterIsQuiet(env: Env, s: State, c: Id)
    ensures Quiet(s, Step(env, s, OpUnregister(c)))
  {
  }

  lemma HeartbeatIsQuiet(env: Env, s: State, h: HeartbeatMsg)
    ensures Quiet(s, Step(env, s, OpHeartbeat(h)))
  {
  }

  lemma AcquireIsQuiet(env: Env, s: State, r: AcquireRequest)
    ensures Quiet(s, Step(env, s, OpAcquire(r)))
  {
  }

  lemma RenewIsQuiet(env: Env, s: State, t: Id, c: Id, ttlSeconds: int)
    ensures Quiet(s, Step(env, s, OpRenew(t, c, ttlSeconds)))
  {
  }

  lemma ReleaseIsQuiet(env: Env, s: State, t: Id, c: Id, reason: Option<string>)
    ensures Quiet(s, Step(env, s, OpRelease(t, c, reason)))
  {
  }

  lemma ExpireIsQuiet(env: Env, s: State, t: Id)
    ensures Quiet(s, Step(env, s, OpExpire(t)))
  {
  }

  // ---------------------------------------------------------------------------------------------
  // Runs

  /** The services themselves make every event, for callers whose fields make a valid event. */
  predicate Served(op: Op) {
    WellTyped(op)
    && match op
       case OpCreate(_, who) => ValidCaller(who)
       case OpTransition(_, _, who) => ValidCaller(who)
       case OpSchedule(_, who) => ValidCaller(who)
       case OpScheduleNext(_, who) => ValidCaller(who)
       case OpIngest(_) => false
       case _ => true
  }

  lemma StepKeepsLedger(env: Env, s: State, op: Op)
    requires Inv(s) && Ledger(s) && Served(op)
    ensures Ledger(Step(env, s, op))
  {
    hide Ledger, Inv, Quiet, ValidCaller, WellTyped, CreateStep, TransitionStep, ScheduleStep, Sweep, RegisterStep,
         UnregisterStep, HeartbeatStep, AcquireStep, RenewStep, ReleaseStep, ExpireStep;
    InvIsKeyed(s);
    match op {
      case OpSweep(now, limit, auto_) => SweepKeepsLedger(env, s, now, limit, auto_);
      case OpCreate(item, who) => CreateKeepsLedger(env, s, item, who);
      case OpTransition(id, r, who) => TransitionKeepsLedger(env, s, id, r, who);
      case OpSchedule(id, who) => ScheduleKeepsLedger(env, s, id, who);
      case OpScheduleNext(run, who) =>
        var candidates := ListItems(s, Candidates(s, run));
        if candidates != [] {
          ScheduleKeepsLedger(env, s, candidates[0], who);
        }
      case _ =>
        OtherStepsAreQuiet(env, s, op);
        QuietKeepsLedger(s, Step(env, s, op));
    }
  }

  // ---------------------------------------------------------------------------------------------
  // Numbering, whoever calls

  /** The later ledger extends the earlier one with events numbered in turn. */
  ghost predicate Extends(s: State, t: State) {
    && s.events <= t.events
    && forall k :: |s.events| <= k < |t.events| ==> t.events[k].sequence == k + 1
  }

  lemma ExtendsCompose(s: State, t: State, u: State)
    requires Extends(s, t) && Extends(t, u)
    ensures Extends(s, u)
  {
    forall k | |s.events| <= k < |u.events| ensures u.events[k].sequence == k + 1 {
      if k < |t.events| {
        assert u.events[k] == t.events[k];
      }
    }
  }

  lemma TransitionExtends(env: Env, s: State, id: Id, r: Request, who: Caller)
    ensures Extends(s, TransitionStep(env, s, id, r, who).0)
  {
    hide TransitionStep, ValidCaller, ValidRequest;
    SavedByTransition(env, s, id, r, who);
  }

  lemma ScheduleExtends(env: Env, s: State, id: Id, who: Caller)
    ensures Extends(s, ScheduleStep(env, s, id, who).0)
  {
    hide TransitionStep, ValidCaller, RankedClients;
    if id in s.items && RankedClients(s, s.items[id].item) != [] {
      TransitionExtends(env, s, id, AssignTo(RankedClients(s, s.items[id].item)[0]), who.(summary := None));
    }
  }

  lemma RequeueExtends(env: Env, s: State, m: Manifest, id: Id)
    requires id in s.items
    ensures Extends(s, RequeueStep(env, s, m, id).0)
  {
    hide TransitionStep;
    TransitionExtends(env, s, id, ToRequeued(), RecoveryCaller(m));
    var s1 := TransitionStep(env, s, id, ToRequeued(), RecoveryCaller(m)).0;
    if id in s1.items {
      ExtendsCompose(s, s1, Append(env, s1, RecoveryDraft(s1.items[id].item, m)));
    }
  }

  lemma {:induction false} RequeueFirstExtends(env: Env, s: State, m: Manifest, ids: seq<Id>, n: nat)
    requires n <= |ids| && forall id :: id in ids ==> id in s.items
    ensures Extends(s, RequeueFirst(env, s, m, ids, n).0)
  {
    hide RequeueStep, Extends;
    if n == 0 {
      ExtendsItself(s);
    } else {
      assert ids[n - 1] in ids;
      RequeueFirstExtends(env, s, m, ids, n - 1);
      var t := RequeueFirst(env, s, m, ids, n - 1).0;
      RequeueExtends(env, t, m, ids[n - 1]);
      ExtendsCompose(s, t, RequeueStep(env, t, m, ids[n - 1]).0);
    }
  }

  lemma ExtendsItself(s: State)
    ensures Extends(s, s)
  {
  }

  lemma RecoverClientExtends(env: Env, s: State, c: Id)
    requires c in s.manifests
    ensures Extends(s, RecoverClient(env, s, c).0)
  {
    var u := MarkStaleStep(env, s, c);
    var ids := ListItems(u, AssignedIds(u, c));
    assert Extends(s, u);
    RequeueFirstExtends(env, u, s.manifests[c], ids, |ids|);
    ExtendsCompose(s, u, RequeueFirst(env, u, s.manifests[c], ids, |ids|).0);
  }

  lemma {:induction false} MarkFirstExtends(env: Env, s: State, clients: seq<Id>, n: nat)
    requires n <= |clients| && forall c :: c in clients ==> c in s.manifests
    ensures Extends(s, MarkFirst(env, s, clients, n).0)
  {
    hide RecoverClient, Extends;
    if n == 0 {
      ExtendsItself(s);
    } else {
      assert clients[n - 1] in clients;
      MarkFirstExtends(env, s, clients, n - 1);
      var t := MarkFirst(env, s, clients, n - 1).0;
      RecoverClientExtends(env, t, clients[n - 1]);
      ExtendsCompose(s, t, RecoverClient(env, t, clients[n - 1]).0);
    }
  }

  lemma {:induction false} ReassignFirstExtends(env: Env, s: State, ids: seq<Id>, n: nat)
    requires n <= |ids|
    ensures Extends(s, ReassignFirst(env, s, ids, n))
  {
    hide ScheduleStep, Extends;
    if n == 0 {
      ExtendsItself(s);
    } else {
      ReassignFirstExtends(env, s, ids, n - 1);
      var t := ReassignFirst(env, s, ids, n - 1);
      ScheduleExtends(env, t, ids[n - 1], RecoveryScheduler());
      ExtendsCompose(s, t, ScheduleStep(env, t, ids[n - 1], RecoveryScheduler()).0);
    }
  }

  lemma SweepExtends(env: Env, s: State, now: int, limit: int, autoReassign: bool)
    ensures Extends(s, Sweep(env, s, now, limit, autoReassign))
  {
    hide Extends, MarkFirst, ReassignFirst;
    var clients := ListClients(s, StaleClients(s, now, limit));
    MarkFirstExtends(env, s, clients, |clients|);
    var (t, r) := MarkFirst(env, s, clients, |clients|);
    var ids := SortedStrings(r);
    ReassignFirstExtends(env, t, ids, |ids|);
    ExtendsCompose(s, t, ReassignFirst(env, t, ids, |ids|));
  }

  lemma QuietExtends(s: State, t: State)
    requires Quiet(s, t)
    ensures Extends(s, t)
  {
  }

  /** Every call of the services appends events with the next numbers. */
  lemma ServiceExtends(env: Env, s: State, op: Op)
    requires !op.OpIngest?
    ensures Extends(s, Step(env, s, op))
  {
    hide Extends, Quiet, TransitionStep, ScheduleStep, Sweep;
    ExtendsItself(s);
    match op {
      case OpSweep(now, limit, auto_) => SweepExtends(env, s, now, limit, auto_);
      case OpCreate(item, who) => CreateExtends(env, s, item, who);
      case OpTransition(id, r, who) => TransitionExtends(env, s, id, r, who);
      case OpSchedule(id, who) => ScheduleExtends(env, s, id, who);
      case OpScheduleNext(run, who) =>
        var candidates := ListItems(s, Candidates(s, run));
        if candidates != [] {
          ScheduleExtends(env, s, candidates[0], who);
        }
      case _ =>
        OtherStepsAreQuiet(env, s, op);
        QuietExtends(s, Step(env, s, op));
    }
  }

  lemma CreateExtends(env: Env, s: State, item: WorkItem, who: Caller)
    ensures Extends(s, CreateStep(env, s, item, who).0)
  {
    hide ValidCaller;
  }

  /** Submitting the event stores an event under the number it bears: itself, when it is permitted
      and its id is new, or the denial, when it is not permitted, whatever its id. */
  predicate NumbersByCaller(s: State, op: Op) {
    op.OpIngest? && (!Permitted(op.e) || IsNewEvent(s, op.e))
  }

  /** Dense numbering survives a step exactly when the step does not store an event under a submitted
      number that is not the next one. */
  lemma StepKeepsDense(env: Env, s: State, op: Op)
    requires Dense(s.events)
    ensures Dense(Step(env, s, op).events) <==> (NumbersByCaller(s, op) ==> op.e.sequence == |s.events| + 1)
  {
    if op.OpIngest? {
      hide Permitted;
      DenseSnoc(s.events, op.e);
      DenseSnoc(s.events, SubmissionDenial(env, s, op.e));
    } else {
      ServiceExtends(env, s, op);
      var t := Step(env, s, op);
      assert forall k :: 0 <= k < |s.events| ==> t.events[k] == s.events[k];
    }
  }

  lemma DenseSnoc(events: seq<Event>, e: Event)
    requires Dense(events)
    ensures Dense(events + [e]) <==> e.sequence == |events| + 1
  {
    assert (events + [e])[|events|] == e;
  }

  lemma LedgerGrows(env: Env, s: State, op: Op)
    ensures s.events <= Step(env, s, op).events
  {
    hide Permitted, IsNewEvent;
    if !op.OpIngest? {
      hide Step;
      ServiceExtends(env, s, op);
    }
  }

  /** A ledger is densely numbered after a run exactly when every event that was stored under a
      submitted number bore the next number at its time. */
  lemma {:induction false} DenseExactly(env: Env, ops: seq<Op>)
    ensures Dense(Run(env, Empty(), ops).events) <==>
      forall k :: 0 <= k < |ops| && NumbersByCaller(At(env, ops, k), ops[k]) ==>
        ops[k].e.sequence == |At(env, ops, k).events| + 1
  {
    hide Step, NumbersByCaller;
    if ops != [] {
      var n := |ops| - 1;
      var s := Run(env, Empty(), ops[..n]);
      DenseExactly(env, ops[..n]);
      forall k | 0 <= k < n ensures At(env, ops[..n], k) == At(env, ops, k) {
        AtPrefix(env, ops, n, k);
      }
      assert s == At(env, ops, n);
      LedgerGrows(env, s, ops[n]);
      if Dense(s.events) {
        StepKeepsDense(env, s, ops[n]);
      }
    }
  }

  /** Without submitted events the listing is the order of writing, even for callers whose fields
      make no valid event. */
  lemma {:induction false} RunKeepsDense(env: Env, ops: seq<Op>)
    requires forall k :: 0 <= k < |ops| ==> !ops[k].OpIngest?
    ensures var events := Run(env, Empty(), ops).events; Dense(events) && Listed(events) == events
  {
    hide Step, Listed;
    if ops != [] {
      var n := |ops| - 1;
      RunKeepsDense(env, ops[..n]);
      StepKeepsDense(env, Run(env, Empty(), ops[..n]), ops[n]);
    }
    DenseListing(Run(env, Empty(), ops).events);
  }

  /** The listing is the order of writing exactly when the ledger was written in listing order. */
  lemma ListedAsWritten(events: seq<Event>)
    ensures Listed(events) == events <==> SortedBy(events, EventLe)
  {
    EventsOrdered();
    SortSorts(events, EventLe);
    if SortedBy(events, EventLe) {
      SortOfSorted(events, EventLe);
    }
  }

  // ---------------------------------------------------------------------------------------------
  // How agreement is lost

  function SampleItem(): WorkItem {
    WorkItem("item", "run", "builder", None, 100, Queued, 0, 0, None, None, None, None)
  }

  function Operator(summary: Option<string>): Caller {
    Caller("operator", "operator", "control-plane", summary)
  }

  /** The summary that blocking an item gives to its event. */
  function BlockedSummary(id: Id, reason: string): string {
    "Work item " + id + " blocked: " + reason
  }

  lemma BlockedSummaryLength(id: Id, reason: string)
    ensures |BlockedSummary(id, reason)| == |id| + |reason| + 20
  {
  }

  /** Blocking an item for a reason of up to 500 characters that makes the summary longer than that
      stores the item as blocked, raises, and leaves the ledger showing it as active. */
  lemma LongSummaryLosesEvent(env: Env, reason: string)
    requires ValidReason(reason) && |reason| > 476
    ensures var s := CreateStep(env, Empty(), SampleItem(), Operator(None)).0;
      var r := Request(ItemBlocked, None, None, None, Some(reason));
      var (t, outcome) := TransitionStep(env, s, "item", r, Operator(Some(BlockedSummary("item", reason))));
      && Ledger(s) && outcome == Raised(InvalidEvent)
      && t.items["item"].item.status == ItemBlocked && !Ledger(t)
  {
    hide Ledger, BlockedSummary;
    var who := Operator(None);
    assert ValidCaller(who);
    EmptyLedger();
    CreateKeepsLedger(env, Empty(), SampleItem(), who);
    var s := CreateStep(env, Empty(), SampleItem(), who).0;
    var r := Request(ItemBlocked, None, None, None, Some(reason));
    BlockedSummaryLength("item", reason);
    var summary := BlockedSummary("item", reason);
    assert ValidRequest(r) && Keyed(s);
    assert !ValidCaller(Operator(Some(summary))) && Saves(s, "item", r) && !Invisible(s.items["item"].item, r);
    TransitionKeepsLedger(env, s, "item", r, Operator(Some(summary)));
  }

  /** A submitted event with a high number, stored or refused, is listed after one written later. */
  lemma SubmittedNumberMisorders(env: Env, e: Event)
    requires e.sequence > 2
    ensures var s := Step(env, Step(env, Empty(), OpIngest(e)), OpCreate(SampleItem(), Operator(None)));
      |s.events| == 2 && Listed(s.events) != s.events
  {
    assert ValidCaller(Operator(None));
    hide Permitted;
    var s := Step(env, Step(env, Empty(), OpIngest(e)), OpCreate(SampleItem(), Operator(None)));
    assert s.events[0].sequence == e.sequence && s.events[1].sequence == 2;
    assert !EventLe(s.events[0], s.events[1]);
    ListedAsWritten(s.events);
  }

  /** Approval events are for release guardians. */
  function ForgedApproval(id: Id, sequence: nat): Event {
    Event(id, sequence, 0, "client", None, None, None, ApprovalRecorded, Passed, "actor", "builder", None)
  }

  /** A builder submits an approval under an id that is stored already: the denial takes the number. */
  lemma RefusedNumberIsKept(env: Env, s: State, sequence: nat)
    requires Dense(s.events) && s.events != []
    ensures var (t, outcome) := IngestStep(env, s, ForgedApproval(s.events[0].eventId, sequence));
      && !IsNewEvent(s, ForgedApproval(s.events[0].eventId, sequence)) && outcome == Done(403)
      && |t.events| == |s.events| + 1 && t.events[|s.events|].kind == PolicyDenied
      && t.events[|s.events|].sequence == sequence
      && (Dense(t.events) <==> sequence == |s.events| + 1)
  {
    var e := ForgedApproval(s.events[0].eventId, sequence);
    assert !Permitted(e) by { assert |"builder"| != |"release_guardian"|; }
    StepKeepsDense(env, s, OpIngest(e));
  }

  lemma EmptyLedger()
    ensures Ledger(Empty())
  {
  }

  lemma ServedIsWellTyped(op: Op)
    requires Served(op)
    ensures WellTyped(op)
  {
  }

  lemma {:induction false} RunKeepsLedger(env: Env, ops: seq<Op>)
    requires forall k :: 0 <= k < |ops| ==> Served(ops[k])
    ensures Inv(Run(env, Empty(), ops)) && Ledger(Run(env, Empty(), ops))
  {
    hide Ledger, Inv, Step, Served;
    forall k | 0 <= k < |ops| ensures WellTyped(ops[k]) {
      ServedIsWellTyped(ops[k]);
    }
    ReachableInv(env, ops);
    EmptyLedger();
    if ops != [] {
      var n := |ops| - 1;
      RunKeepsLedger(env, ops[..n]);
      StepKeepsLedger(env, Run(env, Empty(), ops[..n]), ops[n]);
    }
  }

  /** In every state that the services reach by themselves, the listing of the ledger is the order
      in which it was written, and its newest work-item event shows each item as stored. */
  lemma LedgerAgrees(env: Env, ops: seq<Op>)
    requires forall k :: 0 <= k < |ops| ==> Served(ops[k])
    ensures var s := Run(env, Empty(), ops);
      && Listed(s.events) == s.events
      && (forall k :: 0 <= k < |s.events| ==> s.events[k].sequence == k + 1)
      && (forall id :: id in s.items ==> LatestShows(s.events, s.items[id].item))
      && RunTasksAgree(s)
  {
    RunKeepsLedger(env, ops);
    var s := Run(env, Empty(), ops);
    assert Dense(s.events);
    DenseListing(s.events);
  }
}
