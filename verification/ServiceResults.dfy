/** What the calls on clients and leases leave behind, and which event each of them records, field by
    field. */
module ServiceResults {
  import opened Wrappers
  import opened Text
  import opened Events
  import opened ControlPlane
  import opened StaleRecovery
  import opened ControlPlaneRuns
  import opened TransitionResults

  function TrustWord(m: Manifest): string {
    if m.trust == Trusted then "trusted" else if m.trust == Untrusted then "untrusted" else "quarantined"
  }

  /** The ledger gains one event, with a generated id and the next number, at the time of the call. */
  ghost predicate Records(env: Env, s: State, t: State, clientId: Id, display: Option<string>, runId: Option<Id>,
                          taskId: Option<Id>, kind: EventKind, status: EventStatus, actor: string, role: string)
  {
    var n := |s.events|;
    t.events == s.events + [Event(env(n).eventId, n + 1, env(n).now, clientId, display, runId, taskId, kind, status,
                                  actor, role, None)]
  }

  // ---------------------------------------------------------------------------------------------
  // Clients

  lemma RegisterStores(env: Env, s: State, m: Manifest)
    ensures var (t, outcome) := RegisterStep(env, s, m);
      if m.clientId in s.manifests then t == s && outcome == Raised(Duplicate)
      else
        && t == s.(manifests := s.manifests[m.clientId := m], events := t.events) && outcome == Done(201)
        && Records(env, s, t, m.clientId, Some(m.displayName), None, None, Message, Active, m.clientId, TrustWord(m))
  {
  }

  /** The columns that name the client, or a lease of the client, are cleared. */
  predicate Cleared(s: State, c: Id, before: ItemRow, after: ItemRow) {
    && after.item == before.item
    && after.assignedColumn == (if before.assignedColumn == Some(c) then None else before.assignedColumn)
    && after.leaseColumn == match before.leaseColumn
                            case None => None
                            case Some(t) => if t in s.leases && s.leases[t].clientId == c then None else Some(t)
  }

  lemma UnregisterStores(env: Env, s: State, c: Id)
    requires Keyed(s)
    ensures var (t, outcome) := UnregisterStep(env, s, c);
      if c !in s.manifests then t == s && outcome == Raised(NotFound)
      else
        && outcome == Done(200) && t.manifests == s.manifests - {c} && t.heartbeats == s.heartbeats - {c}
        && (forall l :: l in t.leases <==> l in s.leases && s.leases[l].clientId != c)
        && (forall l :: l in t.leases ==> t.leases[l] == s.leases[l])
        && t.items.Keys == s.items.Keys
        && (forall id :: id in s.items ==> Cleared(s, c, s.items[id], t.items[id])) && t.runTasks == s.runTasks
        && Records(env, s, t, c, Some(s.manifests[c].displayName), None, None, Message, Stale, c,
                   TrustWord(s.manifests[c]))
  {
  }

  lemma HeartbeatStores(env: Env, s: State, h: HeartbeatMsg)
    ensures var (t, outcome) := HeartbeatStep(env, s, h);
      if h.clientId !in s.manifests then t == s && outcome == Raised(NotFound)
      else
        var lost := if h.clientId in s.heartbeats then s.heartbeats[h.clientId].lostLeases else [];
        var row := HeartbeatRow(h.status, Some(h.observedAt), h.runId, h.taskId, lost);
        var n := |s.events|;
        && t == s.(heartbeats := s.heartbeats[h.clientId := row], events := t.events) && outcome == Done(200)
        && t.events == s.events + [
             Event(env(n).eventId, n + 1, h.observedAt, h.clientId, Some(s.manifests[h.clientId].displayName),
                   h.runId, h.taskId, Heartbeat, Active, h.actor, h.role, None)]
  {
  }

  // ---------------------------------------------------------------------------------------------
  // Leases

  ghost predicate RecordsLease(env: Env, s: State, t: State, lease: Lease, status: EventStatus) {
    Records(env, s, t, lease.clientId, None, Some(lease.runId), Some(lease.taskId), TaskLeaseChange, status,
            lease.actor, lease.role)
  }

  /** A stored lease loads unless its reason is too long or has a line break or a tab. */
  predicate Loads(lease: Lease) {
    match lease.releaseReason
    case None => true
    case Some(reason) => |reason| <= 300 && '\n' !in reason && '\r' !in reason && '\t' !in reason
  }

  lemma AcquireStores(env: Env, s: State, r: AcquireRequest)
    ensures var (t, outcome) := AcquireStep(env, s, r);
      var now := env(|s.events|).now;
      if r.clientId !in s.manifests then t == s && outcome == Raised(NotFound)
      else if r.taskId in s.leases && !Loads(s.leases[r.taskId]) then t == s && outcome == Raised(Unreadable)
      else if r.taskId in s.leases && s.leases[r.taskId].status == LeaseActive then
        t == s.(events := t.events) && outcome == Done(409) && RecordsLease(env, s, t, s.leases[r.taskId], Blocked)
      else
        var lease := Lease(r.taskId, r.runId, r.clientId, r.role, r.actor, now, now + r.ttlSeconds, LeaseActive, None);
        && t == s.(leases := s.leases[r.taskId := lease], events := t.events) && outcome == Done(201)
        && RecordsLease(env, s, t, lease, Active)
  {
  }

  /** Why the client cannot change the lease, in the order in which it is told. */
  function Refusal(s: State, task: Id, c: Id): Option<Error> {
    if task !in s.leases then Some(NotFound)
    else if !Loads(s.leases[task]) then Some(Unreadable)
    else if s.leases[task].clientId != c then Some(NotHolder)
    else if s.leases[task].status != LeaseActive then Some(NotActive)
    else if c !in s.manifests then Some(NotFound)
    else None
  }

  lemma RenewStores(env: Env, s: State, task: Id, c: Id, ttlSeconds: int)
    ensures var (t, outcome) := RenewStep(env, s, task, c, ttlSeconds);
      if Refusal(s, task, c).Some? then t == s && outcome == Raised(Refusal(s, task, c).value)
      else
        var lease := s.leases[task].(expiresAt := env(|s.events|).now + ttlSeconds);
        && t == s.(leases := s.leases[task := lease], events := t.events) && outcome == Done(200)
        && RecordsLease(env, s, t, lease, Active)
  {
  }

  lemma ReleaseStores(env: Env, s: State, task: Id, c: Id, reason: Option<string>)
    ensures var (t, outcome) := ReleaseStep(env, s, task, c, reason);
      if Refusal(s, task, c).Some? then t == s && outcome == Raised(Refusal(s, task, c).value)
      else
        var lease := s.leases[task].(status := LeaseReleased, releaseReason := reason);
        && t == s.(leases := s.leases[task := lease], events := t.events) && outcome == Done(200)
        && RecordsLease(env, s, t, lease, Passed)
  {
  }

  lemma ExpireStores(env: Env, s: State, task: Id)
    ensures var (t, outcome) := ExpireStep(env, s, task);
      if task !in s.leases then t == s && outcome == Raised(NotFound)
      else if !Loads(s.leases[task]) then t == s && outcome == Raised(Unreadable)
      else if s.leases[task].clientId !in s.manifests then t == s && outcome == Raised(NotFound)
      else
        var lease := s.leases[task].(status := LeaseExpired, releaseReason := Some("lease expired"));
        && t == s.(leases := s.leases[task := lease], events := t.events) && outcome == Done(200)
        && RecordsLease(env, s, t, lease, Stale)
  {
  }

  // ---------------------------------------------------------------------------------------------
  // The events of a sweep

  /** Marking a client as stale records where it was seen last. */
  lemma MarkRecords(env: Env, s: State, c: Id)
    requires Keyed(s) && c in s.manifests && c in s.heartbeats
    ensures var t, m := MarkStaleStep(env, s, c), s.manifests[c];
      Records(env, s, t, c, Some(m.displayName), s.heartbeats[c].lastRun, s.heartbeats[c].lastTask, Heartbeat,
              Stale, c, TrustWord(m))
  {
  }

  /** Marking keeps when and where the client was seen last, and makes a row if there is none. */
  lemma MarkStores(s: State, c: Id)
    ensures var t := MarkStale(s, c);
      && t == s.(heartbeats := t.heartbeats, leases := t.leases) && c in t.heartbeats
      && t.heartbeats == s.heartbeats[c := t.heartbeats[c]] && t.heartbeats[c].status == ClientStale
      && t.heartbeats[c].lastAt == (if c in s.heartbeats then s.heartbeats[c].lastAt else None)
      && t.heartbeats[c].lastRun == (if c in s.heartbeats then s.heartbeats[c].lastRun else None)
      && t.heartbeats[c].lastTask == (if c in s.heartbeats then s.heartbeats[c].lastTask else None)
      && t.leases.Keys == s.leases.Keys
      && forall l :: l in s.leases ==>
           t.leases[l] == if s.leases[l].clientId == c && s.leases[l].status == LeaseActive
                          then s.leases[l].(status := LeaseExpired, releaseReason := Some("client marked stale"))
                          else s.leases[l]
  {
    hide LostLeases;
  }

  ghost predicate EventOf(env: Env, n: nat, e: Event, m: Manifest, display: Option<string>, item: WorkItem,
                          kind: EventKind)
  {
    e == Event(env(n).eventId, n + 1, env(n).now, m.clientId, display, Some(item.runId), Some(item.id), kind, Active,
               m.clientId, TrustWord(m), item.digest)
  }

  /** Requeueing an item of a stale client records the change and the recovery, both in its name. */
  lemma RequeueRecords(env: Env, s: State, m: Manifest, id: Id)
    requires Keyed(s) && ValidId(m.clientId) && id in s.items
    ensures var (t, done) := RequeueStep(env, s, m, id);
      var n, item := |s.events|, s.items[id].item;
      if done then
        && |t.events| == n + 2 && s.events <= t.events
        && EventOf(env, n, t.events[n], m, None, item, WorkItemChange)
        && EventOf(env, n + 1, t.events[n + 1], m, Some(m.displayName), item, RecoveryAction)
      else t == s
  {
    if Recoverable(s.items[id].item.status) {
      RequeuePasses(env, s, m, id);
    }
  }

  // ---------------------------------------------------------------------------------------------
  // Submitted events

  /** Some kinds of event may be submitted only in certain roles. */
  predicate MaySubmit(e: Event) {
    && (e.kind == FileChangeApplied ==> e.role == "builder" || e.role == "release_guardian")
    && (e.kind == ApprovalRecorded || e.kind == SignerEvent || e.kind == DeploymentEvent ==>
          e.role == "release_guardian")
    && (e.kind == RecoveryAction ==> e.role == "operator" || e.role == "release_guardian")
  }

  lemma IngestStores(env: Env, s: State, e: Event)
    ensures var (t, outcome) := IngestStep(env, s, e);
      var n := |s.events|;
      && t == s.(events := t.events)
      && if !MaySubmit(e) then
           outcome == Done(403)
           && t.events == s.events + [Event(env(n).eventId, e.sequence, env(n).now, e.clientId, None, e.runId, e.taskId,
                                            PolicyDenied, Blocked, e.actor, e.role, e.digest)]
         else if exists k :: 0 <= k < n && s.events[k].eventId == e.eventId then t == s && outcome == Raised(Duplicate)
         else t.events == s.events + [e] && outcome == Done(201)
  {
  }
}
