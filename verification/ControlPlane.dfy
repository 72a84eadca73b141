/** The control-plane store and what each service call does to it.  Rows live in maps keyed by their
    primary key; exceptions are outcomes that say how far the call had got. */
module ControlPlane {
  import opened Wrappers
  import opened Ordering
  import opened Text
  import opened Events

  // ---------------------------------------------------------------------------------------------
  // Records

  datatype TrustState = Untrusted | Trusted | Quarantined

  datatype Manifest = Manifest(clientId: Id, displayName: string, capabilities: set<string>, trust: TrustState)

  datatype RuntimeStatus = ClientActive | ClientStale | ClientDisconnected

  datatype HeartbeatRow = HeartbeatRow(
    status: RuntimeStatus, lastAt: Option<int>, lastRun: Option<Id>, lastTask: Option<Id>, lostLeases: seq<Id>)

  datatype LeaseStatus = LeaseActive | LeaseReleased | LeaseExpired | LeaseBlocked

  datatype Lease = Lease(
    taskId: Id, runId: Id, clientId: Id, role: string, actor: string,
    acquiredAt: int, expiresAt: int, status: LeaseStatus, releaseReason: Option<string>)

  datatype WorkItemStatus =
    | Planned | Queued | Assigned | Running | ItemBlocked | WaitingForHuman | Verifying
    | Approved | Completed | ItemFailed | Cancelled | Requeued

  datatype WorkItem = WorkItem(
    id: Id, runId: Id, role: string, capability: Option<string>, priority: int, status: WorkItemStatus,
    createdAt: int, updatedAt: int, assignee: Option<Id>, leaseId: Option<Id>,
    digest: Option<string>, blockedReason: Option<string>)

  /** A row of `work_items`: the payload, and the two columns that foreign keys act on. */
  datatype ItemRow = ItemRow(item: WorkItem, assignedColumn: Option<Id>, leaseColumn: Option<Id>)

  datatype RunTaskState = RunTaskState(
    runId: Id, taskId: Id, workItemId: Option<Id>, status: WorkItemStatus, assignee: Option<Id>,
    leaseId: Option<Id>, blockedReason: Option<string>, digest: Option<string>, updatedAt: int)

  /** `RunTaskState.from_work_item` */
  function FromWorkItem(item: WorkItem): RunTaskState {
    RunTaskState(item.runId, item.id, Some(item.id), item.status, item.assignee, item.leaseId,
                 item.blockedReason, item.digest, item.updatedAt)
  }

  datatype State = State(
    manifests: map<Id, Manifest>,
    heartbeats: map<Id, HeartbeatRow>,
    leases: map<Id, Lease>,
    items: map<Id, ItemRow>,
    runTasks: map<(Id, Id), RunTaskState>,
    events: seq<Event>)

  /** Identifiers and clock readings that the environment supplies, by ledger length. */
  datatype Stamp = Stamp(eventId: Id, now: int)

  type Env = nat -> Stamp

  datatype Error =
    NotFound | Duplicate | BrokenReference | InvalidItem | InvalidEvent | NotHolder | NotActive | Unreadable

  /** A status code, or the exception that ended the call. */
  datatype Outcome = Done(code: nat) | Raised(error: Error)

  // ---------------------------------------------------------------------------------------------
  // Field validation

  predicate Safe(s: string) {
    forall i :: 0 <= i < |s| ==> s[i] != '/' && s[i] != '\\' && s[i] != '\n' && s[i] != '\r' && s[i] != '\t'
  }

  predicate ValidId(s: string) {
    1 <= |s| <= 160 && Safe(s)
  }

  predicate ValidRole(s: string) {
    1 <= |s| <= 80 && Safe(s)
  }

  /** Who asks, and the summary given with the request, if any; an empty one falls back to a default. */
  datatype Caller = Caller(actor: string, role: string, clientId: Id, summary: Option<string>)

  /** The fields pass the validation of `ControlPlaneEvent`. */
  predicate ValidCaller(c: Caller) {
    ValidId(c.actor) && ValidRole(c.role) && ValidId(c.clientId)
    && (c.summary.Some? ==> |c.summary.value| <= 500)
  }

  datatype Request = Request(
    status: WorkItemStatus, assignee: Option<Id>, leaseId: Option<Id>, digest: Option<string>, reason: Option<string>)

  predicate HexDigest(s: string) {
    |s| == 64 && forall i :: 0 <= i < |s| ==> 'a' <= s[i] <= 'f' || '0' <= s[i] <= '9'
  }

  predicate ValidReason(s: string) {
    |s| <= 500 && !HasControl(s)
  }

  /** The supplied values pass the validation of `WorkItem`. */
  predicate ValidRequest(r: Request) {
    && (r.assignee.Some? ==> |r.assignee.value| <= 160 && Safe(r.assignee.value))
    && (r.leaseId.Some? ==> |r.leaseId.value| <= 160 && Safe(r.leaseId.value))
    && (r.digest.Some? ==> HexDigest(r.digest.value))
    && (r.reason.Some? ==> ValidReason(r.reason.value))
  }

  function TrustText(t: TrustState): string {
    match t case Untrusted => "untrusted" case Trusted => "trusted" case Quarantined => "quarantined"
  }

  // ---------------------------------------------------------------------------------------------
  // The ledger

  datatype Draft = Draft(
    clientId: Id, display: Option<string>, runId: Option<Id>, taskId: Option<Id>, kind: EventKind,
    status: EventStatus, actor: string, role: string, digest: Option<string>, at: Option<int>)

  function Stamped(env: Env, n: nat, d: Draft): Event {
    Event(env(n).eventId, n + 1, if d.at.Some? then d.at.value else env(n).now, d.clientId, d.display,
          d.runId, d.taskId, d.kind, d.status, d.actor, d.role, d.digest)
  }

  /** The new event takes the next sequence number, the number of stored events plus one. */
  function Append(env: Env, s: State, d: Draft): State {
    s.(events := s.events + [Stamped(env, |s.events|, d)])
  }

  // ---------------------------------------------------------------------------------------------
  // Clients

  function RegistryDraft(m: Manifest, status: EventStatus): Draft {
    Draft(m.clientId, Some(m.displayName), None, None, Message, status, m.clientId, TrustText(m.trust), None, None)
  }

  function RegisterStep(env: Env, s: State, m: Manifest): (State, Outcome) {
    if m.clientId in s.manifests then (s, Raised(Duplicate))
    else (Append(env, s.(manifests := s.manifests[m.clientId := m]), RegistryDraft(m, Active)), Done(201))
  }

  function LeasesOf(s: State, c: Id): set<Id> {
    set t | t in s.leases && s.leases[t].clientId == c
  }

  /** `ON DELETE SET NULL` acts on the columns; the payload keeps its values. */
  function Detached(row: ItemRow, c: Id, gone: set<Id>): ItemRow {
    row.(assignedColumn := if row.assignedColumn == Some(c) then None else row.assignedColumn,
         leaseColumn := if row.leaseColumn.Some? && row.leaseColumn.value in gone then None else row.leaseColumn)
  }

  /** Deleting a manifest deletes the client's heartbeat and leases with it. */
  function WithoutClient(s: State, c: Id): State {
    var gone := LeasesOf(s, c);
    s.(manifests := s.manifests - {c}, heartbeats := s.heartbeats - {c}, leases := s.leases - gone,
       items := map id | id in s.items :: Detached(s.items[id], c, gone))
  }

  function UnregisterStep(env: Env, s: State, c: Id): (State, Outcome) {
    if c !in s.manifests then (s, Raised(NotFound))
    else (Append(env, WithoutClient(s, c), RegistryDraft(s.manifests[c], Stale)), Done(200))
  }

  datatype HeartbeatMsg = HeartbeatMsg(
    clientId: Id, runId: Option<Id>, taskId: Option<Id>, actor: string, role: string,
    status: RuntimeStatus, observedAt: int)

  function HeartbeatStep(env: Env, s: State, h: HeartbeatMsg): (State, Outcome) {
    if h.clientId !in s.manifests then (s, Raised(NotFound))
    else
      var lost := if h.clientId in s.heartbeats then s.heartbeats[h.clientId].lostLeases else [];
      var row := HeartbeatRow(h.status, Some(h.observedAt), h.runId, h.taskId, lost);
      var draft := Draft(h.clientId, Some(s.manifests[h.clientId].displayName), h.runId, h.taskId,
                         Heartbeat, Active, h.actor, h.role, None, Some(h.observedAt));
      (Append(env, s.(heartbeats := s.heartbeats[h.clientId := row]), draft), Done(200))
  }

  // ---------------------------------------------------------------------------------------------
  // Leases

  function Expired(lease: Lease): Lease {
    lease.(status := LeaseExpired, releaseReason := Some("client marked stale"))
  }

  function ActiveLeases(s: State, c: Id): set<Id> {
    set t | t in s.leases && s.leases[t].clientId == c && s.leases[t].status == LeaseActive
  }

  function ExpireLeasesOf(s: State, c: Id): map<Id, Lease> {
    map t | t in s.leases :: if t in ActiveLeases(s, c) then Expired(s.leases[t]) else s.leases[t]
  }

  function LeaseDraft(lease: Lease, status: EventStatus): Draft {
    Draft(lease.clientId, None, Some(lease.runId), Some(lease.taskId), TaskLeaseChange, status,
          lease.actor, lease.role, None, None)
  }

  datatype AcquireRequest = AcquireRequest(
    taskId: Id, runId: Id, clientId: Id, role: string, actor: string, ttlSeconds: int)

  /** A stored lease is validated whenever it is loaded, a release reason only then. */
  predicate Readable(lease: Lease) {
    lease.releaseReason.Some? ==> |lease.releaseReason.value| <= 300 && !HasControl(lease.releaseReason.value)
  }

  function NewLease(r: AcquireRequest, now: int): Lease {
    Lease(r.taskId, r.runId, r.clientId, r.role, r.actor, now, now + r.ttlSeconds, LeaseActive, None)
  }

  function AcquireStep(env: Env, s: State, r: AcquireRequest): (State, Outcome) {
    if r.clientId !in s.manifests then (s, Raised(NotFound))
    else if r.taskId in s.leases && !Readable(s.leases[r.taskId]) then (s, Raised(Unreadable))
    else if r.taskId in s.leases && s.leases[r.taskId].status == LeaseActive then
      (Append(env, s, LeaseDraft(s.leases[r.taskId], Blocked)), Done(409))
    else
      var lease := NewLease(r, env(|s.events|).now);
      (Append(env, s.(leases := s.leases[r.taskId := lease]), LeaseDraft(lease, Active)), Done(201))
  }

  /** Loading the lease, then `_require_holder`. */
  function HolderError(s: State, t: Id, c: Id): Option<Error> {
    if t !in s.leases then Some(NotFound)
    else if !Readable(s.leases[t]) then Some(Unreadable)
    else if s.leases[t].clientId != c then Some(NotHolder)
    else if s.leases[t].status != LeaseActive then Some(NotActive)
    else None
  }

  function RenewStep(env: Env, s: State, t: Id, c: Id, ttlSeconds: int): (State, Outcome) {
    if HolderError(s, t, c).Some? then (s, Raised(HolderError(s, t, c).value))
    else if c !in s.manifests then (s, Raised(NotFound))
    else
      var lease := s.leases[t].(expiresAt := env(|s.events|).now + ttlSeconds);
      (Append(env, s.(leases := s.leases[t := lease]), LeaseDraft(lease, Active)), Done(200))
  }

  function ReleaseStep(env: Env, s: State, t: Id, c: Id, reason: Option<string>): (State, Outcome) {
    if HolderError(s, t, c).Some? then (s, Raised(HolderError(s, t, c).value))
    else if c !in s.manifests then (s, Raised(NotFound))
    else
      var lease := s.leases[t].(status := LeaseReleased, releaseReason := reason);
      (Append(env, s.(leases := s.leases[t := lease]), LeaseDraft(lease, Passed)), Done(200))
  }

  function ExpireStep(env: Env, s: State, t: Id): (State, Outcome) {
    if t !in s.leases then (s, Raised(NotFound))
    else if !Readable(s.leases[t]) then (s, Raised(Unreadable))
    else if s.leases[t].clientId !in s.manifests then (s, Raised(NotFound))
    else
      var lease := s.leases[t].(status := LeaseExpired, releaseReason := Some("lease expired"));
      (Append(env, s.(leases := s.leases[t := lease]), LeaseDraft(lease, Stale)), Done(200))
  }

  // ---------------------------------------------------------------------------------------------
  // Work items

  function AllowedTransitions(from: WorkItemStatus): set<WorkItemStatus> {
    match from
    case Planned => {Queued, Cancelled}
    case Queued => {Assigned, ItemBlocked, WaitingForHuman, Cancelled}
    case Assigned => {Running, ItemBlocked, WaitingForHuman, Requeued, Cancelled}
    case Running => {ItemBlocked, WaitingForHuman, Verifying, Completed, ItemFailed, Cancelled, Requeued}
    case ItemBlocked => {Queued, Requeued, WaitingForHuman, Cancelled}
    case WaitingForHuman => {Queued, Assigned, Running, Requeued, Cancelled}
    case Verifying => {Approved, ItemFailed, ItemBlocked, WaitingForHuman, Requeued}
    case Approved => {Completed}
    case ItemFailed => {Requeued, Cancelled}
    case Requeued => {Queued, Assigned, Cancelled}
    case Completed => {}
    case Cancelled => {}
  }

  function EventStatusOf(status: WorkItemStatus): EventStatus {
    match status
    case Completed => Passed
    case Approved => Passed
    case ItemFailed => Failed
    case Cancelled => Failed
    case ItemBlocked => Blocked
    case WaitingForHuman => NeedsHuman
    case _ => Active
  }

  function Or<T>(given: Option<T>, kept: Option<T>): Option<T> {
    if given.Some? then given else kept
  }

  /** `update_work_item`, followed by the clearing that a requeue adds. */
  function Updated(item: WorkItem, r: Request, now: int): WorkItem {
    var u := item.(status := r.status, updatedAt := now, assignee := Or(r.assignee, item.assignee),
                   leaseId := Or(r.leaseId, item.leaseId), digest := Or(r.digest, item.digest),
                   blockedReason := Or(r.reason, item.blockedReason));
    if r.status == Requeued then u.(assignee := None, leaseId := None) else u
  }

  /** The foreign keys of a work item row. */
  predicate References(s: State, item: WorkItem) {
    && (item.assignee.Some? ==> item.assignee.value in s.manifests)
    && (item.leaseId.Some? ==> item.leaseId.value in s.leases)
  }

  /** Saving an item writes columns and payload alike, and its run-task state. */
  function PutItem(s: State, item: WorkItem): State {
    s.(items := s.items[item.id := ItemRow(item, item.assignee, item.leaseId)],
       runTasks := s.runTasks[(item.runId, item.id) := FromWorkItem(item)])
  }

  function ItemDraft(item: WorkItem, c: Caller): Draft {
    Draft(c.clientId, None, Some(item.runId), Some(item.id), WorkItemChange, EventStatusOf(item.status),
          c.actor, c.role, item.digest, None)
  }

  function DenialDraft(item: WorkItem, c: Caller): Draft {
    Draft(c.clientId, None, Some(item.runId), Some(item.id), PolicyDenied, Blocked, c.actor, c.role, None, None)
  }

  /** Building the event validates the caller's fields; a failure raises and appends nothing. */
  function AppendFor(env: Env, s: State, c: Caller, d: Draft, code: nat): (State, Outcome) {
    if ValidCaller(c) then (Append(env, s, d), Done(code)) else (s, Raised(InvalidEvent))
  }

  /** Denials bring their own summary. */
  function Deny(env: Env, s: State, item: WorkItem, c: Caller): (State, Outcome) {
    AppendFor(env, s, c.(summary := None), DenialDraft(item, c), 409)
  }

  function CreateStep(env: Env, s: State, item: WorkItem, c: Caller): (State, Outcome) {
    if item.id in s.items then (s, Raised(Duplicate))
    else if !References(s, item) then (s, Raised(BrokenReference))
    else AppendFor(env, PutItem(s, item), c, ItemDraft(item, c), 201)
  }

  function TransitionStep(env: Env, s: State, id: Id, r: Request, c: Caller): (State, Outcome) {
    if id !in s.items then (s, Raised(NotFound))
    else
      var current := s.items[id].item;
      if r.status !in AllowedTransitions(current.status) then Deny(env, s, current, c)
      else if !ValidRequest(r) then (s, Raised(InvalidItem))
      else
        var updated := Updated(current, r, env(|s.events|).now);
        if !References(s, updated) then (s, Raised(BrokenReference))
        else AppendFor(env, PutItem(s, updated), c, ItemDraft(updated, c), 200)
  }

  // ---------------------------------------------------------------------------------------------
  // The scheduler

  predicate Supports(m: Manifest, item: WorkItem) {
    item.capability.None? || item.capability.value in m.capabilities
  }

  predicate IsEligible(s: State, c: Id, item: WorkItem) {
    && c in s.manifests && c in s.heartbeats && s.heartbeats[c].status == ClientActive
    && s.manifests[c].trust == Trusted && Supports(s.manifests[c], item)
  }

  function Eligible(s: State, item: WorkItem): set<Id> {
    set c | c in s.manifests && IsEligible(s, c, item)
  }

  /** (number of active leases, display name, client id) */
  predicate ClientLe(s: State, a: Id, b: Id) {
    && a in s.manifests && b in s.manifests
    && if |ActiveLeases(s, a)| != |ActiveLeases(s, b)| then |ActiveLeases(s, a)| < |ActiveLeases(s, b)|
       else if s.manifests[a].displayName != s.manifests[b].displayName
         then LexLe(s.manifests[a].displayName, s.manifests[b].displayName)
       else LexLe(a, b)
  }

  function ByLoad(s: State): (Id, Id) -> bool {
    (a, b) => ClientLe(s, a, b)
  }

  lemma ClientsOrdered(s: State, cs: set<Id>)
    requires cs <= s.manifests.Keys
    ensures TotalOrderOn(cs, ByLoad(s))
  {
    LexIsTotalOrder();
  }

  function RankedClients(s: State, item: WorkItem): (r: seq<Id>)
    ensures forall c :: c in r <==> c in Eligible(s, item)
    ensures |r| > 0 ==> forall c :: c in Eligible(s, item) ==> c == r[0] || ClientLe(s, r[0], c)
  {
    ClientsOrdered(s, Eligible(s, item));
    SortedSeq(Eligible(s, item), ByLoad(s))
  }

  /** The least eligible client by (number of active leases, display name, id). */
  ghost predicate LeastLoaded(s: State, item: WorkItem, c: Id) {
    c in Eligible(s, item) && forall other :: other in Eligible(s, item) ==> other == c || ClientLe(s, c, other)
  }

  lemma RankedFirst(s: State, item: WorkItem)
    ensures RankedClients(s, item) == [] <==> Eligible(s, item) == {}
    ensures RankedClients(s, item) != [] ==> LeastLoaded(s, item, RankedClients(s, item)[0])
  {
    var ranked := RankedClients(s, item);
    if ranked != [] {
      assert ranked[0] in ranked;
    } else {
      forall c ensures c !in Eligible(s, item) {
        assert c !in ranked;
      }
    }
  }

  function AssignTo(c: Id): Request {
    Request(Assigned, Some(c), None, None, None)
  }

  predicate Schedulable(item: WorkItem) {
    item.status == Queued || item.status == Requeued
  }

  function ScheduleStep(env: Env, s: State, id: Id, c: Caller): (State, Outcome) {
    if id !in s.items then (s, Raised(NotFound))
    else
      var item := s.items[id].item;
      if !Schedulable(item) || RankedClients(s, item) == [] then Deny(env, s, item, c)
      else TransitionStep(env, s, id, AssignTo(RankedClients(s, item)[0]), c.(summary := None))
  }

  /** `ORDER BY priority, created_at, work_item_id` */
  predicate ItemLe(s: State, a: Id, b: Id) {
    && a in s.items && b in s.items
    && var x, y := s.items[a].item, s.items[b].item;
       if x.priority != y.priority then x.priority < y.priority
       else if x.createdAt != y.createdAt then x.createdAt < y.createdAt
       else LexLe(a, b)
  }

  function ByQueue(s: State): (Id, Id) -> bool {
    (a, b) => ItemLe(s, a, b)
  }

  lemma ItemsOrdered(s: State, ids: set<Id>)
    requires ids <= s.items.Keys
    ensures TotalOrderOn(ids, ByQueue(s))
  {
    LexIsTotalOrder();
  }

  function ListItems(s: State, ids: set<Id>): (r: seq<Id>)
    requires ids <= s.items.Keys
    ensures |r| == |ids| && NoDuplicates(r)
    ensures forall id :: id in r <==> id in ids
    ensures |r| > 0 ==> forall id :: id in ids ==> id == r[0] || ItemLe(s, r[0], id)
    ensures SortedBy(r, ByQueue(s))
  {
    ItemsOrdered(s, ids);
    SortedSeq(ids, ByQueue(s))
  }

  function Candidates(s: State, run: Option<Id>): set<Id> {
    set id | id in s.items && (run.None? || s.items[id].item.runId == run.value) && Schedulable(s.items[id].item)
  }

  function ScheduleNextStep(env: Env, s: State, run: Option<Id>, c: Caller): (State, Outcome) {
    var candidates := ListItems(s, Candidates(s, run));
    if candidates == [] then (s, Done(404)) else ScheduleStep(env, s, candidates[0], c)
  }

  // ---------------------------------------------------------------------------------------------
  // Submitted events

  /** The roles that may submit an event of the kind, if it is privileged. */
  function PrivilegedRoles(kind: EventKind): Option<set<string>> {
    match kind
    case FileChangeApplied => Some({"builder", "release_guardian"})
    case ApprovalRecorded => Some({"release_guardian"})
    case SignerEvent => Some({"release_guardian"})
    case DeploymentEvent => Some({"release_guardian"})
    case RecoveryAction => Some({"operator", "release_guardian"})
    case _ => None
  }

  predicate Permitted(e: Event) {
    PrivilegedRoles(e.kind).Some? ==> e.role in PrivilegedRoles(e.kind).value
  }

  /** A refused submission is recorded under a new id, but under the number that was submitted. */
  function SubmissionDenial(env: Env, s: State, e: Event): Event {
    var stamp := env(|s.events|);
    Event(stamp.eventId, e.sequence, stamp.now, e.clientId, None, e.runId, e.taskId, PolicyDenied, Blocked,
          e.actor, e.role, e.digest)
  }

  /** Event ids are a primary key. */
  predicate IsNewEvent(s: State, e: Event) {
    forall k :: 0 <= k < |s.events| ==> s.events[k].eventId != e.eventId
  }

  function IngestStep(env: Env, s: State, e: Event): (State, Outcome) {
    if !Permitted(e) then (s.(events := s.events + [SubmissionDenial(env, s, e)]), Done(403))
    else if IsNewEvent(s, e) then (s.(events := s.events + [e]), Done(201))
    else (s, Raised(Duplicate))
  }
}
