/** What creating and moving a work item leaves behind, status by status and field by field. */
module TransitionResults {
  import opened Wrappers
  import opened Text
  import opened Events
  import opened ControlPlane
  import opened StaleRecovery

  // ---------------------------------------------------------------------------------------------
  // When an item is saved

  /** The statuses from which each status can be reached. */
  predicate Admitted(from: WorkItemStatus, to: WorkItemStatus) {
    match to
    case Planned => false
    case Queued => from == Planned || from == ItemBlocked || from == WaitingForHuman || from == Requeued
    case Assigned => from == Queued || from == WaitingForHuman || from == Requeued
    case Running => from == Assigned || from == WaitingForHuman
    case ItemBlocked => from == Queued || from == Assigned || from == Running || from == Verifying
    case WaitingForHuman =>
      from == Queued || from == Assigned || from == Running || from == ItemBlocked || from == Verifying
    case Verifying => from == Running
    case Approved => from == Verifying
    case Completed => from == Running || from == Approved
    case ItemFailed => from == Running || from == Verifying
    case Cancelled =>
      from == Planned || from == Queued || from == Assigned || from == Running || from == ItemBlocked
      || from == WaitingForHuman || from == ItemFailed || from == Requeued
    case Requeued =>
      from == Assigned || from == Running || from == ItemBlocked || from == WaitingForHuman
      || from == Verifying || from == ItemFailed
  }

  predicate Separates(c: char) {
    c == '/' || c == '\\' || c == '\n' || c == '\r' || c == '\t'
  }

  /** At least and at most so many characters, and no separator among them. */
  predicate PlainName(s: string, least: nat, most: nat) {
    least <= |s| <= most && forall c :: c in s ==> !Separates(c)
  }

  predicate PlainLine(s: string) {
    |s| <= 500 && '\n' !in s && '\r' !in s && '\t' !in s
  }

  predicate LowerHex(s: string) {
    |s| == 64 && forall c :: c in s ==> c in "0123456789abcdef"
  }

  /** The values of a request that the item accepts. */
  predicate WellFormed(r: Request) {
    && (r.assignee.Some? ==> PlainName(r.assignee.value, 0, 160))
    && (r.leaseId.Some? ==> PlainName(r.leaseId.value, 0, 160))
    && (r.digest.Some? ==> LowerHex(r.digest.value))
    && (r.reason.Some? ==> PlainLine(r.reason.value))
  }

  /** The values of a caller that an event accepts. */
  predicate MakesEvent(who: Caller) {
    && PlainName(who.actor, 1, 160) && PlainName(who.role, 1, 80) && PlainName(who.clientId, 1, 160)
    && (who.summary.Some? ==> |who.summary.value| <= 500)
  }

  /** The client is registered and the lease is stored, where they are named at all. */
  predicate Intact(s: State, client: Option<Id>, lease: Option<Id>) {
    (client.Some? ==> client.value in s.manifests) && (lease.Some? ==> lease.value in s.leases)
  }

  // ---------------------------------------------------------------------------------------------
  // What is saved

  /** A supplied value replaces the stored one, an omitted one keeps it. */
  function Supplied<T>(given: Option<T>, stored: Option<T>): Option<T> {
    match given case Some(v) => Some(v) case None => stored
  }

  /** The same, but a requeue leaves nothing. */
  function Held(r: Request, given: Option<Id>, stored: Option<Id>): Option<Id> {
    if r.status == Requeued then None else Supplied(given, stored)
  }

  function Shown(status: WorkItemStatus): EventStatus {
    if status == Completed || status == Approved then Passed
    else if status == ItemFailed || status == Cancelled then Failed
    else if status == ItemBlocked then Blocked
    else if status == WaitingForHuman then NeedsHuman
    else Active
  }

  /** Row, payload and run-task state of the item, written alike; no other row changes. */
  ghost predicate StoredAlike(s: State, t: State, item: WorkItem) {
    && t.manifests == s.manifests && t.heartbeats == s.heartbeats && t.leases == s.leases
    && t.items == s.items[item.id := ItemRow(item, item.assignee, item.leaseId)]
    && t.runTasks == s.runTasks[(item.runId, item.id) :=
         RunTaskState(item.runId, item.id, Some(item.id), item.status, item.assignee, item.leaseId,
                      item.blockedReason, item.digest, item.updatedAt)]
  }

  /** The ledger gains one event of the caller about the item, if the caller's values make one. */
  ghost predicate Tells(env: Env, s: State, t: State, item: WorkItem, who: Caller, kind: EventKind,
                        status: EventStatus, digest: Option<string>)
  {
    var n := |s.events|;
    t.events == if !MakesEvent(who) then s.events else s.events + [
      Event(env(n).eventId, n + 1, env(n).now, who.clientId, None, Some(item.runId), Some(item.id), kind, status,
            who.actor, who.role, digest)]
  }

  lemma Plain(s: string)
    ensures Safe(s) <==> forall c :: c in s ==> !Separates(c)
  {
    if Safe(s) {
      forall c | c in s ensures !Separates(c) {
        var i :| 0 <= i < |s| && s[i] == c;
      }
    } else {
      var i :| 0 <= i < |s| && Separates(s[i]);
      assert s[i] in s;
    }
  }

  lemma Hex(s: string)
    ensures HexDigest(s) <==> LowerHex(s)
  {
    var digits := "0123456789abcdef";
    forall c ensures c in digits <==> 'a' <= c <= 'f' || '0' <= c <= '9' {
      HexDigits(c);
    }
    if LowerHex(s) {
      forall i | 0 <= i < |s| ensures s[i] in digits {
        assert s[i] in s;
      }
    }
  }

  lemma HexDigits(c: char)
    ensures c in "0123456789abcdef" <==> 'a' <= c <= 'f' || '0' <= c <= '9'
  {
    var digits := "0123456789abcdef";
    assert '0' <= c <= '9' ==> digits[(c - '0') as nat] == c;
    assert 'a' <= c <= 'f' ==> digits[10 + (c - 'a') as nat] == c;
    assert forall i :: 0 <= i < 10 ==> digits[i] == '0' + i as char;
    assert forall i :: 10 <= i < 16 ==> digits[i] == 'a' + (i - 10) as char;
  }

  lemma RequestIsWellFormed(r: Request)
    ensures ValidRequest(r) <==> WellFormed(r)
  {
    hide Safe, HexDigest, LowerHex, Separates;
    if r.assignee.Some? { Plain(r.assignee.value); }
    if r.leaseId.Some? { Plain(r.leaseId.value); }
    if r.digest.Some? { Hex(r.digest.value); }
  }

  lemma CallerMakesEvent(who: Caller)
    ensures ValidCaller(who) <==> MakesEvent(who)
  {
    hide Safe, Separates;
    Plain(who.actor);
    Plain(who.role);
    Plain(who.clientId);
  }

  // ---------------------------------------------------------------------------------------------
  // The two calls

  /** A transition stores the item exactly when its status admits the requested one, the request is
      well formed, and the references it would have are intact.  It then stores every supplied value
      and keeps every other, but for client and lease after a requeue.  A status that does not admit
      the requested one is denied; the other failures change nothing. */
  lemma TransitionStores(env: Env, s: State, id: Id, r: Request, who: Caller)
    requires Keyed(s) && id in s.items
    ensures var old_ := s.items[id].item;
      var client, lease := Held(r, r.assignee, old_.assignee), Held(r, r.leaseId, old_.leaseId);
      var digest, reason := Supplied(r.digest, old_.digest), Supplied(r.reason, old_.blockedReason);
      var (t, outcome) := TransitionStep(env, s, id, r, who);
      if !Admitted(old_.status, r.status) then
        && t == s.(events := t.events)
        && Tells(env, s, t, old_, who.(summary := None), PolicyDenied, Blocked, None)
        && outcome == if MakesEvent(who.(summary := None)) then Done(409) else Raised(InvalidEvent)
      else if !WellFormed(r) then t == s && outcome == Raised(InvalidItem)
      else if !Intact(s, client, lease) then t == s && outcome == Raised(BrokenReference)
      else
        var item := WorkItem(id, old_.runId, old_.role, old_.capability, old_.priority, r.status, old_.createdAt,
                             env(|s.events|).now, client, lease, digest, reason);
        && StoredAlike(s, t, item) && Tells(env, s, t, item, who, WorkItemChange, Shown(r.status), digest)
        && outcome == if MakesEvent(who) then Done(200) else Raised(InvalidEvent)
  {
    hide ValidRequest, ValidCaller, WellFormed, MakesEvent, Admitted, AllowedTransitions, StoredAlike, Tells, Shown;
    var old_ := s.items[id].item;
    RequestIsWellFormed(r);
    AdmittedIsAllowed(old_.status, r.status);
    Denied(env, s, old_, who);
    if Admitted(old_.status, r.status) && WellFormed(r) {
      var u := Updated(old_, r, env(|s.events|).now);
      UpdatedFields(old_, r, env(|s.events|).now);
      Stored(env, s, u, who, 200);
    }
  }

  lemma AdmittedIsAllowed(from: WorkItemStatus, to: WorkItemStatus)
    ensures Admitted(from, to) <==> to in AllowedTransitions(from)
  {
  }

  lemma UpdatedFields(item: WorkItem, r: Request, now: int)
    ensures Updated(item, r, now)
         == WorkItem(item.id, item.runId, item.role, item.capability, item.priority, r.status, item.createdAt, now,
                     Held(r, r.assignee, item.assignee), Held(r, r.leaseId, item.leaseId),
                     Supplied(r.digest, item.digest), Supplied(r.reason, item.blockedReason))
  {
  }

  lemma Stored(env: Env, s: State, item: WorkItem, who: Caller, code: nat)
    ensures var (t, outcome) := AppendFor(env, PutItem(s, item), who, ItemDraft(item, who), code);
      && StoredAlike(s, t, item) && Tells(env, s, t, item, who, WorkItemChange, Shown(item.status), item.digest)
      && outcome == if MakesEvent(who) then Done(code) else Raised(InvalidEvent)
  {
    hide ValidCaller, MakesEvent;
    CallerMakesEvent(who);
  }

  lemma Denied(env: Env, s: State, item: WorkItem, who: Caller)
    ensures var (t, outcome) := Deny(env, s, item, who);
      && t == s.(events := t.events)
      && Tells(env, s, t, item, who.(summary := None), PolicyDenied, Blocked, None)
      && outcome == if MakesEvent(who.(summary := None)) then Done(409) else Raised(InvalidEvent)
  {
    hide ValidCaller, MakesEvent;
    CallerMakesEvent(who.(summary := None));
  }

  /** Creating an item stores it as it is, unless its id is taken or a reference is broken. */
  lemma CreateStores(env: Env, s: State, item: WorkItem, who: Caller)
    ensures var (t, outcome) := CreateStep(env, s, item, who);
      if item.id in s.items then t == s && outcome == Raised(Duplicate)
      else if !Intact(s, item.assignee, item.leaseId) then t == s && outcome == Raised(BrokenReference)
      else
        && StoredAlike(s, t, item) && Tells(env, s, t, item, who, WorkItemChange, Shown(item.status), item.digest)
        && outcome == if MakesEvent(who) then Done(201) else Raised(InvalidEvent)
  {
    hide ValidCaller, MakesEvent, StoredAlike, Tells, Shown;
    Stored(env, s, item, who, 201);
  }
}
