/** The sweep over stale clients: every one is marked, its leases expire and its unfinished work is
    requeued; only then may the requeued work be handed out again. */
module StaleRecovery {
  import opened Wrappers
  import opened Ordering
  import opened Events
  import opened ControlPlane

  predicate Recoverable(status: WorkItemStatus) {
    status in {Assigned, Running, ItemBlocked, WaitingForHuman, Verifying}
  }

  /** Connected at some time, and silent for longer than the threshold. */
  predicate IsStale(s: State, c: Id, now: int, limit: int) {
    && c in s.manifests && c in s.heartbeats
    && s.heartbeats[c].status != ClientDisconnected && s.heartbeats[c].lastAt.Some?
    && now - s.heartbeats[c].lastAt.value > limit
  }

  function StaleClients(s: State, now: int, limit: int): set<Id> {
    set c | c in s.manifests && IsStale(s, c, now, limit)
  }

  /** `ORDER BY display_name, client_id` */
  predicate DisplayLe(s: State, a: Id, b: Id) {
    && a in s.manifests && b in s.manifests
    && if s.manifests[a].displayName != s.manifests[b].displayName
       then LexLe(s.manifests[a].displayName, s.manifests[b].displayName)
       else LexLe(a, b)
  }

  function ListClients(s: State, cs: set<Id>): (r: seq<Id>)
    requires cs <= s.manifests.Keys
    ensures |r| == |cs| && NoDuplicates(r) && forall c :: c in r <==> c in cs
    ensures SortedBy(r, ByName(s))
  {
    DisplayOrdered(s, cs);
    SortedSeq(cs, ByName(s))
  }

  function ByName(s: State): (Id, Id) -> bool {
    (a, b) => DisplayLe(s, a, b)
  }

  lemma DisplayOrdered(s: State, cs: set<Id>)
    requires cs <= s.manifests.Keys
    ensures TotalOrderOn(cs, ByName(s))
  {
    LexIsTotalOrder();
  }

  /** `ORDER BY run_id, task_id` */
  predicate LeaseLe(s: State, a: Id, b: Id) {
    && a in s.leases && b in s.leases
    && if s.leases[a].runId != s.leases[b].runId then LexLe(s.leases[a].runId, s.leases[b].runId) else LexLe(a, b)
  }

  function ListLeases(s: State, ts: set<Id>): (r: seq<Id>)
    requires ts <= s.leases.Keys
    ensures |r| == |ts| && NoDuplicates(r) && forall t :: t in r <==> t in ts
    ensures SortedBy(r, (a, b) => LeaseLe(s, a, b))
  {
    LeasesOrdered(s, ts);
    SortedSeq(ts, (a, b) => LeaseLe(s, a, b))
  }

  lemma LeasesOrdered(s: State, ts: set<Id>)
    requires ts <= s.leases.Keys
    ensures TotalOrderOn(ts, (a, b) => LeaseLe(s, a, b))
  {
    LexIsTotalOrder();
  }

  // ---------------------------------------------------------------------------------------------
  // The steps of the sweep

  /** The active leases of a client, as they are listed. */
  function LostLeases(s: State, c: Id): seq<Id> {
    ListLeases(s, ActiveLeases(s, c))
  }

  /** `mark_client_stale` */
  function MarkStale(s: State, c: Id): State {
    var lost := LostLeases(s, c);
    var row := if c in s.heartbeats then s.heartbeats[c].(status := ClientStale, lostLeases := lost)
               else HeartbeatRow(ClientStale, None, None, None, lost);
    s.(leases := ExpireLeasesOf(s, c), heartbeats := s.heartbeats[c := row])
  }

  function StaleDraft(s: State, c: Id): Draft
    requires c in s.manifests && c in s.heartbeats
  {
    Draft(c, Some(s.manifests[c].displayName), s.heartbeats[c].lastRun, s.heartbeats[c].lastTask, Heartbeat, Stale,
          c, TrustText(s.manifests[c].trust), None, None)
  }

  function MarkStaleStep(env: Env, s: State, c: Id): State
    requires c in s.manifests
  {
    Append(env, MarkStale(s, c), StaleDraft(MarkStale(s, c), c))
  }

  function RecoveryCaller(m: Manifest): Caller {
    Caller(m.clientId, TrustText(m.trust), m.clientId, None)
  }

  function ToRequeued(): Request {
    Request(Requeued, None, None, None, None)
  }

  function RecoveryDraft(item: WorkItem, m: Manifest): Draft {
    Draft(m.clientId, Some(m.displayName), Some(item.runId), Some(item.id), RecoveryAction, Active,
          m.clientId, TrustText(m.trust), item.digest, None)
  }

  /** Requeues one item of a stale client; the flag tells whether it was recovered. */
  function RequeueStep(env: Env, s: State, m: Manifest, id: Id): (State, bool)
    requires id in s.items
  {
    if !Recoverable(s.items[id].item.status) then (s, false)
    else
      var (s1, outcome) := TransitionStep(env, s, id, ToRequeued(), RecoveryCaller(m));
      if outcome != Done(200) || id !in s1.items then (s1, false)
      else (Append(env, s1, RecoveryDraft(s1.items[id].item, m)), true)
  }

  function RequeueFirst(env: Env, s: State, m: Manifest, ids: seq<Id>, n: nat): (r: (State, set<Id>))
    requires n <= |ids| && forall id :: id in ids ==> id in s.items
    ensures s.items.Keys <= r.0.items.Keys
  {
    if n == 0 then (s, {})
    else
      var (s1, recovered) := RequeueFirst(env, s, m, ids, n - 1);
      assert ids[n - 1] in ids;
      var (s2, done) := RequeueStep(env, s1, m, ids[n - 1]);
      (s2, if done then recovered + {ids[n - 1]} else recovered)
  }

  function AssignedIds(s: State, c: Id): set<Id> {
    set id | id in s.items && s.items[id].assignedColumn == Some(c)
  }

  function RecoverClient(env: Env, s: State, c: Id): (State, set<Id>)
    requires c in s.manifests
  {
    var s1 := MarkStaleStep(env, s, c);
    var ids := ListItems(s1, AssignedIds(s1, c));
    RequeueFirst(env, s1, s.manifests[c], ids, |ids|)
  }

  lemma {:induction false} RequeueKeepsClients(env: Env, s: State, m: Manifest, ids: seq<Id>, n: nat)
    requires n <= |ids| && forall id :: id in ids ==> id in s.items
    ensures RequeueFirst(env, s, m, ids, n).0.manifests == s.manifests
  {
    if n != 0 {
      RequeueKeepsClients(env, s, m, ids, n - 1);
      assert ids[n - 1] in ids;
    }
  }

  function MarkFirst(env: Env, s: State, clients: seq<Id>, n: nat): (r: (State, set<Id>))
    requires n <= |clients| && forall c :: c in clients ==> c in s.manifests
    ensures r.0.manifests == s.manifests
  {
    if n == 0 then (s, {})
    else
      var (s1, recovered) := MarkFirst(env, s, clients, n - 1);
      assert clients[n - 1] in clients;
      var (s2, more) := RecoverClient(env, s1, clients[n - 1]);
      assert s2.manifests == s1.manifests by {
        var s0 := MarkStaleStep(env, s1, clients[n - 1]);
        var ids := ListItems(s0, AssignedIds(s0, clients[n - 1]));
        RequeueKeepsClients(env, s0, s1.manifests[clients[n - 1]], ids, |ids|);
      }
      (s2, recovered + more)
  }

  function RecoveryScheduler(): Caller {
    Caller("recovery-scheduler", "operator", "control-plane", None)
  }

  function ReassignFirst(env: Env, s: State, ids: seq<Id>, n: nat): State
    requires n <= |ids|
  {
    if n == 0 then s
    else ScheduleStep(env, ReassignFirst(env, s, ids, n - 1), ids[n - 1], RecoveryScheduler()).0
  }

  /** `mark_stale_clients_with_recovery` */
  function Sweep(env: Env, s: State, now: int, limit: int, autoReassign: bool): State {
    var clients := ListClients(s, StaleClients(s, now, limit));
    var (s1, recovered) := MarkFirst(env, s, clients, |clients|);
    if autoReassign then ReassignFirst(env, s1, SortedStrings(recovered), |SortedStrings(recovered)|) else s1
  }

  // ---------------------------------------------------------------------------------------------
  // What the sweep achieves

  /** Rows are stored under their own keys, and client ids are valid. */
  ghost predicate Keyed(s: State) {
    && (forall c :: c in s.manifests ==> s.manifests[c].clientId == c && ValidId(c))
    && (forall id :: id in s.items ==> s.items[id].item.id == id)
  }

  ghost predicate IsRequeued(before: ItemRow, after: ItemRow) {
    && after.assignedColumn.None? && after.leaseColumn.None?
    && after.item == before.item.(status := Requeued, assignee := None, leaseId := None,
                                  updatedAt := after.item.updatedAt)
  }

  /** Exactly the items in `r` have been requeued. */
  ghost predicate ItemsRequeued(s: State, t: State, r: set<Id>) {
    && t.items.Keys == s.items.Keys
    && (forall id :: id in s.items ==>
          if id in r then IsRequeued(s.items[id], t.items[id]) else t.items[id] == s.items[id])
  }

  /** Items in `r` have been requeued, nothing else has changed but the ledger. */
  ghost predicate Requeues(s: State, t: State, r: set<Id>) {
    && t.manifests == s.manifests && t.heartbeats == s.heartbeats && t.leases == s.leases
    && ItemsRequeued(s, t, r)
    && Adds(s.events, t.events, Tally(0, |r|, |r|, 0, 0))
  }

  lemma RecoveryCallerIsValid(m: Manifest)
    requires ValidId(m.clientId)
    ensures ValidCaller(RecoveryCaller(m))
  {
  }

  /** Requeueing a recoverable item passes every check. */
  lemma RequeuePasses(env: Env, s: State, m: Manifest, id: Id)
    requires Keyed(s) && ValidId(m.clientId) && id in s.items && Recoverable(s.items[id].item.status)
    ensures var u := Updated(s.items[id].item, ToRequeued(), env(|s.events|).now);
      var s1 := Append(env, PutItem(s, u), ItemDraft(u, RecoveryCaller(m)));
      RequeueStep(env, s, m, id) == (Append(env, s1, RecoveryDraft(u, m)), true)
  {
    RecoveryCallerIsValid(m);
    assert Requeued in AllowedTransitions(s.items[id].item.status);
  }

  lemma RequeueAppends(env: Env, s: State, d: Draft, e: Draft)
    requires d.kind == WorkItemChange && e.kind == RecoveryAction
    ensures Adds(s.events, Append(env, Append(env, s, d), e).events, Tally(0, 1, 1, 0, 0))
  {
    hide Adds;
    AddsTwo(s.events, Stamped(env, |s.events|, d), Stamped(env, |s.events| + 1, e));
  }

  lemma RequeueOne(env: Env, s: State, m: Manifest, id: Id)
    requires Keyed(s) && ValidId(m.clientId) && id in s.items
    ensures var (t, done) := RequeueStep(env, s, m, id);
      && done == Recoverable(s.items[id].item.status)
      && Requeues(s, t, if done then {id} else {})
  {
    if Recoverable(s.items[id].item.status) {
      RequeuePasses(env, s, m, id);
      hide Adds, RequeueStep, Recoverable;
      var u := Updated(s.items[id].item, ToRequeued(), env(|s.events|).now);
      RequeueAppends(env, PutItem(s, u), ItemDraft(u, RecoveryCaller(m)), RecoveryDraft(u, m));
    } else {
      AddsNone(s.events);
    }
  }

  lemma RequeuesKeepKeys(s: State, t: State, r: set<Id>)
    requires Keyed(s) && Requeues(s, t, r)
    ensures Keyed(t)
  {
    forall id | id in t.items ensures t.items[id].item.id == id {
      assert id in s.items;
    }
  }

  lemma DisjointUnionSize(a: set<Id>, b: set<Id>)
    requires a !! b
    ensures |a + b| == |a| + |b|
  {
  }

  lemma RequeuedCompose(s: State, t: State, u: State, r1: set<Id>, r2: set<Id>)
    requires ItemsRequeued(s, t, r1) && ItemsRequeued(t, u, r2) && r1 !! r2
    ensures ItemsRequeued(s, u, r1 + r2)
  {
  }

  lemma RequeuesCompose(s: State, t: State, u: State, r1: set<Id>, r2: set<Id>)
    requires Requeues(s, t, r1) && Requeues(t, u, r2) && r1 !! r2
    ensures Requeues(s, u, r1 + r2)
  {
    hide Adds, ItemsRequeued;
    RequeuedCompose(s, t, u, r1, r2);
    DisjointUnionSize(r1, r2);
    AddsCompose(s.events, t.events, u.events, Tally(0, |r1|, |r1|, 0, 0), Tally(0, |r2|, |r2|, 0, 0));
  }

  ghost function RecoverableAmong(s: State, ids: set<Id>): set<Id> {
    set id | id in ids && id in s.items && Recoverable(s.items[id].item.status)
  }

  ghost function First(ids: seq<Id>, n: nat): set<Id>
    requires n <= |ids|
  {
    set id | id in ids[..n]
  }

  lemma FirstNext(ids: seq<Id>, n: nat)
    requires 0 < n <= |ids| && NoDuplicates(ids)
    ensures First(ids, n) == First(ids, n - 1) + {ids[n - 1]}
    ensures ids[n - 1] !in First(ids, n - 1)
  {
    assert ids[..n] == ids[..n - 1] + [ids[n - 1]];
  }

  lemma RecoverableOneMore(s: State, ids: set<Id>, id: Id)
    requires id in s.items && id !in ids
    ensures RecoverableAmong(s, ids + {id})
         == RecoverableAmong(s, ids) + (if Recoverable(s.items[id].item.status) then {id} else {})
    ensures id !in RecoverableAmong(s, ids)
  {
  }

  lemma RequeueNext(env: Env, s: State, t: State, m: Manifest, done: set<Id>, r: set<Id>, id: Id)
    requires Keyed(s) && ValidId(m.clientId) && id in s.items && id !in done
    requires r == RecoverableAmong(s, done) && Requeues(s, t, r)
    ensures id in t.items
    ensures var (u, recovered) := RequeueStep(env, t, m, id);
      var r2 := if recovered then r + {id} else r;
      r2 == RecoverableAmong(s, done + {id}) && Requeues(s, u, r2)
  {
    hide Adds, RequeueStep;
    RequeuesKeepKeys(s, t, r);
    assert id in t.items && (id in r || t.items[id] == s.items[id]);
    RecoverableOneMore(s, done, id);
    hide Requeues, Keyed, RecoverableAmong, RequeueStep;
    RequeueOne(env, t, m, id);
    var (u, recovered) := RequeueStep(env, t, m, id);
    RequeuesCompose(s, t, u, r, if recovered then {id} else {});
    assert r + {} == r;
  }

  lemma NothingRequeued(s: State)
    ensures Requeues(s, s, {})
  {
    hide Adds;
    AddsNone(s.events);
  }

  lemma {:induction false} RequeueFirstEffect(env: Env, s: State, m: Manifest, ids: seq<Id>, n: nat)
    requires n <= |ids| && (forall id :: id in ids ==> id in s.items) && NoDuplicates(ids)
    requires Keyed(s) && ValidId(m.clientId)
    ensures var (t, r) := RequeueFirst(env, s, m, ids, n);
      r == RecoverableAmong(s, First(ids, n)) && Requeues(s, t, r)
  {
    hide Requeues, Keyed, RequeueStep;
    if n == 0 {
      assert RecoverableAmong(s, First(ids, 0)) == {};
      NothingRequeued(s);
    } else {
      assert ids[n - 1] in ids;
      RequeueFirstEffect(env, s, m, ids, n - 1);
      var (t, r) := RequeueFirst(env, s, m, ids, n - 1);
      FirstNext(ids, n);
      RequeueNext(env, s, t, m, First(ids, n - 1), r, ids[n - 1]);
    }
  }

  // Marking one client

  /** The client's row is marked and lists the leases that were active, in their order. */
  ghost predicate MarkedStale(s: State, c: Id, after: HeartbeatRow) {
    && c in s.heartbeats
    && after == s.heartbeats[c].(status := ClientStale, lostLeases := LostLeases(s, c))
  }

  /** The clients in `cs` are marked and their active leases are expired. */
  ghost predicate ClientsMarked(s: State, t: State, cs: set<Id>) {
    && t.manifests == s.manifests
    && t.heartbeats.Keys == s.heartbeats.Keys && cs <= s.heartbeats.Keys
    && (forall c :: c in s.heartbeats ==>
          if c in cs then MarkedStale(s, c, t.heartbeats[c]) else t.heartbeats[c] == s.heartbeats[c])
    && t.leases.Keys == s.leases.Keys
    && (forall l :: l in s.leases ==>
          t.leases[l] == if s.leases[l].clientId in cs && s.leases[l].status == LeaseActive
                         then Expired(s.leases[l]) else s.leases[l])
  }

  /** The effect of recovering the clients in `cs`: `r` are the items requeued. */
  ghost predicate Recovers(s: State, t: State, cs: set<Id>, r: set<Id>) {
    && ClientsMarked(s, t, cs)
    && ItemsRequeued(s, t, r)
    && Adds(s.events, t.events, Tally(|cs|, |r|, |r|, 0, 0))
  }

  /** Unfinished items whose row assigns them to one of the clients. */
  ghost function Abandoned(s: State, cs: set<Id>): set<Id> {
    set id | id in s.items && s.items[id].assignedColumn.Some? && s.items[id].assignedColumn.value in cs
             && Recoverable(s.items[id].item.status)
  }

  lemma SameItems(s: State, t: State)
    requires t.items == s.items
    ensures ItemsRequeued(s, t, {})
  {
  }

  lemma MarkStaleEffect(env: Env, s: State, c: Id)
    requires Keyed(s) && c in s.manifests && c in s.heartbeats
    ensures var t := MarkStaleStep(env, s, c); Recovers(s, t, {c}, {}) && t.items == s.items && Keyed(t)
  {
    hide Adds, LostLeases, ItemsRequeued;
    SameItems(s, MarkStaleStep(env, s, c));
    AddsOne(s.events, Stamped(env, |s.events|, StaleDraft(MarkStale(s, c), c)));
  }

  lemma RequeuedAfterNone(s: State, t: State, u: State, r: set<Id>)
    requires ItemsRequeued(s, t, {}) && ItemsRequeued(t, u, r)
    ensures ItemsRequeued(s, u, r)
  {
  }

  lemma MarkedStays(s: State, t: State, u: State, cs: set<Id>)
    requires ClientsMarked(s, t, cs)
    requires u.manifests == t.manifests && u.heartbeats == t.heartbeats && u.leases == t.leases
    ensures ClientsMarked(s, u, cs)
  {
    hide MarkedStale;
  }

  lemma NoneRecovered(s: State, t: State, cs: set<Id>)
    requires Recovers(s, t, cs, {})
    ensures ClientsMarked(s, t, cs) && ItemsRequeued(s, t, {}) && Adds(s.events, t.events, Tally(|cs|, 0, 0, 0, 0))
  {
    hide Adds, ClientsMarked, ItemsRequeued;
  }

  lemma RequeuesAdds(s: State, t: State, u: State, n: nat, r: set<Id>)
    requires Adds(s.events, t.events, Tally(n, 0, 0, 0, 0)) && Requeues(t, u, r)
    ensures Adds(s.events, u.events, Tally(n, |r|, |r|, 0, 0))
  {
    hide Adds, ItemsRequeued;
    AddsCompose(s.events, t.events, u.events, Tally(n, 0, 0, 0, 0), Tally(0, |r|, |r|, 0, 0));
  }

  lemma RecoversThenRequeues(s: State, t: State, u: State, cs: set<Id>, r: set<Id>)
    requires Recovers(s, t, cs, {}) && Requeues(t, u, r)
    ensures Recovers(s, u, cs, r)
  {
    NoneRecovered(s, t, cs);
    hide Adds, ClientsMarked, ItemsRequeued;
    MarkedStays(s, t, u, cs);
    RequeuedAfterNone(s, t, u, r);
    RequeuesAdds(s, t, u, |cs|, r);
  }

  lemma RecoverClientEffect(env: Env, s: State, c: Id)
    requires Keyed(s) && c in s.manifests && c in s.heartbeats
    ensures var (t, r) := RecoverClient(env, s, c); r == Abandoned(s, {c}) && Recovers(s, t, {c}, r)
  {
    MarkStaleEffect(env, s, c);
    var s1 := MarkStaleStep(env, s, c);
    var ids := ListItems(s1, AssignedIds(s1, c));
    RequeueFirstEffect(env, s1, s.manifests[c], ids, |ids|);
    AbandonedByOne(s, s1, c, ids);
    RecoversThenRequeues(s, s1, RecoverClient(env, s, c).0, {c}, Abandoned(s, {c}));
  }

  lemma AbandonedByOne(s: State, s1: State, c: Id, ids: seq<Id>)
    requires s1.items == s.items && forall id :: id in ids <==> id in AssignedIds(s1, c)
    ensures RecoverableAmong(s1, First(ids, |ids|)) == Abandoned(s, {c})
  {
    assert ids[..|ids|] == ids;
  }

  lemma RecoversKeepsKeys(s: State, t: State, cs: set<Id>, r: set<Id>)
    requires Keyed(s) && Recovers(s, t, cs, r)
    ensures Keyed(t)
  {
    forall id | id in t.items ensures t.items[id].item.id == id {
      assert id in s.items;
    }
  }

  /** Recovered items are no longer assigned, so the next client abandons what it abandoned before. */
  lemma AbandonedLater(s: State, t: State, cs: set<Id>, c: Id)
    requires Recovers(s, t, cs, Abandoned(s, cs)) && c !in cs
    ensures Abandoned(t, {c}) == Abandoned(s, {c})
  {
    hide Adds, MarkedStale;
    forall id | id in s.items ensures id in Abandoned(t, {c}) <==> id in Abandoned(s, {c}) {
      if id in Abandoned(s, cs) {
        assert IsRequeued(s.items[id], t.items[id]);
      } else {
        assert t.items[id] == s.items[id];
      }
    }
    assert Abandoned(t, {c}) <= t.items.Keys && Abandoned(s, {c}) <= s.items.Keys;
  }

  lemma AbandonedByMore(s: State, cs: set<Id>, c: Id)
    requires c !in cs
    ensures Abandoned(s, cs + {c}) == Abandoned(s, cs) + Abandoned(s, {c})
    ensures Abandoned(s, cs) !! Abandoned(s, {c})
  {
  }

  /** The leases of a client do not change before its turn, so it loses what it held at first. */
  lemma LostLeasesLater(s: State, t: State, c: Id)
    requires t.leases.Keys == s.leases.Keys
    requires forall l :: l in s.leases ==>
      (s.leases[l].clientId == c || t.leases[l].clientId == c) ==> t.leases[l] == s.leases[l]
    ensures LostLeases(t, c) == LostLeases(s, c)
  {
    assert ActiveLeases(t, c) == ActiveLeases(s, c);
    var le := (a, b) => LeaseLe(s, a, b);
    LeasesOrdered(s, ActiveLeases(s, c));
    SameLeaseOrder(s, t, ActiveLeases(s, c));
    SortedSeqUnique(LostLeases(t, c), LostLeases(s, c), le);
  }

  lemma SameLeaseOrder(s: State, t: State, ls: set<Id>)
    requires ls <= s.leases.Keys && t.leases.Keys == s.leases.Keys
    requires forall l :: l in ls ==> t.leases[l] == s.leases[l]
    ensures SortedBy(ListLeases(t, ls), (a, b) => LeaseLe(s, a, b))
  {
    var listed := ListLeases(t, ls);
    forall i, j | 0 <= i < j < |listed| ensures LeaseLe(s, listed[i], listed[j]) {
      assert listed[i] in listed && listed[j] in listed && LeaseLe(t, listed[i], listed[j]);
    }
  }

  lemma RecoversCompose(s: State, t: State, u: State, cs: set<Id>, r: set<Id>, c: Id, r2: set<Id>)
    requires Recovers(s, t, cs, r) && Recovers(t, u, {c}, r2) && c !in cs && r !! r2
    ensures Recovers(s, u, cs + {c}, r + r2)
  {
    hide Adds, LostLeases, ItemsRequeued;
    DisjointUnionSize(r, r2);
    DisjointUnionSize(cs, {c});
    RequeuedCompose(s, t, u, r, r2);
    LostLeasesLater(s, t, c);
    AddsCompose(s.events, t.events, u.events, Tally(|cs|, |r|, |r|, 0, 0), Tally(1, |r2|, |r2|, 0, 0));
  }

  lemma MarkNext(env: Env, s: State, t: State, cs: set<Id>, c: Id)
    requires Keyed(s) && c in s.manifests && c in s.heartbeats && c !in cs
    requires Recovers(s, t, cs, Abandoned(s, cs))
    ensures c in t.manifests
    ensures var (u, more) := RecoverClient(env, t, c);
      Abandoned(s, cs) + more == Abandoned(s, cs + {c}) && Recovers(s, u, cs + {c}, Abandoned(s, cs + {c}))
  {
    RecoversKeepsKeys(s, t, cs, Abandoned(s, cs));
    AbandonedLater(s, t, cs, c);
    AbandonedByMore(s, cs, c);
    RecoverClientEffect(env, t, c);
    var (u, more) := RecoverClient(env, t, c);
    RecoversCompose(s, t, u, cs, Abandoned(s, cs), c, more);
  }

  ghost predicate Connected(s: State, clients: seq<Id>) {
    NoDuplicates(clients) && forall c :: c in clients ==> c in s.manifests && c in s.heartbeats
  }

  /** The first `n` clients are marked, and exactly what they abandoned is requeued. */
  ghost predicate Marked(env: Env, s: State, clients: seq<Id>, n: nat)
    requires n <= |clients| && forall c :: c in clients ==> c in s.manifests
  {
    var (t, r) := MarkFirst(env, s, clients, n);
    r == Abandoned(s, First(clients, n)) && Recovers(s, t, First(clients, n), r)
  }

  lemma MarkedNone(env: Env, s: State, clients: seq<Id>)
    requires forall c :: c in clients ==> c in s.manifests
    ensures Marked(env, s, clients, 0)
  {
    assert First(clients, 0) == {} && Abandoned(s, {}) == {};
    AddsNone(s.events);
  }

  lemma MarkedStep(env: Env, s: State, clients: seq<Id>, n: nat)
    requires 0 < n <= |clients| && Keyed(s) && Connected(s, clients)
    requires forall c :: c in clients ==> c in s.manifests
    requires Marked(env, s, clients, n - 1)
    ensures Marked(env, s, clients, n)
  {
    assert clients[n - 1] in clients;
    FirstNext(clients, n);
    hide Keyed, Connected, First, Recovers, Abandoned, RecoverClient;
    MarkNext(env, s, MarkFirst(env, s, clients, n - 1).0, First(clients, n - 1), clients[n - 1]);
  }

  lemma {:induction false} MarkFirstEffect(env: Env, s: State, clients: seq<Id>, n: nat)
    requires n <= |clients| && Keyed(s) && Connected(s, clients)
    requires forall c :: c in clients ==> c in s.manifests
    ensures Marked(env, s, clients, n)
  {
    hide *;
    if n == 0 {
      MarkedNone(env, s, clients);
    } else {
      MarkFirstEffect(env, s, clients, n - 1);
      MarkedStep(env, s, clients, n);
    }
  }

  // ---------------------------------------------------------------------------------------------
  // Handing the recovered work out again

  /** The item went to the least loaded of the clients eligible for it; without one it stays. */
  ghost predicate Reassigned(s: State, before: ItemRow, after: ItemRow) {
    if Eligible(s, before.item) == {} then after == before
    else exists c :: LeastLoaded(s, before.item, c) && GivenTo(c, before, after)
  }

  ghost predicate GivenTo(c: Id, before: ItemRow, after: ItemRow) {
    && after.assignedColumn == Some(c) && after.leaseColumn == before.item.leaseId
    && after.item == before.item.(status := Assigned, assignee := Some(c), updatedAt := after.item.updatedAt)
  }

  /** Those of the items for which some client is eligible. */
  ghost function Placeable(s: State, ids: set<Id>): set<Id> {
    set id | id in ids && id in s.items && Eligible(s, s.items[id].item) != {}
  }

  ghost function ReassignTally(s: State, ids: set<Id>): Tally {
    PlaceableAmong(s, ids);
    Tally(0, |Placeable(s, ids)|, 0, |ids| - |Placeable(s, ids)|, 0)
  }

  lemma PlaceableAmong(s: State, ids: set<Id>)
    ensures Placeable(s, ids) <= ids && |Placeable(s, ids)| <= |ids|
  {
    SubsetSize(Placeable(s, ids), ids);
  }

  lemma SubsetSize(a: set<Id>, b: set<Id>)
    requires a <= b
    ensures |a| <= |b|
  {
    DisjointUnionSize(a, b - a);
    assert a + (b - a) == b;
  }

  /** Items in `r` are reassigned where some client is eligible; each leaves one event, a change or
      a denial. */
  ghost predicate Reassigns(s: State, t: State, r: set<Id>) {
    && t.manifests == s.manifests && t.heartbeats == s.heartbeats && t.leases == s.leases
    && t.items.Keys == s.items.Keys
    && (forall id :: id in s.items ==>
          if id in r then Reassigned(s, s.items[id], t.items[id]) else t.items[id] == s.items[id])
    && Adds(s.events, t.events, ReassignTally(s, r))
  }

  /** Who is eligible, and who is least loaded, depends on the clients, the leases and the capability. */
  lemma SameChoice(s: State, t: State, a: WorkItem, b: WorkItem)
    requires t.manifests == s.manifests && t.heartbeats == s.heartbeats && t.leases == s.leases
    requires a.capability == b.capability
    ensures Eligible(t, b) == Eligible(s, a)
    ensures forall c :: LeastLoaded(t, b, c) <==> LeastLoaded(s, a, c)
  {
    assert forall c :: IsEligible(t, c, b) <==> IsEligible(s, c, a);
    forall c ensures ActiveLeases(t, c) == ActiveLeases(s, c) {
    }
    assert forall c, d :: ClientLe(t, c, d) <==> ClientLe(s, c, d);
  }

  lemma RecoverySchedulerIsValid()
    ensures ValidCaller(RecoveryScheduler())
  {
  }

  ghost predicate Returned(s: State, id: Id) {
    id in s.items && s.items[id].item.status == Requeued && s.items[id].item.leaseId.None?
  }

  /** Assigning a returned item passes every check. */
  lemma AssignReturned(env: Env, s: State, id: Id, c: Id, who: Caller)
    requires Keyed(s) && Returned(s, id) && c in s.manifests && ValidCaller(who)
    ensures var u := Updated(s.items[id].item, AssignTo(c), env(|s.events|).now);
      TransitionStep(env, s, id, AssignTo(c), who) == (Append(env, PutItem(s, u), ItemDraft(u, who)), Done(200))
  {
    assert ValidRequest(AssignTo(c));
  }

  lemma AssignedReassigns(env: Env, s: State, id: Id, c: Id, now: int, d: Draft)
    requires Keyed(s) && Returned(s, id) && LeastLoaded(s, s.items[id].item, c) && d.kind == WorkItemChange
    ensures Reassigns(s, Append(env, PutItem(s, Updated(s.items[id].item, AssignTo(c), now)), d), {id})
  {
    hide Adds, LeastLoaded;
    var u := Updated(s.items[id].item, AssignTo(c), now);
    assert u.id == id;
    LeastIsEligible(s, s.items[id].item, c);
    assert Placeable(s, {id}) == {id};
    assert GivenTo(c, s.items[id], ItemRow(u, u.assignee, u.leaseId));
    AddsOne(s.events, Stamped(env, |s.events|, d));
  }

  lemma LeastIsEligible(s: State, item: WorkItem, c: Id)
    requires LeastLoaded(s, item, c)
    ensures c in Eligible(s, item) && IsEligible(s, c, item) && c in s.manifests
  {
  }

  lemma DeniedReassigns(env: Env, s: State, id: Id, d: Draft)
    requires id in s.items && Eligible(s, s.items[id].item) == {} && d.kind == PolicyDenied
    ensures Reassigns(s, Append(env, s, d), {id})
  {
    hide Adds;
    assert Placeable(s, {id}) == {};
    AddsOne(s.events, Stamped(env, |s.events|, d));
  }

  lemma ReassignOne(env: Env, s: State, id: Id)
    requires Keyed(s) && Returned(s, id)
    ensures Reassigns(s, ScheduleStep(env, s, id, RecoveryScheduler()).0, {id})
  {
    hide Reassigns, Keyed, ValidCaller, TransitionStep, LeastLoaded;
    RecoverySchedulerIsValid();
    var item := s.items[id].item;
    var ranked := RankedClients(s, item);
    RankedFirst(s, item);
    if ranked != [] {
      var c := ranked[0];
      LeastIsEligible(s, item, c);
      AssignReturned(env, s, id, c, RecoveryScheduler());
      AssignedReassigns(env, s, id, c, env(|s.events|).now,
                        ItemDraft(Updated(item, AssignTo(c), env(|s.events|).now), RecoveryScheduler()));
    } else {
      DeniedReassigns(env, s, id, DenialDraft(item, RecoveryScheduler()));
    }
  }

  lemma TalliesCompose(s: State, t: State, r: set<Id>, id: Id)
    requires t.manifests == s.manifests && t.heartbeats == s.heartbeats && t.leases == s.leases
    requires id in s.items && id in t.items && t.items[id] == s.items[id] && id !in r
    ensures Plus(ReassignTally(s, r), ReassignTally(t, {id})) == ReassignTally(s, r + {id})
  {
    hide Eligible;
    SameChoice(s, t, s.items[id].item, s.items[id].item);
    DisjointUnionSize(r, {id});
    assert Placeable(t, {id}) == Placeable(s, {id});
    assert Placeable(s, r + {id}) == Placeable(s, r) + Placeable(s, {id});
    DisjointUnionSize(Placeable(s, r), Placeable(s, {id}));
  }

  lemma ReassignsCompose(s: State, t: State, u: State, r: set<Id>, id: Id)
    requires Reassigns(s, t, r) && Reassigns(t, u, {id}) && id !in r && id in s.items
    ensures Reassigns(s, u, r + {id})
  {
    hide Adds, ReassignTally, LeastLoaded, Eligible;
    TalliesCompose(s, t, r, id);
    AddsCompose(s.events, t.events, u.events, ReassignTally(s, r), ReassignTally(t, {id}));
    forall i | i in s.items && i in r + {id} ensures Reassigned(s, s.items[i], u.items[i]) {
      if i == id {
        assert t.items[i] == s.items[i] && Reassigned(t, t.items[i], u.items[i]);
        SameChoice(s, t, s.items[i].item, s.items[i].item);
      } else {
        assert u.items[i] == t.items[i];
      }
    }
  }

  lemma ReassignsKeepsKeys(s: State, t: State, r: set<Id>)
    requires Keyed(s) && Reassigns(s, t, r)
    ensures Keyed(t)
  {
    forall id | id in t.items ensures t.items[id].item.id == id {
      assert id in s.items;
    }
  }

  ghost predicate AllReturned(s: State, ids: seq<Id>) {
    NoDuplicates(ids) && forall i :: 0 <= i < |ids| ==> Returned(s, ids[i])
  }

  lemma ReassignNone(env: Env, s: State, ids: seq<Id>)
    ensures Reassigns(s, ReassignFirst(env, s, ids, 0), First(ids, 0))
  {
    assert First(ids, 0) == {} && Placeable(s, {}) == {};
    AddsNone(s.events);
  }

  lemma ReassignStep(env: Env, s: State, ids: seq<Id>, n: nat)
    requires 0 < n <= |ids| && AllReturned(s, ids) && Keyed(s)
    requires Reassigns(s, ReassignFirst(env, s, ids, n - 1), First(ids, n - 1))
    ensures Reassigns(s, ReassignFirst(env, s, ids, n), First(ids, n))
  {
    FirstNext(ids, n);
    assert Returned(s, ids[n - 1]);
    hide Reassigns, Keyed, Returned, AllReturned, First, ScheduleStep;
    ReassignNext(env, s, ReassignFirst(env, s, ids, n - 1), First(ids, n - 1), ids[n - 1]);
  }

  lemma {:induction false} ReassignFirstEffect(env: Env, s: State, ids: seq<Id>, n: nat)
    requires n <= |ids| && AllReturned(s, ids) && Keyed(s)
    ensures Reassigns(s, ReassignFirst(env, s, ids, n), First(ids, n))
  {
    hide *;
    if n == 0 {
      ReassignNone(env, s, ids);
    } else {
      ReassignFirstEffect(env, s, ids, n - 1);
      ReassignStep(env, s, ids, n);
    }
  }

  lemma ReassignNext(env: Env, s: State, t: State, r: set<Id>, id: Id)
    requires Keyed(s) && Reassigns(s, t, r) && id !in r && Returned(s, id)
    ensures Reassigns(s, ScheduleStep(env, t, id, RecoveryScheduler()).0, r + {id})
  {
    ReassignsKeepsKeys(s, t, r);
    assert t.items[id] == s.items[id];
    ReassignOne(env, t, id);
    ReassignsCompose(s, t, ScheduleStep(env, t, id, RecoveryScheduler()).0, r, id);
  }

  // ---------------------------------------------------------------------------------------------
  // The sweep

  /** Columns and payload agree on who holds an item. */
  ghost predicate ColumnsAgree(s: State) {
    forall id :: id in s.items ==>
      s.items[id].assignedColumn == s.items[id].item.assignee && s.items[id].leaseColumn == s.items[id].item.leaseId
  }

  /** What happened to an abandoned item: it is requeued, or, when work is handed out again and some
      client is still eligible, given to the least loaded of them, which is none of the stale ones. */
  ghost predicate RecoveredRow(t: State, stale: set<Id>, before: ItemRow, after: ItemRow, autoReassign: bool) {
    if autoReassign && Eligible(t, before.item) != {}
    then exists c :: c !in stale && LeastLoaded(t, before.item, c) && HandedTo(c, before, after)
    else IsRequeued(before, after)
  }

  ghost predicate HandedTo(c: Id, before: ItemRow, after: ItemRow) {
    && after.assignedColumn == Some(c) && after.leaseColumn.None?
    && after.item == before.item.(status := Assigned, assignee := Some(c), leaseId := None,
                                  updatedAt := after.item.updatedAt)
  }

  /** The abandoned items that the sweep hands out again. */
  ghost function Placed(s: State, t: State, stale: set<Id>, autoReassign: bool): set<Id> {
    set id | id in Abandoned(s, stale) && autoReassign && Eligible(t, s.items[id].item) != {}
  }

  /** One heartbeat for each stale client; a change and a recovery for each abandoned item, and for
      each that is handed out again another change, or a denial when there is no client for it. */
  ghost function SweepTally(s: State, t: State, stale: set<Id>, autoReassign: bool): Tally {
    var abandoned, placed := Abandoned(s, stale), Placed(s, t, stale, autoReassign);
    SubsetSize(placed, abandoned);
    Tally(|stale|, |abandoned| + |placed|, |abandoned|, if autoReassign then |abandoned| - |placed| else 0, 0)
  }

  ghost predicate SweepOutcome(s: State, t: State, stale: set<Id>, autoReassign: bool) {
    && t.manifests == s.manifests && t.heartbeats.Keys == s.heartbeats.Keys && t.leases.Keys == s.leases.Keys
    && t.items.Keys == s.items.Keys && stale <= s.heartbeats.Keys
    // every stale client is marked and has lost its active leases; others are left alone
    && (forall c :: c in s.heartbeats ==>
          if c in stale then MarkedStale(s, c, t.heartbeats[c]) else t.heartbeats[c] == s.heartbeats[c])
    && (forall l :: l in s.leases ==>
          t.leases[l] == if s.leases[l].clientId in stale && s.leases[l].status == LeaseActive
                         then Expired(s.leases[l]) else s.leases[l])
    // exactly the abandoned items are recovered
    && (forall id :: id in s.items ==>
          if id in Abandoned(s, stale) then RecoveredRow(t, stale, s.items[id], t.items[id], autoReassign)
          else t.items[id] == s.items[id])
    && Adds(s.events, t.events, SweepTally(s, t, stale, autoReassign))
  }

  lemma MarkedOutcome(s: State, t: State, stale: set<Id>)
    requires Recovers(s, t, stale, Abandoned(s, stale))
    ensures SweepOutcome(s, t, stale, false)
  {
    hide Adds, Abandoned, MarkedStale, IsRequeued;
    assert Placed(s, t, stale, false) == {};
  }

  /** A requeued item keeps its capability, so its clients are those eligible after the sweep. */
  lemma PlaceableIsPlaced(s: State, t: State, u: State, stale: set<Id>)
    requires Recovers(s, t, stale, Abandoned(s, stale)) && Reassigns(t, u, Abandoned(s, stale))
    ensures Placeable(t, Abandoned(s, stale)) == Placed(s, u, stale, true)
  {
    hide Adds, Eligible, MarkedStale, Reassigned;
    forall id | id in Abandoned(s, stale) ensures Eligible(u, s.items[id].item) == Eligible(t, t.items[id].item) {
      assert IsRequeued(s.items[id], t.items[id]);
      SameChoice(t, u, t.items[id].item, s.items[id].item);
    }
    assert Abandoned(s, stale) <= t.items.Keys;
  }

  lemma ReassignedRow(s: State, t: State, u: State, stale: set<Id>, id: Id)
    requires Recovers(s, t, stale, Abandoned(s, stale)) && Reassigns(t, u, Abandoned(s, stale))
    requires id in Abandoned(s, stale) && id in s.items && id in u.items
    ensures RecoveredRow(u, stale, s.items[id], u.items[id], true)
  {
    hide Adds, Eligible, LeastLoaded;
    assert IsRequeued(s.items[id], t.items[id]) && Reassigned(t, t.items[id], u.items[id]);
    SameChoice(t, u, t.items[id].item, s.items[id].item);
    if Eligible(t, t.items[id].item) != {} {
      var c :| LeastLoaded(t, t.items[id].item, c) && GivenTo(c, t.items[id], u.items[id]);
      LeastIsEligible(t, t.items[id].item, c);
      assert c !in stale && LeastLoaded(u, s.items[id].item, c) && HandedTo(c, s.items[id], u.items[id]);
    }
  }

  lemma ReassignedAdds(s: State, t: State, u: State, stale: set<Id>)
    requires Recovers(s, t, stale, Abandoned(s, stale)) && Reassigns(t, u, Abandoned(s, stale))
    ensures Adds(s.events, u.events, SweepTally(s, u, stale, true))
  {
    hide Adds, ClientsMarked, ItemsRequeued, Reassigned, Abandoned, Placeable, Placed, Eligible;
    PlaceableIsPlaced(s, t, u, stale);
    var abandoned := Abandoned(s, stale);
    AddsCompose(s.events, t.events, u.events,
                Tally(|stale|, |abandoned|, |abandoned|, 0, 0), ReassignTally(t, abandoned));
  }

  lemma ReassignedOutcome(s: State, t: State, u: State, stale: set<Id>)
    requires Recovers(s, t, stale, Abandoned(s, stale)) && Reassigns(t, u, Abandoned(s, stale))
    ensures SweepOutcome(s, u, stale, true)
  {
    hide Adds, SweepTally, ReassignTally, MarkedStale, RecoveredRow, Reassigned, IsRequeued, Abandoned, Eligible;
    ReassignedAdds(s, t, u, stale);
    forall id | id in s.items && id in Abandoned(s, stale)
      ensures RecoveredRow(u, stale, s.items[id], u.items[id], true)
    {
      ReassignedRow(s, t, u, stale, id);
    }
  }

  lemma MarkedByList(env: Env, s: State, stale: set<Id>, clients: seq<Id>)
    requires Keyed(s) && NoDuplicates(clients) && (forall c :: c in clients <==> c in stale)
    requires stale <= s.manifests.Keys && stale <= s.heartbeats.Keys
    ensures var (t, r) := MarkFirst(env, s, clients, |clients|);
      r == Abandoned(s, stale) && Recovers(s, t, stale, r) && Keyed(t)
  {
    hide Adds, MarkedStale, Abandoned, IsRequeued;
    assert Connected(s, clients);
    MarkFirstEffect(env, s, clients, |clients|);
    assert clients[..|clients|] == clients && First(clients, |clients|) == stale;
    RecoversKeepsKeys(s, MarkFirst(env, s, clients, |clients|).0, stale, Abandoned(s, stale));
  }

  lemma ReassignedByList(env: Env, s: State, t: State, stale: set<Id>)
    requires Keyed(t) && Recovers(s, t, stale, Abandoned(s, stale))
    ensures var ids := SortedStrings(Abandoned(s, stale));
      Reassigns(t, ReassignFirst(env, t, ids, |ids|), Abandoned(s, stale))
  {
    hide Adds, MarkedStale, Reassigned, ReassignTally, Keyed;
    var ids := SortedStrings(Abandoned(s, stale));
    forall i | 0 <= i < |ids| ensures Returned(t, ids[i]) {
      assert ids[i] in ids;
      assert IsRequeued(s.items[ids[i]], t.items[ids[i]]);
    }
    ReassignFirstEffect(env, t, ids, |ids|);
    assert ids[..|ids|] == ids && First(ids, |ids|) == Abandoned(s, stale);
  }

  /** The sweep marks every stale client before it hands any work out, so nothing it recovers goes
      back to a stale client. */
  lemma SweepRecovers(env: Env, s: State, now: int, limit: int, autoReassign: bool)
    requires Keyed(s)
    ensures var t, stale := Sweep(env, s, now, limit, autoReassign), StaleClients(s, now, limit);
      && SweepOutcome(s, t, stale, autoReassign)
      && |t.events| == |s.events| + |stale| + (if autoReassign then 3 else 2) * |Abandoned(s, stale)|
  {
    hide SweepOutcome, Recovers, Reassigns, Adds, Keyed;
    var stale := StaleClients(s, now, limit);
    var clients := ListClients(s, stale);
    MarkedByList(env, s, stale, clients);
    var t := MarkFirst(env, s, clients, |clients|).0;
    if autoReassign {
      ReassignedByList(env, s, t, stale);
      ReassignedOutcome(s, t, Sweep(env, s, now, limit, true), stale);
    } else {
      MarkedOutcome(s, t, stale);
    }
    OutcomeGrows(s, Sweep(env, s, now, limit, autoReassign), stale, autoReassign);
  }

  lemma OutcomeGrows(s: State, t: State, stale: set<Id>, autoReassign: bool)
    requires SweepOutcome(s, t, stale, autoReassign)
    ensures |t.events| == |s.events| + |stale| + (if autoReassign then 3 else 2) * |Abandoned(s, stale)|
  {
    hide Adds, RecoveredRow, Abandoned, MarkedStale;
    AddsLength(s.events, t.events, SweepTally(s, t, stale, autoReassign));
    assert !autoReassign ==> Placed(s, t, stale, autoReassign) == {};
  }

  /** The client is marked as stale and has no active lease. */
  predicate MarkedAndBare(t: State, c: Id) {
    c in t.heartbeats && t.heartbeats[c].status == ClientStale && ActiveLeases(t, c) == {}
  }

  lemma StaleHoldNoLease(s: State, t: State, stale: set<Id>, autoReassign: bool)
    requires SweepOutcome(s, t, stale, autoReassign)
    ensures forall c :: c in stale ==> MarkedAndBare(t, c)
  {
    forall c | c in stale ensures MarkedAndBare(t, c) {
      forall l | l in t.leases ensures l !in ActiveLeases(t, c) {
        assert l in s.leases;
      }
    }
  }

  ghost predicate Unassigned(row: ItemRow, stale: set<Id>) {
    row.assignedColumn.None? || row.assignedColumn.value !in stale
  }

  ghost predicate Released(row: ItemRow, stale: set<Id>) {
    row.item.assignee.None? || row.item.assignee.value !in stale
  }

  lemma StaleHoldNoItem(s: State, t: State, stale: set<Id>, autoReassign: bool)
    requires SweepOutcome(s, t, stale, autoReassign)
    ensures forall id :: id in t.items && Recoverable(t.items[id].item.status) ==> Unassigned(t.items[id], stale)
    ensures ColumnsAgree(s) ==>
      forall id :: id in t.items && Recoverable(t.items[id].item.status) ==> Released(t.items[id], stale)
  {
    forall id | id in t.items && Recoverable(t.items[id].item.status)
      ensures Unassigned(t.items[id], stale) && (ColumnsAgree(s) ==> Released(t.items[id], stale))
    {
      assert id in s.items;
      if id in Abandoned(s, stale) {
        assert RecoveredRow(t, stale, s.items[id], t.items[id], autoReassign);
      } else {
        assert t.items[id] == s.items[id];
      }
    }
  }

  /** After a sweep no stale client holds an active lease, and none is assigned unfinished work,
      whichever of column and payload is asked, provided that they agreed before. */
  lemma StaleClientsHoldNothing(env: Env, s: State, now: int, limit: int, autoReassign: bool)
    requires Keyed(s)
    ensures var t, stale := Sweep(env, s, now, limit, autoReassign), StaleClients(s, now, limit);
      && (forall c :: c in stale ==> MarkedAndBare(t, c))
      && (forall id :: id in t.items && Recoverable(t.items[id].item.status) ==>
            Unassigned(t.items[id], stale))
      && (ColumnsAgree(s) ==> forall id :: id in t.items && Recoverable(t.items[id].item.status) ==>
            Released(t.items[id], stale))
  {
    var t, stale := Sweep(env, s, now, limit, autoReassign), StaleClients(s, now, limit);
    SweepRecovers(env, s, now, limit, autoReassign);
    StaleHoldNoLease(s, t, stale, autoReassign);
    StaleHoldNoItem(s, t, stale, autoReassign);
  }

  /** Sweeping twice at one clock reading: the same clients are stale again, no lease and no item
      changes, and the ledger gains one heartbeat event for each of them; but the second sweep finds
      no active leases, so the lists of lost leases that the first one recorded are emptied. */
  lemma SweepTwice(env: Env, s: State, now: int, limit: int, autoReassign: bool, again: bool)
    requires Keyed(s)
    ensures var t, stale := Sweep(env, s, now, limit, autoReassign), StaleClients(s, now, limit);
      var u := Sweep(env, t, now, limit, again);
      && StaleClients(t, now, limit) == stale
      && u.manifests == t.manifests && u.leases == t.leases && u.items == t.items
      && u.heartbeats.Keys == t.heartbeats.Keys && stale <= t.heartbeats.Keys
      && (forall c :: c in t.heartbeats && c !in stale ==> u.heartbeats[c] == t.heartbeats[c])
      && (forall c :: c in stale ==> t.heartbeats[c].lostLeases == LostLeases(s, c)
                                     && u.heartbeats[c] == t.heartbeats[c].(lostLeases := []))
      && Adds(t.events, u.events, Tally(|stale|, 0, 0, 0, 0))
  {
    hide Sweep, Adds, IsStale, LostLeases, Keyed;
    var t, stale := Sweep(env, s, now, limit, autoReassign), StaleClients(s, now, limit);
    SweepRecovers(env, s, now, limit, autoReassign);
    OutcomeKeepsKeys(s, t, stale, autoReassign);
    StaleAgain(s, t, now, limit, autoReassign);
    NothingAbandoned(s, t, stale, autoReassign);
    StaleHoldNoLease(s, t, stale, autoReassign);
    SweepRecovers(env, t, now, limit, again);
    SecondOutcome(t, Sweep(env, t, now, limit, again), stale, again);
  }

  lemma OutcomeKeepsKeys(s: State, t: State, stale: set<Id>, autoReassign: bool)
    requires Keyed(s) && SweepOutcome(s, t, stale, autoReassign)
    ensures Keyed(t)
  {
    hide Adds, Eligible, LeastLoaded, Abandoned;
    forall id | id in t.items ensures t.items[id].item.id == id {
      assert id in s.items;
      assert id in Abandoned(s, stale) ==> RecoveredRow(t, stale, s.items[id], t.items[id], autoReassign);
    }
  }

  /** A sweep keeps the time of the last heartbeat, by which it judges. */
  lemma StaleAgain(s: State, t: State, now: int, limit: int, autoReassign: bool)
    requires SweepOutcome(s, t, StaleClients(s, now, limit), autoReassign)
    ensures StaleClients(t, now, limit) == StaleClients(s, now, limit)
  {
    hide Adds, LostLeases, RecoveredRow, Abandoned;
  }

  lemma NothingAbandoned(s: State, t: State, stale: set<Id>, autoReassign: bool)
    requires SweepOutcome(s, t, stale, autoReassign)
    ensures Abandoned(t, stale) == {}
  {
    hide Adds, SweepOutcome;
    StaleHoldNoItem(s, t, stale, autoReassign);
  }

  lemma SecondOutcome(t: State, u: State, stale: set<Id>, again: bool)
    requires SweepOutcome(t, u, stale, again) && Abandoned(t, stale) == {}
    requires forall c :: c in stale ==> MarkedAndBare(t, c)
    ensures u.manifests == t.manifests && u.leases == t.leases && u.items == t.items
    ensures u.heartbeats.Keys == t.heartbeats.Keys && stale <= t.heartbeats.Keys
    ensures forall c :: c in t.heartbeats && c !in stale ==> u.heartbeats[c] == t.heartbeats[c]
    ensures forall c :: c in stale ==> u.heartbeats[c] == t.heartbeats[c].(lostLeases := [])
    ensures Adds(t.events, u.events, Tally(|stale|, 0, 0, 0, 0))
  {
    hide Adds, RecoveredRow, Abandoned;
    assert Placed(t, u, stale, again) == {};
    forall l | l in t.leases ensures u.leases[l] == t.leases[l] {
      assert t.leases[l].clientId in stale ==> l !in ActiveLeases(t, t.leases[l].clientId);
    }
    assert u.leases == t.leases && u.items == t.items;
  }

  /** Eligible after a sweep are those who were before and are not stale. */
  lemma EligibleAfterSweep(env: Env, s: State, now: int, limit: int, autoReassign: bool, item: WorkItem)
    requires Keyed(s)
    ensures Eligible(Sweep(env, s, now, limit, autoReassign), item) == Eligible(s, item) - StaleClients(s, now, limit)
  {
    hide Sweep, Adds, LostLeases, RecoveredRow, Abandoned, Keyed;
    SweepRecovers(env, s, now, limit, autoReassign);
  }
}
