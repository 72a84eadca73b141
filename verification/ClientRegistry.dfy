/** `ClientRegistryService`: registration, heartbeats and the sweep over stale clients. */
module ClientRegistry {
  import opened Wrappers
  import opened Ordering
  import opened Events
  import opened ControlPlane
  import opened StaleRecovery
  import opened ControlPlaneRuns
  import opened ServerStore
  import opened WorkItemService

  class ClientRegistryService {
    const store: Store
    const workItems: WorkItems
    const scheduler: Scheduler

    constructor (store: Store)
      ensures this.store == store && Wired()
    {
      this.store := store;
      workItems := new WorkItems(store);
      scheduler := new Scheduler(store);
    }

    ghost predicate Wired() {
      workItems.store == store && scheduler.store == store && scheduler.workItems.store == store
    }

    method Register(m: Manifest) returns (outcome: Outcome)
      requires store.Valid() && ValidId(m.clientId)
      modifies store
      ensures store.Valid()
      ensures (store.Snapshot(), outcome) == RegisterStep(store.env, old(store.Snapshot()), m)
    {
      hide Inv;
      var raised := store.RegisterClientManifest(m);
      if raised.Some? {
        return Raised(raised.value);
      }
      store.AppendEvent(RegistryDraft(m, Active));
      return Done(201);
    }

    method Unregister(c: Id) returns (outcome: Outcome)
      requires store.Valid()
      modifies store
      ensures store.Valid()
      ensures (store.Snapshot(), outcome) == UnregisterStep(store.env, old(store.Snapshot()), c)
    {
      hide Inv, WithoutClient;
      var removed := store.UnregisterClientManifest(c);
      if removed.None? {
        return Raised(NotFound);
      }
      store.AppendEvent(RegistryDraft(removed.value, Stale));
      return Done(200);
    }

    method Heartbeat(h: HeartbeatMsg) returns (outcome: Outcome)
      requires store.Valid()
      modifies store
      ensures store.Valid()
      ensures (store.Snapshot(), outcome) == HeartbeatStep(store.env, old(store.Snapshot()), h)
    {
      hide Inv;
      var raised := store.RecordClientHeartbeat(h);
      if raised.Some? {
        return Raised(raised.value);
      }
      store.AppendEvent(Draft(h.clientId, Some(store.manifests[h.clientId].displayName), h.runId, h.taskId,
                              EventKind.Heartbeat, Active, h.actor, h.role, None, Some(h.observedAt)));
      return Done(200);
    }

    /** The clients that have been silent for too long, in listing order. */
    method FindStale(now: int, limit: int) returns (stale: seq<Id>)
      ensures stale == ListClients(store.Snapshot(), StaleClients(store.Snapshot(), now, limit))
    {
      ghost var s := store.Snapshot();
      var listed := ListClients(store.Snapshot(), store.manifests.Keys);
      ListedByName(s, s.manifests.Keys);
      stale := [];
      for i := 0 to |listed|
        invariant KeptFrom(listed, i, c => IsStale(s, c, now, limit), ByName(s), stale)
      {
        KeptNext(listed, i, c => IsStale(s, c, now, limit), ByName(s), stale);
        if IsStale(store.Snapshot(), listed[i], now, limit) {
          stale := stale + [listed[i]];
        }
      }
      KeptAreStale(s, now, limit, stale);
    }

    /** One turn of the recovery loop; a refused requeue is skipped. */
    method RequeueOne(m: Manifest, id: Id) returns (recovered: bool)
      requires store.Valid() && Wired() && id in store.items
      modifies store
      ensures store.Valid()
      ensures (store.Snapshot(), recovered) == RequeueStep(store.env, old(store.Snapshot()), m, id)
    {
      hide Inv, TransitionStep, Recoverable;
      if !Recoverable(store.items[id].item.status) {
        return false;
      }
      var outcome := workItems.Transition(id, ToRequeued(), RecoveryCaller(m));
      if outcome != Done(200) || id !in store.items {
        return false;
      }
      store.AppendEvent(RecoveryDraft(store.items[id].item, m));
      return true;
    }

    method RecoverStaleWorkItems(m: Manifest, c: Id) returns (recovered: set<Id>)
      requires store.Valid() && Wired()
      modifies store
      ensures store.Valid()
      ensures var s := old(store.Snapshot());
        var ids := ListItems(s, AssignedIds(s, c));
        (store.Snapshot(), recovered) == RequeueFirst(store.env, s, m, ids, |ids|)
    {
      hide Inv, RequeueStep;
      ghost var s := store.Snapshot();
      var ids := ListItems(store.Snapshot(), AssignedIds(store.Snapshot(), c));
      recovered := {};
      for i := 0 to |ids|
        invariant store.Valid()
        invariant (store.Snapshot(), recovered) == RequeueFirst(store.env, s, m, ids, i)
      {
        assert ids[i] in ids && ids[i] in s.items;
        var done := RequeueOne(m, ids[i]);
        if done {
          recovered := recovered + {ids[i]};
        }
      }
    }

    /** Marks one client and requeues its unfinished work. */
    method MarkAndRecover(c: Id) returns (recovered: set<Id>)
      requires store.Valid() && Wired() && c in store.manifests
      modifies store
      ensures store.Valid()
      ensures (store.Snapshot(), recovered) == RecoverClient(store.env, old(store.Snapshot()), c)
    {
      hide Inv, RequeueFirst, MarkStale;
      var m := store.manifests[c];
      ghost var s := store.Snapshot();
      var raised := store.MarkClientStale(c);
      MarkStaleKeepsClient(s, c);
      store.AppendEvent(StaleDraft(store.Snapshot(), c));
      recovered := RecoverStaleWorkItems(m, c);
    }

    method Reassign(recovered: set<Id>)
      requires store.Valid() && Wired()
      modifies store
      ensures store.Valid()
      ensures var ids := SortedStrings(recovered);
        store.Snapshot() == ReassignFirst(store.env, old(store.Snapshot()), ids, |ids|)
    {
      hide Inv, ScheduleStep;
      ghost var s := store.Snapshot();
      var ids := SortedStrings(recovered);
      for i := 0 to |ids|
        invariant store.Valid()
        invariant store.Snapshot() == ReassignFirst(store.env, s, ids, i)
      {
        var decision := scheduler.ScheduleWorkItem(ids[i], RecoveryScheduler());
      }
    }

    /** First every stale client is marked and its work requeued, then the work is handed out. */
    method MarkStaleClientsWithRecovery(now: int, limit: int, autoReassign: bool)
      returns (marked: seq<Id>, recovered: set<Id>)
      requires store.Valid() && Wired()
      modifies store
      ensures store.Valid()
      ensures store.Snapshot() == Sweep(store.env, old(store.Snapshot()), now, limit, autoReassign)
      ensures SweepOutcome(old(store.Snapshot()), store.Snapshot(),
                           StaleClients(old(store.Snapshot()), now, limit), autoReassign)
    {
      ghost var s := store.Snapshot();
      SweepRecovers(store.env, s, now, limit, autoReassign);
      hide Inv, RecoverClient, ReassignFirst, SweepOutcome, StaleClients;
      marked := FindStale(now, limit);
      recovered := MarkAll(marked);
      if autoReassign {
        Reassign(recovered);
      }
    }

    method MarkAll(clients: seq<Id>) returns (recovered: set<Id>)
      requires store.Valid() && Wired() && forall c :: c in clients ==> c in store.manifests
      modifies store
      ensures store.Valid()
      ensures (store.Snapshot(), recovered) == MarkFirst(store.env, old(store.Snapshot()), clients, |clients|)
    {
      hide Inv, RecoverClient;
      ghost var s := store.Snapshot();
      recovered := {};
      for i := 0 to |clients|
        invariant store.Valid()
        invariant (store.Snapshot(), recovered) == MarkFirst(store.env, s, clients, i)
      {
        assert clients[i] in clients;
        var more := MarkAndRecover(clients[i]);
        recovered := recovered + more;
      }
    }
  }

  // ---------------------------------------------------------------------------------------------

  lemma MarkStaleKeepsClient(s: State, c: Id)
    ensures c in MarkStale(s, c).heartbeats && MarkStale(s, c).manifests == s.manifests
  {
  }

  lemma ListedByName(s: State, cs: set<Id>)
    requires cs <= s.manifests.Keys
    ensures SortedBy(ListClients(s, cs), ByName(s)) && NoDuplicates(ListClients(s, cs))
  {
    DisplayOrdered(s, cs);
  }

  lemma KeptAreStale(s: State, now: int, limit: int, kept: seq<Id>)
    requires var listed := ListClients(s, s.manifests.Keys);
      KeptFrom(listed, |listed|, c => IsStale(s, c, now, limit), ByName(s), kept)
    ensures kept == ListClients(s, StaleClients(s, now, limit))
  {
    DisplayOrdered(s, StaleClients(s, now, limit));
    KeptAll(ListClients(s, s.manifests.Keys), c => IsStale(s, c, now, limit), ByName(s), kept,
            StaleClients(s, now, limit));
  }
}
