/** What a sweep does to each row, spelled out in the fields of clients, leases and items. */
module SweepResults {
  import opened Wrappers
  import opened Ordering
  import opened Events
  import opened ControlPlane
  import opened StaleRecovery
  import opened TransitionResults
  import opened SchedulingResults

  /** Registered, heard from at some time, not disconnected, and silent for longer than the limit. */
  predicate Silent(s: State, c: Id, now: int, limit: int) {
    && c in s.manifests && c in s.heartbeats
    && s.heartbeats[c].status != ClientDisconnected
    && s.heartbeats[c].lastAt.Some? && s.heartbeats[c].lastAt.value + limit < now
  }

  lemma SilentIsStale(s: State, now: int, limit: int)
    ensures forall c :: Silent(s, c, now, limit) <==> c in StaleClients(s, now, limit)
  {
  }

  // ---------------------------------------------------------------------------------------------
  // Items

  /** Work that is not given up for lost: not yet handed out, handed back, decided or ended. */
  predicate Settled(status: WorkItemStatus) {
    || status == Planned || status == Queued || status == Requeued
    || status == Approved || status == Completed || status == ItemFailed || status == Cancelled
  }

  ghost predicate HeldBySilent(s: State, row: ItemRow, now: int, limit: int) {
    row.assignedColumn.Some? && Silent(s, row.assignedColumn.value, now, limit)
  }

  /** The row after the sweep of unsettled work that a silent client held: handed to the client that
      outranks all others that can take it, if work is handed out again and there is one, and
      otherwise requeued; without a lease in either case. */
  ghost predicate TakenBack(t: State, before: ItemRow, after: ItemRow, autoReassign: bool) {
    var item, now := before.item, after.item.updatedAt;
    if autoReassign && exists c :: CanTake(t, c, item)
    then exists c :: IsFirstClient(t, item, c)
           && after == ItemRow(item.(status := Assigned, assignee := Some(c), leaseId := None, updatedAt := now),
                               Some(c), None)
    else after == ItemRow(item.(status := Requeued, assignee := None, leaseId := None, updatedAt := now), None, None)
  }

  lemma RecoverableIsUnsettled(status: WorkItemStatus)
    ensures Recoverable(status) <==> !Settled(status)
  {
  }

  lemma RecoveredIsTakenBack(t: State, stale: set<Id>, before: ItemRow, after: ItemRow, autoReassign: bool)
    requires RecoveredRow(t, stale, before, after, autoReassign)
    ensures TakenBack(t, before, after, autoReassign)
    ensures after.assignedColumn.Some? ==> after.assignedColumn.value !in stale
  {
    hide LeastLoaded, CanTake, Eligible;
    var item := before.item;
    TakersAreEligible(t, item);
    if autoReassign && Eligible(t, item) != {} {
      var c :| c !in stale && LeastLoaded(t, item, c) && HandedTo(c, before, after);
      LeastIsFirst(t, item, c);
      assert CanTake(t, c, item);
    }
  }

  /** After a sweep every item whose column names a silent client is settled.  A row that a silent
      client held stays as it is if and only if it is settled, and is taken back otherwise; every other
      row stays as it is. */
  lemma SweepTakesBackUnsettled(env: Env, s: State, now: int, limit: int, autoReassign: bool)
    requires Keyed(s)
    ensures var t := Sweep(env, s, now, limit, autoReassign);
      && t.items.Keys == s.items.Keys
      && (forall id :: id in t.items && HeldBySilent(s, t.items[id], now, limit) ==> Settled(t.items[id].item.status))
      && (forall id :: id in s.items && HeldBySilent(s, s.items[id], now, limit) ==>
            && (t.items[id] == s.items[id] <==> Settled(s.items[id].item.status))
            && (!Settled(s.items[id].item.status) ==> TakenBack(t, s.items[id], t.items[id], autoReassign)))
      && (forall id :: id in s.items && !HeldBySilent(s, s.items[id], now, limit) ==> t.items[id] == s.items[id])
  {
    hide Sweep, Keyed, Adds, MarkedStale, RecoveredRow, TakenBack, Silent, SweepTally, Recoverable;
    var t, stale := Sweep(env, s, now, limit, autoReassign), StaleClients(s, now, limit);
    SweepRecovers(env, s, now, limit, autoReassign);
    SilentIsStale(s, now, limit);
    forall id | id in s.items
      ensures if HeldBySilent(s, s.items[id], now, limit) && !Settled(s.items[id].item.status)
              then TakenBack(t, s.items[id], t.items[id], autoReassign) && t.items[id] != s.items[id]
                   && !HeldBySilent(s, t.items[id], now, limit)
              else t.items[id] == s.items[id]
    {
      RecoverableIsUnsettled(s.items[id].item.status);
      if id in Abandoned(s, stale) {
        RecoveredIsTakenBack(t, stale, s.items[id], t.items[id], autoReassign);
        assert t.items[id].assignedColumn != s.items[id].assignedColumn;
      }
    }
  }

  // ---------------------------------------------------------------------------------------------
  // Clients and leases

  /** By run and then by task, letter by letter. */
  ghost predicate ListedBefore(s: State, a: Id, b: Id)
    requires a in s.leases && b in s.leases
  {
    var x, y := s.leases[a].runId, s.leases[b].runId;
    if x != y then Alphabetical(x, y) else Alphabetical(a, b)
  }

  /** The tasks that the client held, each once, in the order of the listing. */
  ghost predicate ListsHeld(s: State, c: Id, listed: seq<Id>) {
    && NoDuplicates(listed)
    && (forall t :: t in listed <==> t in s.leases && s.leases[t].clientId == c && s.leases[t].status == LeaseActive)
    && (forall i, j :: 0 <= i < j < |listed| ==>
          listed[i] in s.leases && listed[j] in s.leases && ListedBefore(s, listed[i], listed[j]))
  }

  lemma LostAreListed(s: State, c: Id)
    ensures ListsHeld(s, c, LostLeases(s, c))
  {
    var listed := LostLeases(s, c);
    forall i, j | 0 <= i < j < |listed|
      ensures listed[i] in s.leases && listed[j] in s.leases && ListedBefore(s, listed[i], listed[j])
    {
      assert listed[i] in listed && listed[j] in listed;
      assert LeaseLe(s, listed[i], listed[j]);
      LexIsAlphabetical(s.leases[listed[i]].runId, s.leases[listed[j]].runId);
      LexIsAlphabetical(listed[i], listed[j]);
    }
  }

  /** A silent client is marked, keeps the time and place of its last heartbeat, and lists the tasks it
      held; the lease of each expires.  Every other row stays as it is. */
  lemma SweepMarksSilent(env: Env, s: State, now: int, limit: int, autoReassign: bool)
    requires Keyed(s)
    ensures var t := Sweep(env, s, now, limit, autoReassign);
      && t.manifests == s.manifests && t.heartbeats.Keys == s.heartbeats.Keys && t.leases.Keys == s.leases.Keys
      && (forall c :: c in s.heartbeats ==>
            if Silent(s, c, now, limit)
            then var row := t.heartbeats[c];
                 row == HeartbeatRow(ClientStale, s.heartbeats[c].lastAt, s.heartbeats[c].lastRun,
                                     s.heartbeats[c].lastTask, row.lostLeases)
                 && ListsHeld(s, c, row.lostLeases)
            else t.heartbeats[c] == s.heartbeats[c])
      && (forall l :: l in s.leases ==>
            t.leases[l] == if Silent(s, s.leases[l].clientId, now, limit) && s.leases[l].status == LeaseActive
                           then s.leases[l].(status := LeaseExpired, releaseReason := Some("client marked stale"))
                           else s.leases[l])
  {
    hide Sweep, Keyed, Adds, RecoveredRow, Silent, SweepTally, Abandoned, LostLeases, ListsHeld;
    SweepRecovers(env, s, now, limit, autoReassign);
    SilentIsStale(s, now, limit);
    forall c ensures ListsHeld(s, c, LostLeases(s, c)) {
      LostAreListed(s, c);
    }
  }

  // ---------------------------------------------------------------------------------------------
  // Handing out

  /** Work is handed out in the name of the control plane. */
  lemma HandOutRecords(env: Env, s: State, id: Id)
    requires Keyed(s) && id in s.items && Waits(s, None, id)
    requires s.items[id].item.leaseId.None? || s.items[id].item.leaseId.value in s.leases
    ensures var t, n := ScheduleStep(env, s, id, RecoveryScheduler()).0, |s.events|;
      && |t.events| == n + 1 && s.events <= t.events
      && t.events[n].actor == "recovery-scheduler" && t.events[n].role == "operator"
      && t.events[n].clientId == "control-plane" && t.events[n].taskId == Some(id)
      && t.events[n].kind == if exists c :: CanTake(s, c, s.items[id].item) then WorkItemChange else PolicyDenied
  {
    RecoverySchedulerIsValid();
    CallerMakesEvent(RecoveryScheduler());
    hide CanTake, IsFirstClient, StoredAlike, MakesEvent, ScheduleStep, ValidCaller;
    FirstClientIsAssigned(env, s, id, RecoveryScheduler());
  }

  // ---------------------------------------------------------------------------------------------
  // Order

  /** By display name and then by id, letter by letter. */
  ghost predicate NamedBefore(s: State, a: Id, b: Id)
    requires a in s.manifests && b in s.manifests
  {
    var x, y := s.manifests[a].displayName, s.manifests[b].displayName;
    if x != y then Alphabetical(x, y) else Alphabetical(a, b)
  }

  ghost predicate ClientsByName(s: State, clients: seq<Id>) {
    && NoDuplicates(clients) && (forall c :: c in clients ==> c in s.manifests)
    && forall i, j :: 0 <= i < j < |clients| ==>
         clients[i] in s.manifests && clients[j] in s.manifests && NamedBefore(s, clients[i], clients[j])
  }

  ghost predicate ItemsByQueue(s: State, ids: seq<Id>) {
    && NoDuplicates(ids) && (forall id :: id in ids ==> id in s.items)
    && forall i, j :: 0 <= i < j < |ids| ==> ids[i] in s.items && ids[j] in s.items && Precedes(s, ids[i], ids[j])
  }

  lemma ClientsAreByName(s: State, cs: set<Id>)
    requires cs <= s.manifests.Keys
    ensures ClientsByName(s, ListClients(s, cs))
  {
    var listed := ListClients(s, cs);
    DisplayOrdered(s, cs);
    forall i, j | 0 <= i < j < |listed|
      ensures listed[i] in s.manifests && listed[j] in s.manifests && NamedBefore(s, listed[i], listed[j])
    {
      assert listed[i] in listed && listed[j] in listed;
      assert DisplayLe(s, listed[i], listed[j]);
      LexIsAlphabetical(s.manifests[listed[i]].displayName, s.manifests[listed[j]].displayName);
      LexIsAlphabetical(listed[i], listed[j]);
    }
  }

  lemma ItemsAreByQueue(s: State, ids: set<Id>)
    requires ids <= s.items.Keys
    ensures ItemsByQueue(s, ListItems(s, ids))
  {
    var listed := ListItems(s, ids);
    ItemsOrdered(s, ids);
    forall i, j | 0 <= i < j < |listed|
      ensures listed[i] in s.items && listed[j] in s.items && Precedes(s, listed[i], listed[j])
    {
      assert listed[i] in listed && listed[j] in listed;
      assert ItemLe(s, listed[i], listed[j]);
      LexIsAlphabetical(listed[i], listed[j]);
    }
  }

  /** Stale clients are swept by name. */
  lemma SweptByName(env: Env, s: State, now: int, limit: int)
    ensures exists clients ::
      && ClientsByName(s, clients) && (forall c :: c in clients <==> Silent(s, c, now, limit))
      && Sweep(env, s, now, limit, false) == MarkFirst(env, s, clients, |clients|).0
  {
    SilentIsStale(s, now, limit);
    ClientsAreByName(s, StaleClients(s, now, limit));
    hide Silent, ClientsByName, MarkFirst;
    var clients := ListClients(s, StaleClients(s, now, limit));
    assert Sweep(env, s, now, limit, false) == MarkFirst(env, s, clients, |clients|).0;
  }

  /** Recovered items are handed out by id, letter by letter, after all clients have been swept. */
  lemma HandedOutById(env: Env, s: State, now: int, limit: int)
    ensures var clients := ListClients(s, StaleClients(s, now, limit));
      var (t, recovered) := MarkFirst(env, s, clients, |clients|);
      exists ids ::
        && NoDuplicates(ids) && (forall id :: id in ids <==> id in recovered)
        && (forall i, j :: 0 <= i < j < |ids| ==> Alphabetical(ids[i], ids[j]))
        && t == Sweep(env, s, now, limit, false) && Sweep(env, s, now, limit, true) == ReassignFirst(env, t, ids, |ids|)
  {
    hide MarkFirst, ReassignFirst;
    var clients := ListClients(s, StaleClients(s, now, limit));
    var (t, recovered) := MarkFirst(env, s, clients, |clients|);
    var ids := SortedStrings(recovered);
    forall i, j | 0 <= i < j < |ids| ensures Alphabetical(ids[i], ids[j]) {
      LexIsAlphabetical(ids[i], ids[j]);
    }
    assert Sweep(env, s, now, limit, true) == ReassignFirst(env, t, ids, |ids|);
  }

  /** The items of one client are requeued in the order of the queue. */
  lemma RequeuedByQueue(env: Env, s: State, c: Id)
    requires c in s.manifests
    ensures exists ids ::
      && ItemsByQueue(MarkStaleStep(env, s, c), ids)
      && (forall id :: id in ids <==> id in s.items && s.items[id].assignedColumn == Some(c))
      && RecoverClient(env, s, c) == RequeueFirst(env, MarkStaleStep(env, s, c), s.manifests[c], ids, |ids|)
  {
    var s1 := MarkStaleStep(env, s, c);
    assert s1.items == s.items;
    ItemsAreByQueue(s1, AssignedIds(s1, c));
    hide ItemsByQueue, RequeueFirst;
    var ids := ListItems(s1, AssignedIds(s1, c));
    assert RecoverClient(env, s, c) == RequeueFirst(env, s1, s.manifests[c], ids, |ids|);
  }
}
