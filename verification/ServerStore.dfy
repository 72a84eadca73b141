/** The store as it is: tables that are updated in place.  `Snapshot` gives the state that the step
    functions speak about; every method here says which state it leaves behind. */
module ServerStore {
  import opened Wrappers
  import opened Ordering
  import opened Events
  import opened ControlPlane
  import opened StaleRecovery
  import opened ControlPlaneRuns

  /** A loaded lease, changed in place before it is saved. */
  class TaskLease {
    const taskId: Id
    const runId: Id
    const clientId: Id
    const role: string
    const actor: string
    const acquiredAt: int
    var expiresAt: int
    var status: LeaseStatus
    var releaseReason: Option<string>

    constructor (lease: Lease)
      ensures Value() == lease
    {
      taskId, runId, clientId, role, actor := lease.taskId, lease.runId, lease.clientId, lease.role, lease.actor;
      acquiredAt, expiresAt, status, releaseReason :=
        lease.acquiredAt, lease.expiresAt, lease.status, lease.releaseReason;
    }

    function Value(): Lease
      reads this
    {
      Lease(taskId, runId, clientId, role, actor, acquiredAt, expiresAt, status, releaseReason)
    }

    method Renew(now: int, ttlSeconds: int) returns (raised: Option<Error>)
      modifies this
      ensures raised == if old(status) == LeaseActive then None else Some(NotActive)
      ensures Value() == if raised.None? then old(Value()).(expiresAt := now + ttlSeconds) else old(Value())
    {
      if status != LeaseActive {
        return Some(NotActive);
      }
      expiresAt := now + ttlSeconds;
      return None;
    }

    method Release(reason: Option<string>) returns (raised: Option<Error>)
      modifies this
      ensures raised == if old(status) == LeaseActive then None else Some(NotActive)
      ensures Value() == if raised.None? then old(Value()).(status := LeaseReleased, releaseReason := reason)
                         else old(Value())
    {
      if status != LeaseActive {
        return Some(NotActive);
      }
      status := LeaseReleased;
      releaseReason := reason;
      return None;
    }

    /** An active lease expires once its deadline is reached; every other lease stays as it is. */
    method Expire(now: int)
      modifies this
      ensures Value() == if old(status) == LeaseActive && now >= old(expiresAt)
                         then old(Value()).(status := LeaseExpired, releaseReason := Some("lease expired"))
                         else old(Value())
    {
      if status != LeaseActive {
        return;
      }
      if now >= expiresAt {
        status := LeaseExpired;
        releaseReason := Some("lease expired");
      }
    }
  }

  class Store {
    const env: Env
    var manifests: map<Id, Manifest>
    var heartbeats: map<Id, HeartbeatRow>
    var leases: map<Id, Lease>
    var items: map<Id, ItemRow>
    var runTasks: map<(Id, Id), RunTaskState>
    var events: seq<Event>

    constructor (env: Env)
      ensures this.env == env && Snapshot() == Empty() && Valid()
    {
      this.env := env;
      manifests, heartbeats, leases, items, runTasks, events := map[], map[], map[], map[], map[], [];
    }

    function Snapshot(): State
      reads this
    {
      State(manifests, heartbeats, leases, items, runTasks, events)
    }

    ghost predicate Valid()
      reads this
    {
      Inv(Snapshot())
    }

    method AppendEvent(d: Draft)
      requires Valid()
      modifies this`events
      ensures Valid() && Snapshot() == Append(env, old(Snapshot()), d)
    {
      hide Inv;
      AppendGenerated(Stamped(env, |events|, d));
    }

    /** Stores an event under an id that was generated for it. */
    method AppendGenerated(e: Event)
      requires Valid()
      modifies this`events
      ensures Valid() && events == old(events) + [e] && Snapshot() == old(Snapshot()).(events := events)
    {
      hide Inv;
      ghost var s := Snapshot();
      events := events + [e];
      MoreEventsKeepInv(s, e);
    }

    /** Stores an event under the id it came with, which must be new: ids are a primary key. */
    method AppendControlPlaneEvent(e: Event) returns (raised: bool)
      requires Valid()
      modifies this`events
      ensures Valid() && Snapshot() == old(Snapshot()).(events := events)
      ensures raised <==> exists k :: 0 <= k < |old(events)| && old(events)[k].eventId == e.eventId
      ensures events == if raised then old(events) else old(events) + [e]
    {
      hide Inv;
      raised := !IsNewEvent(Snapshot(), e);
      if !raised {
        AppendGenerated(e);
      }
    }

    // -------------------------------------------------------------------------------------------
    // Clients

    method RegisterClientManifest(m: Manifest) returns (raised: Option<Error>)
      requires Valid() && ValidId(m.clientId)
      modifies this`manifests
      ensures Valid()
      ensures raised == if m.clientId in old(manifests) then Some(Duplicate) else None
      ensures manifests == if raised.None? then old(manifests)[m.clientId := m] else old(manifests)
    {
      if m.clientId in manifests {
        return Some(Duplicate);
      }
      manifests := manifests[m.clientId := m];
      return None;
    }

    /** The delete cascades to heartbeat and leases and clears the columns that refer to them. */
    method UnregisterClientManifest(c: Id) returns (removed: Option<Manifest>)
      requires Valid()
      modifies this
      ensures Valid()
      ensures removed == if c in old(manifests) then Some(old(manifests[c])) else None
      ensures Snapshot() == if removed.Some? then WithoutClient(old(Snapshot()), c) else old(Snapshot())
    {
      if c !in manifests {
        return None;
      }
      ghost var s := Snapshot();
      removed := Some(manifests[c]);
      var gone := LeasesOf(Snapshot(), c);
      manifests := manifests - {c};
      heartbeats := heartbeats - {c};
      leases := leases - gone;
      items := map id | id in items :: Detached(items[id], c, gone);
      WithoutClientKeepsInv(s, c);
    }

    method RecordClientHeartbeat(h: HeartbeatMsg) returns (raised: Option<Error>)
      requires Valid()
      modifies this`heartbeats
      ensures Valid()
      ensures raised == if h.clientId in manifests then None else Some(NotFound)
      ensures heartbeats == if raised.Some? then old(heartbeats) else old(heartbeats)[h.clientId :=
        HeartbeatRow(h.status, Some(h.observedAt), h.runId, h.taskId,
                     if h.clientId in old(heartbeats) then old(heartbeats[h.clientId]).lostLeases else [])]
    {
      if h.clientId !in manifests {
        return Some(NotFound);
      }
      var lost := [];
      if h.clientId in heartbeats {
        lost := heartbeats[h.clientId].lostLeases;
      }
      heartbeats := heartbeats[h.clientId := HeartbeatRow(h.status, Some(h.observedAt), h.runId, h.taskId, lost)];
      return None;
    }

    /** Expires the client's active leases, then marks the client; the lost leases are recorded. */
    method MarkClientStale(c: Id) returns (raised: Option<Error>)
      requires Valid()
      modifies this`leases, this`heartbeats
      ensures Valid()
      ensures raised == if c in manifests then None else Some(NotFound)
      ensures Snapshot() == if raised.None? then MarkStale(old(Snapshot()), c) else old(Snapshot())
    {
      hide Inv;
      if c !in manifests {
        return Some(NotFound);
      }
      ghost var s := Snapshot();
      var lost := ExpireTaskLeasesForClient(c);
      if c in heartbeats {
        heartbeats := heartbeats[c := heartbeats[c].(status := ClientStale, lostLeases := lost)];
      } else {
        heartbeats := heartbeats[c := HeartbeatRow(ClientStale, None, None, None, lost)];
      }
      MarkKeepsInv(s, c);
      return None;
    }

    // -------------------------------------------------------------------------------------------
    // Leases

    /** Null for a missing lease; a stored one that does not pass its validation raises. */
    method LoadTaskLease(t: Id) returns (lease: TaskLease?, raised: Option<Error>)
      ensures raised == if t in leases && !Readable(leases[t]) then Some(Unreadable) else None
      ensures lease != null <==> t in leases && Readable(leases[t])
      ensures lease != null ==> fresh(lease) && lease.Value() == leases[t]
    {
      if t !in leases {
        return null, None;
      }
      if !Readable(leases[t]) {
        return null, Some(Unreadable);
      }
      lease := new TaskLease(leases[t]);
      raised := None;
    }

    method SaveTaskLease(lease: Lease) returns (raised: Option<Error>)
      requires Valid() && Reasoned(lease)
      modifies this`leases
      ensures Valid()
      ensures raised == if lease.clientId in manifests then None else Some(NotFound)
      ensures leases == if raised.None? then old(leases)[lease.taskId := lease] else old(leases)
    {
      hide Inv;
      if lease.clientId !in manifests {
        return Some(NotFound);
      }
      ghost var s := Snapshot();
      leases := leases[lease.taskId := lease];
      PutLeaseKeepsInv(s, lease.taskId, lease);
      return None;
    }

    /** One turn of the loop below. */
    method ExpireOne(t: Id)
      requires Valid() && t in leases && leases[t].taskId == t && leases[t].clientId in manifests
      modifies this`leases
      ensures Valid() && leases == old(leases)[t := Expired(old(leases[t]))]
    {
      hide Inv;
      var lease := new TaskLease(leases[t]);
      lease.status := LeaseExpired;
      lease.releaseReason := Some("client marked stale");
      var raised := SaveTaskLease(lease.Value());
    }

    /** The loop over the listed leases. */
    method ExpireListed(listed: seq<Id>) returns (expired: seq<Id>)
      requires Valid() && StoredOnce(Snapshot(), listed)
      modifies this`leases
      ensures Valid()
      ensures leases == ExpiredUpTo(old(Snapshot()), listed, |listed|) && expired == listed
    {
      ghost var s := Snapshot();
      assert ExpiredUpTo(s, listed, 0) == leases by { ExpireNone(s, listed); }
      hide Inv, ExpiredUpTo, StoredOnce, Collected;
      expired := [];
      CollectedNone(listed);
      for i := 0 to |listed|
        invariant Valid()
        invariant leases == ExpiredUpTo(s, listed, i)
        invariant Collected(listed, i, expired)
      {
        ListedLease(s, listed, i);
        ExpiredOneMore(s, listed, i);
        ExpireOne(listed[i]);
        CollectedNext(listed, i, expired);
        expired := expired + [listed[i]];
      }
      CollectedAll(listed, expired);
    }

    /** Expires and saves the client's active leases one by one. */
    method ExpireTaskLeasesForClient(c: Id) returns (expired: seq<Id>)
      requires Valid()
      modifies this`leases
      ensures Valid()
      ensures leases == ExpireLeasesOf(old(Snapshot()), c)
      ensures expired == ListLeases(old(Snapshot()), ActiveLeases(old(Snapshot()), c))
    {
      ghost var s := Snapshot();
      var listed := ListLeases(Snapshot(), ActiveLeases(Snapshot(), c));
      ActiveAreListed(s, c, listed);
      ExpireAll(s, c, listed);
      hide Inv, ExpiredUpTo, StoredOnce, ExpireLeasesOf;
      expired := ExpireListed(listed);
    }

    // -------------------------------------------------------------------------------------------
    // Work items

    /** Inserts the row and its run-task state. */
    method SaveWorkItem(item: WorkItem) returns (raised: Option<Error>)
      requires Valid()
      modifies this`items, this`runTasks
      ensures Valid()
      ensures raised == if item.id in old(items) then Some(Duplicate)
                        else if !References(old(Snapshot()), item) then Some(BrokenReference) else None
      ensures Snapshot() == if raised.None? then PutItem(old(Snapshot()), item) else old(Snapshot())
    {
      hide Inv;
      if item.id in items {
        return Some(Duplicate);
      }
      if !References(Snapshot(), item) {
        return Some(BrokenReference);
      }
      ghost var s := Snapshot();
      items := items[item.id := ItemRow(item, item.assignee, item.leaseId)];
      UpsertRunTaskState(FromWorkItem(item));
      PutItemKeepsInv(s, item);
      return None;
    }

    /** Rewrites the row and its run-task state. */
    method UpdateWorkItem(item: WorkItem) returns (raised: Option<Error>)
      requires Valid() && (item.id in items ==> items[item.id].item.runId == item.runId)
      modifies this`items, this`runTasks
      ensures Valid()
      ensures raised == if item.id !in old(items) then Some(NotFound)
                        else if !References(old(Snapshot()), item) then Some(BrokenReference) else None
      ensures Snapshot() == if raised.None? then PutItem(old(Snapshot()), item) else old(Snapshot())
    {
      hide Inv;
      if item.id !in items {
        return Some(NotFound);
      }
      if !References(Snapshot(), item) {
        return Some(BrokenReference);
      }
      ghost var s := Snapshot();
      items := items[item.id := ItemRow(item, item.assignee, item.leaseId)];
      UpsertRunTaskState(FromWorkItem(item));
      PutItemKeepsInv(s, item);
      return None;
    }

    method UpsertRunTaskState(r: RunTaskState)
      modifies this`runTasks
      ensures runTasks == old(runTasks)[(r.runId, r.taskId) := r]
    {
      runTasks := runTasks[(r.runId, r.taskId) := r];
    }
  }

  // ---------------------------------------------------------------------------------------------

  lemma ExpireNone(s: State, listed: seq<Id>)
    ensures ExpiredUpTo(s, listed, 0) == s.leases
  {
  }

  /** Distinct stored leases. */
  ghost predicate StoredOnce(s: State, listed: seq<Id>) {
    NoDuplicates(listed) && forall i :: 0 <= i < |listed| ==> listed[i] in s.leases
  }

  /** The first `n` listed tasks have been collected. */
  ghost predicate Collected(listed: seq<Id>, n: nat, expired: seq<Id>)
    requires n <= |listed|
  {
    expired == listed[..n]
  }

  lemma CollectedNone(listed: seq<Id>)
    ensures Collected(listed, 0, [])
  {
  }

  lemma CollectedNext(listed: seq<Id>, n: nat, expired: seq<Id>)
    requires n < |listed| && Collected(listed, n, expired)
    ensures Collected(listed, n + 1, expired + [listed[n]])
  {
  }

  lemma CollectedAll(listed: seq<Id>, expired: seq<Id>)
    requires Collected(listed, |listed|, expired)
    ensures expired == listed
  {
  }

  lemma ActiveAreListed(s: State, c: Id, listed: seq<Id>)
    requires listed == ListLeases(s, ActiveLeases(s, c))
    ensures StoredOnce(s, listed)
  {
    forall i | 0 <= i < |listed| ensures listed[i] in s.leases {
      assert listed[i] in listed;
    }
  }

  lemma ListedLease(s: State, listed: seq<Id>, i: nat)
    requires Inv(s) && i < |listed| && StoredOnce(s, listed)
    ensures var t := listed[i]; t in s.leases && s.leases[t].clientId in s.manifests && s.leases[t].taskId == t
  {
    hide RunTasksAgree, Keyed;
  }

  lemma ExpiredOneMore(s: State, listed: seq<Id>, i: nat)
    requires i < |listed| && StoredOnce(s, listed)
    ensures var before, t := ExpiredUpTo(s, listed, i), listed[i];
      && t in s.leases && t in before && before[t] == s.leases[t]
      && ExpiredUpTo(s, listed, i + 1) == before[t := Expired(s.leases[t])]
  {
    assert listed[..i + 1] == listed[..i] + [listed[i]];
  }

  lemma ExpireAll(s: State, c: Id, listed: seq<Id>)
    requires listed == ListLeases(s, ActiveLeases(s, c))
    ensures ExpiredUpTo(s, listed, |listed|) == ExpireLeasesOf(s, c)
  {
    ghost var active := ActiveLeases(s, c);
    assert forall t :: t in listed <==> t in active;
    hide ListLeases, ActiveLeases;
    assert listed[..|listed|] == listed;
  }
}
