/** `TaskLeaseService`: loads a lease, changes it in place, saves it and appends an event. */
module LeaseService {
  import opened Wrappers
  import opened Events
  import opened ControlPlane
  import opened ControlPlaneRuns
  import opened ServerStore

  class TaskLeaseService {
    const store: Store

    constructor (store: Store)
      ensures this.store == store
    {
      this.store := store;
    }

    method Acquire(r: AcquireRequest) returns (outcome: Outcome)
      requires store.Valid()
      modifies store
      ensures store.Valid()
      ensures (store.Snapshot(), outcome) == AcquireStep(store.env, old(store.Snapshot()), r)
    {
      hide Inv;
      if r.clientId !in store.manifests {
        return Raised(NotFound);
      }
      var existing, unreadable := store.LoadTaskLease(r.taskId);
      if unreadable.Some? {
        return Raised(unreadable.value);
      }
      if existing != null && existing.status == LeaseActive {
        store.AppendEvent(LeaseDraft(existing.Value(), Blocked));
        return Done(409);
      }
      var lease := NewLease(r, store.env(|store.events|).now);
      var raised := store.SaveTaskLease(lease);
      store.AppendEvent(LeaseDraft(lease, Active));
      return Done(201);
    }

    method RequireHolder(lease: TaskLease, c: Id) returns (raised: Option<Error>)
      ensures raised == if lease.clientId != c then Some(NotHolder)
                        else if lease.status != LeaseActive then Some(NotActive) else None
    {
      if lease.clientId != c {
        return Some(NotHolder);
      }
      if lease.status != LeaseActive {
        return Some(NotActive);
      }
      return None;
    }

    method Renew(t: Id, c: Id, ttlSeconds: int) returns (outcome: Outcome)
      requires store.Valid()
      modifies store
      ensures store.Valid()
      ensures (store.Snapshot(), outcome) == RenewStep(store.env, old(store.Snapshot()), t, c, ttlSeconds)
    {
      StoredUnderItsTask(store.Snapshot(), t);
      hide Inv;
      var lease, unreadable := store.LoadTaskLease(t);
      if unreadable.Some? {
        return Raised(unreadable.value);
      }
      if lease == null {
        return Raised(NotFound);
      }
      var refused := RequireHolder(lease, c);
      if refused.Some? {
        return Raised(refused.value);
      }
      var inactive := lease.Renew(store.env(|store.events|).now, ttlSeconds);
      var raised := store.SaveTaskLease(lease.Value());
      assert raised.None?;
      store.AppendEvent(LeaseDraft(lease.Value(), Active));
      return Done(200);
    }

    method Release(t: Id, c: Id, reason: Option<string>) returns (outcome: Outcome)
      requires store.Valid()
      modifies store
      ensures store.Valid()
      ensures (store.Snapshot(), outcome) == ReleaseStep(store.env, old(store.Snapshot()), t, c, reason)
    {
      StoredUnderItsTask(store.Snapshot(), t);
      hide Inv;
      var lease, unreadable := store.LoadTaskLease(t);
      if unreadable.Some? {
        return Raised(unreadable.value);
      }
      if lease == null {
        return Raised(NotFound);
      }
      var refused := RequireHolder(lease, c);
      if refused.Some? {
        return Raised(refused.value);
      }
      var inactive := lease.Release(reason);
      var raised := store.SaveTaskLease(lease.Value());
      assert raised.None?;
      store.AppendEvent(LeaseDraft(lease.Value(), Passed));
      return Done(200);
    }

    /** Expires the lease whatever its status and deadline. */
    method Expire(t: Id) returns (outcome: Outcome)
      requires store.Valid()
      modifies store
      ensures store.Valid()
      ensures (store.Snapshot(), outcome) == ExpireStep(store.env, old(store.Snapshot()), t)
    {
      StoredUnderItsTask(store.Snapshot(), t);
      hide Inv;
      var lease, unreadable := store.LoadTaskLease(t);
      if unreadable.Some? {
        return Raised(unreadable.value);
      }
      if lease == null {
        return Raised(NotFound);
      }
      lease.status := LeaseExpired;
      lease.releaseReason := Some("lease expired");
      var raised := store.SaveTaskLease(lease.Value());
      assert raised.None?;
      store.AppendEvent(LeaseDraft(lease.Value(), Stale));
      return Done(200);
    }
  }

  /** A stored lease belongs to a registered client, so that saving it again cannot fail, and is
      released or expired if it has a release reason. */
  lemma StoredUnderItsTask(s: State, t: Id)
    requires Inv(s)
    ensures t in s.leases ==> s.leases[t].taskId == t && s.leases[t].clientId in s.manifests && Reasoned(s.leases[t])
  {
  }
}
