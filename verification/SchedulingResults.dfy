/** What the scheduler chooses and stores, spelled out in the fields of items, clients and leases. */
module SchedulingResults {
  import opened Wrappers
  import opened Ordering
  import opened Events
  import opened ControlPlane
  import opened StaleRecovery
  import opened ControlPlaneRuns
  import opened Scheduling
  import opened TransitionResults

  // ---------------------------------------------------------------------------------------------
  // The item

  /** The item waits to be scheduled, and belongs to the run, if one is given. */
  predicate Waits(s: State, run: Option<Id>, id: Id) {
    && id in s.items
    && (s.items[id].item.status == Queued || s.items[id].item.status == Requeued)
    && (run.Some? ==> s.items[id].item.runId == run.value)
  }

  /** By the smaller priority number, then by the earlier creation, then by id, letter by letter. */
  ghost predicate Precedes(s: State, a: Id, b: Id)
    requires a in s.items && b in s.items
  {
    var x, y := s.items[a].item, s.items[b].item;
    || x.priority < y.priority
    || (x.priority == y.priority && x.createdAt < y.createdAt)
    || (x.priority == y.priority && x.createdAt == y.createdAt && Alphabetical(a, b))
  }

  ghost predicate IsNextItem(s: State, run: Option<Id>, id: Id) {
    Waits(s, run, id) && forall other :: Waits(s, run, other) && other != id ==> Precedes(s, id, other)
  }

  /** The call acts on the waiting item that precedes all others; with none it answers 404. */
  lemma NextItemIsScheduled(env: Env, s: State, run: Option<Id>, who: Caller)
    ensures if exists id :: Waits(s, run, id)
            then exists id :: IsNextItem(s, run, id)
                              && ScheduleNextStep(env, s, run, who) == ScheduleStep(env, s, id, who)
            else ScheduleNextStep(env, s, run, who) == (s, Done(404))
  {
    hide ScheduleStep;
    var candidates := ListItems(s, Candidates(s, run));
    forall id ensures Waits(s, run, id) <==> id in candidates {
    }
    if candidates != [] {
      var id := candidates[0];
      assert id in candidates;
      forall other | Waits(s, run, other) && other != id ensures Precedes(s, id, other) {
        assert other in candidates && ItemLe(s, id, other);
        LexIsAlphabetical(id, other);
      }
      assert IsNextItem(s, run, id);
    }
  }

  // ---------------------------------------------------------------------------------------------
  // The client

  predicate CanTake(s: State, c: Id, item: WorkItem) {
    && c in s.manifests && s.manifests[c].trust == Trusted
    && c in s.heartbeats && s.heartbeats[c].status == ClientActive
    && (item.capability.Some? ==> item.capability.value in s.manifests[c].capabilities)
  }

  /** How many tasks the client holds. */
  function Load(s: State, c: Id): nat {
    |set t | t in s.leases && s.leases[t].clientId == c && s.leases[t].status == LeaseActive|
  }

  /** By the smaller load, then by display name, then by id, letter by letter. */
  ghost predicate Outranks(s: State, c: Id, d: Id)
    requires c in s.manifests && d in s.manifests
  {
    var x, y := s.manifests[c].displayName, s.manifests[d].displayName;
    || Load(s, c) < Load(s, d)
    || (Load(s, c) == Load(s, d) && x != y && Alphabetical(x, y))
    || (Load(s, c) == Load(s, d) && x == y && Alphabetical(c, d))
  }

  ghost predicate IsFirstClient(s: State, item: WorkItem, c: Id) {
    CanTake(s, c, item) && forall d :: CanTake(s, d, item) && d != c ==> Outranks(s, c, d)
  }

  lemma TakersAreEligible(s: State, item: WorkItem)
    ensures forall c :: CanTake(s, c, item) <==> c in Eligible(s, item)
  {
  }

  lemma LeastIsFirst(s: State, item: WorkItem, c: Id)
    requires LeastLoaded(s, item, c)
    ensures IsFirstClient(s, item, c)
  {
    TakersAreEligible(s, item);
    forall d | CanTake(s, d, item) && d != c ensures Outranks(s, c, d) {
      assert ClientLe(s, c, d);
      LoadIsActive(s, c);
      LoadIsActive(s, d);
      LexIsAlphabetical(s.manifests[c].displayName, s.manifests[d].displayName);
      LexIsAlphabetical(c, d);
    }
  }

  lemma LoadIsActive(s: State, c: Id)
    ensures Load(s, c) == |ActiveLeases(s, c)|
  {
    assert (set t | t in s.leases && s.leases[t].clientId == c && s.leases[t].status == LeaseActive)
        == ActiveLeases(s, c);
  }

  /** Scheduling an item that waits, while some client can take it, gives it to the client that outranks
      all others, unless it names a lease that is gone; in every other case the item stays and the
      ledger gains a denial. */
  lemma FirstClientIsAssigned(env: Env, s: State, id: Id, who: Caller)
    requires Keyed(s) && id in s.items
    ensures var item := s.items[id].item;
      var (t, outcome) := ScheduleStep(env, s, id, who);
      var teller := who.(summary := None);
      if !Waits(s, None, id) || !exists c :: CanTake(s, c, item) then
        && t == s.(events := t.events) && Tells(env, s, t, item, teller, PolicyDenied, Blocked, None)
        && outcome == if MakesEvent(teller) then Done(409) else Raised(InvalidEvent)
      else if item.leaseId.Some? && item.leaseId.value !in s.leases then
        t == s && outcome == Raised(BrokenReference)
      else
        && (exists c :: IsFirstClient(s, item, c)
              && StoredAlike(s, t, item.(status := Assigned, assignee := Some(c), updatedAt := env(|s.events|).now)))
        && Tells(env, s, t, item, teller, WorkItemChange, Active, item.digest)
        && outcome == if MakesEvent(teller) then Done(200) else Raised(InvalidEvent)
  {
    hide LeastLoaded, MakesEvent, StoredAlike, Tells, TransitionStep, Eligible, CanTake, Keyed;
    var item := s.items[id].item;
    TakersAreEligible(s, item);
    RankedFirst(s, item);
    Denied(env, s, item, who);
    if Schedulable(item) && RankedClients(s, item) != [] {
      var c := RankedClients(s, item)[0];
      LeastIsFirst(s, item, c);
      AssignmentStores(env, s, id, c, who.(summary := None));
    }
  }

  lemma AssignmentStores(env: Env, s: State, id: Id, c: Id, who: Caller)
    requires Keyed(s) && id in s.items && Schedulable(s.items[id].item)
    requires LeastLoaded(s, s.items[id].item, c)
    ensures var item := s.items[id].item;
      var (t, outcome) := TransitionStep(env, s, id, AssignTo(c), who);
      if item.leaseId.Some? && item.leaseId.value !in s.leases then t == s && outcome == Raised(BrokenReference)
      else
        && StoredAlike(s, t, item.(status := Assigned, assignee := Some(c), updatedAt := env(|s.events|).now))
        && Tells(env, s, t, item, who, WorkItemChange, Active, item.digest)
        && outcome == if MakesEvent(who) then Done(200) else Raised(InvalidEvent)
  {
    assert c in s.manifests && ValidId(c);
    Plain(c);
    hide LeastLoaded, MakesEvent, StoredAlike, TransitionStep, Separates;
    assert WellFormed(AssignTo(c));
    TransitionStores(env, s, id, AssignTo(c), who);
  }
}
