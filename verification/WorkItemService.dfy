/** `WorkItemService` and `WorkItemSchedulerService`: each method loads rows, decides, saves and
    appends, in that order, and leaves the state that the corresponding step function names. */
module WorkItemService {
  import opened Wrappers
  import opened Ordering
  import opened Events
  import opened ControlPlane
  import opened StaleRecovery
  import opened ControlPlaneRuns
  import opened ServerStore

  /** `update_work_item`: the supplied values replace the old ones one after the other. */
  method UpdateItem(item: WorkItem, r: Request, now: int) returns (u: WorkItem)
    ensures (if r.status == Requeued then u.(assignee := None, leaseId := None) else u) == Updated(item, r, now)
  {
    u := item.(status := r.status);
    if r.assignee.Some? {
      u := u.(assignee := r.assignee);
    }
    if r.leaseId.Some? {
      u := u.(leaseId := r.leaseId);
    }
    if r.digest.Some? {
      u := u.(digest := r.digest);
    }
    if r.reason.Some? {
      u := u.(blockedReason := r.reason);
    }
    u := u.(updatedAt := now);
  }

  class WorkItems {
    const store: Store

    constructor (store: Store)
      ensures this.store == store
    {
      this.store := store;
    }

    /** Building an event validates the fields of the caller. */
    method AppendEvent(d: Draft, who: Caller) returns (raised: Option<Error>)
      requires store.Valid()
      modifies store`events
      ensures store.Valid()
      ensures raised == if ValidCaller(who) then None else Some(InvalidEvent)
      ensures store.Snapshot()
           == if raised.None? then Append(store.env, old(store.Snapshot()), d) else old(store.Snapshot())
    {
      hide Inv, ValidCaller;
      if !ValidCaller(who) {
        return Some(InvalidEvent);
      }
      store.AppendEvent(d);
      return None;
    }

    method Deny(item: WorkItem, who: Caller) returns (outcome: Outcome)
      requires store.Valid()
      modifies store`events
      ensures store.Valid()
      ensures (store.Snapshot(), outcome) == ControlPlane.Deny(store.env, old(store.Snapshot()), item, who)
    {
      hide Inv, ValidCaller;
      var raised := AppendEvent(DenialDraft(item, who), who.(summary := None));
      return if raised.Some? then Raised(raised.value) else Done(409);
    }

    method Create(item: WorkItem, who: Caller) returns (outcome: Outcome)
      requires store.Valid()
      modifies store
      ensures store.Valid()
      ensures (store.Snapshot(), outcome) == CreateStep(store.env, old(store.Snapshot()), item, who)
    {
      hide Inv, ValidCaller, References;
      var failed := store.SaveWorkItem(item);
      if failed.Some? {
        return Raised(failed.value);
      }
      var raised := AppendEvent(ItemDraft(item, who), who);
      return if raised.Some? then Raised(raised.value) else Done(201);
    }

    /** The item is saved before its event is built. */
    method Transition(id: Id, r: Request, who: Caller) returns (outcome: Outcome)
      requires store.Valid()
      modifies store
      ensures store.Valid()
      ensures (store.Snapshot(), outcome) == TransitionStep(store.env, old(store.Snapshot()), id, r, who)
    {
      StoredUnderItsId(store.Snapshot(), id);
      hide Inv, ValidCaller, ValidRequest, References, AllowedTransitions;
      if id !in store.items {
        return Raised(NotFound);
      }
      var current := store.items[id].item;
      if r.status !in AllowedTransitions(current.status) {
        outcome := Deny(current, who);
        return;
      }
      if !ValidRequest(r) {
        return Raised(InvalidItem);
      }
      var updated := UpdateItem(current, r, store.env(|store.events|).now);
      if r.status == Requeued {
        updated := updated.(assignee := None, leaseId := None);
      }
      outcome := SaveAndTell(updated, who);
    }

    method SaveAndTell(updated: WorkItem, who: Caller) returns (outcome: Outcome)
      requires store.Valid()
      requires updated.id in store.items && store.items[updated.id].item.runId == updated.runId
      modifies store
      ensures store.Valid()
      ensures (store.Snapshot(), outcome) ==
        var s := old(store.Snapshot());
        if !References(s, updated) then (s, Raised(BrokenReference))
        else AppendFor(store.env, PutItem(s, updated), who, ItemDraft(updated, who), 200)
    {
      hide Inv, ValidCaller, References;
      var failed := store.UpdateWorkItem(updated);
      if failed.Some? {
        return Raised(failed.value);
      }
      var raised := AppendEvent(ItemDraft(updated, who), who);
      return if raised.Some? then Raised(raised.value) else Done(200);
    }
  }

  lemma StoredUnderItsId(s: State, id: Id)
    requires Inv(s)
    ensures id in s.items ==> s.items[id].item.id == id
  {
  }

  // ---------------------------------------------------------------------------------------------

  predicate CanSchedule(s: State, id: Id) {
    id in s.items && Schedulable(s.items[id].item)
  }

  lemma ListedInOrder(s: State, ids: set<Id>)
    requires ids <= s.items.Keys
    ensures SortedBy(ListItems(s, ids), ByQueue(s)) && NoDuplicates(ListItems(s, ids))
  {
    ItemsOrdered(s, ids);
  }

  lemma KeptAreCandidates(s: State, ofRun: set<Id>, run: Option<Id>, kept: seq<Id>)
    requires ofRun == (set id | id in s.items && (run.None? || s.items[id].item.runId == run.value))
    requires var listed := ListItems(s, ofRun);
      KeptFrom(listed, |listed|, id => CanSchedule(s, id), ByQueue(s), kept)
    ensures kept == ListItems(s, Candidates(s, run))
  {
    ItemsOrdered(s, Candidates(s, run));
    KeptAll(ListItems(s, ofRun), id => CanSchedule(s, id), ByQueue(s), kept, Candidates(s, run));
  }

  ghost function EligibleAmong(s: State, listed: seq<Id>, n: nat, item: WorkItem): set<Id>
    requires n <= |listed|
  {
    set c | c in listed[..n] && IsEligible(s, c, item)
  }

  lemma EligibleAmongNext(s: State, listed: seq<Id>, n: nat, item: WorkItem)
    requires n < |listed|
    ensures EligibleAmong(s, listed, n + 1, item)
         == EligibleAmong(s, listed, n, item) + (if IsEligible(s, listed[n], item) then {listed[n]} else {})
  {
    hide IsEligible;
    assert listed[..n + 1] == listed[..n] + [listed[n]];
  }

  lemma EligibleAmongAll(s: State, listed: seq<Id>, item: WorkItem)
    requires listed == ListClients(s, s.manifests.Keys)
    ensures EligibleAmong(s, listed, |listed|, item) == Eligible(s, item)
  {
    assert listed[..|listed|] == listed;
  }

  class Scheduler {
    const store: Store
    const workItems: WorkItems

    constructor (store: Store)
      ensures this.store == store && workItems.store == store
    {
      this.store := store;
      workItems := new WorkItems(store);
    }

    /** Filters the listed clients, then sorts what is left by (active leases, name, id). */
    method EligibleClients(item: WorkItem) returns (snapshots: seq<Id>)
      ensures snapshots == RankedClients(store.Snapshot(), item)
    {
      ghost var s := store.Snapshot();
      var listed := ListClients(store.Snapshot(), store.manifests.Keys);
      assert EligibleAmong(s, listed, 0, item) == {};
      hide IsEligible, EligibleAmong, Eligible;
      var found := {};
      for i := 0 to |listed|
        invariant found == EligibleAmong(s, listed, i, item)
      {
        EligibleAmongNext(s, listed, i, item);
        if IsEligible(store.Snapshot(), listed[i], item) {
          found := found + {listed[i]};
        }
      }
      assert found == Eligible(s, item) by { EligibleAmongAll(s, listed, item); }
      ClientsOrdered(s, found);
      snapshots := SortedSeq(found, ByLoad(store.Snapshot()));
    }

    method ScheduleWorkItem(id: Id, who: Caller) returns (outcome: Outcome)
      requires store.Valid() && workItems.store == store
      modifies store
      ensures store.Valid()
      ensures (store.Snapshot(), outcome) == ScheduleStep(store.env, old(store.Snapshot()), id, who)
    {
      hide Inv, ValidCaller, TransitionStep, RankedClients;
      if id !in store.items {
        return Raised(NotFound);
      }
      var item := store.items[id].item;
      if !Schedulable(item) {
        outcome := workItems.Deny(item, who);
        return;
      }
      var eligible := EligibleClients(item);
      if |eligible| == 0 {
        outcome := workItems.Deny(item, who);
        return;
      }
      outcome := workItems.Transition(id, AssignTo(eligible[0]), who.(summary := None));
    }

    /** Keeps the listed items that can be scheduled, in their order. */
    method QueuedItems(run: Option<Id>) returns (candidates: seq<Id>)
      ensures candidates == ListItems(store.Snapshot(), Candidates(store.Snapshot(), run))
    {
      ghost var s := store.Snapshot();
      var ofRun := set id | id in store.items && (run.None? || store.items[id].item.runId == run.value);
      var listed := ListItems(store.Snapshot(), ofRun);
      ListedInOrder(s, ofRun);
      candidates := [];
      for i := 0 to |listed|
        invariant KeptFrom(listed, i, id => CanSchedule(s, id), ByQueue(s), candidates)
      {
        assert listed[i] in listed && listed[i] in s.items;
        KeptNext(listed, i, id => CanSchedule(s, id), ByQueue(s), candidates);
        if Schedulable(store.items[listed[i]].item) {
          candidates := candidates + [listed[i]];
        }
      }
      KeptAreCandidates(s, ofRun, run, candidates);
    }

    method ScheduleNext(run: Option<Id>, who: Caller) returns (outcome: Outcome)
      requires store.Valid() && workItems.store == store
      modifies store
      ensures store.Valid()
      ensures (store.Snapshot(), outcome) == ScheduleNextStep(store.env, old(store.Snapshot()), run, who)
    {
      hide Inv, ScheduleStep;
      var candidates := QueuedItems(run);
      if |candidates| == 0 {
        return Done(404);
      }
      outcome := ScheduleWorkItem(candidates[0], who);
    }
  }
}
