/** What the scheduler chooses: the first item in queue order and the least loaded client. */
module Scheduling {
  import opened Wrappers
  import opened Ordering
  import opened Events
  import opened ControlPlane
  import opened StaleRecovery
  import opened ControlPlaneRuns

  /** The first schedulable item by (priority, creation time, id). */
  ghost predicate FirstInQueue(s: State, run: Option<Id>, id: Id) {
    id in Candidates(s, run) && forall other :: other in Candidates(s, run) ==> other == id || ItemLe(s, id, other)
  }

  /** One policy denial was appended for the item and nothing else changed. */
  predicate DeniedFor(s: State, t: State, item: WorkItem) {
    && t == s.(events := t.events) && |t.events| == |s.events| + 1 && s.events <= t.events
    && var e := t.events[|s.events|];
       e.kind == PolicyDenied && e.status == Blocked && e.taskId == Some(item.id) && e.runId == Some(item.runId)
  }

  /** The item went to the client, in both of its records, and nothing else changed; the ledger says
      so if the event could be built. */
  predicate AssignedFor(s: State, t: State, id: Id, c: Id, told: bool)
    requires id in s.items
  {
    var item := s.items[id].item;
    && id in t.items
    && t.items[id].item == item.(status := Assigned, assignee := Some(c), updatedAt := t.items[id].item.updatedAt)
    && t.items == s.items[id := ItemRow(t.items[id].item, Some(c), item.leaseId)]
    && t.runTasks == s.runTasks[(item.runId, id) := FromWorkItem(t.items[id].item)]
    && t.manifests == s.manifests && t.heartbeats == s.heartbeats && t.leases == s.leases
    && if !told then t.events == s.events
       else |t.events| == |s.events| + 1 && s.events <= t.events
            && var e := t.events[|s.events|];
               e.kind == WorkItemChange && e.status == Active && e.taskId == Some(id) && e.runId == Some(item.runId)
  }

  predicate DanglingLease(s: State, item: WorkItem) {
    item.leaseId.Some? && item.leaseId.value !in s.leases
  }

  /** What scheduling one item does; `told` says whether the fields of the caller make a valid event. */
  ghost predicate Decided(s: State, t: State, outcome: Outcome, id: Id, told: bool)
    requires id in s.items
  {
    var item := s.items[id].item;
    if !Schedulable(item) || Eligible(s, item) == {} then
      if told then outcome == Done(409) && DeniedFor(s, t, item) else outcome == Raised(InvalidEvent) && t == s
    else if DanglingLease(s, item) then outcome == Raised(BrokenReference) && t == s
    else outcome == (if told then Done(200) else Raised(InvalidEvent))
         && exists c :: LeastLoaded(s, item, c) && AssignedFor(s, t, id, c, told)
  }

  lemma AssignOutcome(env: Env, s: State, id: Id, c: Id, who: Caller)
    requires Inv(s) && id in s.items && Schedulable(s.items[id].item) && c in s.manifests
    ensures var (t, outcome) := TransitionStep(env, s, id, AssignTo(c), who);
      if DanglingLease(s, s.items[id].item) then outcome == Raised(BrokenReference) && t == s
      else outcome == (if ValidCaller(who) then Done(200) else Raised(InvalidEvent))
           && AssignedFor(s, t, id, c, ValidCaller(who))
  {
    hide RunTasksAgree, ForeignKeys, ValidCaller;
    assert ValidRequest(AssignTo(c));
  }

  lemma ScheduleDecides(env: Env, s: State, id: Id, who: Caller)
    requires Inv(s) && id in s.items
    ensures var (t, outcome) := ScheduleStep(env, s, id, who);
      Decided(s, t, outcome, id, ValidCaller(who.(summary := None)))
  {
    hide RankedClients, TransitionStep, LeastLoaded, AssignedFor, ValidCaller, RunTasksAgree, ForeignKeys;
    var item := s.items[id].item;
    RankedFirst(s, item);
    if Schedulable(item) && RankedClients(s, item) != [] {
      var c := RankedClients(s, item)[0];
      EligibleIsKnown(s, item, c);
      AssignOutcome(env, s, id, c, who.(summary := None));
    }
  }

  lemma EligibleIsKnown(s: State, item: WorkItem, c: Id)
    requires LeastLoaded(s, item, c)
    ensures c in s.manifests
  {
  }

  /** The scheduler takes the first item in the queue and gives it to the least loaded client; if
      none is eligible it appends one denial; if nothing is queued it does nothing at all.  A caller whose
      fields make no valid event is told of an error, but an assignment has been stored by then. */
  lemma ScheduleNextDecides(env: Env, s: State, run: Option<Id>, who: Caller)
    requires Inv(s)
    ensures var (t, outcome) := ScheduleNextStep(env, s, run, who);
      if Candidates(s, run) == {} then t == s && outcome == Done(404)
      else exists id :: FirstInQueue(s, run, id) && Decided(s, t, outcome, id, ValidCaller(who.(summary := None)))
  {
    hide Decided, ScheduleStep, ValidCaller, Inv;
    var candidates := ListItems(s, Candidates(s, run));
    if candidates != [] {
      assert candidates[0] in candidates && FirstInQueue(s, run, candidates[0]);
      ScheduleDecides(env, s, candidates[0], who);
    }
  }

  /** Unregistering the holder of a lease that a queued item names leaves that item unschedulable: as
      soon as some client is eligible for it, scheduling it raises and changes nothing. */
  lemma UnregisterBlocksScheduling(env: Env, s: State, c: Id, id: Id, who: Caller)
    requires Inv(s) && c in s.manifests && id in s.items && Schedulable(s.items[id].item)
    requires var item := s.items[id].item;
      item.leaseId.Some? && item.leaseId.value in s.leases && s.leases[item.leaseId.value].clientId == c
    ensures var u := UnregisterStep(env, s, c).0;
      && id in u.items && u.items[id].item == s.items[id].item
      && (Eligible(u, u.items[id].item) != {} ==> ScheduleStep(env, u, id, who) == (u, Raised(BrokenReference)))
  {
    UnregisterKeepsInv(env, s, c);
    var u := UnregisterStep(env, s, c).0;
    assert s.items[id].item.leaseId.value in LeasesOf(s, c);
    hide Inv, Eligible, ScheduleStep, AssignedFor, LeastLoaded;
    ScheduleDecides(env, u, id, who);
  }

  /** First and least are unique, so the choice is determined by the tables. */
  lemma ChoiceIsUnique(s: State, run: Option<Id>, a: Id, b: Id, item: WorkItem, c: Id, d: Id)
    requires FirstInQueue(s, run, a) && FirstInQueue(s, run, b) && LeastLoaded(s, item, c) && LeastLoaded(s, item, d)
    ensures a == b && c == d
  {
    LexIsTotalOrder();
  }
}
