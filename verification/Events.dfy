/** Control-plane events: the records of the append-only ledger and the order they are listed in. */
module Events {
  import opened Wrappers
  import opened Ordering

  type Id = string

  datatype EventKind =
    | Heartbeat | ToolCallStarted | ToolCallFinished | FileChangeProposed | FileChangeApplied
    | ProofStarted | ProofFinished | PolicyDenied | ApprovalRequested | ApprovalRecorded
    | SignerEvent | DeploymentEvent | Message | Blocker | RecoveryAction | Swarm | Provider
    | Signing | Deployment | WorkItemChange | TaskLeaseChange

  datatype EventStatus = Active | Passed | Failed | Blocked | NeedsHuman | Stale

  datatype Event = Event(
    eventId: Id,
    sequence: nat,
    createdAt: int,
    clientId: Id,
    clientLabel: Option<string>,
    runId: Option<Id>,
    taskId: Option<Id>,
    kind: EventKind,
    status: EventStatus,
    actor: string,
    role: string,
    digest: Option<string>)

  /** `ORDER BY sequence, created_at, event_id` */
  predicate EventLe(a: Event, b: Event) {
    if a.sequence != b.sequence then a.sequence < b.sequence
    else if a.createdAt != b.createdAt then a.createdAt < b.createdAt
    else LexLe(a.eventId, b.eventId)
  }

  lemma EventsOrdered()
    ensures TotalPreorder(EventLe)
    ensures forall a, b :: EventLe(a, b) && EventLe(b, a) ==> a.eventId == b.eventId
  {
    LexIsTotalOrder();
  }

  ghost predicate DistinctIds(events: seq<Event>) {
    forall i, j :: 0 <= i < j < |events| ==> events[i].eventId != events[j].eventId
  }

  function Listed(events: seq<Event>): seq<Event> {
    SortBy(events, EventLe)
  }

  /** Event k carries sequence number k + 1. */
  ghost predicate Dense(events: seq<Event>) {
    forall k :: 0 <= k < |events| ==> events[k].sequence == k + 1
  }

  /** A densely numbered ledger is listed in the order in which it was written. */
  lemma DenseListing(events: seq<Event>)
    requires Dense(events)
    ensures Listed(events) == events
  {
    SortOfSorted(events, EventLe);
  }

  // ---------------------------------------------------------------------------------------------
  // Counting by kind

  /** Numbers of events: heartbeats, work item changes, recovery actions, denials, and all others. */
  datatype Tally = Tally(beats: nat, changes: nat, recoveries: nat, denials: nat, others: nat)

  function Plus(a: Tally, b: Tally): Tally {
    Tally(a.beats + b.beats, a.changes + b.changes, a.recoveries + b.recoveries,
          a.denials + b.denials, a.others + b.others)
  }

  function OneOf(kind: EventKind): Tally {
    match kind
    case Heartbeat => Tally(1, 0, 0, 0, 0)
    case WorkItemChange => Tally(0, 1, 0, 0, 0)
    case RecoveryAction => Tally(0, 0, 1, 0, 0)
    case PolicyDenied => Tally(0, 0, 0, 1, 0)
    case _ => Tally(0, 0, 0, 0, 1)
  }

  function TallyOf(events: seq<Event>): Tally {
    if events == [] then Tally(0, 0, 0, 0, 0)
    else Plus(TallyOf(events[..|events| - 1]), OneOf(events[|events| - 1].kind))
  }

  /** The ledger has grown at its end, by so many events of each kind. */
  predicate Adds(before: seq<Event>, after: seq<Event>, more: Tally) {
    before <= after && TallyOf(after) == Plus(TallyOf(before), more)
  }

  ghost function OfKind(events: seq<Event>, n: nat, kind: EventKind): set<nat>
    requires n <= |events|
  {
    set i: nat | i < n && events[i].kind == kind
  }

  lemma OfKindNext(events: seq<Event>, n: nat, kind: EventKind)
    requires n < |events|
    ensures |OfKind(events, n + 1, kind)| == |OfKind(events, n, kind)| + if events[n].kind == kind then 1 else 0
  {
    var before, after := OfKind(events, n, kind), OfKind(events, n + 1, kind);
    assert n !in before;
    if events[n].kind == kind {
      assert after == before + {n};
    } else {
      assert after == before;
    }
  }

  /** A tally counts the events of each of its kinds. */
  lemma {:induction false} TallyCounts(events: seq<Event>, n: nat)
    requires n <= |events|
    ensures var t := TallyOf(events[..n]);
      && t.beats == |OfKind(events, n, Heartbeat)| && t.changes == |OfKind(events, n, WorkItemChange)|
      && t.recoveries == |OfKind(events, n, RecoveryAction)| && t.denials == |OfKind(events, n, PolicyDenied)|
  {
    hide OfKind;
    if n == 0 {
      NoneOfKind(events);
    } else {
      TallyCounts(events, n - 1);
      assert events[..n][..n - 1] == events[..n - 1];
      OfKindNext(events, n - 1, Heartbeat);
      OfKindNext(events, n - 1, WorkItemChange);
      OfKindNext(events, n - 1, RecoveryAction);
      OfKindNext(events, n - 1, PolicyDenied);
    }
  }

  lemma NoneOfKind(events: seq<Event>)
    ensures forall kind: EventKind :: OfKind(events, 0, kind) == {}
  {
  }

  lemma {:induction false} CountIsTotal(events: seq<Event>)
    ensures var n := TallyOf(events); |events| == n.beats + n.changes + n.recoveries + n.denials + n.others
  {
    if events != [] {
      CountIsTotal(events[..|events| - 1]);
    }
  }

  lemma AddsLength(before: seq<Event>, after: seq<Event>, more: Tally)
    requires Adds(before, after, more)
    ensures |after| == |before| + more.beats + more.changes + more.recoveries + more.denials + more.others
  {
    CountIsTotal(before);
    CountIsTotal(after);
  }

  lemma AddsOne(events: seq<Event>, e: Event)
    ensures Adds(events, events + [e], OneOf(e.kind))
  {
    assert (events + [e])[..|events|] == events;
  }

  lemma AddsNone(events: seq<Event>)
    ensures Adds(events, events, Tally(0, 0, 0, 0, 0))
  {
  }

  lemma AddsCompose(a: seq<Event>, b: seq<Event>, c: seq<Event>, more: Tally, yetMore: Tally)
    requires Adds(a, b, more) && Adds(b, c, yetMore)
    ensures Adds(a, c, Plus(more, yetMore))
  {
    hide TallyOf;
  }

  lemma AddsTwo(events: seq<Event>, change: Event, recovery: Event)
    requires change.kind == WorkItemChange && recovery.kind == RecoveryAction
    ensures Adds(events, events + [change] + [recovery], Tally(0, 1, 1, 0, 0))
  {
    hide Adds;
    AddsOne(events, change);
    AddsOne(events + [change], recovery);
    AddsCompose(events, events + [change], events + [change] + [recovery],
                OneOf(WorkItemChange), OneOf(RecoveryAction));
  }
}
