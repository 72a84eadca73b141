/** What a dashboard shows, field by field, in terms of the fields of the events. */
module DashboardFields {
  import opened Wrappers
  import opened Ordering
  import opened Events
  import opened Projection
  import opened DashboardReading

  /** The event goes by this name: its label, or its client id when it has no label or an empty one. */
  predicate GoesBy(e: Event, name: string) {
    || (e.clientLabel == Some(name) && name != "")
    || ((e.clientLabel == None || e.clientLabel == Some("")) && e.clientId == name)
  }

  lemma GoesByItsClient(e: Event)
    ensures forall name :: GoesBy(e, name) <==> name == ClientOf(e)
  {
  }

  // ---------------------------------------------------------------------------------------------
  // The order of events

  /** By sequence number, then by time, then by id, letter by letter. */
  ghost predicate NotAfter(a: Event, b: Event) {
    || a.sequence < b.sequence
    || (a.sequence == b.sequence && a.createdAt < b.createdAt)
    || (a.sequence == b.sequence && a.createdAt == b.createdAt && Alphabetical(a.eventId, b.eventId))
  }

  lemma ListedInOrder(events: seq<Event>)
    ensures multiset(Listed(events)) == multiset(events) && |Listed(events)| == |events|
    ensures forall e :: e in Listed(events) <==> e in events
    ensures forall i, j :: 0 <= i < j < |Listed(events)| ==> NotAfter(Listed(events)[i], Listed(events)[j])
  {
    var o := Listed(events);
    SortPermutes(events, EventLe);
    SameElements(o, events);
    EventsOrdered();
    SortSorts(events, EventLe);
    forall i, j | 0 <= i < j < |o| ensures NotAfter(o[i], o[j]) {
      LexIsAlphabetical(o[i].eventId, o[j].eventId);
    }
  }

  // ---------------------------------------------------------------------------------------------
  // Activity

  ghost predicate ShowsActivity(e: Event, a: Activity) {
    && a.eventId == e.eventId && a.runId == e.runId && a.taskId == e.taskId && a.kind == e.kind
    && a.status == e.status && GoesBy(e, a.client) && a.clientId == e.clientId && a.actor == e.actor
    && a.role == e.role && a.createdAt == e.createdAt && a.digest == e.digest
  }

  /** One activity for each event, in order. */
  lemma ActivityShowsEvents(o: seq<Event>, now: int, limit: int, d: Dashboard)
    requires Reads(o, now, limit, d)
    ensures |d.activity| == |o| && forall i :: 0 <= i < |o| ==> ShowsActivity(o[i], d.activity[i])
  {
    hide Histogram, ReadsTasks, ReadsPlugins, StaleSet;
    forall i | 0 <= i < |o| ensures ShowsActivity(o[i], d.activity[i]) {
      GoesByItsClient(o[i]);
    }
  }

  // ---------------------------------------------------------------------------------------------
  // Counts

  ghost function Indices<K(!new)>(events: seq<Event>, n: nat, f: Event -> K, k: K): set<nat>
    requires n <= |events|
  {
    set i: nat | i < n && f(events[i]) == k
  }

  lemma {:induction false} CountIsIndices<K(!new)>(events: seq<Event>, n: nat, f: Event -> K, k: K)
    requires n <= |events|
    ensures |Indices(events, n, f, k)| == Count(events[..n], f, k)
  {
    if n > 0 {
      CountIsIndices(events, n - 1, f, k);
      assert events[..n] == events[..n - 1] + [events[n - 1]];
      CountSnoc(events[..n - 1], events[n - 1], f, k);
      var last: set<nat> := if f(events[n - 1]) == k then {n - 1} else {};
      assert Indices(events, n, f, k) == Indices(events, n - 1, f, k) + last;
    }
  }

  lemma CountAll<K(!new)>(events: seq<Event>, f: Event -> K, k: K)
    ensures |Indices(events, |events|, f, k)| == Count(events, f, k)
  {
    CountIsIndices(events, |events|, f, k);
    assert events[..|events|] == events;
  }

  predicate LabelledAs(e: Event, name: string) {
    e.clientLabel == Some(name) && name != ""
  }

  predicate UnlabelledFrom(e: Event, clientId: string) {
    (e.clientLabel == None || e.clientLabel == Some("")) && e.clientId == clientId
  }

  ghost function Labelled(events: seq<Event>, name: string): set<nat> {
    set i: nat | i < |events| && LabelledAs(events[i], name)
  }

  ghost function Unlabelled(events: seq<Event>, name: string): set<nat> {
    set i: nat | i < |events| && UnlabelledFrom(events[i], name)
  }

  lemma OneOrTheOther(e: Event, name: string)
    ensures ClientOf(e) == name <==> LabelledAs(e, name) || UnlabelledFrom(e, name)
    ensures !(LabelledAs(e, name) && UnlabelledFrom(e, name))
  {
  }

  lemma ClientIndices(events: seq<Event>, name: string)
    ensures |Indices(events, |events|, ClientOf, name)| == |Labelled(events, name)| + |Unlabelled(events, name)|
  {
    hide ClientOf, LabelledAs, UnlabelledFrom;
    var all, a, b := Indices(events, |events|, ClientOf, name), Labelled(events, name), Unlabelled(events, name);
    forall i: nat ensures (i in all <==> i in a || i in b) && !(i in a && i in b) {
      if i < |events| {
        OneOrTheOther(events[i], name);
      }
    }
    assert all == a + b && a !! b;
    DisjointSize(a, b);
  }

  lemma DisjointSize<T>(a: set<T>, b: set<T>)
    requires a !! b
    ensures |a + b| == |a| + |b|
  {
  }

  lemma StatusIndices(events: seq<Event>, status: EventStatus)
    ensures |set i: nat | i < |events| && events[i].status == status| == Count(events, Projection.StatusOf, status)
  {
    CountAll(events, Projection.StatusOf, status);
    assert (set i: nat | i < |events| && events[i].status == status)
        == Indices(events, |events|, Projection.StatusOf, status);
  }

  lemma KindIndices(events: seq<Event>, kind: EventKind)
    ensures |set i: nat | i < |events| && events[i].kind == kind| == Count(events, Projection.KindOf, kind)
  {
    CountAll(events, Projection.KindOf, kind);
    assert (set i: nat | i < |events| && events[i].kind == kind) == Indices(events, |events|, Projection.KindOf, kind);
  }

  /** A client's count is the number of events labelled with its name, plus that of the events without
      a label whose client id is that name; statuses and kinds are counted as they stand. */
  lemma CountsTellEvents(events: seq<Event>, now: int, limit: int, d: Dashboard)
    requires Reads(Listed(events), now, limit, d)
    ensures forall name :: Get(d.clientCounts, name) == |Labelled(events, name)| + |Unlabelled(events, name)|
    ensures forall status: EventStatus ::
      Get(d.statusCounts, status) == |set i: nat | i < |events| && events[i].status == status|
    ensures forall kind: EventKind :: Get(d.kindCounts, kind) == |set i: nat | i < |events| && events[i].kind == kind|
  {
    CountsAreExact(events, now, limit, d);
    hide Reads, Labelled, Unlabelled, ClientOf, StatusOf, KindOf, Get, Count;
    forall name ensures Get(d.clientCounts, name) == |Labelled(events, name)| + |Unlabelled(events, name)| {
      CountAll(events, ClientOf, name);
      ClientIndices(events, name);
    }
    forall status: EventStatus
      ensures Get(d.statusCounts, status) == |set i: nat | i < |events| && events[i].status == status|
    {
      StatusIndices(events, status);
    }
    forall kind: EventKind ensures Get(d.kindCounts, kind) == |set i: nat | i < |events| && events[i].kind == kind| {
      KindIndices(events, kind);
    }
  }

  // ---------------------------------------------------------------------------------------------
  // Task rows

  /** Event k is the last that is about the task. */
  ghost predicate LastAbout(o: seq<Event>, k: nat, t: Id) {
    k < |o| && o[k].taskId == Some(t) && forall j :: k < j < |o| ==> o[j].taskId != Some(t)
  }

  ghost predicate ShowsTask(e: Event, row: TaskRow) {
    && e.taskId == Some(row.taskId) && row.runId == e.runId && GoesBy(e, row.client) && row.clientId == e.clientId
    && row.actor == e.actor && row.role == e.role && row.status == e.status && row.kind == e.kind
    && row.updatedAt == e.createdAt && row.eventId == e.eventId
  }

  ghost predicate ShowsLastTask(o: seq<Event>, row: TaskRow) {
    row.taskId != "" && exists k: nat :: LastAbout(o, k, row.taskId) && ShowsTask(o[k], row)
  }

  lemma TaskRowShows(o: seq<Event>, t: Id, row: TaskRow)
    requires IsTaskRow(o, t, row)
    ensures row.taskId == t && ShowsLastTask(o, row)
  {
    var k: nat :| IsLast(o, |o|, e => HasTask(e, t), k) && row == TaskRowOf(o[k]);
    GoesByItsClient(o[k]);
    assert HasTask(o[k], t);
    forall j | k < j < |o| ensures o[j].taskId != Some(t) {
      assert !HasTask(o[j], t);
    }
    assert LastAbout(o, k, t) && ShowsTask(o[k], row);
  }

  /** One row for each task that some event is about, by id, and each from the last such event. */
  lemma TaskBoardShowsEvents(o: seq<Event>, now: int, limit: int, d: Dashboard)
    requires Reads(o, now, limit, d)
    ensures forall i :: 0 <= i < |d.taskBoard| ==> ShowsLastTask(o, d.taskBoard[i])
    ensures forall i, j :: 0 <= i < j < |d.taskBoard| ==>
      d.taskBoard[i].taskId != d.taskBoard[j].taskId && Alphabetical(d.taskBoard[i].taskId, d.taskBoard[j].taskId)
    ensures forall e :: e in o && e.taskId.Some? && e.taskId.value != "" ==>
      exists i :: 0 <= i < |d.taskBoard| && d.taskBoard[i].taskId == e.taskId.value
  {
    hide Histogram, ReadsPlugins, StaleSet, Listing, IsTaskRow, ShowsLastTask;
    var ids := SortedStrings(TaskIds(o));
    forall i | 0 <= i < |ids| ensures d.taskBoard[i].taskId == ids[i] && ShowsLastTask(o, d.taskBoard[i]) {
      TaskRowShows(o, ids[i], d.taskBoard[i]);
    }
    forall i, j | 0 <= i < j < |ids| ensures ids[i] != ids[j] && Alphabetical(ids[i], ids[j]) {
      LexIsAlphabetical(ids[i], ids[j]);
    }
    forall e | e in o && e.taskId.Some? && e.taskId.value != ""
      ensures exists i :: 0 <= i < |d.taskBoard| && d.taskBoard[i].taskId == e.taskId.value
    {
      assert e.taskId.value in TaskIds(o);
      assert e.taskId.value in ids;
      var i :| 0 <= i < |ids| && ids[i] == e.taskId.value;
    }
  }

  // ---------------------------------------------------------------------------------------------
  // Stale clients and plugin rows

  /** Some event goes by the name, and one of them says stale, or all are older than the limit. */
  ghost predicate GoneQuiet(events: seq<Event>, name: string, now: int, limit: int) {
    && (exists e :: e in events && GoesBy(e, name))
    && ((exists e :: e in events && GoesBy(e, name) && e.status == Stale)
        || (forall e :: e in events && GoesBy(e, name) ==> e.createdAt + limit < now))
  }

  lemma QuietIsStale(events: seq<Event>, name: string, now: int, limit: int)
    ensures GoneQuiet(events, name, now, limit) <==> StaleClient(events, name, now, limit)
  {
    forall e: Event ensures GoesBy(e, name) <==> ClientOf(e) == name {
      GoesByItsClient(e);
    }
    hide GoesBy, ClientOf;
  }

  /** The stale list has the names that have gone quiet, each once, letter by letter. */
  lemma StaleListShowsEvents(events: seq<Event>, now: int, limit: int, d: Dashboard)
    requires Reads(Listed(events), now, limit, d)
    ensures forall name :: name in d.staleClients <==> GoneQuiet(events, name, now, limit)
    ensures forall i, j :: 0 <= i < j < |d.staleClients| ==>
      d.staleClients[i] != d.staleClients[j] && Alphabetical(d.staleClients[i], d.staleClients[j])
  {
    StaleClientsAreExact(events, now, limit, d);
    hide Reads, GoneQuiet, StaleClient;
    forall name ensures GoneQuiet(events, name, now, limit) <==> StaleClient(events, name, now, limit) {
      QuietIsStale(events, name, now, limit);
    }
    var names := d.staleClients;
    forall i, j | 0 <= i < j < |names| ensures names[i] != names[j] && Alphabetical(names[i], names[j]) {
      LexIsAlphabetical(names[i], names[j]);
    }
  }

  predicate Checks(e: Event, name: string) {
    GoesBy(e, name) && (e.kind == Heartbeat || e.kind == Message)
  }

  /** Event k is the last heartbeat or message that goes by the name. */
  ghost predicate LastCheck(o: seq<Event>, k: nat, name: string) {
    k < |o| && Checks(o[k], name) && forall j :: k < j < |o| ==> !Checks(o[j], name)
  }

  ghost predicate ShowsPlugin(o: seq<Event>, e: Event, now: int, limit: int, row: PluginRow) {
    && GoesBy(e, row.client) && row.connection == e.clientId && row.lastSeenAt == e.createdAt
    && row.lastEventId == e.eventId && row.role == e.role && row.actor == e.actor
    && (row.status == Gone <==> GoneQuiet(o, row.client, now, limit) || e.createdAt + limit < now)
  }

  ghost predicate ShowsLastCheck(o: seq<Event>, now: int, limit: int, row: PluginRow) {
    exists k: nat :: LastCheck(o, k, row.client) && ShowsPlugin(o, o[k], now, limit, row)
  }

  lemma PluginRowShows(o: seq<Event>, name: string, now: int, limit: int, row: PluginRow)
    requires IsPluginRow(o, name, now, limit, row)
    ensures row.client == name && ShowsLastCheck(o, now, limit, row)
  {
    forall e: Event ensures GoesBy(e, name) <==> ClientOf(e) == name {
      GoesByItsClient(e);
    }
    QuietIsStale(o, name, now, limit);
    hide GoesBy, ClientOf, StaleClient, GoneQuiet;
    var k: nat :| IsLast(o, |o|, e => IsPluginEvent(e, name), k)
      && row == PluginRowOf(o[k], if StaleClient(o, name, now, limit) then Gone
                                  else ClientStatus(o[k].createdAt, now, limit));
    assert IsPluginEvent(o[k], name);
    forall j | k < j < |o| ensures !Checks(o[j], name) {
      assert !IsPluginEvent(o[j], name);
    }
    assert LastCheck(o, k, name) && ShowsPlugin(o, o[k], now, limit, row);
  }

  /** One row for each name that some heartbeat or message goes by, letter by letter, and each from the
      last of these; it reads stale when the name has gone quiet or that event is older than the limit. */
  lemma PluginRowsShowEvents(o: seq<Event>, now: int, limit: int, d: Dashboard)
    requires Reads(o, now, limit, d)
    ensures forall i :: 0 <= i < |d.plugins| ==> ShowsLastCheck(o, now, limit, d.plugins[i])
    ensures forall i, j :: 0 <= i < j < |d.plugins| ==>
      d.plugins[i].client != d.plugins[j].client && Alphabetical(d.plugins[i].client, d.plugins[j].client)
    ensures forall e, name :: e in o && Checks(e, name) ==>
      exists i :: 0 <= i < |d.plugins| && d.plugins[i].client == name
  {
    hide Histogram, ReadsTasks, StaleSet, Listing, IsPluginRow, ShowsLastCheck, GoesBy, ClientOf;
    var names := SortedStrings(PluginClients(o));
    forall i | 0 <= i < |names| ensures d.plugins[i].client == names[i] && ShowsLastCheck(o, now, limit, d.plugins[i]) {
      PluginRowShows(o, names[i], now, limit, d.plugins[i]);
    }
    forall i, j | 0 <= i < j < |names| ensures names[i] != names[j] && Alphabetical(names[i], names[j]) {
      LexIsAlphabetical(names[i], names[j]);
    }
    forall e, name | e in o && Checks(e, name)
      ensures exists i :: 0 <= i < |d.plugins| && d.plugins[i].client == name
    {
      GoesByItsClient(e);
      assert IsPluginEvent(e, ClientOf(e)) && name in PluginClients(o);
      assert name in names;
      var i :| 0 <= i < |names| && names[i] == name;
    }
  }
}
