/** The dashboard: one pass over the sorted ledger against a declarative reading of it. */
module Projection {
  import opened Wrappers
  import opened Ordering
  import opened Events

  // ---------------------------------------------------------------------------------------------
  // Rows

  /** `event.client_label or event.client_id`: an empty label counts as none. */
  function ClientOf(e: Event): string {
    if e.clientLabel.Some? && e.clientLabel.value != "" then e.clientLabel.value else e.clientId
  }

  function StatusOf(e: Event): EventStatus {
    e.status
  }

  function KindOf(e: Event): EventKind {
    e.kind
  }

  datatype Activity = Activity(
    eventId: Id, runId: Option<Id>, taskId: Option<Id>, kind: EventKind, status: EventStatus, client: string,
    clientId: Id, actor: string, role: string, createdAt: int, digest: Option<string>)

  function ActivityOf(e: Event): Activity {
    Activity(e.eventId, e.runId, e.taskId, e.kind, e.status, ClientOf(e), e.clientId, e.actor, e.role,
             e.createdAt, e.digest)
  }

  datatype TaskRow = TaskRow(
    taskId: Id, runId: Option<Id>, client: string, clientId: Id, actor: string, role: string,
    status: EventStatus, kind: EventKind, updatedAt: int, eventId: Id)

  predicate HasTask(e: Event, t: Id) {
    e.taskId == Some(t) && t != ""
  }

  function TaskRowOf(e: Event): TaskRow
    requires e.taskId.Some?
  {
    TaskRow(e.taskId.value, e.runId, ClientOf(e), e.clientId, e.actor, e.role, e.status, e.kind, e.createdAt, e.eventId)
  }

  datatype Liveness = Live | Gone

  datatype PluginRow = PluginRow(
    client: string, connection: Id, status: Liveness, lastSeenAt: int, lastEventId: Id, role: string, actor: string)

  predicate IsPluginEvent(e: Event, c: string) {
    (e.kind == Heartbeat || e.kind == Message) && ClientOf(e) == c
  }

  /** `_client_status` */
  function ClientStatus(seenAt: int, now: int, limit: int): Liveness {
    if now - seenAt > limit then Gone else Live
  }

  function PluginRowOf(e: Event, status: Liveness): PluginRow {
    PluginRow(ClientOf(e), e.clientId, status, e.createdAt, e.eventId, e.role, e.actor)
  }

  datatype Dashboard = Dashboard(
    activity: seq<Activity>,
    statusCounts: map<EventStatus, nat>,
    clientCounts: map<string, nat>,
    kindCounts: map<EventKind, nat>,
    taskBoard: seq<TaskRow>,
    plugins: seq<PluginRow>,
    staleClients: seq<string>)

  // ---------------------------------------------------------------------------------------------
  // The declarative reading

  ghost function Count<K>(events: seq<Event>, f: Event -> K, k: K): nat {
    if events == [] then 0 else (if f(events[0]) == k then 1 else 0) + Count(events[1..], f, k)
  }

  ghost function Histogram<K(!new)>(events: seq<Event>, f: Event -> K): map<K, nat> {
    map k | k in (set e | e in events :: f(e)) :: Count(events, f, k)
  }

  ghost predicate StaleClient(events: seq<Event>, c: string, now: int, limit: int) {
    && (exists e :: e in events && ClientOf(e) == c)
    && ((exists e :: e in events && ClientOf(e) == c && e.status == Stale)
        || (forall e :: e in events && ClientOf(e) == c ==> now - e.createdAt > limit))
  }

  ghost function StaleSet(events: seq<Event>, now: int, limit: int): set<string> {
    set e | e in events && StaleClient(events, ClientOf(e), now, limit) :: ClientOf(e)
  }

  /** The last of the first `n` events with a property. */
  ghost predicate IsLast(o: seq<Event>, n: nat, p: Event -> bool, k: nat) {
    k < n <= |o| && p(o[k]) && forall j :: k < j < n ==> !p(o[j])
  }

  ghost function TaskIds(o: seq<Event>): set<Id> {
    set e | e in o && e.taskId.Some? && e.taskId.value != "" :: e.taskId.value
  }

  ghost function PluginClients(o: seq<Event>): set<string> {
    set e | e in o && IsPluginEvent(e, ClientOf(e)) :: ClientOf(e)
  }

  ghost predicate IsTaskRow(o: seq<Event>, t: Id, row: TaskRow) {
    exists k: nat :: IsLast(o, |o|, e => HasTask(e, t), k) && row == TaskRowOf(o[k])
  }

  /** A plugin row reads stale when its client is stale, or when the row's own event is too old. */
  ghost predicate IsPluginRow(o: seq<Event>, c: string, now: int, limit: int, row: PluginRow) {
    exists k: nat :: IsLast(o, |o|, e => IsPluginEvent(e, c), k)
      && row == PluginRowOf(o[k], if StaleClient(o, c, now, limit) then Gone
                                  else ClientStatus(o[k].createdAt, now, limit))
  }

  /** One row per task, in the order of task ids. */
  ghost predicate ReadsTasks(o: seq<Event>, rows: seq<TaskRow>) {
    && |rows| == |SortedStrings(TaskIds(o))|
    && forall i :: 0 <= i < |rows| ==> IsTaskRow(o, SortedStrings(TaskIds(o))[i], rows[i])
  }

  /** One row per client with a heartbeat or message, in the order of names. */
  ghost predicate ReadsPlugins(o: seq<Event>, now: int, limit: int, rows: seq<PluginRow>) {
    && |rows| == |SortedStrings(PluginClients(o))|
    && forall i :: 0 <= i < |rows| ==> IsPluginRow(o, SortedStrings(PluginClients(o))[i], now, limit, rows[i])
  }

  ghost predicate Listing(o: seq<Event>, n: nat, activity: seq<Activity>)
    requires n <= |o|
  {
    |activity| == n && forall i :: 0 <= i < n ==> activity[i] == ActivityOf(o[i])
  }

  /** What the dashboard of the ordered ledger `o` must be. */
  ghost predicate Reads(o: seq<Event>, now: int, limit: int, d: Dashboard) {
    && Listing(o, |o|, d.activity)
    && d.statusCounts == Histogram(o, StatusOf)
    && d.clientCounts == Histogram(o, ClientOf)
    && d.kindCounts == Histogram(o, KindOf)
    && d.staleClients == SortedStrings(StaleSet(o, now, limit))
    && ReadsTasks(o, d.taskBoard)
    && ReadsPlugins(o, now, limit, d.plugins)
  }

  // ---------------------------------------------------------------------------------------------
  // One turn of the loop, table by table

  function Get<K>(m: map<K, nat>, k: K): nat {
    if k in m then m[k] else 0
  }

  ghost predicate Counted<K(!new)>(o: seq<Event>, n: nat, f: Event -> K, m: map<K, nat>)
    requires n <= |o|
  {
    && (forall k :: Get(m, k) == Count(o[..n], f, k))
    && (forall k :: k in m <==> exists j :: 0 <= j < n && f(o[j]) == k)
  }

  lemma {:induction false} CountSnoc<K>(s: seq<Event>, e: Event, f: Event -> K, k: K)
    ensures Count(s + [e], f, k) == Count(s, f, k) + (if f(e) == k then 1 else 0)
  {
    if s == [] {
      assert (s + [e])[1..] == [];
    } else {
      CountSnoc(s[1..], e, f, k);
      assert (s + [e])[1..] == s[1..] + [e];
    }
  }

  lemma CountedNext<K(!new)>(o: seq<Event>, n: nat, f: Event -> K, m: map<K, nat>)
    requires n < |o| && Counted(o, n, f, m)
    ensures Counted(o, n + 1, f, m[f(o[n]) := Get(m, f(o[n])) + 1])
  {
    var next := m[f(o[n]) := Get(m, f(o[n])) + 1];
    assert o[..n + 1] == o[..n] + [o[n]];
    forall k ensures Get(next, k) == Count(o[..n + 1], f, k) {
      CountSnoc(o[..n], o[n], f, k);
    }
    forall k ensures k in next <==> exists j :: 0 <= j < n + 1 && f(o[j]) == k {
      if k == f(o[n]) {
        assert f(o[n]) == k;
      } else {
        assert (exists j :: 0 <= j < n + 1 && f(o[j]) == k) <==> (exists j :: 0 <= j < n && f(o[j]) == k);
      }
    }
  }

  lemma CountedAll<K(!new)>(o: seq<Event>, f: Event -> K, m: map<K, nat>)
    requires Counted(o, |o|, f, m)
    ensures m == Histogram(o, f)
  {
    assert o[..|o|] == o;
    forall k ensures k in m <==> k in (set e | e in o :: f(e)) {
      if k in m {
        var j :| 0 <= j < |o| && f(o[j]) == k;
        assert o[j] in o;
      }
    }
    forall k | k in m ensures m[k] == Count(o, f, k) {
      assert Get(m, k) == Count(o[..|o|], f, k);
    }
  }

  /** The newest time of every client seen so far. */
  ghost predicate Seen(o: seq<Event>, n: nat, m: map<string, int>)
    requires n <= |o|
  {
    && (forall j :: 0 <= j < n ==> ClientOf(o[j]) in m && o[j].createdAt <= m[ClientOf(o[j])])
    && (forall c :: c in m ==> exists j :: 0 <= j < n && ClientOf(o[j]) == c && o[j].createdAt == m[c])
  }

  function Newest(m: map<string, int>, e: Event): int {
    if ClientOf(e) in m && m[ClientOf(e)] > e.createdAt then m[ClientOf(e)] else e.createdAt
  }

  lemma SeenNext(o: seq<Event>, n: nat, m: map<string, int>)
    requires n < |o| && Seen(o, n, m)
    ensures Seen(o, n + 1, m[ClientOf(o[n]) := Newest(m, o[n])])
  {
    hide ClientOf;
    var next := m[ClientOf(o[n]) := Newest(m, o[n])];
    forall c | c in next ensures exists j :: 0 <= j < n + 1 && ClientOf(o[j]) == c && o[j].createdAt == next[c] {
      if c in m && next[c] == m[c] {
        var j :| 0 <= j < n && ClientOf(o[j]) == c && o[j].createdAt == m[c];
      } else {
        assert ClientOf(o[n]) == c && o[n].createdAt == next[c];
      }
    }
  }

  /** The clients for which a STALE event has been met. */
  ghost predicate Declared(o: seq<Event>, n: nat, m: set<string>)
    requires n <= |o|
  {
    forall c :: c in m <==> exists j :: 0 <= j < n && ClientOf(o[j]) == c && o[j].status == Stale
  }

  lemma DeclaredNext(o: seq<Event>, n: nat, m: set<string>)
    requires n < |o| && Declared(o, n, m)
    ensures Declared(o, n + 1, if o[n].status == Stale then m + {ClientOf(o[n])} else m)
  {
    hide ClientOf;
    var next := if o[n].status == Stale then m + {ClientOf(o[n])} else m;
    forall c ensures c in next <==> exists j :: 0 <= j < n + 1 && ClientOf(o[j]) == c && o[j].status == Stale {
      if c in m {
        var j :| 0 <= j < n && ClientOf(o[j]) == c && o[j].status == Stale;
      } else if c in next {
        assert ClientOf(o[n]) == c && o[n].status == Stale;
      } else {
        assert forall j :: 0 <= j < n ==> !(ClientOf(o[j]) == c && o[j].status == Stale);
      }
    }
  }

  ghost predicate Boarded(o: seq<Event>, n: nat, m: map<Id, TaskRow>)
    requires n <= |o|
  {
    && (forall j :: 0 <= j < n && o[j].taskId.Some? && o[j].taskId.value != "" ==> o[j].taskId.value in m)
    && (forall t :: t in m ==> exists k: nat :: IsLast(o, n, e => HasTask(e, t), k) && m[t] == TaskRowOf(o[k]))
  }

  function Board(m: map<Id, TaskRow>, e: Event): map<Id, TaskRow> {
    if e.taskId.Some? && e.taskId.value != "" then m[e.taskId.value := TaskRowOf(e)] else m
  }

  lemma LastNext(o: seq<Event>, n: nat, p: Event -> bool, k: nat)
    requires n < |o|
    ensures IsLast(o, n, p, k) && !p(o[n]) ==> IsLast(o, n + 1, p, k)
    ensures p(o[n]) ==> IsLast(o, n + 1, p, n)
  {
  }

  lemma BoardedNext(o: seq<Event>, n: nat, m: map<Id, TaskRow>)
    requires n < |o| && Boarded(o, n, m)
    ensures Boarded(o, n + 1, Board(m, o[n]))
  {
    hide TaskRowOf;
    var next := Board(m, o[n]);
    forall t | t in next
      ensures exists k: nat :: IsLast(o, n + 1, e => HasTask(e, t), k) && next[t] == TaskRowOf(o[k])
    {
      if HasTask(o[n], t) {
        LastNext(o, n, e => HasTask(e, t), n);
        assert IsLast(o, n + 1, e => HasTask(e, t), n);
      } else {
        var k: nat :| IsLast(o, n, e => HasTask(e, t), k) && m[t] == TaskRowOf(o[k]);
        LastNext(o, n, e => HasTask(e, t), k);
        assert IsLast(o, n + 1, e => HasTask(e, t), k);
      }
    }
  }

  /** Rows as they stand before the stale clients are marked. */
  ghost predicate Plugged(o: seq<Event>, n: nat, now: int, limit: int, m: map<string, PluginRow>)
    requires n <= |o|
  {
    && (forall j :: 0 <= j < n && IsPluginEvent(o[j], ClientOf(o[j])) ==> ClientOf(o[j]) in m)
    && (forall c :: c in m ==>
          exists k: nat :: IsLast(o, n, e => IsPluginEvent(e, c), k) && IsEarlyRow(o, k, c, now, limit, m[c]))
  }

  ghost predicate IsEarlyRow(o: seq<Event>, k: nat, c: string, now: int, limit: int, row: PluginRow)
    requires k < |o|
  {
    row == PluginRowOf(o[k], if exists j :: 0 <= j <= k && ClientOf(o[j]) == c && o[j].status == Stale then Gone
                             else ClientStatus(o[k].createdAt, now, limit))
  }

  function Plug(m: map<string, PluginRow>, declared: set<string>, e: Event, now: int, limit: int)
    : map<string, PluginRow>
  {
    if e.kind == Heartbeat || e.kind == Message
    then m[ClientOf(e) := PluginRowOf(e, if ClientOf(e) in declared then Gone
                                         else ClientStatus(e.createdAt, now, limit))]
    else m
  }

  lemma PluggedNext(o: seq<Event>, n: nat, now: int, limit: int, m: map<string, PluginRow>, declared: set<string>)
    requires n < |o| && Plugged(o, n, now, limit, m) && Declared(o, n + 1, declared)
    ensures Plugged(o, n + 1, now, limit, Plug(m, declared, o[n], now, limit))
  {
    hide ClientOf, PluginRowOf, ClientStatus;
    var next := Plug(m, declared, o[n], now, limit);
    forall c | c in next
      ensures exists k: nat :: IsLast(o, n + 1, e => IsPluginEvent(e, c), k) && IsEarlyRow(o, k, c, now, limit, next[c])
    {
      if IsPluginEvent(o[n], c) {
        LastNext(o, n, e => IsPluginEvent(e, c), n);
        assert IsLast(o, n + 1, e => IsPluginEvent(e, c), n) && IsEarlyRow(o, n, c, now, limit, next[c]);
      } else {
        var k: nat :| IsLast(o, n, e => IsPluginEvent(e, c), k) && IsEarlyRow(o, k, c, now, limit, m[c]);
        LastNext(o, n, e => IsPluginEvent(e, c), k);
        assert IsLast(o, n + 1, e => IsPluginEvent(e, c), k) && IsEarlyRow(o, k, c, now, limit, next[c]);
      }
    }
  }

  // ---------------------------------------------------------------------------------------------
  // The loop

  /** What the loop has gathered after `n` events. */
  datatype Tables = Tables(
    activity: seq<Activity>,
    statusCounts: map<EventStatus, nat>,
    clientCounts: map<string, nat>,
    kindCounts: map<EventKind, nat>,
    taskBoard: map<Id, TaskRow>,
    plugins: map<string, PluginRow>,
    lastSeen: map<string, int>,
    declared: set<string>)

  ghost predicate Gathered(o: seq<Event>, n: nat, now: int, limit: int, t: Tables)
    requires n <= |o|
  {
    && Listing(o, n, t.activity)
    && Counted(o, n, StatusOf, t.statusCounts) && Counted(o, n, ClientOf, t.clientCounts)
    && Counted(o, n, KindOf, t.kindCounts)
    && Boarded(o, n, t.taskBoard) && Plugged(o, n, now, limit, t.plugins)
    && Seen(o, n, t.lastSeen) && Declared(o, n, t.declared)
  }

  lemma NothingGathered(o: seq<Event>, now: int, limit: int)
    ensures Gathered(o, 0, now, limit, Tables([], map[], map[], map[], map[], map[], map[], {}))
  {
    assert o[..0] == [];
  }

  method Gather(o: seq<Event>, now: int, limit: int) returns (t: Tables)
    ensures Gathered(o, |o|, now, limit, t)
  {
    NothingGathered(o, now, limit);
    hide Listing, Counted, Boarded, Plugged, Seen, Declared, StatusOf, ClientOf, KindOf, Board, Plug, Newest, Get;
    var statusCounts: map<EventStatus, nat>, clientCounts: map<string, nat> := map[], map[];
    var kindCounts: map<EventKind, nat> := map[];
    var taskBoard: map<Id, TaskRow>, plugins: map<string, PluginRow>, lastSeen: map<string, int> := map[], map[], map[];
    var activity: seq<Activity>, declared: set<string> := [], {};
    for i := 0 to |o|
      invariant Listing(o, i, activity)
      invariant Counted(o, i, StatusOf, statusCounts)
      invariant Counted(o, i, ClientOf, clientCounts)
      invariant Counted(o, i, KindOf, kindCounts)
      invariant Boarded(o, i, taskBoard) && Plugged(o, i, now, limit, plugins)
      invariant Seen(o, i, lastSeen) && Declared(o, i, declared)
    {
      var e := o[i];
      CountedNext(o, i, StatusOf, statusCounts);
      CountedNext(o, i, ClientOf, clientCounts);
      CountedNext(o, i, KindOf, kindCounts);
      SeenNext(o, i, lastSeen);
      DeclaredNext(o, i, declared);
      BoardedNext(o, i, taskBoard);
      ListingNext(o, i, activity);
      statusCounts := statusCounts[StatusOf(e) := Get(statusCounts, StatusOf(e)) + 1];
      clientCounts := clientCounts[ClientOf(e) := Get(clientCounts, ClientOf(e)) + 1];
      kindCounts := kindCounts[KindOf(e) := Get(kindCounts, KindOf(e)) + 1];
      lastSeen := lastSeen[ClientOf(e) := Newest(lastSeen, e)];
      if e.status == Stale {
        declared := declared + {ClientOf(e)};
      }
      activity := activity + [ActivityOf(e)];
      taskBoard := Board(taskBoard, e);
      PluggedNext(o, i, now, limit, plugins, declared);
      plugins := Plug(plugins, declared, e, now, limit);
    }
    t := Tables(activity, statusCounts, clientCounts, kindCounts, taskBoard, plugins, lastSeen, declared);
  }

  lemma ListingNext(o: seq<Event>, n: nat, activity: seq<Activity>)
    requires n < |o| && Listing(o, n, activity)
    ensures Listing(o, n + 1, activity + [ActivityOf(o[n])])
  {
  }

  // ---------------------------------------------------------------------------------------------
  // After the loop

  predicate Silent(lastSeen: map<string, int>, declared: set<string>, now: int, limit: int, c: string) {
    c in lastSeen && (c in declared || ClientStatus(lastSeen[c], now, limit) == Gone)
  }

  lemma SilentIsStale(o: seq<Event>, lastSeen: map<string, int>, declared: set<string>, now: int, limit: int, c: string)
    requires Seen(o, |o|, lastSeen) && Declared(o, |o|, declared)
    ensures Silent(lastSeen, declared, now, limit, c) <==> StaleClient(o, c, now, limit)
    ensures c in StaleSet(o, now, limit) <==> StaleClient(o, c, now, limit)
  {
    hide ClientOf;
    if c in lastSeen {
      var j :| 0 <= j < |o| && ClientOf(o[j]) == c && o[j].createdAt == lastSeen[c];
      assert o[j] in o;
      assert (forall e :: e in o && ClientOf(e) == c ==> now - e.createdAt > limit) <==> now - lastSeen[c] > limit;
    }
  }

  /** `stale_clients`: the silent ones among the clients in order. */
  method FindStaleClients(o: seq<Event>, lastSeen: map<string, int>, declared: set<string>, now: int, limit: int)
    returns (stale: seq<string>)
    requires Seen(o, |o|, lastSeen) && Declared(o, |o|, declared)
    ensures stale == SortedStrings(StaleSet(o, now, limit))
  {
    hide Seen, Declared, StaleSet, Silent;
    var clients := SortedStrings(lastSeen.Keys);
    stale := [];
    for i := 0 to |clients|
      invariant KeptFrom(clients, i, c => Silent(lastSeen, declared, now, limit, c), LexLe, stale)
    {
      KeptNext(clients, i, c => Silent(lastSeen, declared, now, limit, c), LexLe, stale);
      if Silent(lastSeen, declared, now, limit, clients[i]) {
        stale := stale + [clients[i]];
      }
    }
    KeptAreStale(o, lastSeen, declared, now, limit, stale);
  }

  lemma KeptAreStale(o: seq<Event>, lastSeen: map<string, int>, declared: set<string>, now: int, limit: int,
                     kept: seq<string>)
    requires Seen(o, |o|, lastSeen) && Declared(o, |o|, declared)
    requires var clients := SortedStrings(lastSeen.Keys);
      KeptFrom(clients, |clients|, c => Silent(lastSeen, declared, now, limit, c), LexLe, kept)
    ensures kept == SortedStrings(StaleSet(o, now, limit))
  {
    var clients := SortedStrings(lastSeen.Keys);
    forall c ensures c in StaleSet(o, now, limit) <==> Silent(lastSeen, declared, now, limit, c) && c in clients {
      SilentIsStale(o, lastSeen, declared, now, limit, c);
    }
    hide Seen, Declared, StaleSet, KeptFrom;
    LexOrders(StaleSet(o, now, limit));
    KeptAll(clients, c => Silent(lastSeen, declared, now, limit, c), LexLe, kept, StaleSet(o, now, limit));
  }

  /** The rows of stale clients are overwritten. */
  method MarkRows(plugins: map<string, PluginRow>, stale: seq<string>) returns (marked: map<string, PluginRow>)
    ensures IsMarked(plugins, stale, marked)
  {
    marked := plugins;
    for i := 0 to |stale|
      invariant marked.Keys == plugins.Keys
      invariant forall c :: c in plugins ==>
        marked[c] == if c in stale[..i] then plugins[c].(status := Gone) else plugins[c]
    {
      assert stale[..i + 1] == stale[..i] + [stale[i]];
      if stale[i] in marked {
        marked := marked[stale[i] := marked[stale[i]].(status := Gone)];
      }
    }
    assert stale[..|stale|] == stale;
  }

  function InKeyOrder<V>(m: map<string, V>): (rows: seq<V>)
    ensures |rows| == |SortedStrings(m.Keys)|
    ensures forall i :: 0 <= i < |rows| ==> SortedStrings(m.Keys)[i] in m && rows[i] == m[SortedStrings(m.Keys)[i]]
  {
    var keys := SortedStrings(m.Keys);
    assert forall i :: 0 <= i < |keys| ==> keys[i] in keys;
    seq(|keys|, i requires 0 <= i < |keys| => m[keys[i]])
  }

  lemma BoardedAll(o: seq<Event>, m: map<Id, TaskRow>)
    requires Boarded(o, |o|, m)
    ensures m.Keys == TaskIds(o) && forall t :: t in m ==> IsTaskRow(o, t, m[t])
  {
    forall t ensures t in m <==> t in TaskIds(o) {
      if t in m {
        var k: nat :| IsLast(o, |o|, e => HasTask(e, t), k) && m[t] == TaskRowOf(o[k]);
        assert o[k] in o;
      }
    }
  }

  /** A client declared stale by the time of its last plugin event is a stale client anyway. */
  lemma PluggedAll(o: seq<Event>, now: int, limit: int, m: map<string, PluginRow>, stale: set<string>,
                   marked: map<string, PluginRow>)
    requires Plugged(o, |o|, now, limit, m) && forall c :: c in stale <==> StaleClient(o, c, now, limit)
    requires marked.Keys == m.Keys
    requires forall c :: c in m ==> marked[c] == if c in stale then m[c].(status := Gone) else m[c]
    ensures marked.Keys == PluginClients(o) && forall c :: c in marked ==> IsPluginRow(o, c, now, limit, marked[c])
  {
    forall c ensures c in m <==> c in PluginClients(o) {
      if c in m {
        var k: nat :| IsLast(o, |o|, e => IsPluginEvent(e, c), k) && IsEarlyRow(o, k, c, now, limit, m[c]);
        assert o[k] in o;
      }
    }
    forall c | c in marked ensures IsPluginRow(o, c, now, limit, marked[c]) {
      MarkedRow(o, c, now, limit, m[c], marked[c], c in stale);
    }
  }

  lemma MarkedRow(o: seq<Event>, c: string, now: int, limit: int, before: PluginRow, after: PluginRow, stale: bool)
    requires exists k: nat :: IsLast(o, |o|, e => IsPluginEvent(e, c), k) && IsEarlyRow(o, k, c, now, limit, before)
    requires stale == StaleClient(o, c, now, limit) && after == if stale then before.(status := Gone) else before
    ensures IsPluginRow(o, c, now, limit, after)
  {
    hide ClientOf, ClientStatus;
    var k: nat :| IsLast(o, |o|, e => IsPluginEvent(e, c), k) && IsEarlyRow(o, k, c, now, limit, before);
    assert o[k] in o;
    if j :| 0 <= j <= k && ClientOf(o[j]) == c && o[j].status == Stale {
      assert o[j] in o;
      assert StaleClient(o, c, now, limit);
    }
    assert IsLast(o, |o|, e => IsPluginEvent(e, c), k);
  }

  lemma StaleMembers(o: seq<Event>, now: int, limit: int)
    ensures forall c :: c in StaleSet(o, now, limit) <==> StaleClient(o, c, now, limit)
  {
  }

  ghost predicate IsMarked(plugins: map<string, PluginRow>, stale: seq<string>, marked: map<string, PluginRow>) {
    && marked.Keys == plugins.Keys
    && forall c :: c in plugins ==> marked[c] == if c in stale then plugins[c].(status := Gone) else plugins[c]
  }

  lemma TasksRead(o: seq<Event>, m: map<Id, TaskRow>)
    requires Boarded(o, |o|, m)
    ensures ReadsTasks(o, InKeyOrder(m))
  {
    hide Boarded, TaskIds, IsTaskRow;
    BoardedAll(o, m);
  }

  lemma PluginsRead(o: seq<Event>, now: int, limit: int, plugins: map<string, PluginRow>,
                    marked: map<string, PluginRow>)
    requires Plugged(o, |o|, now, limit, plugins)
    requires IsMarked(plugins, SortedStrings(StaleSet(o, now, limit)), marked)
    ensures ReadsPlugins(o, now, limit, InKeyOrder(marked))
  {
    hide Plugged, PluginClients, IsPluginRow, StaleSet, StaleClient;
    StaleMembers(o, now, limit);
    PluggedAll(o, now, limit, plugins, StaleSet(o, now, limit), marked);
  }

  lemma GatheredReads(o: seq<Event>, now: int, limit: int, t: Tables, marked: map<string, PluginRow>)
    requires Gathered(o, |o|, now, limit, t) && IsMarked(t.plugins, SortedStrings(StaleSet(o, now, limit)), marked)
    ensures Reads(o, now, limit, Dashboard(t.activity, t.statusCounts, t.clientCounts, t.kindCounts,
                                           InKeyOrder(t.taskBoard), InKeyOrder(marked),
                                           SortedStrings(StaleSet(o, now, limit))))
  {
    hide Boarded, Plugged, Seen, Declared, Counted, Listing, Histogram, StaleSet, ReadsTasks, ReadsPlugins,
         InKeyOrder, IsMarked;
    TasksRead(o, t.taskBoard);
    PluginsRead(o, now, limit, t.plugins, marked);
    CountedAll(o, StatusOf, t.statusCounts);
    CountedAll(o, ClientOf, t.clientCounts);
    CountedAll(o, KindOf, t.kindCounts);
  }

  lemma GatheredTimes(o: seq<Event>, now: int, limit: int, t: Tables)
    requires Gathered(o, |o|, now, limit, t)
    ensures Seen(o, |o|, t.lastSeen) && Declared(o, |o|, t.declared)
  {
    hide Seen, Declared, Listing, Counted, Boarded, Plugged;
  }

  method BuildDashboardProjection(events: seq<Event>, now: int, limit: int) returns (d: Dashboard)
    ensures Reads(Listed(events), now, limit, d)
  {
    hide Gathered, Seen, Declared, Reads, StaleSet, InKeyOrder, SortBy;
    var o := SortBy(events, EventLe);
    var t := Gather(o, now, limit);
    GatheredTimes(o, now, limit, t);
    var stale := FindStaleClients(o, t.lastSeen, t.declared, now, limit);
    var marked := MarkRows(t.plugins, stale);
    GatheredReads(o, now, limit, t, marked);
    d := Dashboard(t.activity, t.statusCounts, t.clientCounts, t.kindCounts,
                   InKeyOrder(t.taskBoard), InKeyOrder(marked), stale);
  }
}
