/** What a reader of the dashboard may rely on, whatever the order in which events were passed. */
module DashboardReading {
  import opened Wrappers
  import opened Ordering
  import opened Events
  import opened Projection

  // ---------------------------------------------------------------------------------------------
  // The reading determines the dashboard

  lemma LastUnique(o: seq<Event>, p: Event -> bool, j: nat, k: nat)
    requires IsLast(o, |o|, p, j) && IsLast(o, |o|, p, k)
    ensures j == k
  {
  }

  lemma TaskRowUnique(o: seq<Event>, t: Id, a: TaskRow, b: TaskRow)
    requires IsTaskRow(o, t, a) && IsTaskRow(o, t, b)
    ensures a == b
  {
    var j: nat :| IsLast(o, |o|, e => HasTask(e, t), j) && a == TaskRowOf(o[j]);
    var k: nat :| IsLast(o, |o|, e => HasTask(e, t), k) && b == TaskRowOf(o[k]);
    LastUnique(o, e => HasTask(e, t), j, k);
  }

  lemma PluginRowUnique(o: seq<Event>, c: string, now: int, limit: int, a: PluginRow, b: PluginRow)
    requires IsPluginRow(o, c, now, limit, a) && IsPluginRow(o, c, now, limit, b)
    ensures a == b
  {
    var status := (k: nat) requires k < |o| =>
      if StaleClient(o, c, now, limit) then Gone else ClientStatus(o[k].createdAt, now, limit);
    var j: nat :| IsLast(o, |o|, e => IsPluginEvent(e, c), j) && a == PluginRowOf(o[j], status(j));
    var k: nat :| IsLast(o, |o|, e => IsPluginEvent(e, c), k) && b == PluginRowOf(o[k], status(k));
    LastUnique(o, e => IsPluginEvent(e, c), j, k);
  }

  lemma ReadsUnique(o: seq<Event>, now: int, limit: int, a: Dashboard, b: Dashboard)
    requires Reads(o, now, limit, a) && Reads(o, now, limit, b)
    ensures a == b
  {
    hide Histogram, StaleSet, IsTaskRow, IsPluginRow, TaskIds, PluginClients;
    forall i | 0 <= i < |a.taskBoard| ensures a.taskBoard[i] == b.taskBoard[i] {
      TaskRowUnique(o, SortedStrings(TaskIds(o))[i], a.taskBoard[i], b.taskBoard[i]);
    }
    forall i | 0 <= i < |a.plugins| ensures a.plugins[i] == b.plugins[i] {
      PluginRowUnique(o, SortedStrings(PluginClients(o))[i], now, limit, a.plugins[i], b.plugins[i]);
    }
    assert a.taskBoard == b.taskBoard && a.plugins == b.plugins && a.activity == b.activity;
  }

  lemma DistinctAmong(events: seq<Event>, a: Event, b: Event)
    requires DistinctIds(events) && a in events && b in events && a.eventId == b.eventId
    ensures a == b
  {
    var i :| 0 <= i < |events| && events[i] == a;
    var j :| 0 <= j < |events| && events[j] == b;
  }

  lemma ListedAlike(a: seq<Event>, b: seq<Event>)
    requires DistinctIds(a) && multiset(a) == multiset(b)
    ensures Listed(a) == Listed(b)
  {
    EventsOrdered();
    SortSorts(a, EventLe);
    SortSorts(b, EventLe);
    SortPermutes(a, EventLe);
    SortPermutes(b, EventLe);
    SameElements(Listed(a), a);
    forall x, y | x in Listed(a) && y in Listed(a) && EventLe(x, y) && EventLe(y, x) ensures x == y {
      DistinctAmong(a, x, y);
    }
    SortedUnique(Listed(a), Listed(b), EventLe);
  }

  /** With distinct event ids the dashboard does not depend on the order of the input. */
  lemma OrderIrrelevant(a: seq<Event>, b: seq<Event>, now: int, limit: int, d: Dashboard, e: Dashboard)
    requires DistinctIds(a) && multiset(a) == multiset(b)
    requires Reads(Listed(a), now, limit, d) && Reads(Listed(b), now, limit, e)
    ensures d == e
  {
    ListedAlike(a, b);
    ReadsUnique(Listed(a), now, limit, d, e);
  }

  // ---------------------------------------------------------------------------------------------
  // Histograms

  lemma {:induction false} CountInsert<K>(x: Event, s: seq<Event>, f: Event -> K, k: K)
    ensures Count(Insert(x, s, EventLe), f, k) == (if f(x) == k then 1 else 0) + Count(s, f, k)
  {
    var r := Insert(x, s, EventLe);
    if s == [] || EventLe(x, s[0]) {
      assert r[0] == x && r[1..] == s;
    } else {
      CountInsert(x, s[1..], f, k);
      assert r[0] == s[0] && r[1..] == Insert(x, s[1..], EventLe);
    }
  }

  /** Sorting changes no count. */
  lemma {:induction false} CountListed<K>(s: seq<Event>, f: Event -> K, k: K)
    ensures Count(Listed(s), f, k) == Count(s, f, k)
  {
    if s != [] {
      CountListed(s[1..], f, k);
      CountInsert(s[0], Listed(s[1..]), f, k);
    }
  }

  ghost function Total<K>(m: map<K, nat>): nat {
    if m == map[] then 0
    else
      var k :| k in m;
      m[k] + Total(m - {k})
  }

  /** Any key may be taken out first. */
  lemma {:induction false} TotalWithout<K>(m: map<K, nat>, k: K)
    requires k in m
    ensures Total(m) == m[k] + Total(m - {k})
    decreases |m|
  {
    var first :| first in m && Total(m) == m[first] + Total(m - {first});
    if first != k {
      TotalWithout(m - {first}, k);
      TotalWithout(m - {k}, first);
      assert m - {first} - {k} == m - {k} - {first};
    }
  }

  lemma TotalUpdate<K>(m: map<K, nat>, k: K, v: nat)
    ensures Total(m[k := v]) == (if k in m then Total(m) - m[k] else Total(m)) + v
  {
    TotalWithout(m[k := v], k);
    if k in m {
      TotalWithout(m, k);
      assert m[k := v] - {k} == m - {k};
    } else {
      assert m[k := v] - {k} == m;
    }
  }

  lemma HistogramKeys<K(!new)>(o: seq<Event>, f: Event -> K, k: K)
    ensures k in Histogram(o, f) <==> exists j :: 0 <= j < |o| && f(o[j]) == k
  {
    if k in Histogram(o, f) {
      var e :| e in o && f(e) == k;
      var j :| 0 <= j < |o| && o[j] == e;
    } else {
      assert forall j :: 0 <= j < |o| ==> o[j] in o;
    }
  }

  lemma {:induction false} CountPositive<K>(o: seq<Event>, f: Event -> K, k: K)
    ensures Count(o, f, k) > 0 <==> exists j :: 0 <= j < |o| && f(o[j]) == k
  {
    if o != [] {
      CountPositive(o[1..], f, k);
      if j :| 0 <= j < |o[1..]| && f(o[1..][j]) == k {
        assert f(o[j + 1]) == k;
      }
      if j :| 0 <= j < |o| && f(o[j]) == k {
        assert j == 0 || f(o[1..][j - 1]) == k;
      }
    }
  }

  lemma HistogramSnoc<K(!new)>(s: seq<Event>, e: Event, f: Event -> K)
    ensures var h := Histogram(s, f); Histogram(s + [e], f) == h[f(e) := Get(h, f(e)) + 1]
  {
    var h, next := Histogram(s, f), Histogram(s + [e], f);
    forall k ensures k in next <==> k in h || k == f(e) {
      HistogramKeys(s, f, k);
      HistogramKeys(s + [e], f, k);
      CountSnoc(s, e, f, k);
      CountPositive(s, f, k);
      CountPositive(s + [e], f, k);
    }
    forall k | k in next ensures next[k] == h[f(e) := Get(h, f(e)) + 1][k] {
      CountSnoc(s, e, f, k);
      HistogramKeys(s, f, k);
      CountPositive(s, f, k);
    }
  }

  /** Each count table sums to the number of events. */
  lemma {:induction false} HistogramTotal<K(!new)>(o: seq<Event>, f: Event -> K)
    ensures Total(Histogram(o, f)) == |o|
  {
    if o == [] {
      assert Histogram(o, f) == map[];
    } else {
      var n := |o| - 1;
      HistogramTotal(o[..n], f);
      assert o == o[..n] + [o[n]];
      HistogramSnoc(o[..n], o[n], f);
      TotalUpdate(Histogram(o[..n], f), f(o[n]), Get(Histogram(o[..n], f), f(o[n])) + 1);
    }
  }

  /** The three count tables are exact for the events that were passed in, and sum to their number. */
  lemma CountsAreExact(events: seq<Event>, now: int, limit: int, d: Dashboard)
    requires Reads(Listed(events), now, limit, d)
    ensures Total(d.statusCounts) == Total(d.clientCounts) == Total(d.kindCounts) == |events|
    ensures forall k :: Get(d.statusCounts, k) == Count(events, StatusOf, k)
    ensures forall k :: Get(d.clientCounts, k) == Count(events, ClientOf, k)
    ensures forall k :: Get(d.kindCounts, k) == Count(events, KindOf, k)
  {
    hide StatusOf, ClientOf, KindOf, IsTaskRow, IsPluginRow, StaleSet;
    SortPermutes(events, EventLe);
    HistogramTotal(Listed(events), StatusOf);
    HistogramTotal(Listed(events), ClientOf);
    HistogramTotal(Listed(events), KindOf);
    forall k ensures Get(d.statusCounts, k) == Count(events, StatusOf, k) {
      HistogramGet(events, StatusOf, k);
    }
    forall k ensures Get(d.clientCounts, k) == Count(events, ClientOf, k) {
      HistogramGet(events, ClientOf, k);
    }
    forall k ensures Get(d.kindCounts, k) == Count(events, KindOf, k) {
      HistogramGet(events, KindOf, k);
    }
  }

  lemma HistogramGet<K(!new)>(events: seq<Event>, f: Event -> K, k: K)
    ensures Get(Histogram(Listed(events), f), k) == Count(events, f, k)
  {
    CountListed(events, f, k);
    HistogramKeys(Listed(events), f, k);
    CountPositive(Listed(events), f, k);
  }

  // ---------------------------------------------------------------------------------------------
  // Stale clients

  lemma StaleSetPermutes(a: seq<Event>, b: seq<Event>, now: int, limit: int)
    requires forall e :: e in a <==> e in b
    ensures StaleSet(a, now, limit) == StaleSet(b, now, limit)
  {
    hide ClientOf;
    forall c ensures StaleClient(a, c, now, limit) <==> StaleClient(b, c, now, limit) {
    }
  }

  /** `stale_clients` names, in order and without repetition, exactly the clients that have an event
      and either were declared stale by some event or have only events older than the threshold. */
  lemma StaleClientsAreExact(events: seq<Event>, now: int, limit: int, d: Dashboard)
    requires Reads(Listed(events), now, limit, d)
    ensures SortedBy(d.staleClients, LexLe) && NoDuplicates(d.staleClients)
    ensures forall c :: c in d.staleClients <==> StaleClient(events, c, now, limit)
  {
    hide Histogram, IsTaskRow, IsPluginRow, StaleClient;
    SortPermutes(events, EventLe);
    SameElements(Listed(events), events);
    StaleSetPermutes(Listed(events), events, now, limit);
    StaleMembers(events, now, limit);
  }

  /** A plugin row reads stale although its client is not listed as stale, exactly when the client
      was never declared stale, its last heartbeat or message is too old, and some other event of it
      is recent. */
  lemma RowDisagreesWithList(o: seq<Event>, c: string, now: int, limit: int, row: PluginRow)
    requires IsPluginRow(o, c, now, limit, row)
    ensures row.status == Gone && !StaleClient(o, c, now, limit)
       <==> now - row.lastSeenAt > limit
            && (forall e :: e in o && ClientOf(e) == c ==> e.status != Stale)
            && (exists e :: e in o && ClientOf(e) == c && now - e.createdAt <= limit)
  {
    var k: nat :| IsLast(o, |o|, e => IsPluginEvent(e, c), k)
      && row == PluginRowOf(o[k], if StaleClient(o, c, now, limit) then Gone
                                  else ClientStatus(o[k].createdAt, now, limit));
    assert o[k] in o && ClientOf(o[k]) == c;
  }

  function SampleEvent(id: Id, sequence: nat, at: int, kind: EventKind): Event {
    Event(id, sequence, at, "client", None, None, None, kind, Active, "client", "trusted", None)
  }

  function HeartbeatThenCall(): seq<Event> {
    [SampleEvent("a", 1, 0, Heartbeat), SampleEvent("b", 2, 100, ToolCallStarted)]
  }

  /** For instance: an old heartbeat followed by a recent tool call. */
  lemma StaleRowOfLiveClient(row: PluginRow)
    requires IsPluginRow(HeartbeatThenCall(), "client", 150, 120, row)
    ensures row.status == Gone && !StaleClient(HeartbeatThenCall(), "client", 150, 120)
  {
    var o := HeartbeatThenCall();
    assert forall e :: e in o <==> e == o[0] || e == o[1];
    RowDisagreesWithList(o, "client", 150, 120, row);
  }
}
