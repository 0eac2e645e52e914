/** The helper on a monitored host that turns boot evidence into durable event counters. */
module CriticalErrors {
  import opened Basics

  predicate LabelChar(c: char) {
    'A' <= c <= 'Z' || 'a' <= c <= 'z' || '0' <= c <= '9' || c == '_' || c == '.' || c == ':' || c == '/' || c == '-'
  }

  predicate IsLabel(s: string) {
    1 <= |s| <= 128 && forall c :: c in s ==> LabelChar(c)
  }

  /** The text of a bounded label; `None` stands for the refusal. */
  function Bounded(value: Json): Option<string> {
    if value.JText? && IsLabel(value.text) then Some(value.text) else None
  }

  /** What the state file holds. */
  datatype State = State(seen: set<string>, counters: map<string, int>, latest: map<string, int>)

  const FRESH_STATE := State({}, map[], map[])

  /** What happened: a storage error or a watchdog reset of a boot, or a panic, which outlives its boot. */
  datatype Occurrence =
    | StorageError(boot: string, id: string) | WatchdogReset(boot: string, id: string) | Panic(id: string)
  {
    /** The identity it is counted under. */
    function Identity(): string {
      match this
      case StorageError(boot, id) => boot + ":storage:" + id
      case WatchdogReset(boot, id) => boot + ":watchdog:" + id
      case Panic(id) => "panic:" + id
    }
  }

  /** One piece of evidence: what happened, the counter it belongs to and the kind of event. */
  datatype Event = Event(of: Occurrence, key: string, kind: string) {
    const identity: string := of.Identity()
  }

  function StorageKey(errorClass: string, device: string): string {
    "storage|" + errorClass + "|" + device
  }

  function StorageEvent(boot: string, item: Json): Option<Event> {
    if !item.JObject? then None
    else
      var id := Bounded(Lookup(item.fields, "id", JNull));
      var errorClass := Bounded(Lookup(item.fields, "class", JNull));
      var device := Bounded(Lookup(item.fields, "device", JNull));
      if id.None? || errorClass.None? || device.None? then None
      else Some(Event(StorageError(boot, id.value), StorageKey(errorClass.value, device.value), "storage-io-error"))
  }

  function StorageEvents(boot: string, items: seq<Json>): Option<seq<Event>> {
    if items == [] then Some([])
    else
      var before := StorageEvents(boot, items[..|items| - 1]);
      var last := StorageEvent(boot, items[|items| - 1]);
      if before.None? || last.None? then None else Some(before.value + [last.value])
  }

  function BootEvent(boot: string, event: Json, watchdog: bool): Option<seq<Event>> {
    if !event.JObject? then None
    else if Lookup(event.fields, "detected", JNull) != JBool(true) then Some([])
    else
      var id := Bounded(Lookup(event.fields, "id", JNull));
      if id.None? then None
      else if watchdog then Some([Event(WatchdogReset(boot, id.value), "watchdog", "watchdog-reset")])
      else Some([Event(Panic(id.value), "panic", "previous-panic")])
  }

  /** The events of a document in the order they are counted; `None` for a malformed document. */
  function EventsOf(evidence: map<string, Json>): Option<seq<Event>> {
    var boot := Bounded(Lookup(evidence, "bootId", JNull));
    var items := Lookup(evidence, "storageIoErrors", JList([]));
    if boot.None? || !items.JList? then None
    else
      var storage := StorageEvents(boot.value, items.items);
      var panic := BootEvent(boot.value, Lookup(evidence, "previousPanic", JObject(map[])), false);
      var watchdog := BootEvent(boot.value, Lookup(evidence, "watchdogReset", JObject(map[])), true);
      if storage.None? || panic.None? || watchdog.None?
         || !Lookup(evidence, "availability", JObject(map[])).JObject? then
        None
      else Some(storage.value + panic.value + watchdog.value)
  }

  function CountOf(counters: map<string, int>, key: string): int {
    if key in counters then counters[key] else 0
  }

  /** An event counts unless its identity was seen. */
  function Count(s: State, e: Event, now: int): State {
    if e.identity in s.seen then s
    else State(s.seen + {e.identity}, s.counters[e.key := CountOf(s.counters, e.key) + 1], s.latest[e.kind := now])
  }

  function CountAll(s: State, events: seq<Event>, now: int): State {
    if events == [] then s
    else Count(CountAll(s, events[..|events| - 1], now), events[|events| - 1], now)
  }

  // ---- the reference: a ledger that gives every identity to the counter of its first event ----

  function Ledger(events: seq<Event>): map<string, string> {
    if events == [] then map[]
    else
      var before := Ledger(events[..|events| - 1]);
      var e := events[|events| - 1];
      if e.identity in before then before else before[e.identity := e.key]
  }

  /** An identity belongs to the counter of the first event that carries it. */
  lemma {:induction false} LedgerIsFirst(events: seq<Event>, i: nat)
    requires i < |events| && forall j :: 0 <= j < i ==> events[j].identity != events[i].identity
    ensures events[i].identity in Ledger(events) && Ledger(events)[events[i].identity] == events[i].key
  {
    var n := |events| - 1;
    if i < n {
      LedgerIsFirst(events[..n], i);
    } else {
      LedgerHoldsEvents(events[..n]);
    }
  }

  lemma {:induction false} LedgerHoldsEvents(events: seq<Event>)
    ensures forall identity :: identity in Ledger(events) <==>
              exists j :: 0 <= j < |events| && events[j].identity == identity
  {
    if events != [] {
      var n := |events| - 1;
      LedgerHoldsEvents(events[..n]);
      forall identity
        ensures identity in Ledger(events) <==> exists j :: 0 <= j < |events| && events[j].identity == identity
      {
        if identity in Ledger(events[..n]) {
          var j :| 0 <= j < n && events[..n][j].identity == identity;
          assert events[j].identity == identity;
        }
        if j :| 0 <= j < |events| && events[j].identity == identity {
          if j < n {
            assert events[..n][j].identity == identity;
          }
        }
      }
    }
  }

  function Entries(ledger: map<string, string>, key: string): set<string> {
    set id | id in ledger && ledger[id] == key
  }

  ghost predicate Reflects(s: State, ledger: map<string, string>) {
    && s.seen == ledger.Keys
    && (forall key :: CountOf(s.counters, key) == |Entries(ledger, key)|)
    && (forall key :: key in s.counters ==> s.counters[key] > 0)
  }

  lemma EntriesGrow(ledger: map<string, string>, e: Event, key: string)
    requires e.identity !in ledger
    ensures |Entries(ledger[e.identity := e.key], key)| == |Entries(ledger, key)| + if key == e.key then 1 else 0
  {
    var next := ledger[e.identity := e.key];
    if key == e.key {
      assert Entries(next, key) == Entries(ledger, key) + {e.identity};
    } else {
      assert Entries(next, key) == Entries(ledger, key);
    }
  }

  lemma CountKeepsReflecting(s: State, ledger: map<string, string>, e: Event, now: int)
    requires Reflects(s, ledger)
    ensures Reflects(Count(s, e, now), if e.identity in ledger then ledger else ledger[e.identity := e.key])
  {
    if e.identity !in ledger {
      var next := ledger[e.identity := e.key];
      assert next.Keys == ledger.Keys + {e.identity};
      forall key ensures CountOf(Count(s, e, now).counters, key) == |Entries(next, key)| {
        EntriesGrow(ledger, e, key);
      }
    }
  }

  lemma {:induction false} CountAllKeepsReflecting(s: State, history: seq<Event>, events: seq<Event>, now: int)
    requires Reflects(s, Ledger(history))
    ensures Reflects(CountAll(s, events, now), Ledger(history + events))
  {
    if events == [] {
      assert history + events == history;
    } else {
      var n := |events| - 1;
      CountAllKeepsReflecting(s, history, events[..n], now);
      assert history + events == history + events[..n] + [events[n]];
      LedgerGrows(history + events[..n], events[n]);
      CountKeepsReflecting(CountAll(s, events[..n], now), Ledger(history + events[..n]), events[n], now);
    }
  }

  lemma {:induction false} LedgerGrows(events: seq<Event>, e: Event)
    ensures Ledger(events + [e]) ==
            if e.identity in Ledger(events) then Ledger(events) else Ledger(events)[e.identity := e.key]
  {
    assert (events + [e])[..|events|] == events;
  }

  /** The sum of all counters. */
  ghost function Sum(counters: map<string, int>): int
    decreases |counters|
  {
    if counters == map[] then 0
    else
      var k :| k in counters;
      counters[k] + Sum(counters - {k})
  }

  lemma {:induction false} SumTakesAny(counters: map<string, int>, k: string)
    requires k in counters
    ensures Sum(counters) == counters[k] + Sum(counters - {k})
    decreases |counters|
  {
    var j :| j in counters && Sum(counters) == counters[j] + Sum(counters - {j});
    if j != k {
      SumTakesAny(counters - {j}, k);
      SumTakesAny(counters - {k}, j);
      assert counters - {j} - {k} == counters - {k} - {j};
    }
  }

  lemma SumOfCount(s: State, e: Event, now: int)
    ensures Sum(Count(s, e, now).counters) == Sum(s.counters) + if e.identity in s.seen then 0 else 1
  {
    if e.identity !in s.seen {
      var next := Count(s, e, now).counters;
      SumTakesAny(next, e.key);
      assert next - {e.key} == s.counters - {e.key};
      if e.key in s.counters {
        SumTakesAny(s.counters, e.key);
      } else {
        assert s.counters - {e.key} == s.counters;
      }
    }
  }

  lemma {:induction false} SumOfCountAll(s: State, events: seq<Event>, now: int)
    requires Sum(s.counters) == |s.seen|
    ensures Sum(CountAll(s, events, now).counters) == |CountAll(s, events, now).seen|
  {
    if events != [] {
      var n := |events| - 1;
      SumOfCountAll(s, events[..n], now);
      SumOfCount(CountAll(s, events[..n], now), events[n], now);
    }
  }

  /** Events whose identities were all seen change nothing. */
  lemma {:induction false} SeenEventsAreIgnored(s: State, events: seq<Event>, now: int)
    requires forall e :: e in events ==> e.identity in s.seen
    ensures CountAll(s, events, now) == s
  {
    if events != [] {
      SeenEventsAreIgnored(s, events[..|events| - 1], now);
    }
  }

  lemma {:induction false} CountedEventsAreSeen(s: State, events: seq<Event>, now: int)
    ensures s.seen <= CountAll(s, events, now).seen
    ensures forall e :: e in events ==> e.identity in CountAll(s, events, now).seen
  {
    if events != [] {
      var n := |events| - 1;
      CountedEventsAreSeen(s, events[..n], now);
      assert events == events[..n] + [events[n]];
    }
  }

  /** Running a document again, at any later time, leaves counters and latest times as they are. */
  lemma {:induction false} RerunChangesNothing(s: State, events: seq<Event>, now: int, later: int)
    ensures CountAll(CountAll(s, events, now), events, later) == CountAll(s, events, now)
  {
    CountedEventsAreSeen(s, events, now);
    SeenEventsAreIgnored(CountAll(s, events, now), events, later);
  }

  /** The document brings an identity of this kind that was not seen before. */
  ghost predicate BringsNew(s: State, events: seq<Event>, kind: string) {
    exists i :: 0 <= i < |events| && IsNew(s, events, kind, i)
  }

  ghost predicate IsNew(s: State, events: seq<Event>, kind: string, i: int)
    requires 0 <= i < |events|
  {
    events[i].kind == kind && events[i].identity !in s.seen
    && forall e :: e in events[..i] ==> e.identity != events[i].identity
  }

  lemma {:induction false} BringsNewGrows(s: State, events: seq<Event>, e: Event, now: int, kind: string)
    ensures BringsNew(s, events + [e], kind) <==>
            BringsNew(s, events, kind) || (e.kind == kind && e.identity !in CountAll(s, events, now).seen)
  {
    var longer := events + [e];
    SeenIsPast(s, events, now);
    assert forall i :: 0 <= i <= |events| ==> longer[..i] == events[..i];
    assert forall i :: 0 <= i < |events| ==> IsNew(s, longer, kind, i) == IsNew(s, events, kind, i);
    assert events[..|events|] == events;
    assert IsNew(s, longer, kind, |events|) <==> e.kind == kind && e.identity !in CountAll(s, events, now).seen;
    if BringsNew(s, events, kind) {
      var i :| 0 <= i < |events| && IsNew(s, events, kind, i);
      assert IsNew(s, longer, kind, i);
    }
    if BringsNew(s, longer, kind) {
      var i :| 0 <= i < |longer| && IsNew(s, longer, kind, i);
      assert i < |events| ==> IsNew(s, events, kind, i);
    }
  }

  /** The latest time of a kind is that of the last run that brought a new event of it. */
  lemma {:induction false} LatestIsLastNew(s: State, events: seq<Event>, now: int, kind: string)
    ensures Get(CountAll(s, events, now).latest, kind) ==
            if BringsNew(s, events, kind) then Some(now) else Get(s.latest, kind)
  {
    if events != [] {
      var n := |events| - 1;
      LatestIsLastNew(s, events[..n], now, kind);
      BringsNewGrows(s, events[..n], events[n], now, kind);
      assert events == events[..n] + [events[n]];
    }
  }

  lemma {:induction false} SeenIsPast(s: State, events: seq<Event>, now: int)
    ensures forall id :: id in CountAll(s, events, now).seen <==>
                         id in s.seen || exists e :: e in events && e.identity == id
  {
    if events != [] {
      var n := |events| - 1;
      SeenIsPast(s, events[..n], now);
      assert events == events[..n] + [events[n]];
    }
  }
}
