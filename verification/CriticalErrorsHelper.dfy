/** The helper's two files: the state it counts from and the metrics it publishes. */
module CriticalErrorsHelper {
  import opened Basics
  import opened CriticalErrors

  /** The published metrics. */
  datatype Output = Output(
    heartbeat: int, storage: map<(string, string), int>, panic: int, watchdog: int,
    sources: seq<(string, bool)>, latest: map<string, int>)

  /** What is on disk; either file may be missing. */
  datatype Files = Files(state: Option<State>, output: Option<Output>) {
    function Current(): State { if state.Some? then state.value else FRESH_STATE }
  }

  const NO_FILES := Files(None, None)

  function BeforeBar(s: string): string {
    if s == "" || s[0] == '|' then "" else [s[0]] + BeforeBar(s[1..])
  }

  function AfterBar(s: string): string {
    if s == "" then "" else if s[0] == '|' then s[1..] else AfterBar(s[1..])
  }

  /** The last two of the three parts of `key.split("|", 2)`. */
  function SplitKey(key: string): (string, string) {
    (BeforeBar(AfterBar(key)), AfterBar(AfterBar(key)))
  }

  lemma {:induction false} BarSplits(p: string, rest: string)
    requires '|' !in p
    ensures BeforeBar(p + "|" + rest) == p && AfterBar(p + "|" + rest) == rest
  {
    if p == "" {
      assert p + "|" + rest == "|" + rest;
    } else {
      BarSplits(p[1..], rest);
      assert (p + "|" + rest)[1..] == p[1..] + "|" + rest;
    }
  }

  /** The labels of a storage counter can be told from its key. */
  lemma StorageKeySplits(errorClass: string, device: string)
    requires IsLabel(errorClass)
    ensures SplitKey(StorageKey(errorClass, device)) == (errorClass, device)
  {
    BarSplits("storage", errorClass + "|" + device);
    assert StorageKey(errorClass, device) == "storage" + "|" + (errorClass + "|" + device);
    assert !LabelChar('|');
    BarSplits(errorClass, device);
  }

  ghost predicate IsStorageKey(key: string) {
    exists c, d :: IsLabel(c) && IsLabel(d) && key == StorageKey(c, d)
  }

  ghost predicate WellKeyed(s: State) {
    forall key :: key in s.counters ==> key == "panic" || key == "watchdog" || IsStorageKey(key)
  }

  ghost predicate KeyedEvents(events: seq<Event>) {
    forall e :: e in events ==> e.key == "panic" || e.key == "watchdog" || IsStorageKey(e.key)
  }

  lemma {:induction false} StorageEventsAreKeyed(boot: string, items: seq<Json>)
    ensures StorageEvents(boot, items).Some? ==> KeyedEvents(StorageEvents(boot, items).value)
  {
    if items != [] {
      StorageEventsAreKeyed(boot, items[..|items| - 1]);
    }
  }

  lemma DocumentEventsAreKeyed(evidence: map<string, Json>)
    requires EventsOf(evidence).Some?
    ensures KeyedEvents(EventsOf(evidence).value)
  {
    StorageEventsAreKeyed(Bounded(Lookup(evidence, "bootId", JNull)).value,
                          Lookup(evidence, "storageIoErrors", JList([])).items);
  }

  lemma {:induction false} CountAllKeepsKeys(s: State, events: seq<Event>, now: int)
    requires WellKeyed(s) && KeyedEvents(events)
    ensures WellKeyed(CountAll(s, events, now))
  {
    if events != [] {
      CountAllKeepsKeys(s, events[..|events| - 1], now);
    }
  }

  lemma {:induction false} CountersGrow(s: State, events: seq<Event>, now: int)
    ensures forall key :: CountOf(s.counters, key) <= CountOf(CountAll(s, events, now).counters, key)
  {
    if events != [] {
      CountersGrow(s, events[..|events| - 1], now);
    }
  }

  function IsAvailable(availability: map<string, Json>, source: string): bool {
    Lookup(availability, source, JNull) == JBool(true)
  }

  /** The output shows the state: every storage counter under its two labels, and nothing else. */
  ghost predicate Publishes(o: Output, s: State, evidence: map<string, Json>, now: int) {
    var availability := Lookup(evidence, "availability", JObject(map[]));
    && availability.JObject?
    && o.heartbeat == now
    && o.panic == CountOf(s.counters, "panic") && o.watchdog == CountOf(s.counters, "watchdog")
    && o.latest == s.latest
    && o.sources == [("journal", IsAvailable(availability.fields, "journal")),
                     ("pstore", IsAvailable(availability.fields, "pstore")),
                     ("watchdog", IsAvailable(availability.fields, "watchdog"))]
    && ShowsStorage(o, s)
  }

  ghost predicate ShowsStorage(o: Output, s: State) {
    forall c, d {:trigger (c, d) in o.storage} ::
      && ((c, d) in o.storage <==> IsLabel(c) && IsLabel(d) && StorageKey(c, d) in s.counters)
      && ((c, d) in o.storage ==> o.storage[(c, d)] == s.counters[StorageKey(c, d)])
  }

  /** One run: a malformed document changes nothing; otherwise the state file is replaced first and
      the output file second, unless the run stops in between. */
  ghost predicate RunStep(f: Files, g: Files, evidence: map<string, Json>, now: int, interrupted: bool) {
    var events := EventsOf(evidence);
    if events.None? then g == f
    else
      && g.state == Some(CountAll(f.Current(), events.value, now))
      && if interrupted then g.output == f.output
         else g.output.Some? && Publishes(g.output.value, g.Current(), evidence, now)
  }

  class Helper {
    var files: Files

    constructor ()
      ensures files == NO_FILES
    {
      files := NO_FILES;
    }

    method StorageLines(s: State) returns (storage: map<(string, string), int>)
      requires WellKeyed(s)
      ensures forall c, d {:trigger (c, d) in storage} ::
        && ((c, d) in storage <==> IsLabel(c) && IsLabel(d) && StorageKey(c, d) in s.counters)
        && ((c, d) in storage ==> storage[(c, d)] == s.counters[StorageKey(c, d)])
    {
      storage := map[];
      var rest := s.counters.Keys;
      while rest != {}
        invariant rest <= s.counters.Keys
        invariant forall c, d {:trigger (c, d) in storage} ::
          && ((c, d) in storage <==>
              IsLabel(c) && IsLabel(d) && StorageKey(c, d) in s.counters && StorageKey(c, d) !in rest)
          && ((c, d) in storage ==> storage[(c, d)] == s.counters[StorageKey(c, d)])
        decreases rest
      {
        var key :| key in rest;
        rest := rest - {key};
        ghost var before := storage;
        if "storage|" <= key {
          assert key != "panic" && key != "watchdog" by { assert key[0] == "storage|"[0]; }
          ghost var c, d :| IsLabel(c) && IsLabel(d) && key == StorageKey(c, d);
          StorageKeySplits(c, d);
          storage := storage[SplitKey(key) := s.counters[key]];
        }
        forall c, d | IsLabel(c) && IsLabel(d) && StorageKey(c, d) == key
          ensures "storage|" <= key && (c, d) == SplitKey(key)
        {
          StorageKeySplits(c, d);
          assert StorageKey(c, d)[..8] == "storage|";
        }
      }
    }

    /** Counts a document's storage events; `None` for a malformed one. */
    method CountStorage(s: State, boot: string, items: seq<Json>, now: int) returns (r: Option<State>)
      ensures r == if StorageEvents(boot, items).None? then None
                   else Some(CountAll(s, StorageEvents(boot, items).value, now))
    {
      var seen, counters, latest := s.seen, s.counters, s.latest;
      for i := 0 to |items|
        invariant StorageEvents(boot, items[..i]).Some?
        invariant State(seen, counters, latest) == CountAll(s, StorageEvents(boot, items[..i]).value, now)
      {
        assert items[..i + 1][..i] == items[..i];
        var event := StorageEvent(boot, items[i]);
        if event.None? {
          MalformedItem(boot, items, i);
          return None;
        }
        var e := event.value;
        ghost var events := StorageEvents(boot, items[..i]).value;
        assert StorageEvents(boot, items[..i + 1]) == Some(events + [e]);
        CountAllExtends(s, events, e, now);
        ghost var before := State(seen, counters, latest);
        if e.identity !in seen {
          counters := counters[e.key := CountOf(counters, e.key) + 1];
          latest := latest["storage-io-error" := now];
          seen := seen + {e.identity};
        }
        assert State(seen, counters, latest) == Count(before, e, now);
      }
      assert items[..|items|] == items;
      r := Some(State(seen, counters, latest));
    }

    /** Counts the panic or the watchdog evidence of a document. */
    method CountBootEvent(s: State, boot: string, event: Json, watchdog: bool, now: int) returns (r: Option<State>)
      ensures r == if BootEvent(boot, event, watchdog).None? then None
                   else Some(CountAll(s, BootEvent(boot, event, watchdog).value, now))
    {
      if !event.JObject? {
        return None;
      }
      if Lookup(event.fields, "detected", JNull) == JBool(true) {
        var id := Bounded(Lookup(event.fields, "id", JNull));
        if id.None? {
          return None;
        }
        var identity := if watchdog then boot + ":watchdog:" + id.value else "panic:" + id.value;
        var key := if watchdog then "watchdog" else "panic";
        var kind := if watchdog then "watchdog-reset" else "previous-panic";
        CountOne(s, Event(if watchdog then WatchdogReset(boot, id.value) else Panic(id.value), key, kind), now);
        if identity !in s.seen {
          r := Some(State(s.seen + {identity}, s.counters[key := CountOf(s.counters, key) + 1], s.latest[kind := now]));
        } else {
          r := Some(s);
        }
      } else {
        r := Some(s);
      }
    }

    /** Counts all events of a document; `None` for a malformed one. */
    method CountDocument(loaded: State, evidence: map<string, Json>, now: int) returns (s: Option<State>)
      ensures s == if EventsOf(evidence).None? then None else Some(CountAll(loaded, EventsOf(evidence).value, now))
    {
      var boot := Bounded(Lookup(evidence, "bootId", JNull));
      var items := Lookup(evidence, "storageIoErrors", JList([]));
      if boot.None? || !items.JList? {
        return None;
      }
      s := CountStorage(loaded, boot.value, items.items, now);
      if s.None? {
        return;
      }
      ghost var storage := StorageEvents(boot.value, items.items).value;
      var previousPanic := Lookup(evidence, "previousPanic", JObject(map[]));
      s := CountBootEvent(s.value, boot.value, previousPanic, false, now);
      if s.None? {
        return;
      }
      ghost var panic := BootEvent(boot.value, previousPanic, false).value;
      CountAllJoins(loaded, storage, panic, now);
      var watchdogReset := Lookup(evidence, "watchdogReset", JObject(map[]));
      s := CountBootEvent(s.value, boot.value, watchdogReset, true, now);
      if s.None? || !Lookup(evidence, "availability", JObject(map[])).JObject? {
        return None;
      }
      CountAllJoins(loaded, storage + panic, BootEvent(boot.value, watchdogReset, true).value, now);
    }

    /** One run of the helper. `interrupted` stops it between the two replacements. */
    method Run(evidence: map<string, Json>, now: int, interrupted: bool) returns (ok: bool)
      requires WellKeyed(files.Current())
      modifies this
      ensures ok <==> EventsOf(evidence).Some?
      ensures RunStep(old(files), files, evidence, now, interrupted)
      ensures WellKeyed(files.Current())
    {
      var s := CountDocument(files.Current(), evidence, now);
      ok := s.Some?;
      if s.None? {
        return;
      }
      DocumentEventsAreKeyed(evidence);
      CountAllKeepsKeys(files.Current(), EventsOf(evidence).value, now);
      var availability := Lookup(evidence, "availability", JObject(map[]));
      var storage := StorageLines(s.value);
      var sources := [];
      for i := 0 to 3
        invariant |sources| == i
        invariant forall k :: 0 <= k < i ==>
          sources[k] == (["journal", "pstore", "watchdog"][k],
                         IsAvailable(availability.fields, ["journal", "pstore", "watchdog"][k]))
      {
        var source := ["journal", "pstore", "watchdog"][i];
        sources := sources + [(source, IsAvailable(availability.fields, source))];
      }
      files := files.(state := Some(s.value));
      if interrupted {
        return;
      }
      files := files.(output := Some(Output(now, storage, CountOf(s.value.counters, "panic"),
                                            CountOf(s.value.counters, "watchdog"), sources, s.value.latest)));
    }
  }

  lemma {:induction false} CountAllExtends(s: State, events: seq<Event>, e: Event, now: int)
    ensures CountAll(s, events + [e], now) == Count(CountAll(s, events, now), e, now)
  {
    assert (events + [e])[..|events|] == events;
  }

  lemma {:induction false} CountOne(s: State, e: Event, now: int)
    ensures CountAll(s, [e], now) == Count(s, e, now)
  {
    assert [e][..0] == [];
  }

  lemma {:induction false} MalformedItem(boot: string, items: seq<Json>, i: nat)
    requires i < |items| && StorageEvent(boot, items[i]).None?
    ensures StorageEvents(boot, items).None?
    decreases |items|
  {
    if i < |items| - 1 {
      MalformedItem(boot, items[..|items| - 1], i);
    }
  }

  lemma {:induction false} CountAllJoins(s: State, a: seq<Event>, b: seq<Event>, now: int)
    ensures CountAll(s, a + b, now) == CountAll(CountAll(s, a, now), b, now)
  {
    if b == [] {
      assert a + b == a;
    } else {
      CountAllJoins(s, a, b[..|b| - 1], now);
      assert (a + b)[..|a + b| - 1] == a + b[..|b| - 1];
    }
  }

  // ---- runs ----

  datatype RunInput = RunInput(evidence: map<string, Json>, now: int, interrupted: bool)

  /** The files before and after each run, from an empty disk. */
  ghost predicate IsRun(inputs: seq<RunInput>, files: seq<Files>) {
    && |files| == |inputs| + 1
    && files[0] == NO_FILES
    && forall i {:trigger files[i + 1]} :: 0 <= i < |inputs| ==>
         RunStep(files[i], files[i + 1], inputs[i].evidence, inputs[i].now, inputs[i].interrupted)
  }

  lemma StepOf(inputs: seq<RunInput>, files: seq<Files>, i: nat)
    requires IsRun(inputs, files) && i < |inputs|
    ensures RunStep(files[i], files[i + 1], inputs[i].evidence, inputs[i].now, inputs[i].interrupted)
  {
  }

  /** All events of the well-formed documents, in order, repeats included. */
  function AllEvents(inputs: seq<RunInput>): seq<Event> {
    if inputs == [] then []
    else
      var last := EventsOf(inputs[|inputs| - 1].evidence);
      var before := AllEvents(inputs[..|inputs| - 1]);
      if last.None? then before else before + last.value
  }

  lemma {:induction false} StepCountsOnce(f: Files, g: Files, input: RunInput, history: seq<Event>)
    requires RunStep(f, g, input.evidence, input.now, input.interrupted)
    requires Reflects(f.Current(), Ledger(history)) && Sum(f.Current().counters) == |f.Current().seen|
    ensures var events := EventsOf(input.evidence);
            Reflects(g.Current(), Ledger(if events.None? then history else history + events.value))
    ensures Sum(g.Current().counters) == |g.Current().seen|
  {
    var events := EventsOf(input.evidence);
    if events.Some? {
      CountAllKeepsReflecting(f.Current(), history, events.value, input.now);
      SumOfCountAll(f.Current(), events.value, input.now);
    }
  }

  /** Exactly once: however often documents repeat and runs are cut short, each counter is the number
      of distinct identities whose first event was its own, and all counters add up to the identities seen. */
  lemma {:induction false} EachIdentityCountsOnce(inputs: seq<RunInput>, files: seq<Files>, n: nat)
    requires IsRun(inputs, files) && n <= |inputs|
    ensures Reflects(files[n].Current(), Ledger(AllEvents(inputs[..n])))
    ensures Sum(files[n].Current().counters) == |files[n].Current().seen|
  {
    if n > 0 {
      EachIdentityCountsOnce(inputs, files, n - 1);
      assert inputs[..n][..n - 1] == inputs[..n - 1];
      StepOf(inputs, files, n - 1);
      StepCountsOnce(files[n - 1], files[n], inputs[n - 1], AllEvents(inputs[..n - 1]));
    }
  }

  /** The published value of a storage counter; 0 before it first appears. */
  function PublishedStorage(output: Option<Output>, labels: (string, string)): int {
    if output.Some? && labels in output.value.storage then output.value.storage[labels] else 0
  }

  /** Nothing published in `a` is larger in `a` than in `b`. */
  ghost predicate PublishedAtMost(a: Option<Output>, b: Option<Output>) {
    && (forall labels :: PublishedStorage(a, labels) <= PublishedStorage(b, labels))
    && (a.Some? ==> b.Some? && a.value.panic <= b.value.panic && a.value.watchdog <= b.value.watchdog)
  }

  /** What is published never runs ahead of the state file. */
  ghost predicate NotAhead(f: Files) {
    var counters := f.Current().counters;
    && (forall key :: CountOf(counters, key) >= 0)
    && (f.output.Some? ==>
          && f.output.value.panic <= CountOf(counters, "panic")
          && f.output.value.watchdog <= CountOf(counters, "watchdog")
          && forall c, d :: PublishedStorage(f.output, (c, d)) <=
                            if IsLabel(c) && IsLabel(d) then CountOf(counters, StorageKey(c, d)) else 0)
  }

  lemma StepNeverDecreases(f: Files, g: Files, input: RunInput)
    requires NotAhead(f) && RunStep(f, g, input.evidence, input.now, input.interrupted)
    ensures NotAhead(g) && PublishedAtMost(f.output, g.output)
  {
    var events := EventsOf(input.evidence);
    if events.Some? {
      CountersGrow(f.Current(), events.value, input.now);
      var counters := g.Current().counters;
      if !input.interrupted {
        forall c, d
          ensures PublishedStorage(g.output, (c, d)) ==
                  if IsLabel(c) && IsLabel(d) then CountOf(counters, StorageKey(c, d)) else 0
          ensures PublishedStorage(f.output, (c, d)) <= PublishedStorage(g.output, (c, d))
        {
          assert (c, d) in g.output.value.storage <==> IsLabel(c) && IsLabel(d) && StorageKey(c, d) in counters;
        }
        forall labels: (string, string)
          ensures PublishedStorage(f.output, labels) <= PublishedStorage(g.output, labels)
        {
          assert labels == (labels.0, labels.1);
        }
      }
    }
  }

  lemma {:induction false} RunsStayBehind(inputs: seq<RunInput>, files: seq<Files>, n: nat)
    requires IsRun(inputs, files) && n <= |inputs|
    ensures NotAhead(files[n])
  {
    if n > 0 {
      RunsStayBehind(inputs, files, n - 1);
      StepOf(inputs, files, n - 1);
      StepNeverDecreases(files[n - 1], files[n], inputs[n - 1]);
    }
  }

  /** Published counters never decrease, wherever runs were interrupted. */
  lemma {:induction false} PublishedNeverDecreases(inputs: seq<RunInput>, files: seq<Files>, m: nat, n: nat)
    requires IsRun(inputs, files) && m <= n <= |inputs|
    ensures PublishedAtMost(files[m].output, files[n].output)
    decreases n
  {
    if m < n {
      PublishedNeverDecreases(inputs, files, m, n - 1);
      RunsStayBehind(inputs, files, n - 1);
      StepOf(inputs, files, n - 1);
      StepNeverDecreases(files[n - 1], files[n], inputs[n - 1]);
    }
  }
}
