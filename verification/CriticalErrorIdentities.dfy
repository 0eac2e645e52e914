/** When two different events of a host are counted as one. */
module CriticalErrorIdentities {
  import opened Basics
  import opened CriticalErrors
  import opened CriticalErrorsHelper

  // ---- which boot IDs can be mistaken ----

  /** From position `i` the text is the word, or goes on with a colon after it. */
  predicate WordAt(text: string, i: nat, word: string)
    requires i <= |text|
  {
    text[i..] == word || word + ":" <= text[i..]
  }

  /** A part after the first is "storage" or "watchdog". */
  predicate NamesKind(boot: string, k: nat) {
    0 < k < |boot| && boot[k] == ':' && (WordAt(boot, k + 1, "storage") || WordAt(boot, k + 1, "watchdog"))
  }

  /** The first part is "panic", and an identity of the boot can still be that of a panic: its ID is
      bounded to 128 characters. */
  predicate NamesPanic(boot: string) {
    WordAt(boot, 0, "panic") && |boot| <= 124
  }

  predicate IsAmbiguous(boot: string) {
    NamesPanic(boot) || exists k :: 0 < k < |boot| && NamesKind(boot, k)
  }

  predicate IsBounded(o: Occurrence) {
    IsLabel(o.id) && (!o.Panic? ==> IsLabel(o.boot))
  }

  /** Two different events under one identity. */
  predicate Collide(a: Occurrence, b: Occurrence) {
    a != b && a.Identity() == b.Identity()
  }

  function Word(o: Occurrence): string {
    match o
    case StorageError(_, _) => "storage"
    case WatchdogReset(_, _) => "watchdog"
    case Panic(_) => "panic"
  }

  lemma IdentityParts(o: Occurrence)
    requires !o.Panic?
    ensures o.Identity() == o.boot + ":" + Word(o) + ":" + o.id
    ensures |Word(o)| >= 7 && forall c :: c in Word(o) ==> c != ':'
  {
    match o
    case StorageError(boot, id) => assert boot + ":" + "storage" + ":" + id == boot + ":storage:" + id;
    case WatchdogReset(boot, id) => assert boot + ":" + "watchdog" + ":" + id == boot + ":watchdog:" + id;
  }

  /** Collisions need an ambiguous boot ID. */
  lemma CollisionsAreAmbiguous(a: Occurrence, b: Occurrence)
    requires IsBounded(a) && IsBounded(b) && Collide(a, b)
    ensures (!a.Panic? && IsAmbiguous(a.boot)) || (!b.Panic? && IsAmbiguous(b.boot))
  {
    if a.Panic? && !b.Panic? {
      PanicCollision(a, b);
    } else if b.Panic? && !a.Panic? {
      PanicCollision(b, a);
    } else if !a.Panic? && |a.boot| < |b.boot| {
      LongerBootNamesKind(a, b);
    } else if !a.Panic? && |b.boot| < |a.boot| {
      LongerBootNamesKind(b, a);
    } else if !a.Panic? {
      SameBootNoCollision(a, b);
    } else {
      SamePanicNoCollision(a, b);
    }
  }

  lemma SamePanicNoCollision(a: Occurrence, b: Occurrence)
    requires a.Panic? && b.Panic? && a.Identity() == b.Identity()
    ensures a == b
  {
    assert a.Identity()[6..] == a.id && b.Identity()[6..] == b.id;
  }

  lemma PanicCollision(p: Occurrence, o: Occurrence)
    requires IsBounded(p) && IsBounded(o) && p.Panic? && !o.Panic? && Collide(p, o)
    ensures NamesPanic(o.boot)
  {
    IdentityParts(o);
    var text, n := p.Identity(), |o.boot|;
    assert text[n] == ':' && text[..n] == o.boot;
    assert "panic:"[..5] == "panic" && forall i :: 0 <= i < 5 ==> text[i] == "panic"[i];
    assert |text| == 6 + |p.id| == n + 1 + |Word(o)| + 1 + |o.id|;
    if n == 5 {
      assert o.boot == "panic";
    } else {
      assert n > 5;
      assert o.boot[0..][..6] == "panic:";
    }
  }

  lemma SameBootNoCollision(a: Occurrence, b: Occurrence)
    requires !a.Panic? && !b.Panic? && |a.boot| == |b.boot| && a.Identity() == b.Identity()
    ensures a == b
  {
    IdentityParts(a);
    IdentityParts(b);
    var text, n := a.Identity(), |a.boot|;
    assert text[..n] == a.boot && text[..n] == b.boot;
    assert text[n + 1] == Word(a)[0] == Word(b)[0];
    assert text[n + 2 + |Word(a)|..] == a.id && text[n + 2 + |Word(b)|..] == b.id;
  }

  lemma LongerBootNamesKind(a: Occurrence, b: Occurrence)
    requires !a.Panic? && !b.Panic? && |a.boot| < |b.boot| && a.boot != "" && a.Identity() == b.Identity()
    ensures IsAmbiguous(b.boot)
  {
    PartsAreAt(a);
    PartsAreAt(b);
    LongerPrefixHasWord(a.Identity(), |a.boot|, |b.boot|, Word(a));
    assert NamesKind(b.boot, |a.boot|);
  }

  lemma PartsAreAt(o: Occurrence)
    requires !o.Panic?
    ensures var text, n, m := o.Identity(), |o.boot|, |Word(o)|;
            && |text| > n + 1 + m && text[..n] == o.boot && text[n] == ':' && text[n + 1..n + 1 + m] == Word(o)
            && text[n + 1 + m] == ':' && forall c :: c in Word(o) ==> c != ':'
  {
    IdentityParts(o);
  }

  /** A prefix that ends before a colon and goes beyond the word takes all of the word in. */
  lemma LongerPrefixHasWord(text: string, k: nat, n: nat, word: string)
    requires k < n < |text| && k + 1 + |word| < |text| && text[n] == ':'
    requires text[k + 1..k + 1 + |word|] == word && text[k + 1 + |word|] == ':'
    requires forall c :: c in word ==> c != ':'
    ensures WordAt(text[..n], k + 1, word)
  {
    var m := k + 1 + |word|;
    assert forall i :: k + 1 <= i < m ==> text[i] == word[i - k - 1] && word[i - k - 1] in word;
    if n == m {
      assert text[..n][k + 1..] == word;
    } else {
      assert text[..n][k + 1..][..|word| + 1] == word + ":";
    }
  }

  /** And every ambiguous boot ID has one, so that no smaller set of boot IDs is to be avoided. */
  lemma AmbiguousBootsCollide(boot: string) returns (a: Occurrence, b: Occurrence)
    requires IsLabel(boot) && IsAmbiguous(boot)
    ensures IsBounded(a) && IsBounded(b) && Collide(a, b) && !a.Panic? && a.boot == boot
  {
    a := StorageError(boot, "x");
    SampleIsBounded(boot);
    if NamesPanic(boot) {
      b := Panic((boot + SAMPLE)[6..]);
      PanicReads(boot);
    } else {
      var k :| 0 < k < |boot| && NamesKind(boot, k);
      b := ShorterBoot(boot, k);
    }
  }

  lemma ShorterBoot(boot: string, k: nat) returns (b: Occurrence)
    requires IsLabel(boot) && NamesKind(boot, k)
    ensures IsBounded(b) && !b.Panic? && b.boot == boot[..k] && b.Identity() == boot + SAMPLE
  {
    var word := if WordAt(boot, k + 1, "storage") then "storage" else "watchdog";
    WordSplits(boot, k, word);
    var id := (boot + SAMPLE)[k + |word| + 2..];
    b := if word == "storage" then StorageError(boot[..k], id) else WatchdogReset(boot[..k], id);
    IdentityParts(b);
  }

  /** How the identity of a storage error "x" goes on after the boot ID. */
  const SAMPLE := ":storage:x"

  lemma SampleIsBounded(boot: string)
    requires IsLabel(boot)
    ensures IsBounded(StorageError(boot, "x")) && StorageError(boot, "x").Identity() == boot + SAMPLE
  {
    assert "x"[0] == 'x';
  }

  lemma PanicReads(boot: string)
    requires IsLabel(boot) && NamesPanic(boot)
    ensures IsLabel((boot + SAMPLE)[6..]) && "panic:" + (boot + SAMPLE)[6..] == boot + SAMPLE
  {
    LabelTail(boot, 6);
    assert boot[0..] == boot;
    if boot != "panic" {
      assert boot[..6] == "panic:";
    }
    assert (boot + SAMPLE)[..6] == "panic:";
  }

  lemma LabelHead(text: string, k: nat)
    requires IsLabel(text) && 0 < k <= |text|
    ensures IsLabel(text[..k])
  {
    forall c | c in text[..k] ensures LabelChar(c) {
      assert c in text;
    }
  }

  lemma LabelTail(boot: string, k: nat)
    requires IsLabel(boot) && k < |boot| + 10 && |boot| + 10 - k <= 128
    ensures IsLabel((boot + SAMPLE)[k..])
  {
    forall c | c in (boot + SAMPLE)[k..] ensures LabelChar(c) {
      assert c in boot || c in SAMPLE;
    }
  }

  /** The text reads as a shorter boot ID, the word and what follows. */
  lemma WordSplits(boot: string, k: nat, word: string)
    requires IsLabel(boot) && 0 < k < |boot| && boot[k] == ':' && WordAt(boot, k + 1, word) && |word| >= 7
    ensures k + |word| + 2 < |boot| + 10 && IsLabel(boot[..k]) && IsLabel((boot + SAMPLE)[k + |word| + 2..])
    ensures boot + SAMPLE == boot[..k] + ":" + word + ":" + (boot + SAMPLE)[k + |word| + 2..]
  {
    LabelHead(boot, k);
    WordIsIn(boot, k, word);
    LabelTail(boot, k + |word| + 2);
    Reassembles(boot + SAMPLE, k, word);
    assert (boot + SAMPLE)[..k] == boot[..k];
  }

  lemma WordIsIn(boot: string, k: nat, word: string)
    requires k < |boot| && boot[k] == ':' && WordAt(boot, k + 1, word)
    ensures var text, m := boot + SAMPLE, k + 1 + |word|;
            m <= |boot| && text[k] == ':' && text[k + 1..m] == word && text[m] == ':'
  {
    if boot[k + 1..] != word {
      assert boot[k + 1..][..|word| + 1] == word + ":";
    }
  }

  lemma Reassembles(text: string, k: nat, word: string)
    requires k + 1 + |word| < |text|
    requires text[k] == ':' && text[k + 1..k + 1 + |word|] == word && text[k + 1 + |word|] == ':'
    ensures text == text[..k] + ":" + word + ":" + text[k + |word| + 2..]
  {
    var m := k + 1 + |word|;
    assert text[..k] + ":" == text[..k + 1];
    assert text[..k + 1] + word == text[..m];
    assert text[..m] + ":" == text[..m + 1];
  }

  // ---- counting events ----

  /** Like the ledger, but by event instead of identity. */
  function EventLedger(events: seq<Event>): map<Occurrence, string> {
    if events == [] then map[]
    else
      var before := EventLedger(events[..|events| - 1]);
      var e := events[|events| - 1];
      if e.of in before then before else before[e.of := e.key]
  }

  /** The distinct events that belong to a counter. */
  function EventsUnder(ledger: map<Occurrence, string>, key: string): set<Occurrence> {
    set o | o in ledger && ledger[o] == key
  }

  predicate AreDistinguished(events: seq<Event>) {
    forall i, j :: 0 <= i < |events| && 0 <= j < |events| && events[i].identity == events[j].identity ==>
      events[i].of == events[j].of
  }

  lemma {:induction false} EventLedgerHoldsEvents(events: seq<Event>)
    ensures forall o :: o in EventLedger(events) <==> exists j :: 0 <= j < |events| && events[j].of == o
  {
    if events != [] {
      var n := |events| - 1;
      EventLedgerHoldsEvents(events[..n]);
      forall o ensures o in EventLedger(events) <==> exists j :: 0 <= j < |events| && events[j].of == o {
        if o in EventLedger(events[..n]) {
          var j :| 0 <= j < n && events[..n][j].of == o;
          assert events[j].of == o;
        }
        if j :| 0 <= j < |events| && events[j].of == o {
          if j < n {
            assert events[..n][j].of == o;
          }
        }
      }
    }
  }

  /** Where identities tell events apart, both ledgers give every counter equally many entries. */
  lemma {:induction false} LedgersAgree(events: seq<Event>, key: string)
    requires AreDistinguished(events)
    ensures |Entries(Ledger(events), key)| == |EventsUnder(EventLedger(events), key)|
  {
    if events == [] {
      assert Entries(map[], key) == {} && EventsUnder(map[], key) == {};
    } else {
      var n := |events| - 1;
      var before, e := events[..n], events[n];
      LedgersAgree(before, key);
      NewInBoth(events);
      if e.identity !in Ledger(before) {
        EntriesGrow(Ledger(before), e, key);
        EventsUnderGrow(EventLedger(before), e, key);
      }
    }
  }

  lemma {:induction false} NewInBoth(events: seq<Event>)
    requires events != [] && AreDistinguished(events)
    ensures var before, e := events[..|events| - 1], events[|events| - 1];
            e.identity in Ledger(before) <==> e.of in EventLedger(before)
  {
    var n := |events| - 1;
    LedgerHoldsEvents(events[..n]);
    EventLedgerHoldsEvents(events[..n]);
    if events[n].identity in Ledger(events[..n]) {
      var j :| 0 <= j < n && events[..n][j].identity == events[n].identity;
      assert events[j].of == events[n].of;
      assert events[..n][j].of == events[n].of;
    }
    if events[n].of in EventLedger(events[..n]) {
      var j :| 0 <= j < n && events[..n][j].of == events[n].of;
      assert events[..n][j].identity == events[n].identity;
    }
  }

  lemma EventsUnderGrow(ledger: map<Occurrence, string>, e: Event, key: string)
    requires e.of !in ledger
    ensures |EventsUnder(ledger[e.of := e.key], key)| == |EventsUnder(ledger, key)| + if key == e.key then 1 else 0
  {
    var next := ledger[e.of := e.key];
    if key == e.key {
      assert EventsUnder(next, key) == EventsUnder(ledger, key) + {e.of};
    } else {
      assert EventsUnder(next, key) == EventsUnder(ledger, key);
    }
  }

  // ---- runs ----

  predicate IsUnambiguous(e: Event) {
    IsBounded(e.of) && (!e.of.Panic? ==> !IsAmbiguous(e.of.boot))
  }

  lemma {:induction false} StorageEventsAreUnambiguous(boot: string, items: seq<Json>)
    requires IsLabel(boot) && !IsAmbiguous(boot) && StorageEvents(boot, items).Some?
    ensures forall e :: e in StorageEvents(boot, items).value ==> IsUnambiguous(e)
  {
    if items != [] {
      StorageEventsAreUnambiguous(boot, items[..|items| - 1]);
    }
  }

  /** The boot ID of a document, if it has one, cannot be mistaken. */
  predicate HasClearBoot(evidence: map<string, Json>) {
    var boot := Bounded(Lookup(evidence, "bootId", JNull));
    boot.Some? ==> !IsAmbiguous(boot.value)
  }

  lemma DocumentIsUnambiguous(evidence: map<string, Json>)
    requires HasClearBoot(evidence) && EventsOf(evidence).Some?
    ensures forall e :: e in EventsOf(evidence).value ==> IsUnambiguous(e)
  {
    var boot := Bounded(Lookup(evidence, "bootId", JNull)).value;
    StorageEventsAreUnambiguous(boot, Lookup(evidence, "storageIoErrors", JList([])).items);
  }

  lemma {:induction false} RunsAreUnambiguous(inputs: seq<RunInput>)
    requires forall i :: 0 <= i < |inputs| ==> HasClearBoot(inputs[i].evidence)
    ensures forall e :: e in AllEvents(inputs) ==> IsUnambiguous(e)
  {
    if inputs != [] {
      var n := |inputs| - 1;
      RunsAreUnambiguous(inputs[..n]);
      if EventsOf(inputs[n].evidence).Some? {
        DocumentIsUnambiguous(inputs[n].evidence);
      }
    }
  }

  /** On boot IDs that cannot be mistaken, however often documents repeat and runs are cut short, each
      counter is the number of distinct events whose first evidence named it. */
  lemma EachEventCountsOnce(inputs: seq<RunInput>, files: seq<Files>, n: nat, key: string)
    requires IsRun(inputs, files) && n <= |inputs|
    requires forall i :: 0 <= i < |inputs| ==> HasClearBoot(inputs[i].evidence)
    ensures CountOf(files[n].Current().counters, key) == |EventsUnder(EventLedger(AllEvents(inputs[..n])), key)|
  {
    var events := AllEvents(inputs[..n]);
    EachIdentityCountsOnce(inputs, files, n);
    RunsAreUnambiguous(inputs[..n]);
    forall i, j | 0 <= i < |events| && 0 <= j < |events| && events[i].identity == events[j].identity
      ensures events[i].of == events[j].of
    {
      assert events[i] in events && events[j] in events;
      if events[i].of != events[j].of {
        CollisionsAreAmbiguous(events[i].of, events[j].of);
      }
    }
    LedgersAgree(events, key);
  }

  /** The counters together never exceed the number of distinct events, and reach it exactly while no two
      of them share an identity. */
  lemma CountersMeetEvents(inputs: seq<RunInput>, files: seq<Files>, n: nat)
    requires IsRun(inputs, files) && n <= |inputs|
    ensures var events := AllEvents(inputs[..n]);
            && Sum(files[n].Current().counters) <= |EventLedger(events).Keys|
            && (Sum(files[n].Current().counters) == |EventLedger(events).Keys| <==> AreDistinguished(events))
  {
    EachIdentityCountsOnce(inputs, files, n);
    IdentitiesMeetEvents(AllEvents(inputs[..n]));
  }

  lemma {:induction false} IdentitiesMeetEvents(events: seq<Event>)
    ensures |Ledger(events).Keys| <= |EventLedger(events).Keys|
    ensures |Ledger(events).Keys| == |EventLedger(events).Keys| <==> AreDistinguished(events)
  {
    if events != [] {
      var n := |events| - 1;
      var before, e := events[..n], events[n];
      IdentitiesMeetEvents(before);
      LastIsDistinguished(events);
      if e.of !in EventLedger(before) {
        assert EventLedger(events).Keys == EventLedger(before).Keys + {e.of};
      }
      if e.identity !in Ledger(before) {
        assert Ledger(events).Keys == Ledger(before).Keys + {e.identity};
      }
    }
  }

  lemma {:induction false} LastIsDistinguished(events: seq<Event>)
    requires events != []
    ensures var before, e := events[..|events| - 1], events[|events| - 1];
            && (e.of in EventLedger(before) ==> e.identity in Ledger(before))
            && (AreDistinguished(events) <==>
                AreDistinguished(before) && (e.identity in Ledger(before) ==> e.of in EventLedger(before)))
  {
    var n := |events| - 1;
    var before, e := events[..n], events[n];
    LedgerHoldsEvents(before);
    EventLedgerHoldsEvents(before);
    if AreDistinguished(events) {
      forall i, j | 0 <= i < n && 0 <= j < n && before[i].identity == before[j].identity
        ensures before[i].of == before[j].of
      {
        assert events[i].of == events[j].of;
      }
      NewInBoth(events);
    }
    if e.of in EventLedger(before) {
      var k :| 0 <= k < n && before[k].of == e.of;
      assert before[k].identity == e.identity;
      if AreDistinguished(before) {
        OneMoreIsDistinguished(events, k);
      }
    } else if e.identity !in Ledger(before) && AreDistinguished(before) {
      NewIsDistinguished(events);
    }
  }

  lemma OneMoreIsDistinguished(events: seq<Event>, k: nat)
    requires events != [] && AreDistinguished(events[..|events| - 1])
    requires k < |events| - 1 && events[k].of == events[|events| - 1].of
    ensures AreDistinguished(events)
  {
    var n := |events| - 1;
    forall i, j | 0 <= i < |events| && 0 <= j < |events| && events[i].identity == events[j].identity
      ensures events[i].of == events[j].of
    {
      var i', j' := if i < n then i else k, if j < n then j else k;
      assert events[..n][i'].identity == events[..n][j'].identity;
      assert events[..n][i'].of == events[..n][j'].of;
    }
  }

  lemma NewIsDistinguished(events: seq<Event>)
    requires events != [] && AreDistinguished(events[..|events| - 1])
    requires events[|events| - 1].identity !in Ledger(events[..|events| - 1])
    ensures AreDistinguished(events)
  {
    var n := |events| - 1;
    LedgerHoldsEvents(events[..n]);
    forall i, j | 0 <= i < |events| && 0 <= j < |events| && events[i].identity == events[j].identity
      ensures events[i].of == events[j].of
    {
      if i < n {
        assert events[..n][i].identity == events[i].identity;
      }
      if j < n {
        assert events[..n][j].identity == events[j].identity;
      }
    }
  }

  // ---- documents that are counted short ----

  /** A document with one event, and the event it is evidence of. */
  function DocumentOf(o: Occurrence): map<string, Json> {
    match o
    case StorageError(boot, id) =>
      map["bootId" := JText(boot), "storageIoErrors" := JList([ItemOf(id)])]
    case WatchdogReset(boot, id) =>
      map["bootId" := JText(boot), "watchdogReset" := JObject(map["detected" := JBool(true), "id" := JText(id)])]
    case Panic(id) =>
      map["bootId" := JText("b"), "previousPanic" := JObject(map["detected" := JBool(true), "id" := JText(id)])]
  }

  function ItemOf(id: string): Json {
    JObject(map["id" := JText(id), "class" := JText("c"), "device" := JText("d")])
  }

  function EventOf(o: Occurrence): Event {
    match o
    case StorageError(_, _) => Event(o, StorageKey("c", "d"), "storage-io-error")
    case WatchdogReset(_, _) => Event(o, "watchdog", "watchdog-reset")
    case Panic(_) => Event(o, "panic", "previous-panic")
  }

  /** The events of a document, part by part. */
  lemma {:induction false} EventsJoin(document: map<string, Json>, boot: string, items: seq<Json>, panic: Json,
                                      watchdog: Json, s: seq<Event>, p: seq<Event>, w: seq<Event>)
    requires IsLabel(boot) && Lookup(document, "bootId", JNull) == JText(boot)
    requires Lookup(document, "storageIoErrors", JList([])) == JList(items)
    requires Lookup(document, "previousPanic", JObject(map[])) == panic
    requires Lookup(document, "watchdogReset", JObject(map[])) == watchdog
    requires Lookup(document, "availability", JObject(map[])) == JObject(map[])
    requires StorageEvents(boot, items) == Some(s)
    requires BootEvent(boot, panic, false) == Some(p) && BootEvent(boot, watchdog, true) == Some(w)
    ensures EventsOf(document) == Some(s + p + w)
  {
  }

  lemma DocumentHasEvent(o: Occurrence)
    requires IsBounded(o)
    ensures EventsOf(DocumentOf(o)) == Some([EventOf(o)])
  {
    LettersAreLabels();
    KeysDiffer();
    var document, e, absent := DocumentOf(o), EventOf(o), JObject(map[]);
    match o
    case StorageError(boot, id) =>
      OneStorageEvent(boot, id);
      EventsJoin(document, boot, [ItemOf(id)], absent, absent, [e], [], []);
      assert [e] + [] + [] == [e];
    case WatchdogReset(boot, id) =>
      EventsJoin(document, boot, [], absent, document["watchdogReset"], [], [], [e]);
      assert [] + [] + [e] == [e];
    case Panic(id) =>
      EventsJoin(document, "b", [], document["previousPanic"], absent, [], [e], []);
      assert [] + [e] + [] == [e];
  }

  lemma KeysDiffer()
    ensures var keys := ["bootId", "storageIoErrors", "previousPanic", "watchdogReset", "availability"];
            forall i, j :: 0 <= i < j < 5 ==> keys[i] != keys[j]
  {
    assert "bootId"[0] == 'b' && "storageIoErrors"[0] == 's' && "previousPanic"[0] == 'p';
    assert "watchdogReset"[0] == 'w' && "availability"[0] == 'a';
  }

  lemma LettersAreLabels()
    ensures IsLabel("b") && IsLabel("c") && IsLabel("d")
  {
    assert "b" == ['b'] && "c" == ['c'] && "d" == ['d'];
  }

  lemma {:induction false} OneStorageEvent(boot: string, id: string)
    requires IsLabel(boot) && IsLabel(id)
    ensures StorageEvents(boot, [ItemOf(id)]) == Some([EventOf(StorageError(boot, id))])
  {
    LettersAreLabels();
    var items := [ItemOf(id)];
    assert items[..|items| - 1] == [];
    assert StorageEvents(boot, items[..|items| - 1]) == Some([]);
    assert StorageEvent(boot, items[0]) == Some(EventOf(StorageError(boot, id)));
    assert [] + [EventOf(StorageError(boot, id))] == [EventOf(StorageError(boot, id))];
  }

  lemma {:induction false} EventsOfTwo(a: Occurrence, b: Occurrence, first: RunInput, second: RunInput)
    requires IsBounded(a) && first.evidence == DocumentOf(a) && IsBounded(b) && second.evidence == DocumentOf(b)
    ensures AllEvents([first, second]) == [EventOf(a), EventOf(b)]
  {
    DocumentHasEvent(a);
    DocumentHasEvent(b);
    assert [first, second][..1] == [first] && [first][..0] == [];
    assert AllEvents([first]) == [] + [EventOf(a)];
  }

  /** For every ambiguous boot ID there are two documents, the first of that boot, that carry two events
      but are counted as one, whenever they are read and wherever the runs stop. */
  lemma AmbiguousBootsAreMiscounted(boot: string) returns (a: Occurrence, b: Occurrence)
    requires IsLabel(boot) && IsAmbiguous(boot)
    ensures !a.Panic? && a.boot == boot && a != b
    ensures forall inputs: seq<RunInput>, files: seq<Files> ::
              IsRun(inputs, files) && |inputs| == 2
              && inputs[0].evidence == DocumentOf(a) && inputs[1].evidence == DocumentOf(b) ==>
                EventLedger(AllEvents(inputs)).Keys == {a, b} && Sum(files[2].Current().counters) == 1
  {
    a, b := AmbiguousBootsCollide(boot);
    forall inputs: seq<RunInput>, files: seq<Files> |
      IsRun(inputs, files) && |inputs| == 2
      && inputs[0].evidence == DocumentOf(a) && inputs[1].evidence == DocumentOf(b)
      ensures EventLedger(AllEvents(inputs)).Keys == {a, b} && Sum(files[2].Current().counters) == 1
    {
      assert inputs == [inputs[0], inputs[1]] && inputs[..2] == inputs;
      EventsOfTwo(a, b, inputs[0], inputs[1]);
      TwoAreOne(EventOf(a), EventOf(b));
      EachIdentityCountsOnce(inputs, files, 2);
    }
  }

  lemma {:induction false} TwoAreOne(a: Event, b: Event)
    requires Collide(a.of, b.of)
    ensures EventLedger([a, b]).Keys == {a.of, b.of} && |Ledger([a, b]).Keys| == 1
  {
    assert [a, b][..1] == [a] && [a][..0] == [];
    assert Ledger([a]) == map[a.identity := a.key] && EventLedger([a]) == map[a.of := a.key];
    assert Ledger([a, b]).Keys == {a.identity};
  }
}
