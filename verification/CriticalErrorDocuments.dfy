/** What a document of evidence is counted for, read from its fields. */
module CriticalErrorDocuments {
  import opened Basics
  import opened CriticalErrors
  import opened CriticalErrorsHelper
  import opened CriticalErrorIdentities

  // ---- fields ----

  predicate HasLabel(fields: map<string, Json>, key: string) {
    key in fields && fields[key].JText? && IsLabel(fields[key].text)
  }

  function TextOf(fields: map<string, Json>, key: string): string {
    if key in fields && fields[key].JText? then fields[key].text else ""
  }

  /** The listed storage errors; none without the field. */
  function ItemsOf(d: map<string, Json>): seq<Json> {
    if "storageIoErrors" in d && d["storageIoErrors"].JList? then d["storageIoErrors"].items else []
  }

  function FieldsOf(item: Json): map<string, Json> {
    if item.JObject? then item.fields else map[]
  }

  /** The evidence under the key is detected: its field says `true` and nothing else. */
  predicate IsDetected(d: map<string, Json>, key: string) {
    && key in d && d[key].JObject?
    && "detected" in d[key].fields && d[key].fields["detected"] == JBool(true)
  }

  function IdOf(d: map<string, Json>, key: string): string {
    if key in d then TextOf(FieldsOf(d[key]), "id") else ""
  }

  predicate IsItem(item: Json) {
    item.JObject? && HasLabel(item.fields, "id") && HasLabel(item.fields, "class") && HasLabel(item.fields, "device")
  }

  /** A field that may be missing, and else must be an object. */
  predicate MayHaveObject(d: map<string, Json>, key: string) {
    key in d ==> d[key].JObject?
  }

  predicate IsWellFormed(d: map<string, Json>) {
    && HasLabel(d, "bootId")
    && ("storageIoErrors" in d ==> d["storageIoErrors"].JList?)
    && (forall j :: 0 <= j < |ItemsOf(d)| ==> IsItem(ItemsOf(d)[j]))
    && MayHaveObject(d, "previousPanic") && MayHaveObject(d, "watchdogReset") && MayHaveObject(d, "availability")
    && (IsDetected(d, "previousPanic") ==> HasLabel(d["previousPanic"].fields, "id"))
    && (IsDetected(d, "watchdogReset") ==> HasLabel(d["watchdogReset"].fields, "id"))
  }

  /** One event for each listed item, under its own class and device, then one for a detected panic and one
      for a detected watchdog reset. */
  ghost predicate Lists(d: map<string, Json>, events: seq<Event>) {
    var boot, n := TextOf(d, "bootId"), |ItemsOf(d)|;
    var panic, watchdog := IsDetected(d, "previousPanic"), IsDetected(d, "watchdogReset");
    && |events| == n + (if panic then 1 else 0) + (if watchdog then 1 else 0)
    && (forall j :: 0 <= j < n ==> IsEventOf(events[j], boot, FieldsOf(ItemsOf(d)[j])))
    && (panic ==> events[n] == Event(Panic(IdOf(d, "previousPanic")), "panic", "previous-panic"))
    && (watchdog ==>
          events[|events| - 1] == Event(WatchdogReset(boot, IdOf(d, "watchdogReset")), "watchdog", "watchdog-reset"))
  }

  predicate IsEventOf(e: Event, boot: string, item: map<string, Json>) {
    e == Event(StorageError(boot, TextOf(item, "id")),
               "storage|" + TextOf(item, "class") + "|" + TextOf(item, "device"), "storage-io-error")
  }

  /** A document is counted exactly when it is well-formed, and then for the events it lists. */
  lemma DocumentsListEvents(d: map<string, Json>)
    ensures EventsOf(d).Some? <==> IsWellFormed(d)
    ensures EventsOf(d).Some? ==> Lists(d, EventsOf(d).value)
  {
    var boot := TextOf(d, "bootId");
    ItemsAreEvents(boot, ItemsOf(d));
    EvidenceIsEvent(boot, d, "previousPanic", false);
    EvidenceIsEvent(boot, d, "watchdogReset", true);
    PartsAreWellFormed(d);
    if EventsOf(d).Some? {
      EventsAreParts(d);
    }
  }

  function PartOf(d: map<string, Json>, key: string): Json {
    Lookup(d, key, JObject(map[]))
  }

  lemma EvidenceIsEvent(boot: string, d: map<string, Json>, key: string, watchdog: bool)
    ensures var part := BootEvent(boot, PartOf(d, key), watchdog);
            && (part.Some? <==> MayHaveObject(d, key) && (IsDetected(d, key) ==> HasLabel(d[key].fields, "id")))
            && (part.Some? ==>
                  part.value == (
                    if !IsDetected(d, key) then []
                    else if watchdog then [Event(WatchdogReset(boot, IdOf(d, key)), "watchdog", "watchdog-reset")]
                    else [Event(Panic(IdOf(d, key)), "panic", "previous-panic")]))
  {
  }

  lemma {:induction false} ItemsAreEvents(boot: string, items: seq<Json>)
    ensures StorageEvents(boot, items).Some? <==> forall j :: 0 <= j < |items| ==> IsItem(items[j])
    ensures StorageEvents(boot, items).Some? ==>
              var events := StorageEvents(boot, items).value;
              |events| == |items| && forall j :: 0 <= j < |items| ==> IsEventOf(events[j], boot, FieldsOf(items[j]))
  {
    if items != [] {
      var n := |items| - 1;
      ItemsAreEvents(boot, items[..n]);
      ItemIsEvent(boot, items[n]);
      if forall j :: 0 <= j < |items| ==> IsItem(items[j]) {
        assert forall j :: 0 <= j < n ==> items[..n][j] == items[j];
      }
      if StorageEvents(boot, items).Some? {
        forall j | 0 <= j < |items| ensures IsItem(items[j]) {
          assert j < n ==> IsItem(items[..n][j]);
        }
      }
    }
  }

  lemma ItemIsEvent(boot: string, item: Json)
    ensures StorageEvent(boot, item).Some? <==> IsItem(item)
    ensures IsItem(item) ==> IsEventOf(StorageEvent(boot, item).value, boot, FieldsOf(item))
  {
  }

  lemma {:induction false} PartsAreWellFormed(d: map<string, Json>)
    ensures EventsOf(d).Some? <==>
            && HasLabel(d, "bootId") && ("storageIoErrors" in d ==> d["storageIoErrors"].JList?)
            && StorageEvents(TextOf(d, "bootId"), ItemsOf(d)).Some?
            && BootEvent(TextOf(d, "bootId"), PartOf(d, "previousPanic"), false).Some?
            && BootEvent(TextOf(d, "bootId"), PartOf(d, "watchdogReset"), true).Some?
            && MayHaveObject(d, "availability")
  {
  }

  lemma {:induction false} EventsAreParts(d: map<string, Json>)
    requires EventsOf(d).Some?
    ensures EventsOf(d).value == StorageEvents(TextOf(d, "bootId"), ItemsOf(d)).value
              + BootEvent(TextOf(d, "bootId"), PartOf(d, "previousPanic"), false).value
              + BootEvent(TextOf(d, "bootId"), PartOf(d, "watchdogReset"), true).value
  {
  }

  // ---- the panic and the watchdog counter ----

  predicate ShowsPanic(d: map<string, Json>) {
    IsWellFormed(d) && IsDetected(d, "previousPanic")
  }

  predicate ShowsReset(d: map<string, Json>) {
    IsWellFormed(d) && IsDetected(d, "watchdogReset")
  }

  function ResetOf(d: map<string, Json>): (string, string) {
    (TextOf(d, "bootId"), IdOf(d, "watchdogReset"))
  }

  /** The IDs of the panics that the documents show as detected. */
  function Panics(inputs: seq<RunInput>): set<string> {
    set i | 0 <= i < |inputs| && ShowsPanic(inputs[i].evidence) :: IdOf(inputs[i].evidence, "previousPanic")
  }

  /** The boots and IDs of the watchdog resets that the documents show as detected. */
  function Resets(inputs: seq<RunInput>): set<(string, string)> {
    set i | 0 <= i < |inputs| && ShowsReset(inputs[i].evidence) :: ResetOf(inputs[i].evidence)
  }

  /** The counter is of the occurrence's kind. */
  ghost predicate KeyFits(o: Occurrence, key: string) {
    match o
    case Panic(_) => key == "panic"
    case WatchdogReset(_, _) => key == "watchdog"
    case StorageError(_, _) => key != "panic" && key != "watchdog" && IsStorageKey(key)
  }

  ghost predicate IsKeyed(e: Event) {
    KeyFits(e.of, e.key) && (e.of.StorageError? ==> e.kind == "storage-io-error")
  }

  lemma ListedEventsAreKeyed(d: map<string, Json>)
    requires EventsOf(d).Some?
    ensures forall e :: e in EventsOf(d).value ==> IsKeyed(e)
  {
    DocumentsListEvents(d);
    DocumentEventsAreKeyed(d);
    var events, n := EventsOf(d).value, |ItemsOf(d)|;
    forall e | e in events ensures IsKeyed(e) {
      var j :| 0 <= j < |events| && events[j] == e;
      if j < n {
        assert IsEventOf(events[j], TextOf(d, "bootId"), FieldsOf(ItemsOf(d)[j]));
        assert e.key[0] == 's';
      }
    }
  }

  lemma {:induction false} AllEventsAreKeyed(inputs: seq<RunInput>)
    ensures forall e :: e in AllEvents(inputs) ==> IsKeyed(e)
  {
    if inputs != [] {
      var last := inputs[|inputs| - 1].evidence;
      AllEventsAreKeyed(inputs[..|inputs| - 1]);
      if EventsOf(last).Some? {
        ListedEventsAreKeyed(last);
      }
    }
  }

  predicate Occurs(events: seq<Event>, o: Occurrence) {
    exists j :: 0 <= j < |events| && events[j].of == o
  }

  /** The document is counted for the occurrence. */
  predicate Carries(d: map<string, Json>, o: Occurrence) {
    EventsOf(d).Some? && Occurs(EventsOf(d).value, o)
  }

  /** A document carries a panic exactly when it is detected there. */
  lemma PanicIsCarried(d: map<string, Json>, id: string)
    ensures Carries(d, Panic(id)) <==>
            IsWellFormed(d) && IsDetected(d, "previousPanic") && IdOf(d, "previousPanic") == id
  {
    DocumentsListEvents(d);
    if IsWellFormed(d) {
      ListedPanic(d, EventsOf(d).value, id);
    }
  }

  lemma ListedPanic(d: map<string, Json>, events: seq<Event>, id: string)
    requires Lists(d, events)
    ensures Occurs(events, Panic(id)) <==> IsDetected(d, "previousPanic") && IdOf(d, "previousPanic") == id
  {
    var n := |ItemsOf(d)|;
    if IsDetected(d, "previousPanic") && IdOf(d, "previousPanic") == id {
      assert events[n].of == Panic(id);
    }
    if j :| 0 <= j < |events| && events[j].of == Panic(id) {
      assert j < n ==> IsEventOf(events[j], TextOf(d, "bootId"), FieldsOf(ItemsOf(d)[j]));
    }
  }

  lemma ResetIsCarried(d: map<string, Json>, boot: string, id: string)
    ensures Carries(d, WatchdogReset(boot, id)) <==>
            IsWellFormed(d) && IsDetected(d, "watchdogReset")
            && TextOf(d, "bootId") == boot && IdOf(d, "watchdogReset") == id
  {
    DocumentsListEvents(d);
    if IsWellFormed(d) {
      ListedReset(d, EventsOf(d).value, boot, id);
    }
  }

  lemma ListedReset(d: map<string, Json>, events: seq<Event>, boot: string, id: string)
    requires Lists(d, events)
    ensures Occurs(events, WatchdogReset(boot, id)) <==>
            IsDetected(d, "watchdogReset") && TextOf(d, "bootId") == boot && IdOf(d, "watchdogReset") == id
  {
    var n := |ItemsOf(d)|;
    if IsDetected(d, "watchdogReset") && TextOf(d, "bootId") == boot && IdOf(d, "watchdogReset") == id {
      assert events[|events| - 1].of == WatchdogReset(boot, id);
    }
    if j :| 0 <= j < |events| && events[j].of == WatchdogReset(boot, id) {
      assert j < n ==> IsEventOf(events[j], TextOf(d, "bootId"), FieldsOf(ItemsOf(d)[j]));
    }
  }

  predicate IsCarried(inputs: seq<RunInput>, o: Occurrence) {
    exists i :: 0 <= i < |inputs| && Carries(inputs[i].evidence, o)
  }

  lemma CarriedByOneMore(inputs: seq<RunInput>, o: Occurrence)
    requires inputs != []
    ensures IsCarried(inputs, o) <==>
            IsCarried(inputs[..|inputs| - 1], o) || Carries(inputs[|inputs| - 1].evidence, o)
  {
    var n := |inputs| - 1;
    if i :| 0 <= i < n && Carries(inputs[..n][i].evidence, o) {
      assert Carries(inputs[i].evidence, o);
    }
    if i :| 0 <= i < |inputs| && Carries(inputs[i].evidence, o) && i < n {
      assert Carries(inputs[..n][i].evidence, o);
    }
  }

  lemma OccursInJoined(a: seq<Event>, b: seq<Event>, o: Occurrence)
    ensures Occurs(a + b, o) <==> Occurs(a, o) || Occurs(b, o)
  {
    if j :| 0 <= j < |a| && a[j].of == o {
      assert (a + b)[j].of == o;
    }
    if j :| 0 <= j < |b| && b[j].of == o {
      assert (a + b)[|a| + j].of == o;
    }
    if j :| 0 <= j < |a + b| && (a + b)[j].of == o {
      assert if j < |a| then a[j].of == o else b[j - |a|].of == o;
    }
  }

  /** The events of a run are those its documents carry. */
  lemma {:induction false} EventsAreCarried(inputs: seq<RunInput>, o: Occurrence)
    ensures Occurs(AllEvents(inputs), o) <==> IsCarried(inputs, o)
  {
    if inputs != [] {
      var n := |inputs| - 1;
      EventsAreCarried(inputs[..n], o);
      CarriedByOneMore(inputs, o);
      var last := EventsOf(inputs[n].evidence);
      if last.Some? {
        OccursInJoined(AllEvents(inputs[..n]), last.value, o);
      }
    }
  }

  /** An event is in the ledger under the key of an event with it. */
  lemma {:induction false} LedgerKeysAreKeyed(events: seq<Event>, o: Occurrence)
    requires forall e :: e in events ==> IsKeyed(e)
    ensures o in EventLedger(events) <==> Occurs(events, o)
    ensures o in EventLedger(events) ==> KeyFits(o, EventLedger(events)[o])
  {
    EventLedgerHoldsEvents(events);
    if events != [] {
      var n := |events| - 1;
      assert forall e :: e in events[..n] ==> e in events;
      LedgerKeysAreKeyed(events[..n], o);
      assert IsKeyed(events[n]);
    }
  }

  lemma {:induction false} PanicsUnder(inputs: seq<RunInput>)
    ensures |EventsUnder(EventLedger(AllEvents(inputs)), "panic")| == |Panics(inputs)|
  {
    var under := EventsUnder(EventLedger(AllEvents(inputs)), "panic");
    var panics := set id | id in Panics(inputs) :: Panic(id);
    AllEventsAreKeyed(inputs);
    forall o ensures o in under <==> o in panics {
      LedgerKeysAreKeyed(AllEvents(inputs), o);
      EventsAreCarried(inputs, o);
      if o.Panic? {
        PanicIsDetected(inputs, o.id);
      }
    }
    assert under == panics;
    PanicsAreAsMany(Panics(inputs));
  }

  lemma PanicIsDetected(inputs: seq<RunInput>, id: string)
    ensures IsCarried(inputs, Panic(id)) <==> id in Panics(inputs)
  {
    if i :| 0 <= i < |inputs| && Carries(inputs[i].evidence, Panic(id)) {
      PanicIsCarried(inputs[i].evidence, id);
    }
    if id in Panics(inputs) {
      var i :| 0 <= i < |inputs| && ShowsPanic(inputs[i].evidence) && IdOf(inputs[i].evidence, "previousPanic") == id;
      PanicIsCarried(inputs[i].evidence, id);
    }
  }

  lemma {:induction false} PanicsAreAsMany(ids: set<string>)
    ensures |set id | id in ids :: Panic(id)| == |ids|
  {
    if ids != {} {
      var id :| id in ids;
      PanicsAreAsMany(ids - {id});
      assert (set x | x in ids :: Panic(x)) == (set x | x in ids - {id} :: Panic(x)) + {Panic(id)};
    }
  }

  lemma {:induction false} ResetsUnder(inputs: seq<RunInput>)
    ensures |EventsUnder(EventLedger(AllEvents(inputs)), "watchdog")| == |Resets(inputs)|
  {
    var under := EventsUnder(EventLedger(AllEvents(inputs)), "watchdog");
    var resets := set x | x in Resets(inputs) :: WatchdogReset(x.0, x.1);
    AllEventsAreKeyed(inputs);
    forall o ensures o in under <==> o in resets {
      LedgerKeysAreKeyed(AllEvents(inputs), o);
      EventsAreCarried(inputs, o);
      if o.WatchdogReset? {
        ResetIsDetected(inputs, o.boot, o.id);
      }
    }
    assert under == resets;
    ResetsAreAsMany(Resets(inputs));
  }

  lemma ResetIsDetected(inputs: seq<RunInput>, boot: string, id: string)
    ensures IsCarried(inputs, WatchdogReset(boot, id)) <==> (boot, id) in Resets(inputs)
  {
    if i :| 0 <= i < |inputs| && Carries(inputs[i].evidence, WatchdogReset(boot, id)) {
      ResetIsCarried(inputs[i].evidence, boot, id);
    }
    if (boot, id) in Resets(inputs) {
      var i :| 0 <= i < |inputs| && ShowsReset(inputs[i].evidence) && ResetOf(inputs[i].evidence) == (boot, id);
      ResetIsCarried(inputs[i].evidence, boot, id);
    }
  }

  lemma {:induction false} ResetsAreAsMany(resets: set<(string, string)>)
    ensures |set x | x in resets :: WatchdogReset(x.0, x.1)| == |resets|
  {
    if resets != {} {
      var r :| r in resets;
      ResetsAreAsMany(resets - {r});
      assert (set x | x in resets :: WatchdogReset(x.0, x.1))
          == (set x | x in resets - {r} :: WatchdogReset(x.0, x.1)) + {WatchdogReset(r.0, r.1)};
    }
  }

  /** Identities may merge events, never split them. */
  lemma {:induction false} CountersNeverExceedEvents(events: seq<Event>, key: string)
    ensures |Entries(Ledger(events), key)| <= |EventsUnder(EventLedger(events), key)|
  {
    if events == [] {
      assert Entries(map[], key) == {};
    } else {
      var n := |events| - 1;
      var before, e := events[..n], events[n];
      CountersNeverExceedEvents(before, key);
      LastIsDistinguished(events);
      if e.identity !in Ledger(before) {
        EntriesGrow(Ledger(before), e, key);
      }
      if e.of !in EventLedger(before) {
        EventsUnderGrow(EventLedger(before), e, key);
      }
    }
  }

  /** However often documents repeat and runs are cut short, the two counters never exceed the numbers of
      different panics and watchdog resets that documents show as detected, so that evidence not detected is
      never counted; and they are those numbers where no boot ID can be mistaken. */
  lemma DetectedEventsAreCounted(inputs: seq<RunInput>, files: seq<Files>, n: nat)
    requires IsRun(inputs, files) && n <= |inputs|
    ensures var counters := files[n].Current().counters;
            && 0 <= CountOf(counters, "panic") <= |Panics(inputs[..n])|
            && 0 <= CountOf(counters, "watchdog") <= |Resets(inputs[..n])|
            && ((forall i :: 0 <= i < |inputs| ==> HasClearBoot(inputs[i].evidence)) ==>
                  && CountOf(counters, "panic") == |Panics(inputs[..n])|
                  && CountOf(counters, "watchdog") == |Resets(inputs[..n])|)
  {
    EachIdentityCountsOnce(inputs, files, n);
    CountersNeverExceedEvents(AllEvents(inputs[..n]), "panic");
    CountersNeverExceedEvents(AllEvents(inputs[..n]), "watchdog");
    PanicsUnder(inputs[..n]);
    ResetsUnder(inputs[..n]);
    if forall i :: 0 <= i < |inputs| ==> HasClearBoot(inputs[i].evidence) {
      EachEventCountsOnce(inputs, files, n, "panic");
      EachEventCountsOnce(inputs, files, n, "watchdog");
    }
  }

  /** In particular, documents that show neither leave both counters at 0. */
  lemma {:induction false} UndetectedIsNotCounted(inputs: seq<RunInput>, files: seq<Files>)
    requires IsRun(inputs, files)
    requires forall i :: 0 <= i < |inputs| ==>
               !IsDetected(inputs[i].evidence, "previousPanic") && !IsDetected(inputs[i].evidence, "watchdogReset")
    ensures var counters := files[|inputs|].Current().counters;
            CountOf(counters, "panic") == 0 && CountOf(counters, "watchdog") == 0
  {
    assert inputs[..|inputs|] == inputs;
    assert Panics(inputs) == {} && Resets(inputs) == {};
    DetectedEventsAreCounted(inputs, files, |inputs|);
  }

  // ---- the storage counters ----

  /** Item `j` of the document has this class and device. */
  predicate ShowsError(d: map<string, Json>, j: int, errorClass: string, device: string) {
    && IsWellFormed(d) && 0 <= j < |ItemsOf(d)|
    && TextOf(FieldsOf(ItemsOf(d)[j]), "class") == errorClass && TextOf(FieldsOf(ItemsOf(d)[j]), "device") == device
  }

  /** The boot of the document and the ID of its item. */
  function ErrorOf(d: map<string, Json>, j: int): (string, string) {
    (TextOf(d, "bootId"), if 0 <= j < |ItemsOf(d)| then TextOf(FieldsOf(ItemsOf(d)[j]), "id") else "")
  }

  /** The boots and IDs of the storage errors listed under this class and device. */
  function Errors(inputs: seq<RunInput>, errorClass: string, device: string): set<(string, string)> {
    set i, j | 0 <= i < |inputs| && 0 <= j < |ItemsOf(inputs[i].evidence)|
               && ShowsError(inputs[i].evidence, j, errorClass, device) :: ErrorOf(inputs[i].evidence, j)
  }

  /** No storage error is listed under two classes or devices. */
  ghost predicate AreUnderOne(inputs: seq<RunInput>) {
    forall c, d, c', d' :: (c, d) != (c', d') ==> Errors(inputs, c, d) !! Errors(inputs, c', d')
  }

  function ErrorEvent(boot: string, id: string, errorClass: string, device: string): Event {
    Event(StorageError(boot, id), StorageKey(errorClass, device), "storage-io-error")
  }

  lemma {:induction false} EventIsOfDocument(inputs: seq<RunInput>, e: Event)
    ensures e in AllEvents(inputs) <==> HasEventIn(inputs, e)
  {
    if inputs != [] {
      EventIsOfDocument(inputs[..|inputs| - 1], e);
      EventInOneMore(inputs, e);
    }
  }

  predicate HasEventIn(inputs: seq<RunInput>, e: Event) {
    exists i :: 0 <= i < |inputs| && HasEvent(inputs[i].evidence, e)
  }

  lemma EventInOneMore(inputs: seq<RunInput>, e: Event)
    requires inputs != []
    ensures HasEventIn(inputs, e) <==>
            HasEventIn(inputs[..|inputs| - 1], e) || HasEvent(inputs[|inputs| - 1].evidence, e)
  {
    var n := |inputs| - 1;
    if i :| 0 <= i < n && HasEvent(inputs[..n][i].evidence, e) {
      assert HasEvent(inputs[i].evidence, e);
    }
    if i :| 0 <= i < |inputs| && HasEvent(inputs[i].evidence, e) && i < n {
      assert HasEvent(inputs[..n][i].evidence, e);
    }
  }

  predicate HasEvent(d: map<string, Json>, e: Event) {
    EventsOf(d).Some? && e in EventsOf(d).value
  }

  /** The storage events of a document are those its items show. */
  lemma ErrorIsListed(d: map<string, Json>, boot: string, id: string, errorClass: string, device: string)
    requires IsLabel(errorClass)
    ensures HasEvent(d, ErrorEvent(boot, id, errorClass, device)) <==>
            exists j :: ShowsError(d, j, errorClass, device) && ErrorOf(d, j) == (boot, id)
  {
    DocumentsListEvents(d);
    if IsWellFormed(d) {
      ListedError(d, EventsOf(d).value, boot, id, errorClass, device);
    }
  }

  lemma ListedError(d: map<string, Json>, events: seq<Event>, boot: string, id: string, errorClass: string,
                    device: string)
    requires IsWellFormed(d) && Lists(d, events) && IsLabel(errorClass)
    ensures ErrorEvent(boot, id, errorClass, device) in events <==>
            exists j :: ShowsError(d, j, errorClass, device) && ErrorOf(d, j) == (boot, id)
  {
    var e, n := ErrorEvent(boot, id, errorClass, device), |ItemsOf(d)|;
    if e in events {
      var j :| 0 <= j < |events| && events[j] == e;
      assert j < n;
      assert IsEventOf(events[j], TextOf(d, "bootId"), FieldsOf(ItemsOf(d)[j]));
      KeyTells(d, j, errorClass, device);
    }
    if j :| ShowsError(d, j, errorClass, device) && ErrorOf(d, j) == (boot, id) {
      assert IsEventOf(events[j], TextOf(d, "bootId"), FieldsOf(ItemsOf(d)[j]));
      assert "storage|" + errorClass + "|" + device == StorageKey(errorClass, device);
      assert events[j] == e;
    }
  }

  /** An item counted under the key of two labels has these labels. */
  lemma KeyTells(d: map<string, Json>, j: nat, errorClass: string, device: string)
    requires IsWellFormed(d) && j < |ItemsOf(d)| && IsLabel(errorClass)
    requires var item := FieldsOf(ItemsOf(d)[j]);
             "storage|" + TextOf(item, "class") + "|" + TextOf(item, "device") == StorageKey(errorClass, device)
    ensures ShowsError(d, j, errorClass, device)
  {
    var item := FieldsOf(ItemsOf(d)[j]);
    assert IsItem(ItemsOf(d)[j]);
    StorageKeySplits(errorClass, device);
    StorageKeySplits(TextOf(item, "class"), TextOf(item, "device"));
  }

  lemma {:induction false} ErrorIsInRun(inputs: seq<RunInput>, boot: string, id: string, errorClass: string,
                                        device: string)
    requires IsLabel(errorClass)
    ensures ErrorEvent(boot, id, errorClass, device) in AllEvents(inputs) <==>
            (boot, id) in Errors(inputs, errorClass, device)
  {
    var e := ErrorEvent(boot, id, errorClass, device);
    EventIsOfDocument(inputs, e);
    if i :| 0 <= i < |inputs| && HasEvent(inputs[i].evidence, e) {
      ErrorIsListed(inputs[i].evidence, boot, id, errorClass, device);
    }
    if (boot, id) in Errors(inputs, errorClass, device) {
      var i, j :| 0 <= i < |inputs| && 0 <= j < |ItemsOf(inputs[i].evidence)|
                  && ShowsError(inputs[i].evidence, j, errorClass, device)
                  && ErrorOf(inputs[i].evidence, j) == (boot, id);
      ErrorIsListed(inputs[i].evidence, boot, id, errorClass, device);
    }
  }

  /** The key of an event in the ledger is that of some event. */
  lemma {:induction false} LedgerKeyIsOfEvent(events: seq<Event>, o: Occurrence)
    ensures o in EventLedger(events) <==> Occurs(events, o)
    ensures o in EventLedger(events) ==> exists e :: e in events && e.of == o && e.key == EventLedger(events)[o]
  {
    EventLedgerHoldsEvents(events);
    if events != [] {
      var n := |events| - 1;
      LedgerKeyIsOfEvent(events[..n], o);
      if o in EventLedger(events[..n]) {
        var e :| e in events[..n] && e.of == o && e.key == EventLedger(events[..n])[o];
        assert e in events;
      } else if o in EventLedger(events) {
        assert events[n] in events;
      }
    }
  }

  lemma SubsetIsNoLarger<T>(a: set<T>, b: set<T>)
    requires a <= b
    ensures |a| <= |b|
  {
    assert b == a + (b - a);
  }

  lemma {:induction false} ErrorsAreAsMany(errors: set<(string, string)>)
    ensures |set x | x in errors :: StorageError(x.0, x.1)| == |errors|
  {
    if errors != {} {
      var r :| r in errors;
      ErrorsAreAsMany(errors - {r});
      assert (set x | x in errors :: StorageError(x.0, x.1))
          == (set x | x in errors - {r} :: StorageError(x.0, x.1)) + {StorageError(r.0, r.1)};
    }
  }

  /** What is under a storage counter was listed under its labels. */
  lemma {:induction false} UnderIsListed(inputs: seq<RunInput>, o: Occurrence, errorClass: string, device: string)
    requires IsLabel(errorClass)
    requires o in EventsUnder(EventLedger(AllEvents(inputs)), StorageKey(errorClass, device))
    ensures o.StorageError? && (o.boot, o.id) in Errors(inputs, errorClass, device)
  {
    var events := AllEvents(inputs);
    LedgerKeyIsOfEvent(events, o);
    AllEventsAreKeyed(inputs);
    var e :| e in events && e.of == o && e.key == StorageKey(errorClass, device);
    assert IsKeyed(e) && e.key[0] == "storage|"[0];
    assert e == ErrorEvent(o.boot, o.id, errorClass, device);
    ErrorIsInRun(inputs, o.boot, o.id, errorClass, device);
  }

  /** And where no error is listed under other labels too, everything listed under them is there. */
  lemma {:induction false} ListedIsUnder(inputs: seq<RunInput>, boot: string, id: string, errorClass: string,
                                         device: string)
    requires IsLabel(errorClass) && AreUnderOne(inputs) && (boot, id) in Errors(inputs, errorClass, device)
    ensures StorageError(boot, id) in EventsUnder(EventLedger(AllEvents(inputs)), StorageKey(errorClass, device))
  {
    var events, o := AllEvents(inputs), StorageError(boot, id);
    ErrorIsInRun(inputs, boot, id, errorClass, device);
    var k :| 0 <= k < |events| && events[k] == ErrorEvent(boot, id, errorClass, device);
    assert Occurs(events, o);
    LedgerKeyIsOfEvent(events, o);
    AllEventsAreKeyed(inputs);
    var e :| e in events && e.of == o && e.key == EventLedger(events)[o];
    assert IsKeyed(e);
    var c, d :| IsLabel(c) && IsLabel(d) && e.key == StorageKey(c, d);
    assert e == ErrorEvent(boot, id, c, d);
    ErrorIsInRun(inputs, boot, id, c, d);
    assert (c, d) == (errorClass, device);
  }

  lemma {:induction false} ErrorsUnder(inputs: seq<RunInput>, errorClass: string, device: string)
    requires IsLabel(errorClass)
    ensures var under := EventsUnder(EventLedger(AllEvents(inputs)), StorageKey(errorClass, device));
            && |under| <= |Errors(inputs, errorClass, device)|
            && (AreUnderOne(inputs) ==> |under| == |Errors(inputs, errorClass, device)|)
  {
    var under := EventsUnder(EventLedger(AllEvents(inputs)), StorageKey(errorClass, device));
    var errors := set x | x in Errors(inputs, errorClass, device) :: StorageError(x.0, x.1);
    forall o | o in under ensures o in errors {
      UnderIsListed(inputs, o, errorClass, device);
      assert (o.boot, o.id) in Errors(inputs, errorClass, device);
    }
    ErrorsAreAsMany(Errors(inputs, errorClass, device));
    SubsetIsNoLarger(under, errors);
    if AreUnderOne(inputs) {
      forall o | o in errors ensures o in under {
        ListedIsUnder(inputs, o.boot, o.id, errorClass, device);
      }
      assert under == errors;
    }
  }

  /** The same for every storage counter: it never exceeds the number of different errors listed under its
      class and device, and is that number where no boot ID can be mistaken and no error is listed under two. */
  lemma ListedErrorsAreCounted(inputs: seq<RunInput>, files: seq<Files>, n: nat, errorClass: string, device: string)
    requires IsRun(inputs, files) && n <= |inputs| && IsLabel(errorClass)
    ensures var count := CountOf(files[n].Current().counters, StorageKey(errorClass, device));
            && 0 <= count <= |Errors(inputs[..n], errorClass, device)|
            && ((forall i :: 0 <= i < |inputs| ==> HasClearBoot(inputs[i].evidence)) && AreUnderOne(inputs[..n]) ==>
                  count == |Errors(inputs[..n], errorClass, device)|)
  {
    var key := StorageKey(errorClass, device);
    EachIdentityCountsOnce(inputs, files, n);
    CountersNeverExceedEvents(AllEvents(inputs[..n]), key);
    ErrorsUnder(inputs[..n], errorClass, device);
    if forall i :: 0 <= i < |inputs| ==> HasClearBoot(inputs[i].evidence) {
      EachEventCountsOnce(inputs, files, n, key);
    }
  }

  // ---- the output ----

  /** A run that is not cut short shows its time, which sources the document has available, and the counters
      and latest times of the state it leaves. */
  lemma OutputShows(f: Files, g: Files, d: map<string, Json>, now: int)
    requires RunStep(f, g, d, now, false) && IsWellFormed(d)
    ensures g.state.Some? && g.output.Some?
    ensures var out, counters := g.output.value, g.state.value.counters;
            && out.heartbeat == now && out.latest == g.state.value.latest
            && out.panic == (if "panic" in counters then counters["panic"] else 0)
            && out.watchdog == (if "watchdog" in counters then counters["watchdog"] else 0)
            && |out.sources| == 3
            && out.sources[0] == ("journal", Says(d, "journal")) && out.sources[1] == ("pstore", Says(d, "pstore"))
            && out.sources[2] == ("watchdog", Says(d, "watchdog"))
  {
    DocumentsListEvents(d);
  }

  /** The document says `true` of the source, and nothing else. */
  predicate Says(d: map<string, Json>, source: string) {
    && "availability" in d && d["availability"].JObject?
    && source in d["availability"].fields && d["availability"].fields[source] == JBool(true)
  }
}
