/** Which incidents are published for notification, and how they are labelled. */
module Alerts {
  import opened Basics
  import opened Timers
  import opened Rules
  import opened Health
  import opened Incidents
  import opened Maintenance

  datatype Label = Opening | Escalation | Improvement

  /** The row's severity differs from the one before it and is not Healthy. */
  predicate ChangesAt(ts: seq<Transition>, k: int)
    requires 0 < k < |ts|
  {
    ts[k].severity != ts[k - 1].severity && ts[k].severity != Healthy
  }

  /** The latest row that changes the severity. */
  function LastChange(ts: seq<Transition>): (i: Option<nat>)
    ensures i.Some? ==> 0 < i.value < |ts| && ChangesAt(ts, i.value)
    ensures forall k :: (if i.Some? then i.value else 0) < k < |ts| ==> !ChangesAt(ts, k)
  {
    var n := |ts| - 1;
    if n <= 0 then None
    else if ChangesAt(ts, n) then Some(n)
    else
      assert forall k :: 0 < k < n ==> ChangesAt(ts, k) == ChangesAt(ts[..n], k);
      LastChange(ts[..n])
  }

  function LabelAfter(ts: seq<Transition>): Label {
    var i := LastChange(ts);
    if i.None? then Opening else if ts[i.value].severity == Unavailable then Escalation else Improvement
  }

  method NotificationTransition(ts: seq<Transition>) returns (transition: Label)
    requires ts != []
    ensures transition == LabelAfter(ts)
  {
    var severity := ts[0].severity;
    transition := Opening;
    for i := 1 to |ts|
      invariant severity == ts[i - 1].severity
      invariant transition == LabelAfter(ts[..i])
    {
      assert ts[..i + 1][..i] == ts[..i];
      if ts[i].severity != severity {
        if ts[i].severity == Unavailable {
          transition := Escalation;
        } else if ts[i].severity == Degraded {
          transition := Improvement;
        }
        severity := ts[i].severity;
      }
    }
    assert ts[..|ts|] == ts;
  }

  /** What the label of an open incident means. */
  ghost function OpenLabel(ts: seq<Transition>, severity: Severity): Label {
    if forall t :: t in ts ==> t.severity == severity then Opening
    else if severity == Unavailable then Escalation
    else Improvement
  }

  lemma {:induction false} SteadySince(ts: seq<Transition>, from: nat, k: nat)
    requires from <= k < |ts|
    requires forall j :: from < j < |ts| ==> !ChangesAt(ts, j)
    requires forall t :: t in ts ==> t.severity != Healthy
    ensures ts[k].severity == ts[from].severity
    decreases k
  {
    if from < k {
      SteadySince(ts, from, k - 1);
      assert !ChangesAt(ts, k);
      assert ts[k] in ts;
    }
  }

  lemma LabelOfUnhealthyRows(ts: seq<Transition>)
    requires ts != [] && forall t :: t in ts ==> t.severity != Healthy
    ensures LabelAfter(ts) == OpenLabel(ts, ts[|ts| - 1].severity)
  {
    var change := LastChange(ts);
    var from := if change.Some? then change.value else 0;
    SteadySince(ts, from, |ts| - 1);
    if change.None? {
      forall t | t in ts ensures t.severity == ts[|ts| - 1].severity {
        var k :| 0 <= k < |ts| && ts[k] == t;
        SteadySince(ts, 0, k);
      }
    } else {
      assert ChangesAt(ts, from);
      assert ts[from - 1] in ts && ts[from] in ts;
    }
  }

  /** For every open incident a log can contain, the label is "opening" exactly when the severity never
      changed, and otherwise tells whether the current severity is the worse or the better one. */
  lemma {:induction false} OpenIncidentLabel(log: Log, i: nat)
    requires Consistent(log) && i < |log.incidents| && log.incidents[i].closedAt.None?
    ensures LabelAfter(TransitionsOf(log.transitions, i)) ==
            OpenLabel(TransitionsOf(log.transitions, i), log.incidents[i].severity)
  {
    assert IncidentConsistent(log, i);
    LabelOfUnhealthyRows(TransitionsOf(log.transitions, i));
  }

  /** A registered server: its display name and profile columns. */
  datatype Registered = Registered(name: string, profile: (string, int))

  datatype Duration = Duration(hours: nat, minutes: nat)

  datatype Series =
    | OpenSeries(incident: nat, severity: Severity, transition: Label, causes: seq<Rule>, content: Content)
    | RecoverySeries(incident: nat, content: Content)

  /** The labels besides the causes that people read. */
  datatype Content = Content(server: string, name: string, duration: Duration, annotation: Annotation)

  datatype Delivery = Firing(test: nat) | Recovered(test: nat)

  /** The whole minutes from one time to another, none when the clock stepped back. */
  function DurationOf(openedAt: int, until: int): (d: Duration)
    ensures d.minutes < 60
    ensures var length := (60 * d.hours + d.minutes) * 60 * SECOND;
            if until < openedAt then length == 0 else length <= until - openedAt < length + 60 * SECOND
  {
    var seconds := if until < openedAt then 0 else (until - openedAt) / SECOND;
    Duration(seconds / 3600, seconds % 3600 / 60)
  }

  function EndOf(row: Incident, now: int): int {
    if row.closedAt.Some? then row.closedAt.value else now
  }

  ghost predicate ActiveMaintenance(windows: seq<Window>, row: Incident, now: int) {
    exists w :: w in windows && Overlaps(w, row.server, row.openedAt, EndOf(row, now)) && Contains(w, now)
  }

  ghost predicate WhollyInMaintenance(windows: seq<Window>, row: Incident)
    requires row.closedAt.Some?
  {
    if row.openedAt < row.closedAt.value then InMaintenance(windows, row.server, row.openedAt, row.closedAt.value)
    else exists w :: w in windows && Overlaps(w, row.server, row.openedAt, row.closedAt.value)
  }

  ghost function ContentOf(windows: seq<Window>, servers: map<string, Registered>, row: Incident, now: int): Content
    requires row.server in servers
  {
    Content(row.server, servers[row.server].name, DurationOf(row.openedAt, EndOf(row, now)),
            EndedOrNone(windows, row.server, row.openedAt, EndOf(row, now)))
  }

  /** What is published about an incident of a registered server: nothing during maintenance; while it is
      open, its severity and how it came about; for a minute after it closed, its recovery, unless all of
      it was planned. */
  ghost function SeriesFor(log: Log, windows: seq<Window>, servers: map<string, Registered>, now: int, i: nat)
    : seq<Series>
    requires i < |log.incidents|
  {
    var row := log.incidents[i];
    var ts := TransitionsOf(log.transitions, i);
    if row.server !in servers || ActiveMaintenance(windows, row, now) || ts == [] then []
    else
      var content := ContentOf(windows, servers, row, now);
      if row.closedAt.None? then
        [OpenSeries(i, row.severity, OpenLabel(ts, row.severity), ts[|ts| - 1].causes, content)]
      else if !WhollyInMaintenance(windows, row) && now - row.closedAt.value <= 60 * SECOND then
        [RecoverySeries(i, content)]
      else []
  }

  ghost function AllSeries(log: Log, windows: seq<Window>, servers: map<string, Registered>, now: int, n: nat)
    : seq<Series>
    requires n <= |log.incidents|
  {
    if n == 0 then []
    else AllSeries(log, windows, servers, now, n - 1) + SeriesFor(log, windows, servers, now, n - 1)
  }

  /** By rising test: firing for half a minute after the request, recovered for the rest of two minutes. */
  ghost predicate Delivers(tests: seq<int>, now: int, deliveries: seq<Delivery>) {
    && (forall i, j :: 0 <= i < j < |deliveries| ==> deliveries[i].test < deliveries[j].test)
    && (forall d :: d in deliveries <==>
          d.test < |tests|
          && if d.Firing? then now - tests[d.test] < 30 * SECOND
             else 30 * SECOND <= now - tests[d.test] <= 120 * SECOND)
  }

  /** Everything published: a series for each incident that calls for one, and the delivery tests. */
  method CriticalAlertSeries(log: Log, windows: seq<Window>, servers: map<string, Registered>, tests: seq<int>,
                             now: int)
    returns (series: seq<Series>, deliveries: seq<Delivery>)
    requires Consistent(log)
    ensures series == AllSeries(log, windows, servers, now, |log.incidents|)
    ensures Delivers(tests, now, deliveries)
  {
    series := SeriesOfIncidents(log, windows, servers, now);
    deliveries := DeliverySeries(tests, now);
  }

  method SeriesOfIncidents(log: Log, windows: seq<Window>, servers: map<string, Registered>, now: int)
    returns (series: seq<Series>)
    requires Consistent(log)
    ensures series == AllSeries(log, windows, servers, now, |log.incidents|)
  {
    series := [];
    for i := 0 to |log.incidents|
      invariant series == AllSeries(log, windows, servers, now, i)
    {
      var own := IncidentSeries(log, windows, servers, now, i);
      series := series + own;
    }
  }

  method DeliverySeries(tests: seq<int>, now: int) returns (deliveries: seq<Delivery>)
    ensures Delivers(tests, now, deliveries)
  {
    deliveries := [];
    for i := 0 to |tests|
      invariant Delivers(tests[..i], now, deliveries)
    {
      if tests[i] >= now - 2 * 60 * SECOND {
        var d := if now - tests[i] < 30 * SECOND then Firing(i) else Recovered(i);
        deliveries := deliveries + [d];
      }
    }
    assert tests[..|tests|] == tests;
  }

  method IncidentSeries(log: Log, windows: seq<Window>, servers: map<string, Registered>, now: int, i: nat)
    returns (series: seq<Series>)
    requires Consistent(log) && i < |log.incidents|
    ensures series == SeriesFor(log, windows, servers, now, i)
  {
    var row := log.incidents[i];
    var ts := TransitionsOf(log.transitions, i);
    assert IncidentConsistent(log, i);
    var maintenance := IncidentMaintenance(windows, row.server, row.openedAt, row.closedAt, now);
    assert maintenance.active == ActiveMaintenance(windows, row, now);
    if row.server !in servers || ts == [] || maintenance.active {
      return [];
    }
    var duration := DurationOf(row.openedAt, if row.closedAt.None? then now else row.closedAt.value);
    var content := Content(row.server, servers[row.server].name, duration, maintenance.annotation);
    if row.closedAt.None? {
      var transition := NotificationTransition(ts);
      OpenIncidentLabel(log, i);
      return [OpenSeries(i, row.severity, transition, ts[|ts| - 1].causes, content)];
    }
    assert maintenance.whollyContained == WhollyInMaintenance(windows, row);
    if !maintenance.whollyContained && now - row.closedAt.value <= 60 * SECOND {
      return [RecoverySeries(i, content)];
    }
    return [];
  }

  // ---- what is published, instant by instant ----

  /** A window of the server contains the time, one that overlaps the incident. */
  ghost predicate IsUnderWork(windows: seq<Window>, row: Incident, end: int, now: int) {
    exists w :: w in windows && w.server == row.server && w.startsAt <= now < w.endsAt
                && w.startsAt < end && row.openedAt < w.endsAt
  }

  /** Some instant of the incident lies in no window; without length, no window overlaps it. */
  ghost predicate HasUnplanned(windows: seq<Window>, row: Incident, end: int) {
    if row.openedAt < end then
      exists t :: row.openedAt <= t < end && IsFree(windows, row.server, t)
    else
      forall w :: w in windows && w.server == row.server ==> !(w.startsAt < end && row.openedAt < w.endsAt)
  }

  ghost predicate IsFree(windows: seq<Window>, server: string, t: int) {
    forall w :: w in windows && w.server == server ==> !(w.startsAt <= t < w.endsAt)
  }

  ghost predicate IsOpenPublished(series: seq<Series>, i: nat) {
    exists x :: x in series && x.OpenSeries? && x.incident == i
  }

  ghost predicate IsRecoveryPublished(series: seq<Series>, i: nat) {
    exists x :: x in series && x.RecoverySeries? && x.incident == i
  }

  lemma {:induction false} SeriesAreOfIncidents(log: Log, windows: seq<Window>, servers: map<string, Registered>,
                                                now: int, n: nat, x: Series)
    requires n <= |log.incidents|
    ensures x in AllSeries(log, windows, servers, now, n) <==>
            x.incident < n && x in SeriesFor(log, windows, servers, now, x.incident)
  {
    if n > 0 {
      SeriesAreOfIncidents(log, windows, servers, now, n - 1, x);
    }
  }

  /** An open incident of a registered server is published exactly while no work is under way, a closed one
      exactly for a minute after it closed and if some of it was not planned. */
  lemma {:induction false} PublishedExactlyWhen(log: Log, windows: seq<Window>, servers: map<string, Registered>,
                                                now: int, i: nat)
    requires Consistent(log) && i < |log.incidents|
    ensures var row, series := log.incidents[i], AllSeries(log, windows, servers, now, |log.incidents|);
            && (IsOpenPublished(series, i) <==>
                  row.server in servers && row.closedAt.None? && !IsUnderWork(windows, row, now, now))
            && (IsRecoveryPublished(series, i) <==>
                  && row.server in servers && row.closedAt.Some? && now <= row.closedAt.value + 60_000_000
                  && !IsUnderWork(windows, row, row.closedAt.value, now)
                  && HasUnplanned(windows, row, row.closedAt.value))
  {
    var row, own := log.incidents[i], SeriesFor(log, windows, servers, now, i);
    assert IncidentConsistent(log, i);
    forall x: Series | x.incident == i
      ensures x in AllSeries(log, windows, servers, now, |log.incidents|) <==> x in own
    {
      SeriesAreOfIncidents(log, windows, servers, now, |log.incidents|, x);
    }
    WorkIsActive(windows, row, now);
    if row.closedAt.Some? {
      PlannedOrNot(windows, row);
    }
    if own != [] {
      assert own[0] in own;
    }
  }

  /** What is published of an incident besides: whose it is, how long it has lasted or lasted, and whether
      planned work ever overlapped it. */
  lemma {:induction false} ContentTells(log: Log, windows: seq<Window>, servers: map<string, Registered>, now: int,
                                        x: Series)
    requires x in AllSeries(log, windows, servers, now, |log.incidents|)
    ensures x.incident < |log.incidents|
    ensures var row := log.incidents[x.incident];
            var end := if x.RecoverySeries? && row.closedAt.Some? then row.closedAt.value else now;
            && row.server in servers && x.content.server == row.server && x.content.name == servers[row.server].name
            && x.content.duration == DurationOf(row.openedAt, end)
            && x.content.annotation ==
               if exists w :: w in windows && w.server == row.server && w.startsAt < end && row.openedAt < w.endsAt
               then WindowEnded else NoWindow
  {
    SeriesAreOfIncidents(log, windows, servers, now, |log.incidents|, x);
    EndedMeans(windows, log.incidents[x.incident], EndOf(log.incidents[x.incident], now));
  }

  lemma EndedMeans(windows: seq<Window>, row: Incident, end: int)
    ensures EndedOrNone(windows, row.server, row.openedAt, end) ==
            if exists w :: w in windows && w.server == row.server && w.startsAt < end && row.openedAt < w.endsAt
            then WindowEnded else NoWindow
  {
    if w :| w in windows && w.server == row.server && w.startsAt < end && row.openedAt < w.endsAt {
      assert Overlaps(w, row.server, row.openedAt, end);
    }
    if w :| w in windows && Overlaps(w, row.server, row.openedAt, end) {
      assert w.server == row.server;
    }
  }

  lemma WorkIsActive(windows: seq<Window>, row: Incident, now: int)
    ensures ActiveMaintenance(windows, row, now) <==> IsUnderWork(windows, row, EndOf(row, now), now)
  {
  }

  lemma PlannedOrNot(windows: seq<Window>, row: Incident)
    requires row.closedAt.Some?
    ensures WhollyInMaintenance(windows, row) <==> !HasUnplanned(windows, row, row.closedAt.value)
  {
    forall t ensures IsFree(windows, row.server, t) <==> !InSomeWindow(windows, row.server, t) {
    }
  }

  predicate ShowsLast(e: seq<Outcome>, x: Series) {
    e != [] && x.OpenSeries? && x.severity == e[|e| - 1].severity && x.causes == e[|e| - 1].causes
  }

  /** An open series of a server is that of its open incident, and shows its last evaluation. */
  lemma {:induction false} OpenSeriesShowLast(log: Log, e: seq<Outcome>, windows: seq<Window>,
                                              servers: map<string, Registered>, now: int, x: Series)
    requires x in AllSeries(log, windows, servers, now, |log.incidents|) && x.OpenSeries?
    requires Tracks(log, e, x.content.server)
    ensures OpenIncident(log.incidents, x.content.server) == Some(x.incident) && ShowsLast(e, x)
  {
    SeriesAreOfIncidents(log, windows, servers, now, |log.incidents|, x);
    OpenSeriesIsOfRow(log, windows, servers, now, x);
    OpenRowShowsLast(log, e, x.content.server, x.incident);
  }

  lemma {:induction false} OpenRowShowsLast(log: Log, e: seq<Outcome>, server: string, i: nat)
    requires Tracks(log, e, server) && i < |log.incidents|
    requires log.incidents[i].server == server && log.incidents[i].closedAt.None?
    ensures var ts := TransitionsOf(log.transitions, i);
            && OpenIncident(log.incidents, server) == Some(i) && e != [] && ts != []
            && log.incidents[i].severity == e[|e| - 1].severity && ts[|ts| - 1].causes == e[|e| - 1].causes
  {
    var open := OpenIncident(log.incidents, server);
    assert open.Some?;
    assert LatestAndOnlyOpen(log.incidents, open.value);
  }

  lemma {:induction false} OpenSeriesIsOfRow(log: Log, windows: seq<Window>, servers: map<string, Registered>, now: int,
                                             x: Series)
    requires x.incident < |log.incidents| && x in SeriesFor(log, windows, servers, now, x.incident) && x.OpenSeries?
    ensures var row, ts := log.incidents[x.incident], TransitionsOf(log.transitions, x.incident);
            && row.server == x.content.server && row.closedAt.None? && row.severity == x.severity
            && ts != [] && ts[|ts| - 1].causes == x.causes
  {
  }
}
