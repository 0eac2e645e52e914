/** The health tables: stored rule states, the incident log and the Maintenance Windows. */
module HealthStore {
  import opened Basics
  import opened Thresholds
  import opened Rules
  import opened Conditions
  import opened Timers
  import opened Health
  import opened Incidents
  import opened Maintenance
  import IsoText
  import Alerts

  /** A row of `server_health_evaluations`. */
  datatype Stored = Stored(states: map<Rule, RuleState>, health: Severity, evaluatedAt: int)

  /** An incident as it is shown. */
  datatype Listed = Listed(id: nat, incident: Incident, transitions: seq<Transition>, windows: seq<Window>)

  /** The log is that of the evaluations made, and each stored health is that of the latest. */
  ghost predicate ReflectsHistory(outcomes: seq<Outcome>, log: Log, evaluations: map<string, Stored>) {
    && (forall o :: o in outcomes ==> WellFormed(o))
    && log == Replay(outcomes)
    && HealthsReflect(outcomes, evaluations)
  }

  ghost predicate HealthsReflect(outcomes: seq<Outcome>, evaluations: map<string, Stored>) {
    forall s :: LatestHealth(ForServer(outcomes, s)) == if s in evaluations then Some(evaluations[s].health) else None
  }

  /** The stored rule states of every server are those of the run of its evaluations. */
  ghost predicate StatesReflect(history: map<string, seq<Evaluation>>, evaluations: map<string, Stored>) {
    forall s :: IsRunOf(StatesIn(evaluations, s), HistoryIn(history, s))
  }

  ghost predicate IsRunOf(states: map<Rule, RuleState>, steps: seq<Evaluation>) {
    forall rule: Rule :: Get(states, rule) == RuleAfter(steps, rule)
  }

  function StatesIn(evaluations: map<string, Stored>, server: string): map<Rule, RuleState> {
    if server in evaluations then evaluations[server].states else map[]
  }

  function HistoryIn(history: map<string, seq<Evaluation>>, server: string): seq<Evaluation> {
    if server in history then history[server] else []
  }

  /** One more evaluation of a server leaves states that are again those of a run. */
  lemma {:induction false} RunGrows(states: map<Rule, RuleState>, steps: seq<Evaluation>, e: Evaluation,
                                    next: map<Rule, RuleState>)
    requires IsRunOf(states, steps) && Follows(states, e.obs, e.ov, e.now, next)
    ensures IsRunOf(next, steps + [e])
  {
    assert (steps + [e])[..|steps|] == steps;
    forall rule: Rule ensures Get(next, rule) == RuleAfter(steps + [e], rule) {
      assert Get(states, rule) == RuleAfter(steps, rule);
      assert Get(next, rule) == NextState(Get(states, rule), e.obs, e.ov, e.now, rule);
    }
  }

  lemma StatesGrow(history: map<string, seq<Evaluation>>, evaluations: map<string, Stored>, server: string,
                   e: Evaluation, row: Stored)
    requires StatesReflect(history, evaluations)
    requires Follows(StatesIn(evaluations, server), e.obs, e.ov, e.now, row.states)
    ensures StatesReflect(history[server := HistoryIn(history, server) + [e]], evaluations[server := row])
  {
    var history', evaluations' := history[server := HistoryIn(history, server) + [e]], evaluations[server := row];
    forall s ensures IsRunOf(StatesIn(evaluations', s), HistoryIn(history', s)) {
      assert IsRunOf(StatesIn(evaluations, s), HistoryIn(history, s));
      if s == server {
        RunGrows(StatesIn(evaluations, s), HistoryIn(history, s), e, row.states);
      }
    }
  }

  /** The outcome is that of the run of these evaluations: it was made at the last, its causes are the
      active rules in canonical order, and they give its severity. */
  ghost predicate IsOutcomeOf(o: Outcome, steps: seq<Evaluation>) {
    && steps != [] && o.at == steps[|steps| - 1].now
    && Ascending(o.causes) && (forall rule: Rule :: rule in o.causes <==> ActiveAfter(steps, rule))
    && o.severity == SeverityOf(Elements(o.causes))
  }

  /** Outcome by outcome, those of the run of these evaluations. */
  ghost predicate AreOutcomesOf(e: seq<Outcome>, steps: seq<Evaluation>) {
    |e| == |steps| && forall k :: 0 <= k < |e| ==> IsOutcomeOf(e[k], steps[..k + 1])
  }

  /** The outcomes of every server are those of the run of its evaluations. */
  ghost predicate OutcomesReflect(outcomes: seq<Outcome>, history: map<string, seq<Evaluation>>) {
    forall s :: AreOutcomesOf(ForServer(outcomes, s), HistoryIn(history, s))
  }

  /** Made at the last evaluation, the outcome is Unavailable for lost telemetry and Healthy for no active
      rule, and for nothing else. */
  ghost predicate Tells(o: Outcome, steps: seq<Evaluation>, lost: bool) {
    && steps != [] && o.at == steps[|steps| - 1].now
    && (o.severity == Unavailable <==> lost)
    && (o.severity == Healthy <==> forall rule: Rule :: !ActiveAfter(steps, rule))
  }

  lemma {:induction false} OutcomeTells(o: Outcome, steps: seq<Evaluation>)
    requires IsOutcomeOf(o, steps)
    ensures Tells(o, steps, ActiveAfter(steps, PrimaryTelemetry))
  {
    assert forall rule: Rule :: rule in o.causes <==> rule in Elements(o.causes);
    EmptyElements(o.causes);
    if o.causes != [] {
      assert o.causes[0] in o.causes;
    }
  }

  /** Over the evaluations, what the outcomes tell of telemetry is that failure was held. */
  ghost predicate TellTelemetry(e: seq<Outcome>, steps: seq<Evaluation>) {
    exists acts :: IsHoldTrace(TelemetrySamples(steps), Timers.Holds(120, 60), acts) && AllTell(e, steps, acts)
  }

  ghost predicate AllTell(e: seq<Outcome>, steps: seq<Evaluation>, acts: seq<bool>) {
    && |e| == |steps| && |acts| == |steps| + 1
    && forall k :: 0 <= k < |e| ==> Tells(e[k], steps[..k + 1], acts[k + 1])
  }

  lemma {:induction false} OutcomesTellTelemetry(e: seq<Outcome>, steps: seq<Evaluation>)
    requires AreOutcomesOf(e, steps)
    ensures TellTelemetry(e, steps)
  {
    var acts := Activity(steps, PrimaryTelemetry, 0, |steps|);
    LostTelemetryIsHeld(steps);
    forall k | 0 <= k < |e| ensures Tells(e[k], steps[..k + 1], acts[k + 1]) {
      assert IsOutcomeOf(e[k], steps[..k + 1]);
      OutcomeTells(e[k], steps[..k + 1]);
    }
    assert AllTell(e, steps, acts);
  }

  lemma OutcomeOfRun(o: Outcome, steps: seq<Evaluation>, states: map<Rule, RuleState>)
    requires steps != [] && o.at == steps[|steps| - 1].now && IsRunOf(states, steps)
    requires o.severity == SeverityOf(ActiveRules(states)) && o.causes == Canonical(ActiveRules(states))
    ensures IsOutcomeOf(o, steps)
  {
    assert Elements(o.causes) == ActiveRules(states);
    forall rule: Rule ensures rule in o.causes <==> ActiveAfter(steps, rule) {
      assert rule in o.causes <==> rule in Elements(o.causes);
      assert Get(states, rule) == RuleAfter(steps, rule);
    }
  }

  /** The states and the outcome that one more evaluation of the server gives. */
  ghost predicate Evaluates(before: map<string, Stored>, e: Evaluation, o: Outcome, states: map<Rule, RuleState>) {
    && o.at == e.now
    && Follows(StatesIn(before, o.server), e.obs, e.ov, e.now, states)
    && o.causes == Canonical(ActiveRules(states)) && o.severity == SeverityOf(ActiveRules(states))
  }

  lemma EvaluationHasOutcome(history: map<string, seq<Evaluation>>, before: map<string, Stored>, e: Evaluation,
                             o: Outcome, states: map<Rule, RuleState>)
    requires StatesReflect(history, before)
    requires Evaluates(before, e, o, states)
    ensures IsOutcomeOf(o, HistoryIn(history, o.server) + [e])
  {
    assert IsRunOf(StatesIn(before, o.server), HistoryIn(history, o.server));
    RunGrows(StatesIn(before, o.server), HistoryIn(history, o.server), e, states);
    OutcomeOfRun(o, HistoryIn(history, o.server) + [e], states);
  }

  lemma OutcomesExtend(e: seq<Outcome>, steps: seq<Evaluation>, o: Outcome, last: Evaluation)
    requires AreOutcomesOf(e, steps) && IsOutcomeOf(o, steps + [last])
    ensures AreOutcomesOf(e + [o], steps + [last])
  {
    var e', steps' := e + [o], steps + [last];
    forall k | 0 <= k < |e'| ensures IsOutcomeOf(e'[k], steps'[..k + 1]) {
      if k < |e| {
        assert steps'[..k + 1] == steps[..k + 1];
        assert IsOutcomeOf(e[k], steps[..k + 1]);
      } else {
        assert steps'[..k + 1] == steps';
      }
    }
  }

  lemma OutcomesGrow(outcomes: seq<Outcome>, history: map<string, seq<Evaluation>>, o: Outcome, last: Evaluation)
    requires OutcomesReflect(outcomes, history) && IsOutcomeOf(o, HistoryIn(history, o.server) + [last])
    ensures OutcomesReflect(outcomes + [o], history[o.server := HistoryIn(history, o.server) + [last]])
  {
    var history' := history[o.server := HistoryIn(history, o.server) + [last]];
    forall s ensures AreOutcomesOf(ForServer(outcomes + [o], s), HistoryIn(history', s)) {
      assert AreOutcomesOf(ForServer(outcomes, s), HistoryIn(history, s));
      ForServerGrows(outcomes, o, s);
      if s == o.server {
        OutcomesExtend(ForServer(outcomes, s), HistoryIn(history, s), o, last);
      } else {
        assert ForServer(outcomes + [o], s) == ForServer(outcomes, s);
      }
    }
  }

  function LatestHealth(e: seq<Outcome>): Option<Severity> {
    if e == [] then None else Some(e[|e| - 1].severity)
  }

  lemma HistoryGrows(outcomes: seq<Outcome>, log: Log, evaluations: map<string, Stored>, o: Outcome, row: Stored)
    requires ReflectsHistory(outcomes, log, evaluations) && WellFormed(o) && row.health == o.severity
    ensures ReflectsHistory(outcomes + [o], Record(log, o), evaluations[o.server := row])
  {
    ReplayGrows(outcomes, o);
    HealthsGrow(outcomes, evaluations, o, row);
  }

  lemma HealthsGrow(outcomes: seq<Outcome>, evaluations: map<string, Stored>, o: Outcome, row: Stored)
    requires HealthsReflect(outcomes, evaluations) && row.health == o.severity
    ensures HealthsReflect(outcomes + [o], evaluations[o.server := row])
  {
    var after := evaluations[o.server := row];
    forall s
      ensures LatestHealth(ForServer(outcomes + [o], s)) == if s in after then Some(after[s].health) else None
    {
      assert LatestHealth(ForServer(outcomes, s)) == if s in evaluations then Some(evaluations[s].health) else None;
      LatestGrows(outcomes, o, s);
    }
  }

  lemma {:induction false} LatestGrows(outcomes: seq<Outcome>, o: Outcome, s: string)
    ensures LatestHealth(ForServer(outcomes + [o], s)) ==
            if s == o.server then Some(o.severity) else LatestHealth(ForServer(outcomes, s))
  {
    ForServerGrows(outcomes, o, s);
  }

  lemma {:induction false} OutcomeIsWellFormed(o: Outcome, active: set<Rule>)
    requires o.severity == SeverityOf(active) && o.causes == Canonical(active)
    ensures WellFormed(o)
  {
    if active == {} {
      EmptyElements(Canonical(active));
    }
  }

  /** The tables are those that the evaluations made so far leave. */
  ghost predicate TablesReflect(outcomes: seq<Outcome>, history: map<string, seq<Evaluation>>, log: Log,
                                evaluations: map<string, Stored>) {
    && ReflectsHistory(outcomes, log, evaluations)
    && StatesReflect(history, evaluations)
    && OutcomesReflect(outcomes, history)
  }

  /** One more evaluation, with its rows written, leaves tables that are again those of the evaluations. */
  lemma EvaluationGrows(outcomes: seq<Outcome>, history: map<string, seq<Evaluation>>, log: Log,
                        before: map<string, Stored>, e: Evaluation, o: Outcome, states: map<Rule, RuleState>)
    requires TablesReflect(outcomes, history, log, before)
    requires Evaluates(before, e, o, states)
    ensures TablesReflect(outcomes + [o], history[o.server := HistoryIn(history, o.server) + [e]], Record(log, o),
                          before[o.server := Stored(states, o.severity, o.at)])
  {
    OutcomeIsWellFormed(o, ActiveRules(states));
    HistoryGrows(outcomes, log, before, o, Stored(states, o.severity, o.at));
    StatesGrow(history, before, o.server, e, Stored(states, o.severity, o.at));
    EvaluationHasOutcome(history, before, e, o, states);
    OutcomesGrow(outcomes, history, o, e);
  }

  /** A window of the server that contains the time, and none that does started later. */
  ghost predicate IsActiveWindow(windows: seq<Window>, server: string, now: int, active: Window) {
    && active in windows && active.server == server && Contains(active, now)
    && forall w :: w in windows && w.server == server && Contains(w, now) ==> w.startsAt <= active.startsAt
  }

  class HealthDatabase {
    var evaluations: map<string, Stored>
    var incidents: seq<Incident>
    var transitions: seq<Transition>
    var windows: seq<Window>
    /** The rows of `servers`. */
    var servers: map<string, Alerts.Registered>
    /** When each delivery test was requested; its identifier is its position. */
    var tests: seq<int>
    /** Every evaluation so far. */
    ghost var outcomes: seq<Outcome>
    /** What each server was evaluated on, so far. */
    ghost var history: map<string, seq<Evaluation>>

    function CurrentLog(): Log
      reads this
    {
      Log(incidents, transitions)
    }

    function StatesOf(server: string): map<Rule, RuleState>
      reads this
    {
      StatesIn(evaluations, server)
    }

    /** The profile columns of a server's row. */
    function ProfileOf(server: string): Option<(string, int)>
      reads this
    {
      if server in servers then Some(servers[server].profile) else None
    }

    /** The tables are those the evaluations made so far leave. */
    ghost predicate Valid()
      reads this
    {
      TablesReflect(outcomes, history, CurrentLog(), evaluations)
    }

    constructor ()
      ensures Valid() && outcomes == [] && history == map[] && windows == [] && servers == map[] && tests == []
    {
      evaluations, incidents, transitions := map[], [], [];
      windows, servers, tests := [], map[], [];
      outcomes, history := [], map[];
    }

    /** Whatever overrides the evaluations of a server were made with, if each list was accepted, every
        cause that the global thresholds would give now is among the active rules stored. */
    lemma OverridesNeverHideCauses(server: string)
      requires Valid() && AllAccepted(HistoryIn(history, server))
      ensures forall rule: Rule :: ActiveAfter(Global(HistoryIn(history, server)), rule) ==>
                rule in ActiveRules(StatesOf(server))
    {
      var steps := HistoryIn(history, server);
      assert IsRunOf(StatesOf(server), steps);
      forall rule: Rule | ActiveAfter(Global(steps), rule) ensures rule in ActiveRules(StatesOf(server)) {
        OverriddenRunCovers(steps, rule);
        assert Get(StatesOf(server), rule) == RuleAfter(steps, rule);
      }
    }

    /** The log of a server is the record, without repeats, of what the run of its own observations gives:
        the outcomes are those of its evaluations, one for one, the transitions are they without repeats and
        leading Healthy ones, and the incidents their maximal blocks away from Healthy. */
    lemma {:induction false} LogShowsObservations(server: string)
      requires Valid()
      ensures AreOutcomesOf(ForServer(outcomes, server), HistoryIn(history, server))
      ensures References(CurrentLog())
      ensures ServerMarks(CurrentLog(), server) == Destutter(ForServer(outcomes, server))
      ensures RowsMatch(ForServer(outcomes, server), RowsOf(incidents, server))
    {
      TransitionsAreStutterFree(outcomes, server);
      IncidentsAreBlocks(outcomes, server);
    }

    /** What the severities of a server say, evaluation by evaluation: Unavailable exactly while telemetry
        failures were held for 120 seconds and no success since for 60, Healthy exactly without any active
        rule, and Degraded otherwise. */
    lemma {:induction false} SeverityTellsTelemetry(server: string)
      requires Valid()
      ensures |ForServer(outcomes, server)| == |HistoryIn(history, server)|
      ensures TellTelemetry(ForServer(outcomes, server), HistoryIn(history, server))
    {
      OutcomesTellTelemetry(ForServer(outcomes, server), HistoryIn(history, server));
    }

    /** What is published of a server says what its last evaluation said: an open incident, with the severity
        and the causes of that evaluation, unless it was Healthy or work is under way, and then nothing. */
    lemma {:induction false} AlertsFollowLastEvaluation(server: string, now: int)
      requires Valid()
      ensures var e, i := ForServer(outcomes, server), OpenIncident(incidents, server);
              var series := Alerts.AllSeries(CurrentLog(), windows, servers, now, |incidents|);
              && (i.Some? <==> e != [] && e[|e| - 1].severity != Healthy)
              && (i.Some? ==>
                    (Alerts.IsOpenPublished(series, i.value) <==>
                     server in servers && !Alerts.IsUnderWork(windows, incidents[i.value], now, now)))
              && forall x :: x in series && x.OpenSeries? && x.content.server == server ==>
                   i == Some(x.incident) && Alerts.ShowsLast(e, x)
    {
      var e, i := ForServer(outcomes, server), OpenIncident(incidents, server);
      ReplayTracks(outcomes, server);
      ReplayIsConsistent(outcomes);
      if i.Some? {
        Alerts.PublishedExactlyWhen(CurrentLog(), windows, servers, now, i.value);
      }
      forall x | x in Alerts.AllSeries(CurrentLog(), windows, servers, now, |incidents|)
                 && x.OpenSeries? && x.content.server == server
        ensures i == Some(x.incident) && Alerts.ShowsLast(e, x)
      {
        Alerts.OpenSeriesShowLast(CurrentLog(), e, windows, servers, now, x);
      }
    }

    /** Writes what an evaluation changes in the incident tables. */
    method RecordIncidentTransition(server: string, health: Severity, causes: seq<Rule>, at: int)
      modifies this`incidents, this`transitions
      ensures CurrentLog() ==
              Record(old(CurrentLog()), Outcome(server, at, health, causes, ProfileOf(server)))
    {
      var open := OpenIncident(incidents, server);
      if health == Healthy {
        if open.None? {
          return;
        }
        var i := open.value;
        incidents := incidents[i := incidents[i].(closedAt := Some(at), severity := Healthy)];
        transitions := transitions + [Transition(i, at, Healthy, [])];
        return;
      }
      if open.None? {
        incidents := incidents + [Incident(server, at, None, health, ProfileOf(server))];
        transitions := transitions + [Transition(|incidents| - 1, at, health, causes)];
        return;
      }
      var i := open.value;
      var written := TransitionsOf(transitions, i);
      if written != [] {
        var latest := written[|written| - 1];
        if latest.severity == health && latest.causes == causes {
          return;
        }
      }
      incidents := incidents[i := incidents[i].(severity := health)];
      transitions := transitions + [Transition(i, at, health, causes)];
    }

    /** The active window that started last. */
    method ActiveMaintenanceWindow(server: string, now: int) returns (active: Option<Window>)
      ensures active.None? <==> !InSomeWindow(windows, server, now)
      ensures active.Some? ==> IsActiveWindow(windows, server, now, active.value)
    {
      active := None;
      for i := 0 to |windows|
        invariant active.None? ==> forall w :: w in windows[..i] && w.server == server ==> !Contains(w, now)
        invariant active.Some? ==> IsActiveWindow(windows[..i], server, now, active.value)
      {
        var w := windows[i];
        assert windows[..i + 1] == windows[..i] + [w];
        if w.server == server && Contains(w, now) && (active.None? || w.startsAt > active.value.startsAt) {
          active := Some(w);
        }
      }
      assert windows[..|windows|] == windows;
    }

    /** One evaluation of a server, from its stored rule states to the log. */
    method EvaluateServerHealth(server: string, obs: Observation, now: int, ov: seq<Json>)
      returns (health: Severity, causes: seq<Rule>, window: Option<Window>)
      requires Valid()
      modifies this`evaluations, this`incidents, this`transitions, this`outcomes, this`history
      ensures Valid()
      ensures outcomes == old(outcomes) + [Outcome(server, now, health, causes, ProfileOf(server))]
      ensures history == old(history)[server := HistoryIn(old(history), server) + [Evaluation(now, obs, ov)]]
      ensures Follows(old(StatesOf(server)), obs, ov, now, StatesOf(server))
      ensures causes == Canonical(ActiveRules(StatesOf(server))) && health == SeverityOf(ActiveRules(StatesOf(server)))
      ensures health == Unavailable <==> PrimaryTelemetry in causes
      ensures health == Healthy <==> causes == []
      ensures evaluations == old(evaluations)[server := Stored(StatesOf(server), health, now)]
      ensures window.Some? <==> InSomeWindow(windows, server, now)
      ensures window.Some? ==> IsActiveWindow(windows, server, now, window.value)
    {
      var stored := StatesOf(server);
      var states;
      states, causes, health := EvaluateRules(stored, obs, ov, now);
      RecordIncidentTransition(server, health, causes, now);
      evaluations := evaluations[server := Stored(states, health, now)];
      ghost var e, o := Evaluation(now, obs, ov), Outcome(server, now, health, causes, ProfileOf(server));
      EvaluationGrows(outcomes, history, old(CurrentLog()), old(evaluations), e, o, states);
      NoteEvaluation(e, o);
      window := ActiveMaintenanceWindow(server, now);
    }

    /** Enters an evaluation, whose rows are written, into the history. */
    ghost method NoteEvaluation(e: Evaluation, o: Outcome)
      modifies this`outcomes, this`history
      ensures outcomes == old(outcomes) + [o]
      ensures history == old(history)[o.server := HistoryIn(old(history), o.server) + [e]]
    {
      outcomes, history := outcomes + [o], history[o.server := HistoryIn(history, o.server) + [e]];
    }

    /** Declares planned work; `None` is the refusal of an empty interval or a blank reason. */
    method CreateMaintenanceWindow(server: string, startsAt: int, endsAt: int, reason: string)
      returns (id: Option<nat>)
      modifies this`windows
      ensures id.Some? <==> startsAt < endsAt && Strip(reason) != ""
      ensures id.None? ==> windows == old(windows)
      ensures id.Some? ==> id.value == |old(windows)|
                           && windows == old(windows) + [Window(server, startsAt, endsAt, Strip(reason))]
    {
      if endsAt <= startsAt || Strip(reason) == "" {
        return None;
      }
      windows := windows + [Window(server, startsAt, endsAt, Strip(reason))];
      id := Some(|windows| - 1);
    }

    /** The incidents of a server, newest first, with their transitions and windows. */
    method ListIncidents(server: string) returns (listed: seq<Listed>)
      requires Valid()
      ensures RowsMatch(ForServer(outcomes, server), OldestFirst(listed))
      ensures ListsAll(listed, incidents, server)
      ensures forall l :: l in listed ==> Shows(l, CurrentLog(), windows)
    {
      listed := Listing(CurrentLog(), windows, server);
      IncidentsAreBlocks(outcomes, server);
    }

    /** Asks for a delivery test. */
    method CreateNotificationDeliveryTest(requestedAt: int) returns (id: nat)
      modifies this`tests
      ensures tests == old(tests) + [requestedAt] && id == |old(tests)|
    {
      tests := tests + [requestedAt];
      id := |tests| - 1;
    }

    /** What is published for notification, from any tables evaluations can leave. */
    method CriticalAlerts(now: int) returns (series: seq<Alerts.Series>, deliveries: seq<Alerts.Delivery>)
      requires Valid()
      ensures Consistent(CurrentLog())
      ensures series == Alerts.AllSeries(CurrentLog(), windows, servers, now, |incidents|)
      ensures Alerts.Delivers(tests, now, deliveries)
    {
      ReplayIsConsistent(outcomes);
      series, deliveries := Alerts.CriticalAlertSeries(CurrentLog(), windows, servers, tests, now);
    }
  }

  /** The listed ids fall strictly, and are those of all incidents of the server. */
  ghost predicate ListsAll(listed: seq<Listed>, incidents: seq<Incident>, server: string) {
    && (forall i, j :: 0 <= i < j < |listed| ==> listed[j].id < listed[i].id)
    && (forall l :: l in listed ==> l.id < |incidents| && incidents[l.id].server == server)
    && (forall k :: 0 <= k < |incidents| && incidents[k].server == server ==> IsListed(listed, k))
  }

  predicate IsListed(listed: seq<Listed>, id: nat) {
    exists l :: l in listed && l.id == id
  }

  /** A listed incident is the stored one, with its own transitions and the windows overlapping it. */
  ghost predicate Shows(l: Listed, log: Log, windows: seq<Window>) {
    l.id < |log.incidents| && l == Shown(log, windows, l.id)
  }

  function Shown(log: Log, windows: seq<Window>, id: nat): Listed
    requires id < |log.incidents|
  {
    var row := log.incidents[id];
    Listed(id, row, TransitionsOf(log.transitions, id), Overlapping(windows, row.server, row.openedAt, Until(row)))
  }

  /** The windows shown with an incident are those of its server that overlap it, up to its closing or, while
      it is open, up to the end of the year 9999. */
  lemma ShownWindowsOverlap(log: Log, windows: seq<Window>, id: nat, w: Window)
    requires id < |log.incidents|
    ensures var row := log.incidents[id];
            w in Shown(log, windows, id).windows <==>
            && w in windows && w.server == row.server && row.openedAt < w.endsAt
            && w.startsAt < if row.closedAt.Some? then row.closedAt.value
                            else IsoText.Instant(IsoText.Stamp(9999, 12, 31, 23, 59, 59, 0))
  {
    var row := log.incidents[id];
    OverlappingMembers(windows, row.server, row.openedAt, Until(row));
  }

  /** The end of an incident for the windows shown with it; an open one has none yet. */
  function Until(row: Incident): int {
    if row.closedAt.Some? then row.closedAt.value else IsoText.FarFuture()
  }

  method Listing(log: Log, windows: seq<Window>, server: string) returns (listed: seq<Listed>)
    ensures OldestFirst(listed) == RowsOf(log.incidents, server)
    ensures ListsAll(listed, log.incidents, server)
    ensures forall l :: l in listed ==> Shows(l, log, windows)
  {
    listed := [];
    for i := 0 to |log.incidents|
      invariant OldestFirst(listed) == RowsOf(log.incidents[..i], server)
      invariant ListsAll(listed, log.incidents[..i], server)
      invariant forall l :: l in listed ==> Shows(l, log, windows)
    {
      RowsOneMore(log.incidents, i, server);
      if log.incidents[i].server == server {
        var l := Shown(log, windows, i);
        NewestGoesFirst(listed, log.incidents, i, server, l);
        OldestFirstGrows(listed, l);
        listed := [l] + listed;
      } else {
        OthersAreSkipped(listed, log.incidents, i, server);
      }
    }
    assert log.incidents[..|log.incidents|] == log.incidents;
  }

  lemma {:induction false} RowsOneMore(incidents: seq<Incident>, i: nat, server: string)
    requires i < |incidents|
    ensures var row := incidents[i];
            RowsOf(incidents[..i + 1], server) == RowsOf(incidents[..i], server)
              + if row.server == server then [Row(row.openedAt, row.closedAt, row.severity, row.profile)] else []
  {
    assert incidents[..i + 1][..i] == incidents[..i];
  }

  lemma OthersAreSkipped(listed: seq<Listed>, incidents: seq<Incident>, i: nat, server: string)
    requires i < |incidents| && incidents[i].server != server && ListsAll(listed, incidents[..i], server)
    ensures ListsAll(listed, incidents[..i + 1], server)
  {
    forall k | 0 <= k < i + 1 && incidents[..i + 1][k].server == server ensures IsListed(listed, k) {
      assert incidents[..i][k].server == server;
    }
  }

  /** One more incident of the server goes in front. */
  lemma NewestGoesFirst(listed: seq<Listed>, incidents: seq<Incident>, i: nat, server: string, l: Listed)
    requires i < |incidents| && incidents[i].server == server && l.id == i
    requires ListsAll(listed, incidents[..i], server)
    ensures ListsAll([l] + listed, incidents[..i + 1], server)
  {
    var more := [l] + listed;
    assert forall k :: 0 < k < |more| ==> more[k] == listed[k - 1] && listed[k - 1] in listed;
    forall k | 0 <= k < i + 1 && incidents[..i + 1][k].server == server ensures IsListed(more, k) {
      if k == i {
        assert l in more && l.id == k;
      } else {
        assert incidents[..i][k].server == server;
        StaysListed(listed, l, k);
      }
    }
  }

  lemma StaysListed(listed: seq<Listed>, l: Listed, id: nat)
    requires IsListed(listed, id)
    ensures IsListed([l] + listed, id)
  {
    var x :| x in listed && x.id == id;
    assert x in [l] + listed;
  }

  lemma {:induction false} OldestFirstGrows(listed: seq<Listed>, l: Listed)
    ensures var row := l.incident;
            OldestFirst([l] + listed) ==
            OldestFirst(listed) + [Row(row.openedAt, row.closedAt, row.severity, row.profile)]
  {
    assert ([l] + listed)[1..] == listed;
  }

  /** The rows of a newest-first listing, oldest first. */
  function OldestFirst(listed: seq<Listed>): (rows: seq<Row>)
    ensures |rows| == |listed|
  {
    if listed == [] then []
    else
      var row := listed[0].incident;
      OldestFirst(listed[1..]) + [Row(row.openedAt, row.closedAt, row.severity, row.profile)]
  }
}
