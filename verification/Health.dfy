/** Server Health over a run of evaluations: the stored rule states, the causes and the severity. */
module Health {
  import opened Basics
  import opened Thresholds
  import opened Rules
  import opened Conditions
  import opened Timers

  datatype Severity = Healthy | Degraded | Unavailable {
    function Rank(): nat {
      match this
      case Healthy => 0
      case Degraded => 1
      case Unavailable => 2
    }
  }

  const ABSENT_MOUNT := Condition(Some(false), Some(true), 0, 300)
  const LOST_GPU := Condition(None, None, 0, 0)

  /** The condition used for a rule, including those kept for stored rules whose evidence vanished. */
  function ConditionUsed(stored: bool, obs: Observation, ov: seq<Json>, rule: Rule): Option<Condition> {
    var built := ConditionFor(obs, ov, rule);
    if built.Some? || !stored then built
    else if rule.FilesystemReadOnly? && obs.criticalErrors.Some? then Some(ABSENT_MOUNT)
    else if rule.IsGpu() && obs.gpuCoverageExpected then Some(LOST_GPU)
    else None
  }

  function AdvanceBy(state: RuleState, c: Condition, now: int): RuleState {
    Advance(state, now, c.firing, c.clearing, c.firingSeconds, c.clearingSeconds)
  }

  /** What one evaluation makes of one rule; `None` is a rule without stored state. */
  function NextState(prev: Option<RuleState>, obs: Observation, ov: seq<Json>, now: int, rule: Rule)
    : Option<RuleState>
  {
    var c := ConditionUsed(prev.Some?, obs, ov, rule);
    if c.None? then None
    else Some(AdvanceBy(if prev.Some? then prev.value else IDLE, c.value, now))
  }

  function ActiveRules(states: map<Rule, RuleState>): set<Rule> {
    set r | r in states && states[r].active
  }

  function SeverityOf(active: set<Rule>): Severity {
    if PrimaryTelemetry in active then Unavailable else if active != {} then Degraded else Healthy
  }

  /** Unavailable is lost telemetry, Healthy is no active rule, and Degraded everything else. */
  ghost predicate SeverityFits(health: Severity, states: map<Rule, RuleState>) {
    && (health == Unavailable <==> PrimaryTelemetry in states && states[PrimaryTelemetry].active)
    && (health == Healthy <==> forall r: Rule :: r in states ==> !states[r].active)
  }

  lemma SeverityTells(states: map<Rule, RuleState>)
    ensures SeverityFits(SeverityOf(ActiveRules(states)), states)
  {
    if r: Rule :| r in states && states[r].active {
      assert r in ActiveRules(states);
    }
  }

  /** `next` holds exactly what the evaluation makes of every rule. */
  ghost predicate Follows(states: map<Rule, RuleState>, obs: Observation, ov: seq<Json>, now: int,
                          next: map<Rule, RuleState>) {
    forall r: Rule ::
      var s := NextState(Get(states, r), obs, ov, now, r);
      (r in next <==> s.Some?) && (r in next ==> Some(next[r]) == s)
  }

  /** Adds the conditions kept for stored rules whose evidence vanished. */
  method KeepStored(states: map<Rule, RuleState>, built: map<Rule, Condition>, obs: Observation, ghost ov: seq<Json>)
    returns (conditions: map<Rule, Condition>)
    requires Conditions.Holds(built, obs, ov)
    ensures forall r: Rule ::
      var c := ConditionUsed(r in states, obs, ov, r);
      (r in conditions <==> c.Some?) && (r in conditions ==> Some(conditions[r]) == c)
  {
    conditions := built;
    if obs.criticalErrors.Some? {
      var rest := states.Keys;
      while rest != {}
        invariant rest <= states.Keys
        invariant forall r: Rule :: r in conditions <==>
          r in built || (r in states && r !in rest && r.FilesystemReadOnly?)
        invariant forall r: Rule :: r in conditions ==>
          conditions[r] == if r in built then built[r] else ABSENT_MOUNT
        decreases rest
      {
        var rule :| rule in rest;
        rest := rest - {rule};
        if rule.FilesystemReadOnly? && rule !in conditions {
          conditions := conditions[rule := Condition(Some(false), Some(true), 0, 5 * 60)];
        }
      }
    }
    ghost var some := conditions;
    if obs.gpuCoverageExpected {
      var rest := states.Keys;
      while rest != {}
        invariant rest <= states.Keys
        invariant forall r: Rule :: r in conditions <==> r in some || (r in states && r !in rest && r.IsGpu())
        invariant forall r: Rule :: r in conditions ==> conditions[r] == if r in some then some[r] else LOST_GPU
        decreases rest
      {
        var rule :| rule in rest;
        rest := rest - {rule};
        if rule.IsGpu() && rule !in conditions {
          conditions := conditions[rule := Condition(None, None, 0, 0)];
        }
      }
    }
  }

  method ConditionsInUse(stored: map<Rule, RuleState>, obs: Observation, ov: seq<Json>)
    returns (conditions: map<Rule, Condition>)
    ensures forall r: Rule ::
      var c := ConditionUsed(r in stored, obs, ov, r);
      (r in conditions <==> c.Some?) && (r in conditions ==> Some(conditions[r]) == c)
  {
    var built := RuleConditions(obs, ov);
    conditions := KeepStored(stored, built, obs, ov);
  }

  /** Drops the stored rules without a condition and advances the others. */
  method AdvanceAll(stored: map<Rule, RuleState>, conditions: map<Rule, Condition>, now: int)
    returns (states: map<Rule, RuleState>)
    ensures states.Keys == conditions.Keys
    ensures forall r: Rule :: r in states ==>
      states[r] == AdvanceBy(if r in stored then stored[r] else IDLE, conditions[r], now)
  {
    states := map rule | rule in stored && rule in conditions :: stored[rule];
    var rest := conditions.Keys;
    while rest != {}
      invariant rest <= conditions.Keys
      invariant forall r: Rule :: r in states <==> r in conditions && (r in stored || r !in rest)
      invariant forall r: Rule :: r in states ==>
        states[r] == if r in rest then stored[r]
                     else AdvanceBy(if r in stored then stored[r] else IDLE, conditions[r], now)
      decreases rest
    {
      var rule :| rule in rest;
      rest := rest - {rule};
      var c := conditions[rule];
      var state := AdvanceRule(Get(states, rule), now, c.firing, c.clearing, c.firingSeconds, c.clearingSeconds);
      states := states[rule := state];
    }
  }

  /** One evaluation of all rules. */
  method EvaluateRules(stored: map<Rule, RuleState>, obs: Observation, ov: seq<Json>, now: int)
    returns (states: map<Rule, RuleState>, causes: seq<Rule>, health: Severity)
    ensures Follows(stored, obs, ov, now, states)
    ensures causes == Canonical(ActiveRules(states))
    ensures health == SeverityOf(ActiveRules(states))
    ensures SeverityFits(health, states)
  {
    var conditions := ConditionsInUse(stored, obs, ov);
    states := AdvanceAll(stored, conditions, now);
    causes, health := Assess(states);
  }

  /** The causes of the active rules, and the severity. */
  method Assess(states: map<Rule, RuleState>) returns (causes: seq<Rule>, health: Severity)
    ensures causes == Canonical(ActiveRules(states))
    ensures health == SeverityOf(ActiveRules(states)) && SeverityFits(health, states)
  {
    var active := set r | r in states && states[r].active;
    causes := OrderedRules(active);
    health := if PrimaryTelemetry in active then Unavailable else if active != {} then Degraded else Healthy;
    SeverityTells(states);
  }

  // ---- runs ----

  /** One evaluation, with the overrides the server's profile has at that time. */
  datatype Evaluation = Evaluation(now: int, obs: Observation, ov: seq<Json>)

  /** The stored state of one rule after a run that starts without stored states. */
  function RuleAfter(steps: seq<Evaluation>, rule: Rule): Option<RuleState> {
    if steps == [] then None
    else
      var s := steps[|steps| - 1];
      NextState(RuleAfter(steps[..|steps| - 1], rule), s.obs, s.ov, s.now, rule)
  }

  predicate ActiveAfter(steps: seq<Evaluation>, rule: Rule) {
    var s := RuleAfter(steps, rule);
    s.Some? && s.value.active
  }

  /** The stored states after a run, as `EvaluateRules` leaves them one after the other. */
  ghost predicate StatesAfter(steps: seq<Evaluation>, states: seq<map<Rule, RuleState>>) {
    && |states| == |steps| + 1
    && states[0] == map[]
    && forall i {:trigger states[i + 1]} :: 0 <= i < |steps| ==>
         Follows(states[i], steps[i].obs, steps[i].ov, steps[i].now, states[i + 1])
  }

  lemma {:induction false} RuleAfterExtends(steps: seq<Evaluation>, rule: Rule, n: nat)
    requires n < |steps|
    ensures RuleAfter(steps[..n + 1], rule) ==
            NextState(RuleAfter(steps[..n], rule), steps[n].obs, steps[n].ov, steps[n].now, rule)
  {
    assert steps[..n + 1][..n] == steps[..n];
  }

  lemma {:induction false} RuleAfterJoined(before: seq<Evaluation>, e: Evaluation, rule: Rule)
    ensures RuleAfter(before + [e], rule) == NextState(RuleAfter(before, rule), e.obs, e.ov, e.now, rule)
  {
    assert (before + [e])[..|before|] == before;
  }

  /** Runs from the same state through the same evaluation end in the same state. */
  lemma {:induction false} SameNext(a: seq<Evaluation>, b: seq<Evaluation>, e: Evaluation, rule: Rule)
    requires RuleAfter(a, rule) == RuleAfter(b, rule)
    ensures RuleAfter(a + [e], rule) == RuleAfter(b + [e], rule)
  {
    RuleAfterJoined(a, e, rule);
    RuleAfterJoined(b, e, rule);
  }

  /** Where a rule has no stored state it starts afresh: what follows is a run of its own. */
  lemma {:induction false} RuleStartsAfresh(before: seq<Evaluation>, rest: seq<Evaluation>, rule: Rule)
    requires RuleAfter(before, rule).None?
    ensures RuleAfter(before + rest, rule) == RuleAfter(rest, rule)
  {
    if rest == [] {
      assert before + rest == before;
    } else {
      var k := |rest| - 1;
      RuleStartsAfresh(before, rest[..k], rule);
      SameNext(before + rest[..k], rest[..k], rest[k], rule);
      SplitsLast(before, rest);
    }
  }

  lemma {:induction false} StretchIsRun(steps: seq<Evaluation>, rule: Rule, m: nat, n: nat, k: nat)
    requires m + k <= n <= |steps| && RuleAfter(steps[..m], rule).None?
    ensures ActiveAfter(steps[m..n][..k], rule) == ActiveAfter(steps[..m + k], rule)
  {
    SliceTakes(steps, m, n, k);
    RuleStartsAfresh(steps[..m], steps[m..n][..k], rule);
  }

  /** The stored dictionary is, rule by rule, the run of that rule. */
  lemma {:induction false} StatesAreRuleRuns(steps: seq<Evaluation>,
                                             states: seq<map<Rule, RuleState>>, n: nat, rule: Rule)
    requires StatesAfter(steps, states) && n <= |steps|
    ensures Get(states[n], rule) == RuleAfter(steps[..n], rule)
  {
    if n > 0 {
      StatesAreRuleRuns(steps, states, n - 1, rule);
      RuleAfterExtends(steps, rule, n - 1);
      assert Follows(states[n - 1], steps[n - 1].obs, steps[n - 1].ov, steps[n - 1].now, states[n]);
    }
  }

  // ---- overrides never weaken health ----

  /** Timer `a` started no later than timer `b`. */
  predicate Ahead(a: Option<int>, b: Option<int>) {
    b.Some? ==> a.Some? && a.value <= b.value
  }

  /** State `o` is at least as alarmed as state `b`. */
  predicate Covers(b: Option<RuleState>, o: Option<RuleState>) {
    && b.Some? == o.Some?
    && (b.Some? ==>
          && (b.value.active ==> o.value.active)
          && (!b.value.active && !o.value.active ==> Ahead(o.value.firingSince, b.value.firingSince))
          && (b.value.active && o.value.active ==> Ahead(b.value.clearingSince, o.value.clearingSince)))
  }

  lemma CoversAdvances(b: RuleState, o: RuleState, cb: Condition, co: Condition, now: int)
    requires Covers(Some(b), Some(o))
    requires Dominates(Some(cb), Some(co)) && Disjoint(cb) && Disjoint(co)
    requires cb.firingSeconds == co.firingSeconds && cb.clearingSeconds == co.clearingSeconds
    ensures Covers(Some(AdvanceBy(b, cb, now)), Some(AdvanceBy(o, co, now)))
  {
  }

  /** The same evaluations under the global thresholds. */
  function Global(steps: seq<Evaluation>): (g: seq<Evaluation>)
    ensures |g| == |steps|
  {
    seq(|steps|, i requires 0 <= i < |steps| => steps[i].(ov := []))
  }

  /** Every override list in force during a run was accepted. */
  predicate AllAccepted(steps: seq<Evaluation>) {
    forall i :: 0 <= i < |steps| ==> Accepted(steps[i].ov)
  }

  /** The two runs, with and without overrides, stay related evaluation by evaluation. */
  lemma {:induction false} OverriddenRunCovers(steps: seq<Evaluation>, rule: Rule)
    requires AllAccepted(steps)
    ensures Covers(RuleAfter(Global(steps), rule), RuleAfter(steps, rule))
  {
    if steps != [] {
      var before, s := steps[..|steps| - 1], steps[|steps| - 1];
      assert Global(steps)[..|steps| - 1] == Global(before);
      OverriddenRunCovers(before, rule);
      NextStateCovers(RuleAfter(Global(before), rule), RuleAfter(before, rule), s, rule);
    }
  }

  lemma NextStateCovers(b: Option<RuleState>, o: Option<RuleState>, s: Evaluation, rule: Rule)
    requires Covers(b, o) && Accepted(s.ov)
    ensures Covers(NextState(b, s.obs, [], s.now, rule), NextState(o, s.obs, s.ov, s.now, rule))
  {
    OverridesOnlyTightenConditions(s.obs, s.ov, rule);
    FiringAndClearingAreDisjoint(s.obs, [], rule);
    FiringAndClearingAreDisjoint(s.obs, s.ov, rule);
    HoldTimesAreFixed(s.obs, [], rule);
    HoldTimesAreFixed(s.obs, s.ov, rule);
    var cb, co := ConditionUsed(b.Some?, s.obs, [], rule), ConditionUsed(o.Some?, s.obs, s.ov, rule);
    if cb.Some? {
      CoversAdvances(if b.Some? then b.value else IDLE, if o.Some? then o.value else IDLE, cb.value, co.value, s.now);
    }
  }

  /** Whatever the observations, the clock and the profile changes in between, accepted overrides never
      hide a cause nor lower the severity that the global thresholds give. */
  lemma OverridesNeverWeakenHealth(steps: seq<Evaluation>, n: nat,
                                   global: seq<map<Rule, RuleState>>, overridden: seq<map<Rule, RuleState>>)
    requires AllAccepted(steps) && n <= |steps|
    requires StatesAfter(Global(steps), global) && StatesAfter(steps, overridden)
    ensures ActiveRules(global[n]) <= ActiveRules(overridden[n])
    ensures SeverityOf(ActiveRules(global[n])).Rank() <= SeverityOf(ActiveRules(overridden[n])).Rank()
  {
    forall r | r in ActiveRules(global[n]) ensures r in ActiveRules(overridden[n]) {
      StatesAreRuleRuns(Global(steps), global, n, r);
      StatesAreRuleRuns(steps, overridden, n, r);
      assert Global(steps)[..n] == Global(steps[..n]);
      OverriddenRunCovers(steps[..n], r);
    }
  }

  // ---- rules as held signals ----

  function HoldsOf(rule: Rule): Timers.Holds {
    Timers.Holds(HoldSeconds(rule).0, HoldSeconds(rule).1)
  }

  function SampleOf(c: Condition, now: int): Sample {
    Sample(now, c.firing, c.clearing)
  }

  /** The samples of a rule for which every evaluation builds a condition. */
  function SamplesOf(steps: seq<Evaluation>, rule: Rule): (h: seq<Sample>)
    requires forall i :: 0 <= i < |steps| ==> ConditionFor(steps[i].obs, steps[i].ov, rule).Some?
    ensures |h| == |steps|
  {
    seq(|steps|, i requires 0 <= i < |steps| =>
      SampleOf(ConditionFor(steps[i].obs, steps[i].ov, rule).value, steps[i].now))
  }

  lemma {:induction false} PresentRuleRuns(steps: seq<Evaluation>, rule: Rule, n: nat)
    requires forall i :: 0 <= i < |steps| ==> ConditionFor(steps[i].obs, steps[i].ov, rule).Some?
    requires n <= |steps|
    ensures var st := RuleAfter(steps[..n], rule);
            && (st.Some? <==> n > 0)
            && Run(SamplesOf(steps, rule)[..n], HoldsOf(rule)) == if n > 0 then st.value else IDLE
  {
    if n > 0 {
      PresentRuleRuns(steps, rule, n - 1);
      RuleAfterExtends(steps, rule, n - 1);
      HoldTimesAreFixed(steps[n - 1].obs, steps[n - 1].ov, rule);
      RunExtends(SamplesOf(steps, rule), HoldsOf(rule), n - 1);
    }
  }

  /** A rule that every evaluation has a condition for is active exactly when its signals were held. */
  lemma PresentRuleIsTrace(steps: seq<Evaluation>, rule: Rule, n: nat)
    requires forall i :: 0 <= i < |steps| ==> ConditionFor(steps[i].obs, steps[i].ov, rule).Some?
    requires n <= |steps|
    ensures Trace(SamplesOf(steps, rule), HoldsOf(rule))[n] == ActiveAfter(steps[..n], rule)
  {
    PresentRuleRuns(steps, rule, n);
  }

  lemma {:induction false} StretchIsTrace(steps: seq<Evaluation>, rule: Rule, m: nat, n: nat, k: nat)
    requires m + k <= n <= |steps| && RuleAfter(steps[..m], rule).None?
    requires forall i :: m <= i < n ==> ConditionFor(steps[i].obs, steps[i].ov, rule).Some?
    ensures Trace(SamplesOf(steps[m..n], rule), HoldsOf(rule))[k] == ActiveAfter(steps[..m + k], rule)
  {
    PresentRuleIsTrace(steps[m..n], rule, k);
    StretchIsRun(steps, rule, m, n, k);
  }

  /** Whether a rule is active before, during and after the evaluations from the `m`-th on. */
  function Activity(steps: seq<Evaluation>, rule: Rule, m: nat, n: nat): (acts: seq<bool>)
    requires m <= n <= |steps|
    ensures |acts| == n - m + 1 && forall k :: 0 <= k <= n - m ==> acts[k] == ActiveAfter(steps[..m + k], rule)
  {
    seq(n - m + 1, k requires 0 <= k <= n - m => ActiveAfter(steps[..m + k], rule))
  }

  /** From any evaluation on at which a rule has no stored state, and while evaluations have a condition
      for it, it is active exactly when its signals were held since then. */
  lemma {:induction false} PresentRuleIsHeldSignal(steps: seq<Evaluation>, rule: Rule, m: nat, n: nat)
    requires m <= n <= |steps| && RuleAfter(steps[..m], rule).None?
    requires forall i :: m <= i < n ==> ConditionFor(steps[i].obs, steps[i].ov, rule).Some?
    ensures IsHoldTrace(SamplesOf(steps[m..n], rule), HoldsOf(rule), Activity(steps, rule, m, n))
  {
    TraceIsActivity(steps, rule, m, n);
    MachineRefinesHold(SamplesOf(steps[m..n], rule), HoldsOf(rule));
  }

  lemma {:induction false} TraceIsActivity(steps: seq<Evaluation>, rule: Rule, m: nat, n: nat)
    requires m <= n <= |steps| && RuleAfter(steps[..m], rule).None?
    requires forall i :: m <= i < n ==> ConditionFor(steps[i].obs, steps[i].ov, rule).Some?
    ensures Trace(SamplesOf(steps[m..n], rule), HoldsOf(rule)) == Activity(steps, rule, m, n)
  {
    var acts, trace := Activity(steps, rule, m, n), Trace(SamplesOf(steps[m..n], rule), HoldsOf(rule));
    assert |acts| == |trace|;
    forall k | 0 <= k < |acts| ensures trace[k] == acts[k] {
      StretchIsTrace(steps, rule, m, n, k);
    }
  }

  /** A success clears and a failure fires; an evaluation without a result does neither. */
  function TelemetrySamples(steps: seq<Evaluation>): (h: seq<Sample>)
    ensures |h| == |steps|
  {
    seq(|steps|, i requires 0 <= i < |steps| =>
      Sample(steps[i].now, Some(steps[i].obs.primary == Some(false)), Some(steps[i].obs.primary == Some(true))))
  }

  /** Telemetry counts as lost exactly from failures held for 120 seconds until successes held for 60. */
  lemma {:induction false} LostTelemetryIsHeld(steps: seq<Evaluation>)
    ensures IsHoldTrace(TelemetrySamples(steps), Timers.Holds(120, 60), Activity(steps, PrimaryTelemetry, 0, |steps|))
  {
    assert steps[..0] == [] && steps[0..|steps|] == steps;
    PresentRuleIsHeldSignal(steps, PrimaryTelemetry, 0, |steps|);
    SignalsDecide(SamplesOf(steps, PrimaryTelemetry), TelemetrySamples(steps), Timers.Holds(120, 60),
                  Activity(steps, PrimaryTelemetry, 0, |steps|));
  }

  // ---- vanished evidence ----

  /** A GPU that is not listed any more keeps its rules as they are where coverage is expected, and loses
      them where it is not. */
  lemma {:induction false} LostGpusAreFrozen(steps: seq<Evaluation>, e: Evaluation, rule: Rule)
    requires rule.IsGpu() && !IsNamed(e.obs.gpus, rule.id)
    ensures ActiveAfter(steps + [e], rule) <==> e.obs.gpuCoverageExpected && ActiveAfter(steps, rule)
    ensures RuleAfter(steps + [e], rule).Some? <==> e.obs.gpuCoverageExpected && RuleAfter(steps, rule).Some?
  {
    RuleAfterJoined(steps, e, rule);
    LostGpuNext(RuleAfter(steps, rule), e, rule);
  }

  lemma {:induction false} LostGpuNext(prev: Option<RuleState>, e: Evaluation, rule: Rule)
    requires rule.IsGpu() && !IsNamed(e.obs.gpus, rule.id)
    ensures var next := NextState(prev, e.obs, e.ov, e.now, rule);
            && (next.Some? <==> e.obs.gpuCoverageExpected && prev.Some?)
            && (next.Some? ==> next.value.active == prev.value.active)
  {
    NamedEntriesAreFound(e.obs.gpus, rule.id);
    UnlistedGpu(e.obs, e.ov, rule);
  }

  lemma {:induction false} UnlistedGpu(obs: Observation, ov: seq<Json>, rule: Rule)
    requires rule.IsGpu() && LastNamed(obs.gpus, rule.id).None?
    ensures ConditionFor(obs, ov, rule).None?
  {
  }

  /** Every other rule without evidence is forgotten, but for a read-only mount while there is evidence of
      critical errors. */
  lemma {:induction false} UnlistedRulesAreForgotten(steps: seq<Evaluation>, e: Evaluation, rule: Rule)
    requires match rule
             case DiskCapacity(m) => !IsNamed(e.obs.filesystems, m)
             case DiskExhaustion(m) => !IsNamed(e.obs.filesystems, m)
             case RequiredService(name) => !IsNamed(e.obs.services, name)
             case TemperatureHeadroom(name) => !IsNamed(e.obs.temperatures, name)
             case InventoryChange => e.obs.inventoryMatches.None?
             case _ => IsCritical(rule) && e.obs.criticalErrors.None?
    ensures RuleAfter(steps + [e], rule).None?
  {
    RuleAfterJoined(steps, e, rule);
    if rule.HasId() {
      NamedEntriesAreFound(e.obs.filesystems, rule.id);
      NamedEntriesAreFound(e.obs.services, rule.id);
      NamedEntriesAreFound(e.obs.temperatures, rule.id);
    }
  }

  // ---- latching ----

  /** One evaluation keeps an active aggregate-ECC rule active exactly when the GPU is still listed
      or GPU coverage is expected; no reading clears it. */
  lemma {:induction false} AggregateEccStays(st: RuleState, obs: Observation, ov: seq<Json>, now: int, uuid: string)
    requires st.active
    ensures var next := NextState(Some(st), obs, ov, now, GpuEccAggregate(uuid));
            (next.Some? && next.value.active) <==> obs.gpuCoverageExpected || LastNamed(obs.gpus, uuid).Some?
  {
  }

  /** Through any evaluations that expect GPU coverage, an active aggregate-ECC rule never clears. */
  lemma {:induction false} AggregateEccLatches(steps: seq<Evaluation>, uuid: string, i: nat, n: nat)
    requires i <= n <= |steps|
    requires ActiveAfter(steps[..i], GpuEccAggregate(uuid))
    requires forall j :: i <= j < n ==> steps[j].obs.gpuCoverageExpected
    ensures ActiveAfter(steps[..n], GpuEccAggregate(uuid))
  {
    if i < n {
      AggregateEccLatches(steps, uuid, i, n - 1);
      RuleAfterExtends(steps, GpuEccAggregate(uuid), n - 1);
      AggregateEccStays(RuleAfter(steps[..n - 1], GpuEccAggregate(uuid)).value,
                        steps[n - 1].obs, steps[n - 1].ov, steps[n - 1].now, uuid);
    }
  }

  predicate Reported(s: Evaluation, mount: string) {
    s.obs.criticalErrors.Some? && mount in s.obs.criticalErrors.value.readOnlyFilesystems
  }

  function MountSamples(steps: seq<Evaluation>, mount: string): (h: seq<Sample>)
    ensures |h| == |steps|
  {
    seq(|steps|, i requires 0 <= i < |steps| =>
      Sample(steps[i].now, Some(Reported(steps[i], mount)), Some(!Reported(steps[i], mount))))
  }

  function StateOrIdle(state: Option<RuleState>): RuleState {
    if state.Some? then state.value else IDLE
  }

  lemma {:induction false} MountRuleRuns(steps: seq<Evaluation>, mount: string, n: nat)
    requires forall i :: 0 <= i < |steps| ==> steps[i].obs.criticalErrors.Some?
    requires n <= |steps|
    ensures Run(MountSamples(steps, mount)[..n], Timers.Holds(0, 300))
            == StateOrIdle(RuleAfter(steps[..n], FilesystemReadOnly(mount)))
  {
    if n > 0 {
      MountRuleRuns(steps, mount, n - 1);
      MountStep(steps, mount, n - 1);
      RunExtends(MountSamples(steps, mount), Timers.Holds(0, 300), n - 1);
    }
  }

  lemma MountStep(steps: seq<Evaluation>, mount: string, i: nat)
    requires i < |steps| && steps[i].obs.criticalErrors.Some?
    ensures StateOrIdle(RuleAfter(steps[..i + 1], FilesystemReadOnly(mount))) ==
            Advance(StateOrIdle(RuleAfter(steps[..i], FilesystemReadOnly(mount))), steps[i].now,
                    Some(Reported(steps[i], mount)), Some(!Reported(steps[i], mount)), 0, 300)
  {
    RuleAfterExtends(steps, FilesystemReadOnly(mount), i);
    MountNext(RuleAfter(steps[..i], FilesystemReadOnly(mount)), steps[i], mount);
  }

  lemma MountNext(prev: Option<RuleState>, s: Evaluation, mount: string)
    requires s.obs.criticalErrors.Some?
    ensures StateOrIdle(NextState(prev, s.obs, s.ov, s.now, FilesystemReadOnly(mount))) ==
            Advance(StateOrIdle(prev), s.now, Some(Reported(s, mount)), Some(!Reported(s, mount)), 0, 300)
  {
  }

  /** The mount has not been reported at any evaluation from some one, 300 seconds ago, to the `n`-th. */
  ghost predicate AbsentFor300(steps: seq<Evaluation>, mount: string, n: nat)
    requires n < |steps|
  {
    exists j :: 0 <= j <= n && (forall i :: j <= i <= n ==> !Reported(steps[i], mount))
                && steps[n].now - steps[j].now >= 300 * SECOND
  }

  /** While the mount is not reported the rule cannot become active. */
  lemma {:induction false} ActiveSinceLastReport(steps: seq<Evaluation>, mount: string, k: Timers.Holds, j: nat, n: nat)
    requires j <= n < |steps|
    requires forall i :: j <= i <= n ==> !Reported(steps[i], mount)
    requires Trace(MountSamples(steps, mount), k)[n]
    ensures forall i :: j <= i <= n ==> Trace(MountSamples(steps, mount), k)[i]
    decreases n
  {
    if j < n {
      var h := MountSamples(steps, mount);
      RunExtends(h, k, n - 1);
      assert Trace(h, k)[n] == Run(h[..n], k).active && Trace(h, k)[n - 1] == Run(h[..n - 1], k).active;
      ActiveSinceLastReport(steps, mount, k, j, n - 1);
    }
  }

  /** For an active rule, a held clearing signal is an absence of 300 seconds. */
  lemma HeldIsAbsence(steps: seq<Evaluation>, mount: string, n: nat)
    requires n < |steps|
    requires Trace(MountSamples(steps, mount), Timers.Holds(0, 300))[n]
    ensures var h, k := MountSamples(steps, mount), Timers.Holds(0, 300);
            Held(h, k, Trace(h, k), n) <==> AbsentFor300(steps, mount, n)
  {
    var h, k := MountSamples(steps, mount), Timers.Holds(0, 300);
    var acts := Trace(h, k);
    assert k.For(acts[n]) == 300;
    assert forall i :: 0 <= i <= n ==> Signal(h[i], true) == !Reported(steps[i], mount);
    if AbsentFor300(steps, mount, n) {
      var j :| 0 <= j <= n && (forall i :: j <= i <= n ==> !Reported(steps[i], mount))
               && steps[n].now - steps[j].now >= 300 * SECOND;
      ActiveSinceLastReport(steps, mount, k, j, n);
      assert HeldSince(h, acts, n, j, k.For(acts[n]) * SECOND);
    }
    if Held(h, k, acts, n) {
      var j :| 0 <= j <= n && HeldSince(h, acts, n, j, k.For(acts[n]) * SECOND);
      assert AbsentFor300(steps, mount, n) by {
        assert forall i :: j <= i <= n ==> Signal(h[i], true);
      }
    }
  }

  /** For an inactive rule, a held firing signal is a report. */
  lemma HeldIsReport(steps: seq<Evaluation>, mount: string, n: nat)
    requires n < |steps|
    requires !Trace(MountSamples(steps, mount), Timers.Holds(0, 300))[n]
    ensures var h, k := MountSamples(steps, mount), Timers.Holds(0, 300);
            Held(h, k, Trace(h, k), n) <==> Reported(steps[n], mount)
  {
    var h, k := MountSamples(steps, mount), Timers.Holds(0, 300);
    var acts := Trace(h, k);
    if Reported(steps[n], mount) {
      assert k.For(acts[n]) == 0;
      assert HeldSince(h, acts, n, n, k.For(acts[n]) * SECOND);
    }
  }

  /** An evaluation without critical-error evidence drops the read-only rules. */
  lemma LostEvidenceDropsMounts(steps: seq<Evaluation>, mount: string, m: nat)
    requires m <= |steps| && (m == 0 || steps[m - 1].obs.criticalErrors.None?)
    ensures RuleAfter(steps[..m], FilesystemReadOnly(mount)).None?
  {
    if m > 0 {
      RuleAfterExtends(steps, FilesystemReadOnly(mount), m - 1);
    }
  }

  lemma ReadOnlyFromTheStart(steps: seq<Evaluation>, mount: string, n: nat)
    requires forall i :: 0 <= i < |steps| ==> steps[i].obs.criticalErrors.Some?
    requires n < |steps|
    ensures ActiveAfter(steps[..n + 1], FilesystemReadOnly(mount)) <==>
            if ActiveAfter(steps[..n], FilesystemReadOnly(mount)) then !AbsentFor300(steps, mount, n)
            else Reported(steps[n], mount)
  {
    var h, k := MountSamples(steps, mount), Timers.Holds(0, 300);
    var acts := Trace(h, k);
    MachineRefinesHold(h, k);
    MountRuleRuns(steps, mount, n);
    MountRuleRuns(steps, mount, n + 1);
    assert acts[n] == ActiveAfter(steps[..n], FilesystemReadOnly(mount));
    assert acts[n + 1] == ActiveAfter(steps[..n + 1], FilesystemReadOnly(mount));
    if acts[n] {
      HeldIsAbsence(steps, mount, n);
    } else {
      HeldIsReport(steps, mount, n);
    }
  }

  /** The same with all of those evaluations in the stretch that begins with the `m`-th. */
  ghost predicate AbsentSince(steps: seq<Evaluation>, mount: string, m: nat, n: nat)
    requires m <= n < |steps|
  {
    AbsentFor300(steps[m..n + 1], mount, n - m)
  }

  /** Throughout a stretch of evaluations with critical-error evidence, from `m`-th to `n`-th, after the
      start or after one without, a report activates the read-only rule at once, and it clears exactly
      when its mount has then been absent, in the stretch, for a continuous 300 seconds. */
  lemma ReadOnlyClearsAfterAbsence(steps: seq<Evaluation>, mount: string, m: nat, n: nat)
    requires m <= n < |steps| && (m == 0 || steps[m - 1].obs.criticalErrors.None?)
    requires forall i :: m <= i <= n ==> steps[i].obs.criticalErrors.Some?
    ensures IsActiveMount(steps[..n + 1], mount) <==>
            if IsActiveMount(steps[..n], mount) then !AbsentSince(steps, mount, m, n)
            else Reported(steps[n], mount)
  {
    LostEvidenceDropsMounts(steps, mount, m);
    MountIsRun(steps, mount, m, n, n);
    MountIsRun(steps, mount, m, n, n + 1);
    ReadOnlyInStretch(steps, mount, m, n);
  }

  predicate IsActiveMount(steps: seq<Evaluation>, mount: string) {
    ActiveAfter(steps, FilesystemReadOnly(mount))
  }

  lemma MountIsRun(steps: seq<Evaluation>, mount: string, m: nat, n: nat, k: nat)
    requires m <= k <= n + 1 <= |steps| && RuleAfter(steps[..m], FilesystemReadOnly(mount)).None?
    ensures IsActiveMount(steps[m..n + 1][..k - m], mount) == IsActiveMount(steps[..k], mount)
  {
    StretchIsRun(steps, FilesystemReadOnly(mount), m, n + 1, k - m);
  }

  lemma ReadOnlyInStretch(steps: seq<Evaluation>, mount: string, m: nat, n: nat)
    requires m <= n < |steps| && forall i :: m <= i <= n ==> steps[i].obs.criticalErrors.Some?
    ensures var stretch, k := steps[m..n + 1], n - m;
            IsActiveMount(stretch[..k + 1], mount) <==>
            if IsActiveMount(stretch[..k], mount) then !AbsentSince(steps, mount, m, n)
            else Reported(steps[n], mount)
  {
    var stretch := steps[m..n + 1];
    assert forall i :: 0 <= i < |stretch| ==> stretch[i] == steps[m + i];
    ReadOnlyFromTheStart(stretch, mount, n - m);
  }
}
