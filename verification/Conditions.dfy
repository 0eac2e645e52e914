/** What one observation says about each health rule. */
module Conditions {
  import opened Basics
  import opened Rules
  import opened Thresholds

  /** An entry of a reported list; entries whose name is not text are passed over. */
  datatype Named<T> = Named(id: Option<string>, body: T)

  datatype Filesystem = Filesystem(
    freePercent: Option<Reading>, freeBytes: Option<Reading>, exhaustionWithin24Hours: Option<bool>)

  datatype Temperature = Temperature(headroom: Option<Reading>, throttling: Option<bool>)

  datatype Gpu = Gpu(
    headroom: Option<Reading>, throttling: Option<bool>, xid: Option<bool>, reset: Option<bool>,
    eccVolatile: Option<bool>, eccAggregate: Option<Reading>)

  datatype CriticalErrors = CriticalErrors(
    oomKill: Option<bool>, readOnlyFilesystems: seq<string>, storageIoError: Option<bool>,
    previousPanic: Option<bool>, watchdogReset: Option<bool>,
    helperFresh: Option<bool>, evidenceAvailable: Option<bool>, textfileScrape: Option<bool>)

  datatype Observation = Observation(
    primary: Option<bool>, complete: Option<bool>,
    cpu: Option<Reading>, load: Option<Reading>, memory: Option<Reading>,
    filesystems: seq<Named<Filesystem>>, inventoryMatches: Option<bool>,
    services: seq<Named<Option<bool>>>, temperatures: seq<Named<Temperature>>,
    criticalErrors: Option<CriticalErrors>, gpus: seq<Named<Gpu>>, gpuCoverageExpected: bool)

  /** Evidence for and against a rule; `None` when the observation does not tell. */
  datatype Condition = Condition(
    firing: Option<bool>, clearing: Option<bool>, firingSeconds: nat, clearingSeconds: nat)

  function Not(signal: Option<bool>): Option<bool> {
    if signal.None? then None else Some(!signal.value)
  }

  /** Evidence that fires when present and clears when absent. */
  function Event(signal: Option<bool>, clearingSeconds: nat): Condition {
    Condition(signal, Not(signal), 0, clearingSeconds)
  }

  /** Evidence that fires when a check fails and clears when it passes. */
  function Check(passed: Option<bool>, firingSeconds: nat, clearingSeconds: nat): Condition {
    Condition(Not(passed), passed, firingSeconds, clearingSeconds)
  }

  function CpuCondition(cpu: Option<Reading>, load: Option<Reading>, ov: seq<Json>): Condition {
    var c := BandOf(ov, CpuUsed);
    var l := BandOf(ov, NormalizedLoad);
    if cpu.None? || load.None? then Condition(None, None, 600, 300)
    else Condition(Some(AtMost(c.fire, cpu.value) && Less(l.fire, load.value)),
                   Some(Less(cpu.value, c.clear) || Less(load.value, l.clear)), 600, 300)
  }

  function MemoryCondition(memory: Option<Reading>, ov: seq<Json>): Condition {
    var b := BandOf(ov, MemoryAvailable);
    if memory.None? then Condition(None, None, 300, 300)
    else Condition(Some(Less(memory.value, b.fire)), Some(Less(b.clear, memory.value)), 300, 300)
  }

  function EnoughHeadroom(fs: Filesystem, ov: seq<Json>): Option<bool> {
    if fs.freePercent.None? || fs.freeBytes.None? then None
    else Some(Less(BandOf(ov, FilesystemPercent).clear, fs.freePercent.value)
              || Less(BandOf(ov, FilesystemBytes).clear, fs.freeBytes.value))
  }

  function CapacityCondition(fs: Filesystem, ov: seq<Json>): Condition {
    Condition(
      if fs.freePercent.None? || fs.freeBytes.None? then None
      else Some(Less(fs.freePercent.value, BandOf(ov, FilesystemPercent).fire)
                && Less(fs.freeBytes.value, BandOf(ov, FilesystemBytes).fire)),
      EnoughHeadroom(fs, ov), 600, 600)
  }

  function ForecastCondition(fs: Filesystem, ov: seq<Json>): Condition {
    var headroom := EnoughHeadroom(fs, ov);
    Condition(
      fs.exhaustionWithin24Hours,
      if fs.exhaustionWithin24Hours.None? || headroom.None? then None
      else Some(!fs.exhaustionWithin24Hours.value && headroom.value),
      0, 600)
  }

  /** Anything but a reported active unit counts against a Required Service. */
  function ServiceCondition(active: Option<bool>): Condition {
    Check(Some(active == Some(true)), 120, 120)
  }

  function TemperatureCondition(t: Temperature, ov: seq<Json>): Condition {
    var b := BandOf(ov, Metric.TemperatureHeadroom);
    if t.headroom.None? || t.throttling.None? then Condition(None, None, 300, 600)
    else Condition(Some(AtMost(t.headroom.value, b.fire) || t.throttling.value),
                   Some(Less(b.clear, t.headroom.value) && !t.throttling.value), 300, 600)
  }

  function GpuTemperatureCondition(g: Gpu, ov: seq<Json>): Condition {
    var b := BandOf(ov, Metric.TemperatureHeadroom);
    if g.headroom.None? || g.throttling.None? then Condition(None, None, 300, 600)
    else Condition(Some(AtMost(g.headroom.value, b.fire)), Some(Less(b.clear, g.headroom.value)), 300, 600)
  }

  /** A zero after a fault may be a counter reset, so it never clears the rule. */
  function AggregateCondition(g: Gpu): Condition {
    if g.eccAggregate.None? then Condition(None, None, 0, 0)
    else Condition(Some(Less(Finite(0.0), g.eccAggregate.value)), Some(false), 0, 0)
  }

  function Coverage(c: CriticalErrors): Option<bool> {
    if c.helperFresh.None? || c.evidenceAvailable.None? || c.textfileScrape.None? then None
    else Some(c.helperFresh.value && c.evidenceAvailable.value && c.textfileScrape.value)
  }

  const READ_ONLY := Condition(Some(true), Some(false), 0, 300)

  /** The last entry of a list under a name: a later entry overwrites an earlier one. */
  function LastNamed<T>(items: seq<Named<T>>, id: string): Option<T> {
    if items == [] then None
    else if items[|items| - 1].id == Some(id) then Some(items[|items| - 1].body)
    else LastNamed(items[..|items| - 1], id)
  }

  /** The condition an observation builds for a rule, or `None` when it builds none. */
  function ConditionFor(obs: Observation, ov: seq<Json>, rule: Rule): Option<Condition> {
    match rule
    case PrimaryTelemetry => Some(Check(obs.primary, 120, 60))
    case RequiredObservations => Some(Check(obs.complete, 600, 300))
    case CpuPressure => Some(CpuCondition(obs.cpu, obs.load, ov))
    case MemoryPressure => Some(MemoryCondition(obs.memory, ov))
    case InventoryChange =>
      if obs.inventoryMatches.None? then None else Some(Check(obs.inventoryMatches, 0, 0))
    case DiskCapacity(m) =>
      var fs := LastNamed(obs.filesystems, m);
      if fs.None? then None else Some(CapacityCondition(fs.value, ov))
    case DiskExhaustion(m) =>
      var fs := LastNamed(obs.filesystems, m);
      if fs.None? then None else Some(ForecastCondition(fs.value, ov))
    case RequiredService(s) =>
      var active := LastNamed(obs.services, s);
      if active.None? then None else Some(ServiceCondition(active.value))
    case TemperatureHeadroom(s) =>
      var t := LastNamed(obs.temperatures, s);
      if t.None? then None else Some(TemperatureCondition(t.value, ov))
    case _ =>
      if rule.IsGpu() then GpuConditionFor(LastNamed(obs.gpus, rule.id), ov, rule)
      else CriticalConditionFor(obs.criticalErrors, rule)
  }

  function GpuConditionFor(gpu: Option<Gpu>, ov: seq<Json>, rule: Rule): Option<Condition> {
    if gpu.None? then None
    else
      match rule
      case GpuTemperature(_) => Some(GpuTemperatureCondition(gpu.value, ov))
      case GpuThermal(_) => Some(Event(gpu.value.throttling, 600))
      case GpuXid(_) => Some(Event(gpu.value.xid, 300))
      case GpuReset(_) => Some(Event(gpu.value.reset, 300))
      case GpuEccVolatile(_) => Some(Event(gpu.value.eccVolatile, 300))
      case GpuEccAggregate(_) => Some(AggregateCondition(gpu.value))
      case _ => None
  }

  function CriticalConditionFor(errors: Option<CriticalErrors>, rule: Rule): Option<Condition> {
    if errors.None? then None
    else
      match rule
      case FilesystemReadOnly(m) => if m in errors.value.readOnlyFilesystems then Some(READ_ONLY) else None
      case OomKill => Some(Event(errors.value.oomKill, 1800))
      case StorageIoError => Some(Event(errors.value.storageIoError, 1800))
      case PreviousPanic => Some(Event(errors.value.previousPanic, 1800))
      case WatchdogReset => Some(Event(errors.value.watchdogReset, 1800))
      case CriticalErrorObservation => Some(Check(Coverage(errors.value), 600, 300))
      case _ => None
  }

  /** The dictionary holds exactly the conditions the observation builds. */
  ghost predicate Holds(conditions: map<Rule, Condition>, obs: Observation, ov: seq<Json>) {
    forall r: Rule ::
      && (r in conditions <==> ConditionFor(obs, ov, r).Some?)
      && (r in conditions ==> conditions[r] == ConditionFor(obs, ov, r).value)
  }

  // ---- what the dictionary says, in terms of the reported fields ----

  /** The thresholds of the six metrics. */
  datatype Bands = Bands(cpu: Band, load: Band, memory: Band, percent: Band, bytes: Band, headroom: Band)

  function BandsOf(ov: seq<Json>): Bands {
    Bands(BandOf(ov, CpuUsed), BandOf(ov, NormalizedLoad), BandOf(ov, MemoryAvailable),
          BandOf(ov, FilesystemPercent), BandOf(ov, FilesystemBytes), BandOf(ov, Metric.TemperatureHeadroom))
  }

  /** The rule has a condition, which speaks for and against it exactly as told and with these hold times. */
  predicate Answers(c: map<Rule, Condition>, rule: Rule, fires: bool, clears: bool, firing: nat, clearing: nat) {
    && rule in c && c[rule].firingSeconds == firing && c[rule].clearingSeconds == clearing
    && (c[rule].firing == Some(true) <==> fires) && (c[rule].clearing == Some(true) <==> clears)
  }

  /** No later entry has the name of this one. */
  ghost predicate IsLast<T(!new)>(items: seq<Named<T>>, i: nat)
    requires i < |items|
  {
    items[i].id.Some? && forall j :: i < j < |items| ==> items[j].id != items[i].id
  }

  predicate IsNamed<T>(items: seq<Named<T>>, id: string) {
    exists i :: 0 <= i < |items| && items[i].id == Some(id)
  }

  ghost predicate ReadsServer(c: map<Rule, Condition>, obs: Observation, b: Bands) {
    && Answers(c, PrimaryTelemetry, obs.primary == Some(false), obs.primary == Some(true), 120, 60)
    && Answers(c, RequiredObservations, obs.complete == Some(false), obs.complete == Some(true), 600, 300)
    && (var both := obs.cpu.Some? && obs.load.Some?;
        Answers(c, CpuPressure, both && AtMost(b.cpu.fire, obs.cpu.value) && Less(b.load.fire, obs.load.value),
                both && (Less(obs.cpu.value, b.cpu.clear) || Less(obs.load.value, b.load.clear)), 600, 300))
    && Answers(c, MemoryPressure, obs.memory.Some? && Less(obs.memory.value, b.memory.fire),
               obs.memory.Some? && Less(b.memory.clear, obs.memory.value), 300, 300)
    && (InventoryChange in c <==> obs.inventoryMatches.Some?)
    && (obs.inventoryMatches.Some? ==>
          Answers(c, InventoryChange, obs.inventoryMatches == Some(false), obs.inventoryMatches == Some(true), 0, 0))
  }

  ghost predicate ReadsFilesystems(c: map<Rule, Condition>, filesystems: seq<Named<Filesystem>>, b: Bands) {
    && (forall m :: DiskCapacity(m) in c <==> IsNamed(filesystems, m))
    && (forall m :: DiskExhaustion(m) in c <==> IsNamed(filesystems, m))
    && forall i :: 0 <= i < |filesystems| && IsLast(filesystems, i) ==>
         ReadsFilesystem(c, filesystems[i].id.value, filesystems[i].body, b)
  }

  predicate ReadsFilesystem(c: map<Rule, Condition>, mount: string, fs: Filesystem, b: Bands) {
    var both := fs.freePercent.Some? && fs.freeBytes.Some?;
    var short := both && Less(fs.freePercent.value, b.percent.fire) && Less(fs.freeBytes.value, b.bytes.fire);
    var ample := both && (Less(b.percent.clear, fs.freePercent.value) || Less(b.bytes.clear, fs.freeBytes.value));
    && Answers(c, DiskCapacity(mount), short, ample, 600, 600)
    && Answers(c, DiskExhaustion(mount), fs.exhaustionWithin24Hours == Some(true),
               fs.exhaustionWithin24Hours == Some(false) && ample, 0, 600)
  }

  ghost predicate ReadsServices(c: map<Rule, Condition>, services: seq<Named<Option<bool>>>) {
    && (forall name :: RequiredService(name) in c <==> IsNamed(services, name))
    && forall i :: 0 <= i < |services| && IsLast(services, i) ==>
         Answers(c, RequiredService(services[i].id.value), services[i].body != Some(true),
                 services[i].body == Some(true), 120, 120)
  }

  ghost predicate ReadsTemperatures(c: map<Rule, Condition>, temperatures: seq<Named<Temperature>>, b: Bands) {
    && (forall name :: Rule.TemperatureHeadroom(name) in c <==> IsNamed(temperatures, name))
    && forall i :: 0 <= i < |temperatures| && IsLast(temperatures, i) ==>
         ReadsTemperature(c, temperatures[i].id.value, temperatures[i].body, b)
  }

  predicate ReadsTemperature(c: map<Rule, Condition>, name: string, t: Temperature, b: Bands) {
    var both := t.headroom.Some? && t.throttling.Some?;
    Answers(c, Rule.TemperatureHeadroom(name),
            both && (AtMost(t.headroom.value, b.headroom.fire) || t.throttling.value),
            both && Less(b.headroom.clear, t.headroom.value) && !t.throttling.value, 300, 600)
  }

  ghost predicate ReadsCriticalErrors(c: map<Rule, Condition>, errors: Option<CriticalErrors>) {
    && (OomKill in c <==> errors.Some?) && (StorageIoError in c <==> errors.Some?)
    && (PreviousPanic in c <==> errors.Some?) && (WatchdogReset in c <==> errors.Some?)
    && (CriticalErrorObservation in c <==> errors.Some?)
    && (forall m :: FilesystemReadOnly(m) in c <==> errors.Some? && m in errors.value.readOnlyFilesystems)
    && (errors.Some? ==> ReadsEvents(c, errors.value))
  }

  ghost predicate ReadsEvents(c: map<Rule, Condition>, e: CriticalErrors) {
    && Answers(c, OomKill, e.oomKill == Some(true), e.oomKill == Some(false), 0, 1800)
    && Answers(c, StorageIoError, e.storageIoError == Some(true), e.storageIoError == Some(false), 0, 1800)
    && Answers(c, PreviousPanic, e.previousPanic == Some(true), e.previousPanic == Some(false), 0, 1800)
    && Answers(c, WatchdogReset, e.watchdogReset == Some(true), e.watchdogReset == Some(false), 0, 1800)
    && (var known := e.helperFresh.Some? && e.evidenceAvailable.Some? && e.textfileScrape.Some?;
        var whole := e.helperFresh == e.evidenceAvailable == e.textfileScrape == Some(true);
        Answers(c, CriticalErrorObservation, known && !whole, whole, 600, 300))
    && forall m :: m in e.readOnlyFilesystems ==> Answers(c, FilesystemReadOnly(m), true, false, 0, 300)
  }

  ghost predicate ReadsGpus(c: map<Rule, Condition>, gpus: seq<Named<Gpu>>, b: Bands) {
    && (forall rule: Rule :: rule.IsGpu() ==> (rule in c <==> IsNamed(gpus, rule.id)))
    && forall i :: 0 <= i < |gpus| && IsLast(gpus, i) ==> ReadsGpu(c, gpus[i].id.value, gpus[i].body, b)
  }

  predicate ReadsGpu(c: map<Rule, Condition>, uuid: string, g: Gpu, b: Bands) {
    var both := g.headroom.Some? && g.throttling.Some?;
    && Answers(c, GpuTemperature(uuid), both && AtMost(g.headroom.value, b.headroom.fire),
               both && Less(b.headroom.clear, g.headroom.value), 300, 600)
    && Answers(c, GpuThermal(uuid), g.throttling == Some(true), g.throttling == Some(false), 0, 600)
    && Answers(c, GpuXid(uuid), g.xid == Some(true), g.xid == Some(false), 0, 300)
    && Answers(c, GpuReset(uuid), g.reset == Some(true), g.reset == Some(false), 0, 300)
    && Answers(c, GpuEccVolatile(uuid), g.eccVolatile == Some(true), g.eccVolatile == Some(false), 0, 300)
    && Answers(c, GpuEccAggregate(uuid), g.eccAggregate.Some? && Less(Finite(0.0), g.eccAggregate.value), false, 0, 0)
  }

  /** Every rule has its condition from its own field, the last entry under a name deciding, with its own
      thresholds and hold times; and no other rule has one. */
  ghost predicate ReadsEvidence(c: map<Rule, Condition>, obs: Observation, b: Bands) {
    && ReadsServer(c, obs, b)
    && ReadsFilesystems(c, obs.filesystems, b)
    && ReadsServices(c, obs.services)
    && ReadsTemperatures(c, obs.temperatures, b)
    && ReadsCriticalErrors(c, obs.criticalErrors)
    && ReadsGpus(c, obs.gpus, b)
  }

  lemma {:induction false} LastEntryDecides<T(!new)>(items: seq<Named<T>>, i: nat)
    requires i < |items| && IsLast(items, i)
    ensures LastNamed(items, items[i].id.value) == Some(items[i].body)
  {
    if i < |items| - 1 {
      assert items[|items| - 1].id != items[i].id;
      LastEntryDecides(items[..|items| - 1], i);
    }
  }

  lemma {:induction false} NamedEntriesAreFound<T(!new)>(items: seq<Named<T>>, id: string)
    ensures LastNamed(items, id).Some? <==> IsNamed(items, id)
  {
    if items != [] {
      var n := |items| - 1;
      NamedEntriesAreFound(items[..n], id);
      if IsNamed(items[..n], id) {
        var i :| 0 <= i < n && items[..n][i].id == Some(id);
        assert items[i].id == Some(id);
      }
      if i :| 0 <= i < |items| && items[i].id == Some(id) && i < n {
        assert items[..n][i].id == Some(id);
      }
    }
  }

  lemma {:induction false} AllNamesAreFound<T(!new)>(items: seq<Named<T>>)
    ensures forall id :: LastNamed(items, id).Some? <==> IsNamed(items, id)
    ensures forall i :: 0 <= i < |items| && IsLast(items, i) ==>
              LastNamed(items, items[i].id.value) == Some(items[i].body)
  {
    forall id ensures LastNamed(items, id).Some? <==> IsNamed(items, id) {
      NamedEntriesAreFound(items, id);
    }
    forall i | 0 <= i < |items| && IsLast(items, i)
      ensures LastNamed(items, items[i].id.value) == Some(items[i].body)
    {
      LastEntryDecides(items, i);
    }
  }

  lemma HeldAt(c: map<Rule, Condition>, obs: Observation, ov: seq<Json>, rule: Rule, condition: Condition)
    requires Holds(c, obs, ov) && ConditionFor(obs, ov, rule) == Some(condition)
    ensures rule in c && c[rule] == condition
  {
  }

  lemma ServerIsRead(c: map<Rule, Condition>, obs: Observation, ov: seq<Json>)
    requires Holds(c, obs, ov)
    ensures ReadsServer(c, obs, BandsOf(ov))
  {
  }

  lemma FilesystemsAreRead(c: map<Rule, Condition>, obs: Observation, ov: seq<Json>)
    requires Holds(c, obs, ov)
    ensures ReadsFilesystems(c, obs.filesystems, BandsOf(ov))
  {
    AllNamesAreFound(obs.filesystems);
    forall m ensures DiskCapacity(m) in c <==> IsNamed(obs.filesystems, m)
             ensures DiskExhaustion(m) in c <==> IsNamed(obs.filesystems, m)
    {
      assert LastNamed(obs.filesystems, m).Some? <==> IsNamed(obs.filesystems, m);
    }
    forall i | 0 <= i < |obs.filesystems| && IsLast(obs.filesystems, i)
      ensures ReadsFilesystem(c, obs.filesystems[i].id.value, obs.filesystems[i].body, BandsOf(ov))
    {
      FilesystemIsRead(c, obs, ov, obs.filesystems[i].id.value, obs.filesystems[i].body);
    }
  }

  lemma {:induction false} FilesystemIsRead(c: map<Rule, Condition>, obs: Observation, ov: seq<Json>, mount: string,
                                            fs: Filesystem)
    requires Holds(c, obs, ov) && LastNamed(obs.filesystems, mount) == Some(fs)
    ensures ReadsFilesystem(c, mount, fs, BandsOf(ov))
  {
    HeldAt(c, obs, ov, DiskCapacity(mount), CapacityCondition(fs, ov));
    HeldAt(c, obs, ov, DiskExhaustion(mount), ForecastCondition(fs, ov));
    CapacityAnswers(c, mount, fs, ov);
  }

  lemma CapacityAnswers(c: map<Rule, Condition>, mount: string, fs: Filesystem, ov: seq<Json>)
    requires DiskCapacity(mount) in c && c[DiskCapacity(mount)] == CapacityCondition(fs, ov)
    requires DiskExhaustion(mount) in c && c[DiskExhaustion(mount)] == ForecastCondition(fs, ov)
    ensures ReadsFilesystem(c, mount, fs, BandsOf(ov))
  {
  }

  lemma ServicesAreRead(c: map<Rule, Condition>, obs: Observation, ov: seq<Json>)
    requires Holds(c, obs, ov)
    ensures ReadsServices(c, obs.services)
  {
    AllNamesAreFound(obs.services);
    forall name ensures RequiredService(name) in c <==> IsNamed(obs.services, name) {
      assert LastNamed(obs.services, name).Some? <==> IsNamed(obs.services, name);
    }
  }

  lemma TemperaturesAreRead(c: map<Rule, Condition>, obs: Observation, ov: seq<Json>)
    requires Holds(c, obs, ov)
    ensures ReadsTemperatures(c, obs.temperatures, BandsOf(ov))
  {
    AllNamesAreFound(obs.temperatures);
    forall name ensures Rule.TemperatureHeadroom(name) in c <==> IsNamed(obs.temperatures, name) {
      assert LastNamed(obs.temperatures, name).Some? <==> IsNamed(obs.temperatures, name);
    }
    forall i | 0 <= i < |obs.temperatures| && IsLast(obs.temperatures, i)
      ensures ReadsTemperature(c, obs.temperatures[i].id.value, obs.temperatures[i].body, BandsOf(ov))
    {
      TemperatureIsRead(c, obs, ov, obs.temperatures[i].id.value, obs.temperatures[i].body);
    }
  }

  lemma {:induction false} TemperatureIsRead(c: map<Rule, Condition>, obs: Observation, ov: seq<Json>, name: string,
                                             t: Temperature)
    requires Holds(c, obs, ov) && LastNamed(obs.temperatures, name) == Some(t)
    ensures ReadsTemperature(c, name, t, BandsOf(ov))
  {
    HeldAt(c, obs, ov, Rule.TemperatureHeadroom(name), TemperatureCondition(t, ov));
    TemperatureAnswers(c, name, t, ov);
  }

  lemma TemperatureAnswers(c: map<Rule, Condition>, name: string, t: Temperature, ov: seq<Json>)
    requires Rule.TemperatureHeadroom(name) in c && c[Rule.TemperatureHeadroom(name)] == TemperatureCondition(t, ov)
    ensures ReadsTemperature(c, name, t, BandsOf(ov))
  {
  }

  lemma CriticalErrorsAreRead(c: map<Rule, Condition>, obs: Observation, ov: seq<Json>)
    requires Holds(c, obs, ov)
    ensures ReadsCriticalErrors(c, obs.criticalErrors)
  {
    CriticalRulesAreHeld(c, obs, ov);
    if obs.criticalErrors.Some? {
      EventsAnswer(c, obs.criticalErrors.value);
    }
  }

  /** The rules about critical errors have the conditions of the reported errors alone. */
  ghost predicate HoldsErrors(c: map<Rule, Condition>, errors: Option<CriticalErrors>) {
    forall rule: Rule :: IsCritical(rule) ==>
      && (rule in c <==> CriticalConditionFor(errors, rule).Some?)
      && (rule in c ==> c[rule] == CriticalConditionFor(errors, rule).value)
  }

  predicate IsCritical(rule: Rule) {
    rule.OomKill? || rule.StorageIoError? || rule.PreviousPanic? || rule.WatchdogReset?
    || rule.CriticalErrorObservation? || rule.FilesystemReadOnly?
  }

  lemma CriticalRulesAreHeld(c: map<Rule, Condition>, obs: Observation, ov: seq<Json>)
    requires Holds(c, obs, ov)
    ensures HoldsErrors(c, obs.criticalErrors)
  {
    forall rule: Rule | IsCritical(rule)
      ensures ConditionFor(obs, ov, rule) == CriticalConditionFor(obs.criticalErrors, rule)
    {
      CriticalRuleReads(obs, ov, rule);
    }
  }

  lemma CriticalRuleReads(obs: Observation, ov: seq<Json>, rule: Rule)
    requires IsCritical(rule)
    ensures ConditionFor(obs, ov, rule) == CriticalConditionFor(obs.criticalErrors, rule)
  {
  }

  lemma EventsAnswer(c: map<Rule, Condition>, e: CriticalErrors)
    requires HoldsErrors(c, Some(e))
    ensures ReadsEvents(c, e)
  {
  }

  lemma GpusAreRead(c: map<Rule, Condition>, obs: Observation, ov: seq<Json>)
    requires Holds(c, obs, ov)
    ensures ReadsGpus(c, obs.gpus, BandsOf(ov))
  {
    AllNamesAreFound(obs.gpus);
    forall rule: Rule | rule.IsGpu() ensures rule in c <==> IsNamed(obs.gpus, rule.id) {
      assert LastNamed(obs.gpus, rule.id).Some? <==> IsNamed(obs.gpus, rule.id);
    }
    forall i | 0 <= i < |obs.gpus| && IsLast(obs.gpus, i)
      ensures ReadsGpu(c, obs.gpus[i].id.value, obs.gpus[i].body, BandsOf(ov))
    {
      GpuIsRead(c, obs, ov, obs.gpus[i].id.value, obs.gpus[i].body);
    }
  }

  lemma {:induction false} GpuIsRead(c: map<Rule, Condition>, obs: Observation, ov: seq<Json>, uuid: string, g: Gpu)
    requires Holds(c, obs, ov) && LastNamed(obs.gpus, uuid) == Some(g)
    ensures ReadsGpu(c, uuid, g, BandsOf(ov))
  {
    HeldAt(c, obs, ov, GpuTemperature(uuid), GpuTemperatureCondition(g, ov));
    HeldAt(c, obs, ov, GpuThermal(uuid), Event(g.throttling, 600));
    HeldAt(c, obs, ov, GpuXid(uuid), Event(g.xid, 300));
    HeldAt(c, obs, ov, GpuReset(uuid), Event(g.reset, 300));
    HeldAt(c, obs, ov, GpuEccVolatile(uuid), Event(g.eccVolatile, 300));
    HeldAt(c, obs, ov, GpuEccAggregate(uuid), AggregateCondition(g));
    GpuAnswers(c, uuid, g, ov);
  }

  lemma GpuAnswers(c: map<Rule, Condition>, uuid: string, g: Gpu, ov: seq<Json>)
    requires GpuTemperature(uuid) in c && c[GpuTemperature(uuid)] == GpuTemperatureCondition(g, ov)
    requires GpuThermal(uuid) in c && c[GpuThermal(uuid)] == Event(g.throttling, 600)
    requires GpuXid(uuid) in c && c[GpuXid(uuid)] == Event(g.xid, 300)
    requires GpuReset(uuid) in c && c[GpuReset(uuid)] == Event(g.reset, 300)
    requires GpuEccVolatile(uuid) in c && c[GpuEccVolatile(uuid)] == Event(g.eccVolatile, 300)
    requires GpuEccAggregate(uuid) in c && c[GpuEccAggregate(uuid)] == AggregateCondition(g)
    ensures ReadsGpu(c, uuid, g, BandsOf(ov))
  {
  }

  /** The dictionary reads every rule from its own evidence. */
  lemma EvidenceIsRead(c: map<Rule, Condition>, obs: Observation, ov: seq<Json>)
    requires Holds(c, obs, ov)
    ensures ReadsEvidence(c, obs, BandsOf(ov))
  {
    ServerIsRead(c, obs, ov);
    FilesystemsAreRead(c, obs, ov);
    ServicesAreRead(c, obs, ov);
    TemperaturesAreRead(c, obs, ov);
    CriticalErrorsAreRead(c, obs, ov);
    GpusAreRead(c, obs, ov);
  }

  /** The global thresholds. */
  lemma GlobalBands()
    ensures BandsOf([]) == Bands(
              Band(Finite(95.0), Finite(85.0)), Band(Finite(1.5), Finite(1.1)), Band(Finite(10.0), Finite(15.0)),
              Band(Finite(10.0), Finite(15.0)), Band(Finite(21474836480.0), Finite(32212254720.0)),
              Band(Finite(10.0), Finite(15.0)))
  {
  }

  /** In numbers: the conditions that finite readings give under the global thresholds. */
  lemma FiniteReadingsAnswer(c: map<Rule, Condition>, obs: Observation, x: real, y: real)
    requires Holds(c, obs, [])
    ensures obs.cpu == Some(Finite(x)) && obs.load == Some(Finite(y)) ==>
              Answers(c, CpuPressure, x >= 95.0 && y > 1.5, x < 85.0 || y < 1.1, 600, 300)
    ensures obs.memory == Some(Finite(x)) ==> Answers(c, MemoryPressure, x < 10.0, x > 15.0, 300, 300)
    ensures obs.memory == Some(NaN) ==> Answers(c, MemoryPressure, false, false, 300, 300)
  {
    ServerIsRead(c, obs, []);
    GlobalBands();
  }

  lemma {:induction false} FiniteEntriesAnswer(c: map<Rule, Condition>, obs: Observation, id: string, fs: Filesystem,
                                               t: Temperature, gpu: Gpu, x: real, y: real)
    requires Holds(c, obs, [])
    ensures LastNamed(obs.filesystems, id) == Some(fs)
            && fs.freePercent == Some(Finite(x)) && fs.freeBytes == Some(Finite(y)) ==>
              Answers(c, DiskCapacity(id), x < 10.0 && y < 21474836480.0, x > 15.0 || y > 32212254720.0, 600, 600)
    ensures LastNamed(obs.temperatures, id) == Some(t)
            && t.headroom == Some(Finite(x)) && t.throttling == Some(false) ==>
              Answers(c, Rule.TemperatureHeadroom(id), x <= 10.0, x > 15.0, 300, 600)
    ensures LastNamed(obs.gpus, id) == Some(gpu) && gpu.headroom == Some(Finite(x)) && gpu.throttling.Some? ==>
              Answers(c, GpuTemperature(id), x <= 10.0, x > 15.0, 300, 600)
    ensures LastNamed(obs.gpus, id) == Some(gpu) && gpu.eccAggregate == Some(Finite(x)) ==>
              Answers(c, GpuEccAggregate(id), x > 0.0, false, 0, 0)
  {
    GlobalBands();
    if LastNamed(obs.filesystems, id) == Some(fs) {
      FilesystemIsRead(c, obs, [], id, fs);
    }
    if LastNamed(obs.temperatures, id) == Some(t) {
      TemperatureIsRead(c, obs, [], id, t);
    }
    if LastNamed(obs.gpus, id) == Some(gpu) {
      GpuIsRead(c, obs, [], id, gpu);
    }
  }

  /** Fills the dictionary list by list, later writes replacing earlier ones. */
  method RuleConditions(obs: Observation, ov: seq<Json>) returns (conditions: map<Rule, Condition>)
    ensures Holds(conditions, obs, ov)
    ensures ReadsEvidence(conditions, obs, BandsOf(ov))
  {
    conditions := map[
      PrimaryTelemetry := Check(obs.primary, 120, 60),
      RequiredObservations := Check(obs.complete, 600, 300),
      CpuPressure := CpuCondition(obs.cpu, obs.load, ov),
      MemoryPressure := MemoryCondition(obs.memory, ov)];
    ghost var part := obs.(filesystems := [], inventoryMatches := None, services := [], temperatures := [],
                           criticalErrors := None, gpus := []);
    assert Holds(conditions, part, ov);

    conditions := FilesystemConditions(conditions, obs.filesystems, part, ov);
    part := part.(filesystems := obs.filesystems);
    if obs.inventoryMatches.Some? {
      conditions := conditions[InventoryChange := Check(obs.inventoryMatches, 0, 0)];
    }
    part := part.(inventoryMatches := obs.inventoryMatches);
    assert Holds(conditions, part, ov);
    conditions := ServiceConditions(conditions, obs.services, part, ov);
    part := part.(services := obs.services);
    conditions := TemperatureConditions(conditions, obs.temperatures, part, ov);
    part := part.(temperatures := obs.temperatures);
    if obs.criticalErrors.Some? {
      conditions := CriticalConditions(conditions, obs.criticalErrors.value, part, ov);
    }
    part := part.(criticalErrors := obs.criticalErrors);
    assert Holds(conditions, part, ov);
    conditions := GpuConditions(conditions, obs.gpus, part, ov);
    assert part.(gpus := obs.gpus) == obs;
    EvidenceIsRead(conditions, obs, ov);
  }

  method FilesystemConditions(before: map<Rule, Condition>, filesystems: seq<Named<Filesystem>>,
                              ghost part: Observation, ov: seq<Json>)
    returns (conditions: map<Rule, Condition>)
    requires part.filesystems == []
    requires Holds(before, part, ov)
    ensures Holds(conditions, part.(filesystems := filesystems), ov)
  {
    conditions := before;
    for i := 0 to |filesystems|
      invariant Holds(conditions, part.(filesystems := filesystems[..i]), ov)
    {
      var fs := filesystems[i];
      assert filesystems[..i + 1][..i] == filesystems[..i];
      if fs.id.Some? {
        conditions := conditions[DiskCapacity(fs.id.value) := CapacityCondition(fs.body, ov)];
        conditions := conditions[DiskExhaustion(fs.id.value) := ForecastCondition(fs.body, ov)];
      }
    }
    assert filesystems[..|filesystems|] == filesystems;
  }

  method ServiceConditions(before: map<Rule, Condition>, services: seq<Named<Option<bool>>>,
                           ghost part: Observation, ghost ov: seq<Json>)
    returns (conditions: map<Rule, Condition>)
    requires part.services == []
    requires Holds(before, part, ov)
    ensures Holds(conditions, part.(services := services), ov)
  {
    conditions := before;
    for i := 0 to |services|
      invariant Holds(conditions, part.(services := services[..i]), ov)
    {
      var service := services[i];
      assert services[..i + 1][..i] == services[..i];
      if service.id.Some? {
        conditions := conditions[RequiredService(service.id.value) := ServiceCondition(service.body)];
      }
    }
    assert services[..|services|] == services;
  }

  method TemperatureConditions(before: map<Rule, Condition>, temperatures: seq<Named<Temperature>>,
                               ghost part: Observation, ov: seq<Json>)
    returns (conditions: map<Rule, Condition>)
    requires part.temperatures == []
    requires Holds(before, part, ov)
    ensures Holds(conditions, part.(temperatures := temperatures), ov)
  {
    conditions := before;
    for i := 0 to |temperatures|
      invariant Holds(conditions, part.(temperatures := temperatures[..i]), ov)
    {
      var t := temperatures[i];
      assert temperatures[..i + 1][..i] == temperatures[..i];
      if t.id.Some? {
        conditions := conditions[Rule.TemperatureHeadroom(t.id.value) := TemperatureCondition(t.body, ov)];
      }
    }
    assert temperatures[..|temperatures|] == temperatures;
  }

  method ReadOnlyConditions(before: map<Rule, Condition>, mounts: seq<string>)
    returns (conditions: map<Rule, Condition>)
    ensures forall r: Rule :: r in conditions <==> r in before || (r.FilesystemReadOnly? && r.id in mounts)
    ensures forall r: Rule :: r in conditions ==>
      conditions[r] == if r.FilesystemReadOnly? && r.id in mounts then READ_ONLY else before[r]
  {
    conditions := before;
    for i := 0 to |mounts|
      invariant forall r: Rule ::
        r in conditions <==> r in before || (r.FilesystemReadOnly? && r.id in mounts[..i])
      invariant forall r: Rule :: r in conditions ==>
        conditions[r] == if r.FilesystemReadOnly? && r.id in mounts[..i] then READ_ONLY else before[r]
    {
      conditions := conditions[FilesystemReadOnly(mounts[i]) := READ_ONLY];
      assert mounts[..i + 1] == mounts[..i] + [mounts[i]];
    }
    assert mounts[..|mounts|] == mounts;
  }

  lemma CriticalPart(part: Observation, errors: CriticalErrors, ov: seq<Json>, r: Rule)
    requires part.criticalErrors == None
    ensures ConditionFor(part.(criticalErrors := Some(errors)), ov, r) ==
            if CriticalConditionFor(Some(errors), r).Some? then CriticalConditionFor(Some(errors), r)
            else ConditionFor(part, ov, r)
  {
  }

  method CriticalConditions(before: map<Rule, Condition>, errors: CriticalErrors,
                            ghost part: Observation, ghost ov: seq<Json>)
    returns (conditions: map<Rule, Condition>)
    requires part.criticalErrors == None
    requires Holds(before, part, ov)
    ensures Holds(conditions, part.(criticalErrors := Some(errors)), ov)
  {
    conditions := ReadOnlyConditions(before, errors.readOnlyFilesystems);
    conditions := conditions[OomKill := Event(errors.oomKill, 1800)];
    conditions := conditions[StorageIoError := Event(errors.storageIoError, 1800)];
    conditions := conditions[PreviousPanic := Event(errors.previousPanic, 1800)];
    conditions := conditions[WatchdogReset := Event(errors.watchdogReset, 1800)];
    conditions := conditions[CriticalErrorObservation := Check(Coverage(errors), 600, 300)];
    forall r: Rule
      ensures var c := ConditionFor(part.(criticalErrors := Some(errors)), ov, r);
              (r in conditions <==> c.Some?) && (r in conditions ==> conditions[r] == c.value)
    {
      CriticalPart(part, errors, ov, r);
    }
  }

  /** The six entries of one GPU. */
  method GpuEntries(before: map<Rule, Condition>, uuid: string, gpu: Gpu, ov: seq<Json>)
    returns (conditions: map<Rule, Condition>)
    ensures forall r: Rule ::
      && (r in conditions <==> r in before || (r.IsGpu() && r.id == uuid))
      && (r in conditions ==> Some(conditions[r]) == if r.IsGpu() && r.id == uuid
                                                     then GpuConditionFor(Some(gpu), ov, r) else Some(before[r]))
  {
    conditions := before[GpuTemperature(uuid) := GpuTemperatureCondition(gpu, ov)];
    conditions := conditions[GpuThermal(uuid) := Event(gpu.throttling, 600)];
    conditions := conditions[GpuXid(uuid) := Event(gpu.xid, 300)];
    conditions := conditions[GpuReset(uuid) := Event(gpu.reset, 300)];
    conditions := conditions[GpuEccVolatile(uuid) := Event(gpu.eccVolatile, 300)];
    conditions := conditions[GpuEccAggregate(uuid) := AggregateCondition(gpu)];
    assert conditions == WithGpu(before, uuid, gpu, ov);
    forall r: Rule
      ensures (r in conditions <==> r in before || (r.IsGpu() && r.id == uuid))
      ensures r in conditions ==> Some(conditions[r]) == if r.IsGpu() && r.id == uuid
                                                         then GpuConditionFor(Some(gpu), ov, r) else Some(before[r])
    {
      WithGpuAt(before, uuid, gpu, ov, r);
    }
  }

  function WithGpu(before: map<Rule, Condition>, uuid: string, gpu: Gpu, ov: seq<Json>): map<Rule, Condition> {
    before[GpuTemperature(uuid) := GpuTemperatureCondition(gpu, ov)][GpuThermal(uuid) := Event(gpu.throttling, 600)]
      [GpuXid(uuid) := Event(gpu.xid, 300)][GpuReset(uuid) := Event(gpu.reset, 300)]
      [GpuEccVolatile(uuid) := Event(gpu.eccVolatile, 300)][GpuEccAggregate(uuid) := AggregateCondition(gpu)]
  }

  lemma WithGpuAt(before: map<Rule, Condition>, uuid: string, gpu: Gpu, ov: seq<Json>, r: Rule)
    ensures var conditions := WithGpu(before, uuid, gpu, ov);
            && (r in conditions <==> r in before || (r.IsGpu() && r.id == uuid))
            && (r in conditions ==> Some(conditions[r]) == if r.IsGpu() && r.id == uuid
                                                           then GpuConditionFor(Some(gpu), ov, r) else Some(before[r]))
  {
  }

  /** `conditions` is `before` with the entries of the listed GPUs. */
  ghost predicate HoldsGpus(before: map<Rule, Condition>, conditions: map<Rule, Condition>,
                            gpus: seq<Named<Gpu>>, ov: seq<Json>) {
    && (forall r: Rule :: !r.IsGpu() ==>
          (r in conditions <==> r in before) && (r in conditions ==> conditions[r] == before[r]))
    && (forall r: Rule :: r.IsGpu() ==>
          && (r in conditions <==> GpuConditionFor(LastNamed(gpus, r.id), ov, r).Some?)
          && (r in conditions ==> conditions[r] == GpuConditionFor(LastNamed(gpus, r.id), ov, r).value))
  }

  lemma GpuEntriesExtend(before: map<Rule, Condition>, c: map<Rule, Condition>, d: map<Rule, Condition>,
                         gpus: seq<Named<Gpu>>, gpu: Named<Gpu>, ov: seq<Json>)
    requires HoldsGpus(before, c, gpus, ov)
    requires gpu.id.None? ==> d == c
    requires gpu.id.Some? ==>
      forall r: Rule ::
        && (r in d <==> r in c || (r.IsGpu() && r.id == gpu.id.value))
        && (r in d ==> Some(d[r]) == if r.IsGpu() && r.id == gpu.id.value
                                     then GpuConditionFor(Some(gpu.body), ov, r) else Some(c[r]))
    ensures HoldsGpus(before, d, gpus + [gpu], ov)
  {
    assert (gpus + [gpu])[..|gpus|] == gpus;
  }

  lemma GpuEntriesComplete(before: map<Rule, Condition>, c: map<Rule, Condition>,
                           part: Observation, gpus: seq<Named<Gpu>>, ov: seq<Json>)
    requires part.gpus == [] && Holds(before, part, ov) && HoldsGpus(before, c, gpus, ov)
    ensures Holds(c, part.(gpus := gpus), ov)
  {
    forall r: Rule
      ensures ConditionFor(part.(gpus := gpus), ov, r) ==
              if r.IsGpu() then GpuConditionFor(LastNamed(gpus, r.id), ov, r) else ConditionFor(part, ov, r)
    {
      GpuPart(part, gpus, ov, r);
    }
  }

  lemma {:induction false} GpuPart(part: Observation, gpus: seq<Named<Gpu>>, ov: seq<Json>, r: Rule)
    ensures ConditionFor(part.(gpus := gpus), ov, r) ==
            if r.IsGpu() then GpuConditionFor(LastNamed(gpus, r.id), ov, r) else ConditionFor(part, ov, r)
  {
  }

  method GpuConditions(before: map<Rule, Condition>, gpus: seq<Named<Gpu>>,
                       ghost part: Observation, ov: seq<Json>)
    returns (conditions: map<Rule, Condition>)
    requires part.gpus == []
    requires Holds(before, part, ov)
    ensures Holds(conditions, part.(gpus := gpus), ov)
  {
    conditions := before;
    for i := 0 to |gpus|
      invariant HoldsGpus(before, conditions, gpus[..i], ov)
    {
      ghost var c := conditions;
      if gpus[i].id.Some? {
        conditions := GpuEntries(conditions, gpus[i].id.value, gpus[i].body, ov);
      }
      GpuEntriesExtend(before, c, conditions, gpus[..i], gpus[i], ov);
      assert gpus[..i + 1] == gpus[..i] + [gpus[i]];
    }
    assert gpus[..|gpus|] == gpus;
    GpuEntriesComplete(before, conditions, part, gpus, ov);
  }

  /** A rule's two hold times depend on the rule alone. */
  function HoldSeconds(rule: Rule): (nat, nat) {
    match rule
    case PrimaryTelemetry => (120, 60)
    case RequiredObservations | CpuPressure | CriticalErrorObservation => (600, 300)
    case MemoryPressure => (300, 300)
    case InventoryChange | GpuEccAggregate(_) => (0, 0)
    case DiskCapacity(_) => (600, 600)
    case DiskExhaustion(_) | GpuThermal(_) => (0, 600)
    case RequiredService(_) => (120, 120)
    case TemperatureHeadroom(_) | GpuTemperature(_) => (300, 600)
    case OomKill | StorageIoError | PreviousPanic | WatchdogReset => (0, 1800)
    case FilesystemReadOnly(_) | GpuXid(_) | GpuReset(_) | GpuEccVolatile(_) => (0, 300)
  }

  lemma HoldTimesAreFixed(obs: Observation, ov: seq<Json>, rule: Rule)
    ensures var c := ConditionFor(obs, ov, rule);
            c.Some? ==> (c.value.firingSeconds, c.value.clearingSeconds) == HoldSeconds(rule)
  {
  }

  /** Evidence never fires and clears a rule at once, whatever the readings. */
  ghost predicate Disjoint(c: Condition) {
    !(c.firing == Some(true) && c.clearing == Some(true))
  }

  lemma FiringAndClearingAreDisjoint(obs: Observation, ov: seq<Json>, rule: Rule)
    requires Accepted(ov)
    ensures var c := ConditionFor(obs, ov, rule);
            c.Some? ==> Disjoint(c.value)
  {
    AllBands(ov);
  }

  lemma AllBands(ov: seq<Json>)
    requires Accepted(ov)
    ensures forall m: Metric :: Stricter(m, BandOf([], m), BandOf(ov, m))
  {
    forall m: Metric ensures Stricter(m, BandOf([], m), BandOf(ov, m)) {
      AcceptedBandIsOrderedAndStricter(ov, m);
    }
  }

  /** Condition `b` fires whenever `a` does and clears only when `a` does. */
  predicate Tightens(a: Condition, b: Condition) {
    && (a.firing == Some(true) ==> b.firing == Some(true))
    && (b.clearing == Some(true) ==> a.clearing == Some(true))
  }

  ghost predicate Dominates(a: Option<Condition>, b: Option<Condition>) {
    a.Some? == b.Some? && (a.Some? ==> Tightens(a.value, b.value))
  }

  lemma CpuTightens(cpu: Option<Reading>, load: Option<Reading>, ov: seq<Json>)
    requires Accepted(ov)
    ensures Tightens(CpuCondition(cpu, load, []), CpuCondition(cpu, load, ov))
  {
    AcceptedBandIsOrderedAndStricter(ov, CpuUsed);
    AcceptedBandIsOrderedAndStricter(ov, NormalizedLoad);
  }

  lemma MemoryTightens(memory: Option<Reading>, ov: seq<Json>)
    requires Accepted(ov)
    ensures Tightens(MemoryCondition(memory, []), MemoryCondition(memory, ov))
  {
    AcceptedBandIsOrderedAndStricter(ov, MemoryAvailable);
  }

  lemma FilesystemTightens(fs: Filesystem, ov: seq<Json>)
    requires Accepted(ov)
    ensures Tightens(CapacityCondition(fs, []), CapacityCondition(fs, ov))
    ensures Tightens(ForecastCondition(fs, []), ForecastCondition(fs, ov))
  {
    AcceptedBandIsOrderedAndStricter(ov, FilesystemPercent);
    AcceptedBandIsOrderedAndStricter(ov, FilesystemBytes);
  }

  lemma TemperatureTightens(t: Temperature, ov: seq<Json>)
    requires Accepted(ov)
    ensures Tightens(TemperatureCondition(t, []), TemperatureCondition(t, ov))
  {
    AcceptedBandIsOrderedAndStricter(ov, Metric.TemperatureHeadroom);
  }

  lemma GpuTemperatureTightens(g: Gpu, ov: seq<Json>)
    requires Accepted(ov)
    ensures Tightens(GpuTemperatureCondition(g, []), GpuTemperatureCondition(g, ov))
  {
    AcceptedBandIsOrderedAndStricter(ov, Metric.TemperatureHeadroom);
  }

  /** Accepted overrides make every condition fire at least as easily and clear at most as easily. */
  lemma OverridesOnlyTightenConditions(obs: Observation, ov: seq<Json>, rule: Rule)
    requires Accepted(ov)
    ensures Dominates(ConditionFor(obs, [], rule), ConditionFor(obs, ov, rule))
  {
    match rule
    case CpuPressure => CpuTightens(obs.cpu, obs.load, ov);
    case MemoryPressure => MemoryTightens(obs.memory, ov);
    case DiskCapacity(m) =>
      var fs := LastNamed(obs.filesystems, m);
      if fs.Some? { FilesystemTightens(fs.value, ov); }
    case DiskExhaustion(m) =>
      var fs := LastNamed(obs.filesystems, m);
      if fs.Some? { FilesystemTightens(fs.value, ov); }
    case TemperatureHeadroom(s) =>
      var t := LastNamed(obs.temperatures, s);
      if t.Some? { TemperatureTightens(t.value, ov); }
    case GpuTemperature(uuid) =>
      var gpu := LastNamed(obs.gpus, uuid);
      if gpu.Some? { GpuTemperatureTightens(gpu.value, ov); }
    case _ => OtherRulesIgnoreOverrides(obs, ov, rule);
  }

  lemma OtherRulesIgnoreOverrides(obs: Observation, ov: seq<Json>, rule: Rule)
    requires !rule.CpuPressure? && !rule.MemoryPressure? && !rule.DiskCapacity? && !rule.DiskExhaustion?
    requires !rule.TemperatureHeadroom? && !rule.GpuTemperature?
    ensures ConditionFor(obs, ov, rule) == ConditionFor(obs, [], rule)
  {
  }
}
