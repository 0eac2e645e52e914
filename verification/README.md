# Server health and server enrollment, verified

This project models the stateful core of the lab dashboard and proves what it promises over whole
runs: how observations become Server Health and Server Incidents, how servers, collector
certificates and Server Profiles live in the database, and how the critical-error helper counts
events.

`dafny verify dfyconfig.toml` checks everything.

## The three parts

**Health** (`src/lab_dashboard/health.py`, with the override checks of `src/lab_dashboard/profile.py`).
An observation becomes one condition per rule (`Conditions`), a hysteresis machine per rule turns
conditions into activity (`Timers`), the active rules give a severity and a canonical cause list
(`Health`, `Rules`), and changes are logged as Server Incidents (`Incidents`). `HealthStore` is the
class over the health tables that does all this in place, and whose stored rule states and log are always
those of the run of its evaluations; `Maintenance` and `Alerts` read the log.
The main results:

- every rule reads its own evidence against its own thresholds, and a server is Unavailable exactly while
  failed telemetry was held for two minutes and success not yet for one;
- the timer machine has the meaning "a signal was held without a break for the hold time", for every
  clock, and nothing else has that meaning;
- threshold overrides that are accepted never hide a cause and never lower a severity, at any step of
  any run, whatever lists the evaluations were made with; and the lists a server's profile gives are
  always accepted (`Monitoring`);
- the incident log of a server is its history without repeats, incident by incident one maximal block
  away from Healthy, however evaluations of servers interleave;
- the maintenance sweep answers exactly whether every instant of an incident was planned.

**Fleet** (`src/lab_dashboard/database.py`). `FleetTables` says what each of 23 transactions makes of
the tables, `FleetDatabase` carries each out statement by statement and commits or leaves everything as
it was, `FleetTransactions` and `FleetSteps` show what every transaction keeps and never takes back,
`FleetRows` and `FleetCommits` say, independently of the transactions, what touches each kind of row and when
each request commits, and `FleetRuns`, `FleetEffects`, `FleetTokens`, `FleetActivations` and `FleetRecovery`
state the results for every sequence of requests at any times. A run starts from a fresh installation with
any seeded profiles; `FleetRuns.RunsExist` shows that every sequence of requests has one, and
`FleetDatabase.Database.Serve` ties the class to it.

**Critical-error helper** (`deploy/collector/lab-critical-errors-helper`). `CriticalErrors` and
`CriticalErrorsHelper`: each identity is counted once, for the counter of the first event that carries
it, however often documents repeat and wherever a run stops between replacing its two files.
`CriticalErrorIdentities`: which boot IDs make identities tell events apart, so that events are counted.
`CriticalErrorDocuments`: what a document is counted for, read from its fields.

## What the code does not keep

- *Restoring a server that must enroll again.* `CONTEXT.md:59-60` and
  `docs/operations/stack-operations.md:90` promise that new credentials and another verified first
  contact restore it. A good contact with nothing in between does so if and only if neither a contact row nor a
  staging target is left from before (`FleetRecovery.ServersAreRestoredWhen`; for token and contact alone
  `FleetRecovery.ReEnrollmentCommitsWhen`), and when something comes in between, the approval needs the staging
  target of the contact (`FleetRecovery.ApprovalCommitsWhen`). So the promise fails in three ways, each with
  its run and with the exact requests that lead into and out of it:
  - a contact row is left when recovery or expiry takes the certificate of a server under review, and
    only retirement removes it; until then the server commits no contact and no decision
    (`FleetRecovery.StrandedExactlyWhen`, `FleetRecovery.StrandedServersWait`,
    `FleetRecovery.StrandedServersCommitNothing`, `FleetRecovery.RecoveryCanStrand`);
  - a staging target is left when the certificate is revoked or expires while one is staged, such as for an
    address change, and only activating that change, recovery or retirement removes it
    (`FleetRecovery.LeftoverExactlyWhen`, `FleetRecovery.AddressChangeCanBlock`);
  - a contact under review loses its staging target when any staged address change of the server is activated,
    left from before the review, as after a recovery, or staged during it, as for a server whose earlier
    certificate expired (`FleetRecovery.UntargetedExactlyWhen`, `FleetRecovery.OldAddressChangeCanBlock`,
    `FleetRecovery.NewAddressChangeCanBlock`). It cannot be approved until a target is staged again, which is
    possible only where an active target is left, so after expiry (`FleetRecovery.IdleTargetExactlyWhen`,
    `FleetRecovery.StagingAgainNeedsIdleTarget`); otherwise it can only be rejected, recovered or retired.
- *One count per event.* Two different events of a host can share an identity: boot "a" with storage event
  "storage:y" and boot "a:storage" with "y". `CriticalErrorIdentities.CollisionsAreAmbiguous` and
  `CriticalErrorIdentities.AmbiguousBootsCollide` say exactly which boot IDs are to blame: those with a later
  part "storage" or "watchdog", and those of at most 124 characters whose first part is "panic". On all
  others every counter is the number of distinct events (`CriticalErrorIdentities.EachEventCountsOnce`). In
  general the counters together fall short of the distinct events exactly when two of these share an identity
  (`CriticalErrorIdentities.CountersMeetEvents`), and every ambiguous boot ID has two documents with two events
  that are counted as one (`CriticalErrorIdentities.AmbiguousBootsAreMiscounted`).
- *Coverage of an incident without length.* When the clock stood still or stepped back between opening
  and closing, the sweep reports the incident as planned as soon as one window overlaps it, although it
  has no instant to cover; `Maintenance.IncidentMaintenance` states both cases.
- *An aggregate ECC rule* is dropped, not cleared, once coverage is no longer expected and the GPU is not
  listed; `Health.AggregateEccStays` gives the exact condition.

## Model

| member | source | states |
|---|---|---|
| `Thresholds.OverrideDetails` | src/lab_dashboard/profile.py:288-295 | an override list is accepted exactly when it is a list whose every entry is accepted; otherwise every kind of objection some entry has is reported, once |
| `Thresholds.AcceptedBandIsOrderedAndStricter` | src/lab_dashboard/profile.py:398-438 | whatever list is accepted, duplicate metrics included, the band the rules read for a metric is finite, ordered with a gap, and at least as strict as the global one |
| `Thresholds.StricterBandsAreConfigurable` | src/lab_dashboard/profile.py:413-438 | an override with a rationale is accepted if and only if its band is non-negative, ordered and not weaker than the baseline, and the band the rules then read is the configured one |
| `Thresholds.AcceptedEntriesAreOverrides` | src/lab_dashboard/profile.py:398-438 | a value is accepted exactly when it is an override of one of the six metrics: its five fields and no other, a rationale, and a stricter non-negative band |
| `Thresholds.ObjectionsMean` | src/lab_dashboard/profile.py:398-438 | which of the five objections is made to any other value |
| `Thresholds.FirstOverrideIsRead` | src/lab_dashboard/health.py:1073-1087 | the first override of a metric is the one the rules read, and bears on no other metric |
| `Rules.NamesAreInjective` | src/lab_dashboard/health.py:803-1073 | two rules never get the same name, with any mount, service, sensor or GPU in it, so the dictionary of conditions never mixes them up |
| `Rules.NameTestsPickTheRule` | src/lab_dashboard/health.py:476-496 | the two prefix tests on stored names pick exactly the GPU rules and the read-only rules |
| `Rules.OrderedRules` | src/lab_dashboard/health.py:1324-1327 | the sort gives the one ascending list of the set, primary telemetry first, then the names in code-point order |
| `Rules.AscendingListIsUnique` | src/lab_dashboard/health.py:1324-1327 | the cause list depends on the set of active rules alone |
| `Rules.CauseListsAreOrdered` | src/lab_dashboard/health.py:1324-1327 | of two causes the earlier comes earlier among primary telemetry, required observations, inventory change, CPU and memory pressure, or is alone among them, or has the smaller name |
| `Conditions.RuleConditions` | src/lab_dashboard/health.py:803-1073 | each of the 21 kinds of rules has a condition exactly when its own field is reported, which fires and clears by that field against the thresholds of its own metric, with its own two hold times; of several entries under a name the last decides |
| `Conditions.FiniteReadingsAnswer` | src/lab_dashboard/health.py:812-912 | in numbers: under the global thresholds CPU pressure fires at 95 and a load above 1.5 and clears below 85 or 1.1, memory pressure fires below 10 and clears above 15, and not-a-number does neither |
| `Conditions.FiniteEntriesAnswer` | src/lab_dashboard/health.py:912-1087 | the same for file systems, temperatures, GPU temperatures and aggregate ECC counts |
| `Conditions.FiringAndClearingAreDisjoint` | src/lab_dashboard/health.py:812-1087 | for every observation and accepted override list no condition fires and clears at once |
| `Conditions.OverridesOnlyTightenConditions` | src/lab_dashboard/health.py:812-1087 | under accepted overrides every condition fires whenever the global one does and clears only when it does |
| `Timers.AdvanceRule` | src/lab_dashboard/health.py:1090-1142 | one step of the machine on a copied record, timers kept at the earlier of stored and current time |
| `Timers.TimerIsEarliestOfBlock` | src/lab_dashboard/health.py:1104-1136 | in every run the stored timer is the least timestamp of the unbroken block of signals since the last toggle, and absent without a block |
| `Timers.MachineRefinesHold` | src/lab_dashboard/health.py:1090-1142 | for every run and every clock, activity changes at a sample exactly when a signal was held, without a break or a toggle, since a sample at least the hold time earlier |
| `Timers.HoldTraceIsUnique` | src/lab_dashboard/health.py:1090-1142 | the timer-free description admits one activity for each run of samples |
| `Timers.FlappingIsBounded` | src/lab_dashboard/health.py:1104-1126 | with a clock that never steps back, m activations after the first take at least m times the sum of both hold times |
| `Health.KeepStored` | src/lab_dashboard/health.py:476-496 | which conditions are added for stored rules without evidence: read-only mounts as clearing, GPU rules as unknown |
| `Health.AdvanceAll` | src/lab_dashboard/health.py:497-508 | stored rules without a condition are dropped and every other rule is advanced by its own condition |
| `Health.EvaluateRules` | src/lab_dashboard/health.py:470-533 | one evaluation from stored states to states, canonical causes and severity, which is Unavailable exactly for active primary telemetry and Healthy exactly without any active rule |
| `Health.StatesAreRuleRuns` | src/lab_dashboard/health.py:475-508 | the stored dictionary after any number of evaluations, each with its own override list, is, rule by rule, the run of that rule alone |
| `Health.OverridesNeverWeakenHealth` | src/lab_dashboard/health.py:449-521 | for all observations, times and accepted override lists, which may change at every evaluation, every rule active under the global thresholds is active at every step, and severity is at least as bad |
| `Monitoring.ProfilesNeverWeakenHealth` | src/lab_dashboard/observation.py:149-155 | the same for a server monitored through any run of fleet requests, each evaluation reading the overrides of the profile the server has by then |
| `Health.PresentRuleIsHeldSignal` | src/lab_dashboard/health.py:497-508 | from any evaluation at which a rule has no stored state, and for as long as evaluations have a condition for it, it is active exactly by the meaning of holding a signal since then |
| `Health.LostTelemetryIsHeld` | src/lab_dashboard/health.py:873-884 | over every run the primary-telemetry rule is active exactly from failures held for 120 seconds until successes held for 60, an evaluation without a result breaking both |
| `Health.LostGpusAreFrozen` | src/lab_dashboard/health.py:488-496 | a GPU that is no longer listed keeps the activity of its rules where coverage is expected, and loses them where it is not |
| `Health.UnlistedRulesAreForgotten` | src/lab_dashboard/health.py:497-499 | every other rule whose evidence is no longer reported loses its state at once, read-only mounts only with all critical-error evidence |
| `Health.RuleStartsAfresh` | src/lab_dashboard/health.py:497-508 | where a rule has no stored state, whatever came before is forgotten: what follows is a run of its own |
| `Health.AggregateEccStays` | src/lab_dashboard/health.py:1063-1071 | an active aggregate-ECC rule stays active through one evaluation exactly when the GPU is listed or coverage is expected |
| `Health.AggregateEccLatches` | src/lab_dashboard/health.py:488-496 | through evaluations that expect GPU coverage an active aggregate-ECC rule never clears |
| `Health.ReadOnlyClearsAfterAbsence` | src/lab_dashboard/health.py:476-487 | from the first evaluation, or from any after one without critical-error evidence, and for as long as evaluations have that evidence, a reported read-only mount activates its rule at once, and the rule clears exactly after the mount was absent for 300 seconds without a break |
| `Incidents.TransitionsAreStutterFree` | src/lab_dashboard/health.py:1145-1256 | for any interleaving of servers, a server's transitions are its evaluations without consecutive repeats and without leading Healthy ones |
| `Incidents.IncidentsAreBlocks` | src/lab_dashboard/health.py:1145-1256 | a server's incidents are one-to-one its maximal unhealthy blocks, with their opening and closing times, final severity and profile |
| `Incidents.OpenExactlyWhileUnhealthy` | src/lab_dashboard/health.py:1199-1256 | a server has an open incident if and only if its last evaluation was not Healthy |
| `Incidents.StartsAreExact` | src/lab_dashboard/health.py:1145-1256 | the blocks listed are exactly the maximal runs of unhealthy evaluations, in order |
| `Incidents.BlocksCover` | src/lab_dashboard/health.py:1145-1256 | every unhealthy evaluation lies in a listed block |
| `Incidents.ReplayIsConsistent` | src/lab_dashboard/health.py:1145-1256 | in every log, each incident opened with its first transition, shows its last one, never repeats itself and is closed by Healthy alone |
| `HealthStore.HealthDatabase.RecordIncidentTransition` | src/lab_dashboard/health.py:1145-1256 | the inserts and updates of the two incident tables for one evaluation |
| `HealthStore.HealthDatabase.EvaluateServerHealth` | src/lab_dashboard/health.py:449-558 | one evaluation in place: the states follow the rules and are those of the run of all evaluations of the server, each outcome recorded is that of this run so far, the log is that of all evaluations made, other servers are untouched, and the window reported is the active one that started last |
| `HealthStore.HealthDatabase.OverridesNeverHideCauses` | src/lab_dashboard/health.py:462-521 | in every state of the tables, every rule the global thresholds would have active after the evaluations a server had is active in its stored states, if its override lists were accepted |
| `HealthStore.HealthDatabase.LogShowsObservations` | src/lab_dashboard/health.py:534-553 | in every state of the tables the transitions of a server are, without repeats, what the run of its own observations gives one by one, and its incidents the maximal unhealthy blocks of that run |
| `HealthStore.HealthDatabase.SeverityTellsTelemetry` | src/lab_dashboard/health.py:515-521 | in every state of the tables an outcome of a server is Unavailable exactly while telemetry failure was held for 120 seconds and success not yet for 60 since, Healthy exactly when no rule is active, and Degraded otherwise |
| `HealthStore.HealthDatabase.ActiveMaintenanceWindow` | src/lab_dashboard/health.py:691-705 | the window found contains the time and started last among those of the server that do; none is found only when there is none |
| `HealthStore.HealthDatabase.CreateMaintenanceWindow` | src/lab_dashboard/health.py:610-646 | a window is stored exactly when it has positive length and a reason that is not blank |
| `HealthStore.HealthDatabase.ListIncidents` | src/lab_dashboard/health.py:1259-1321 | newest first by strictly falling ids, exactly the incidents of the server, which are those its history calls for, each with its own transitions and the windows overlapping it |
| `HealthStore.ShownWindowsOverlap` | src/lab_dashboard/health.py:1298-1315 | the windows shown with an incident are exactly those of its server that overlap it, for an open one up to the end of the year 9999 |
| `HealthStore.HealthDatabase.CreateNotificationDeliveryTest` | src/lab_dashboard/health.py:649-664 | a test is stored under the next identifier |
| `HealthStore.HealthDatabase.CriticalAlerts` | src/lab_dashboard/health.py:168-244 | from any reachable tables the published series are those of the log for the registered servers, with the delivery tests of the last two minutes |
| `HealthStore.HealthDatabase.AlertsFollowLastEvaluation` | src/lab_dashboard/health.py:168-226 | an open incident of a server is published exactly while its last evaluation was not Healthy, it is registered and no work is under way, with the severity and the causes of that evaluation |
| `HealthStore.HistoryGrows` | src/lab_dashboard/health.py:534-553 | one more evaluation keeps the tables those of the history |
| `Maintenance.Sweep` | src/lab_dashboard/health.py:735-747 | the single pass over sorted overlapping rows reports whole containment exactly when the rows cover every instant |
| `Maintenance.OverlappingIsQuery` | src/lab_dashboard/health.py:717-725 | the rows of the query are the overlapping windows of the server, each as often as stored |
| `Maintenance.OverlappingIsSorted` | src/lab_dashboard/health.py:717-725 | the rows of the query come by start |
| `Maintenance.IncidentMaintenance` | src/lab_dashboard/health.py:708-761 | a closed incident of positive length is wholly contained if and only if every instant of it lies in some half-open window of its server, overlapping, nested or touching; and one is active exactly when an overlapping window contains the present, in which case the one that started first is named |
| `Alerts.NotificationTransition` | src/lab_dashboard/health.py:270-281 | the loop over the transitions gives the label of the last severity change, opening without one |
| `Alerts.OpenIncidentLabel` | src/lab_dashboard/health.py:200-210 | for every open incident a log can contain the label is opening exactly when its severity never changed, and else escalation when it is now Unavailable and improvement when Degraded |
| `Alerts.CriticalAlertSeries` | src/lab_dashboard/health.py:169-244 | an incident of a registered server is published exactly outside active maintenance, open with severity and label, or as a recovery for a minute unless it was wholly planned, each with name, duration and whether a window ever overlapped it; a delivery test fires for half a minute and is then a recovery until two minutes |
| `Alerts.PublishedExactlyWhen` | src/lab_dashboard/health.py:192-244 | an incident is published as open exactly while it is, outside the windows that contain the present, and as a recovery exactly for 60 seconds from its closing if some instant of it lies in no window |
| `Alerts.ContentTells` | src/lab_dashboard/health.py:211-244 | every series has the name of its server, the duration up to the closing or the present, and whether a window ever overlapped the incident |
| `Labels.ChainedReplacesEscape` | src/lab_dashboard/health.py:342-343 | the three chained replacements are one pass that escapes each character on its own |
| `Labels.EncodedLabelsAreRead` | src/lab_dashboard/health.py:335-339 | for all values a parser of the text exposition format reads the encoded list back exactly |
| `IsoText.TextOrderIsTimeOrder` | src/lab_dashboard/health.py:699-747 | for all UTC instants the order of the stored texts is the order of the instants, with and without a fraction |
| `FleetDatabase.Database.RegisterServer` | src/lab_dashboard/database.py:1643-1711 | registers with the latest published revision, unless there is none or the Server ID or the name is taken |
| `FleetDatabase.Database.IssueBootstrapToken` | src/lab_dashboard/database.py:1755-1810 | issues a token for fifteen minutes, only to a server that awaits a contact |
| `FleetDatabase.Database.ValidateBootstrapToken` | src/lab_dashboard/database.py:1982-2031 | a token is usable exactly when it is the server's, not consumed and not expired |
| `FleetDatabase.Database.ConsumeBootstrapToken` | src/lab_dashboard/database.py:1825-1979 | writes the six tables of a first contact or, at any conflict, none |
| `FleetDatabase.Database.RecordStagedObservations` | src/lab_dashboard/database.py:2814-2858 | only for a contact under review |
| `FleetDatabase.Database.ApproveEnrollment` | src/lab_dashboard/database.py:2879-3097 | five refusals in order, else the server is active |
| `FleetDatabase.Database.RejectEnrollment` | src/lab_dashboard/database.py:2879-3143 | revokes the certificate and lets the server await a contact again |
| `FleetDatabase.Database.RevokeCertificate` | src/lab_dashboard/database.py:2205-2280 | for active servers only |
| `FleetDatabase.Database.RenewCertificate` | src/lab_dashboard/database.py:2283-2353 | for the current fingerprint, at most ten days before expiry |
| `FleetDatabase.Database.RotateCertificate` | src/lab_dashboard/database.py:2356-2422 | the old certificate ends a day later |
| `FleetDatabase.Database.ExpireCertificates` | src/lab_dashboard/database.py:2448-2492 | the loop ends exactly the expired certificates, and only active servers change state |
| `FleetDatabase.Database.StageScrapeAddress` | src/lab_dashboard/database.py:2495-2571 | undone without an active target |
| `FleetDatabase.Database.ActivateScrapeAddress` | src/lab_dashboard/database.py:2574-2633 | for the expected fingerprint |
| `FleetDatabase.Database.RecoverIntermediate` | src/lab_dashboard/database.py:2636-2691 | the loop revokes exactly the live certificates; active and pending servers must enroll again |
| `FleetDatabase.Database.RetireServer` | src/lab_dashboard/database.py:2694-2765 | five tables cleared |
| `FleetDatabase.Database.Clone` | src/lab_dashboard/database.py:727-789 | a sound revision in use becomes draft 1 of a new profile |
| `FleetDatabase.Database.CreateDraft` | src/lab_dashboard/database.py:792-859 | the revision after the greatest |
| `FleetDatabase.Database.Publish` | src/lab_dashboard/database.py:862-990 | a sound draft; the loop stages it for exactly the servers of the profile at another revision without an assignment or rollback staged |
| `FleetDatabase.Database.Withdraw` | src/lab_dashboard/database.py:993-1036 | published and not seeded |
| `FleetDatabase.Database.StageConfiguration` | src/lab_dashboard/database.py:1039-1147 | an assignment needs a published revision, a rollback a smaller one of the same profile, both a sound definition |
| `FleetDatabase.Database.ActivateConfiguration` | src/lab_dashboard/database.py:1150-1323 | the staged revision becomes the server's and is logged; changed hardware is recorded instead |
| `FleetDatabase.Database.ObserveInventory` | src/lab_dashboard/database.py:1326-1411 | refreshes the verified inventory or lets a changed one wait |
| `FleetDatabase.Database.AcceptInventoryChange` | src/lab_dashboard/database.py:1414-1457 | the waiting inventory replaces the verified one |
| `FleetDatabase.Database.Serve` | src/lab_dashboard/database.py:727-3143 | after every request the tables are those of the run of all requests served, so that everything below holds of them |
| `FleetCommits.RequestsCommitWhen` | src/lab_dashboard/database.py:1643-3143 | in every run each of the 23 requests commits exactly when the rows it finds meet its conditions, listed request by request; display names are compared letter by letter, required observations by name |
| `FleetCommits.RefusalsSayWhy` | src/lab_dashboard/database.py:1643-3143 | where a request can be refused for several reasons the answer tells which condition was not met |
| `FleetEffects.RunsMoveRows` | src/lab_dashboard/database.py:1643-3143 | over every run a committed request changes the nine kinds of rows a server has by the rules of each table, and a refused one nothing but the inventory that a failed activation leaves |
| `FleetEffects.OthersAreUntouched` | src/lab_dashboard/database.py:1643-3143 | a request that names another server changes no row of this one in any table |
| `FleetTransactions.ApplyKeepsInvariant` | src/lab_dashboard/database.py:727-3143 | each of the 23 transactions, committed or refused, keeps the cross-table invariant |
| `FleetRows.HistoryChanges` | src/lab_dashboard/database.py:1905-2765 | every history row: entered as its certificate is issued, ended once, with the time and the reason of the request that ended it; by a rotation a day later, and by recovery also if it was rejected before |
| `FleetRows.RevocationsChange` | src/lab_dashboard/database.py:2205-3127 | a certificate is revoked exactly by rejection, revocation, retirement or recovery while it is live, with its server and that time |
| `FleetRows.TokensChange` | src/lab_dashboard/database.py:1755-1872 | tokens are issued for fifteen minutes and consumed by a contact, and nothing else changes them |
| `FleetRows.CatalogChanges` | src/lab_dashboard/database.py:727-1036 | a clone is revision 1 with the definition of its source, a draft the next revision, and publication and withdrawal change the state of their own revision only |
| `FleetRows.LogChanges` | src/lab_dashboard/database.py:1277-3070 | the log gains one entry by an approval, with the profile the server has, and by an activation, with what was staged, and none by anything else |
| `FleetRuns.RunsKeepInvariant` | src/lab_dashboard/database.py:312-3143 | every state reachable by any requests at any times satisfies the cross-table invariant |
| `FleetRuns.RunsTakeNothingBack` | src/lab_dashboard/database.py:727-3143 | no run forgets or rewrites an issued, ended or revoked certificate, revives a retired server, changes a drafted revision, reuses a token or edits the activation log |
| `FleetRuns.CertificatesAreAccountedFor` | src/lab_dashboard/database.py:1841-2492 | in every reachable state a fingerprint is live at a server if and only if its history row is that server's, unended and not revoked; it is live at one server only, and nothing is revoked that was not issued |
| `FleetRuns.CertificatesAreIssuedOnce` | src/lab_dashboard/database.py:379-386 | a fingerprint is issued by at most one step of a run, and is in the history exactly when it was |
| `FleetRuns.CertificatesNeverReturn` | src/lab_dashboard/database.py:2205-2765 | a certificate that is not live any more never is again, and its history row stays its server's |
| `FleetEffects.ReplacementsTakeOver` | src/lab_dashboard/database.py:2283-2422 | a renewal or rotation puts the new certificate in the place of the live one, whose history row ends at once or a day later |
| `FleetRuns.RejectionNeverCollides` | src/lab_dashboard/database.py:3100-3127 | the plain insert of a rejection into the revoked table never fails; it commits exactly for a server under review with a live certificate and the right code |
| `FleetRuns.ContactCommitsWhen` | src/lab_dashboard/database.py:1841-1977 | the exact conditions under which a first contact commits in a reachable state |
| `FleetRecovery.ReEnrollmentCommitsWhen` | src/lab_dashboard/database.py:1877-1960 | a server that must enroll again gets a token, and a contact with it and a new certificate commits if and only if no contact row and no staging target is left |
| `FleetRecovery.ApprovalCommitsWhen` | src/lab_dashboard/database.py:2889-3070 | an approval commits if and only if the server is under review with certificate and staging target, the code is right, and inventory and observations satisfy its profile |
| `FleetRecovery.ServersAreRestoredWhen` | src/lab_dashboard/database.py:1755-3097 | token, contact, observations and approval with nothing in between make a server that must enroll again active if and only if no contact row and no staging target is left and the contact is in time, newly certified and passes the checks |
| `FleetRuns.EnrollmentStatesHold` | src/lab_dashboard/database.py:1879-3143 | active implies a live certificate, an active target and a verified inventory; a live certificate implies pending or active; pending implies a contact row; retired servers have none of it |
| `FleetEffects.NamesAreUnique` | src/lab_dashboard/database.py:341-342 | in every reachable state two servers differ in their display names by more than the case of ASCII letters |
| `FleetEffects.VerifiedHardwareStays` | src/lab_dashboard/database.py:1326-1411 | whatever inventories are observed, the required hardware on record stays as it was verified until approval, acceptance or another configuration |
| `FleetEffects.WaitingInventoryStays` | src/lab_dashboard/database.py:1362-1411 | the inventory that waits is the first one observed with other hardware, until it is accepted or an activation reports another |
| `FleetRuns.RetirementIsFinal` | src/lab_dashboard/database.py:2694-2765 | a retired server stays retired and without certificate, targets, contact and address change |
| `FleetRuns.RevisionsAreNumberedAndImmutable` | src/lab_dashboard/database.py:792-859 | the revisions of a profile are exactly 1 to n, and a drafted revision keeps its content while its state only advances |
| `FleetRuns.DraftsAreNeverInUse` | src/lab_dashboard/database.py:1070-1127 | no server has or awaits a draft |
| `FleetRuns.ServersHaveAcceptedOverrides` | src/lab_dashboard/database.py:216-225 | in every reachable state the overrides read for a server are the whole list of its profile, and every one of them was accepted |
| `FleetRuns.ActivationsGoWhereStaged` | src/lab_dashboard/database.py:1277-1309 | an activation moves the server where it was staged; a rollback, whatever happened since it was staged, to a strictly smaller revision of the profile the server has |
| `FleetEffects.ActivationsCommitWhen` | src/lab_dashboard/database.py:1182-1309 | in every run an activation commits exactly when the digest reported is the one staged, the required observations are there and the inventory satisfies the staged definition with the hardware verified; the reported digest becomes the configuration and the activation is logged; where only the hardware differs the inventory waits and nothing else changes |
| `FleetEffects.PublicationsReachServers` | src/lab_dashboard/database.py:911-965 | after a publication every server of the profile at another revision awaits that revision with its definition and its own verified bindings, unless an assignment or rollback was staged there; no other staged row changes |
| `FleetRuns.StagedDecisionsSurvive` | src/lab_dashboard/database.py:926-965 | a staged assignment or rollback stays unchanged until that server is staged or activated again, so no publication overwrites it |
| `FleetRuns.InitialisingAgainChangesNothing` | src/lab_dashboard/database.py:390-567 | initialising again at any point finds every history row, activation and seed in place |
| `FleetTokens.TokensAreConsumedOnce` | src/lab_dashboard/database.py:1862-1872 | under any interleaving a token is consumed by at most one commit, and is marked consumed exactly when it was |
| `FleetTokens.TokensAreIssuedAndExpire` | src/lab_dashboard/database.py:1755-1787 | every token was issued to its server fifteen minutes before its expiry and consumed, if at all, before that |
| `FleetTokens.ValidatedTokensStayUsable` | src/lab_dashboard/app.py:1291-1338 | between validation and first contact anything may happen; the token is still usable exactly when it is unexpired and no other contact consumed it |
| `FleetTokens.EntriesNeedTokens` | src/lab_dashboard/app.py:1291-1343 | a server enters active at most as often as one of its tokens was consumed, and each was consumed by one committed contact |
| `FleetActivations.PositionAtIsLast` | src/lab_dashboard/database.py:1493-1502 | the entry found is the server's last by time and then by position among those made until then |
| `FleetActivations.LogAgreesWithHistory` | src/lab_dashboard/database.py:1485-1505 | on a clock that never goes back the query answers, for every time, with the profile revision the server had after its last commit until then, ties included, and with nothing before its first approval |
| `FleetRecovery.StrandedExactlyWhen` | src/lab_dashboard/database.py:2636-2680 | a waiting contact outlives its certificate exactly through expiry or recovery, and is released by the server's retirement alone |
| `FleetRecovery.StrandedServersWait` | src/lab_dashboard/database.py:1939-1960 | until it is retired such a server keeps its contact row without a certificate and is never active again |
| `FleetRecovery.StrandedServersCommitNothing` | src/lab_dashboard/database.py:1939-1960 | and until then no first contact, approval or rejection of it commits |
| `FleetRecovery.RecoveryCanStrand` | src/lab_dashboard/database.py:2670-2680 | a run of four requests that leads there |
| `FleetRecovery.LeftoverExactlyWhen` | src/lab_dashboard/database.py:2244-2492 | a staging target outlives the certificate exactly through revocation or expiry, and goes exactly through activation of the address change, recovery or retirement |
| `FleetRecovery.AddressChangeCanBlock` | src/lab_dashboard/database.py:2461-2483 | runs of seven requests, ending in revocation or in expiry, that leave one behind for a server that must enroll again |
| `FleetRecovery.UntargetedExactlyWhen` | src/lab_dashboard/database.py:2600-2622 | a server under review loses its staging target exactly when the address change staged for it, before the review or during it, is activated, until the review ends or a target is staged again |
| `FleetRecovery.OldAddressChangeCanBlock` | src/lab_dashboard/database.py:2600-2622 | a run of ten requests that leads there through recovery, with an address change from before |
| `FleetRecovery.NewAddressChangeCanBlock` | src/lab_dashboard/database.py:2448-2622 | a run of ten requests that leads there through expiry, with an address change staged during the review |
| `FleetRecovery.IdleTargetExactlyWhen` | src/lab_dashboard/database.py:2448-2492 | an active target is left for a server that is not active exactly through the expiry of an active server's certificate, until approval, recovery or retirement |
| `FleetRecovery.StagingAgainNeedsIdleTarget` | src/lab_dashboard/database.py:2518-2560 | for a server that lost its staging target one can be staged again only where such an active target is left |
| `CriticalErrorsHelper.Helper.CountStorage` | deploy/collector/lab-critical-errors-helper:56-68 | the loop over storage events counts every event whose identity is new, and fails on any malformed one |
| `CriticalErrorsHelper.Helper.CountBootEvent` | deploy/collector/lab-critical-errors-helper:70-90 | panic and watchdog evidence is counted once per identity, and only where it is detected (`CriticalErrorDocuments.DocumentsListEvents`) |
| `CriticalErrorsHelper.Helper.StorageLines` | deploy/collector/lab-critical-errors-helper:100-107 | every storage counter is printed under its own two labels, and nothing else is |
| `CriticalErrorsHelper.StorageKeySplits` | deploy/collector/lab-critical-errors-helper:103 | the labels of a storage counter are recovered from its key |
| `CriticalErrorsHelper.Helper.Run` | deploy/collector/lab-critical-errors-helper:35-150 | one run: a malformed document changes no file, otherwise the state is replaced before the output, unless the run stops in between |
| `CriticalErrorsHelper.EachIdentityCountsOnce` | deploy/collector/lab-critical-errors-helper:46-90 | from an empty disk, over any documents and any interruptions, each counter is the number of identities that are its own, and all counters add up to the identities seen |
| `CriticalErrorDocuments.DocumentsListEvents` | deploy/collector/lab-critical-errors-helper:55-94 | a document is counted exactly when it is well-formed, for one storage event for each listed item under its own class and device, and for a panic and a watchdog reset exactly when the field says `true` |
| `CriticalErrorDocuments.DetectedEventsAreCounted` | deploy/collector/lab-critical-errors-helper:70-90 | over any documents and interruptions the panic and the watchdog counter never exceed the numbers of different panics and resets shown as detected, and are these numbers where no boot ID can be mistaken |
| `CriticalErrorDocuments.UndetectedIsNotCounted` | deploy/collector/lab-critical-errors-helper:77 | documents in which neither is detected, the field `false` or missing, leave both counters at 0 |
| `CriticalErrorDocuments.ListedErrorsAreCounted` | deploy/collector/lab-critical-errors-helper:56-68 | the same for every storage counter and the different errors listed under its class and device |
| `CriticalErrorDocuments.OutputShows` | deploy/collector/lab-critical-errors-helper:96-124 | an uninterrupted run shows its time, the two counters, the latest times and which sources the document says are available |
| `CriticalErrorIdentities.CollisionsAreAmbiguous` | deploy/collector/lab-critical-errors-helper:62-82 | two different events share an identity only if one has an ambiguous boot ID |
| `CriticalErrorIdentities.AmbiguousBootsCollide` | deploy/collector/lab-critical-errors-helper:62-82 | every ambiguous boot ID has two different events that share an identity |
| `CriticalErrorIdentities.EachEventCountsOnce` | deploy/collector/lab-critical-errors-helper:46-90 | on other boot IDs, over any documents and any interruptions, each counter is the number of distinct events that are its own |
| `CriticalErrorIdentities.CountersMeetEvents` | deploy/collector/lab-critical-errors-helper:46-90 | on any boot IDs, over any documents and interruptions, the counters together never exceed the distinct events and reach them exactly when no two of these share an identity |
| `CriticalErrorIdentities.AmbiguousBootsAreMiscounted` | deploy/collector/lab-critical-errors-helper:62-82 | for every ambiguous boot ID two documents with two different events are counted as one, in every run of them |
| `CriticalErrors.LedgerIsFirst` | deploy/collector/lab-critical-errors-helper:65-68 | an identity belongs to the counter of the first event that carries it |
| `CriticalErrors.RerunChangesNothing` | deploy/collector/lab-critical-errors-helper:65-90 | running a document again leaves counters and latest times unchanged |
| `CriticalErrors.LatestIsLastNew` | deploy/collector/lab-critical-errors-helper:67-89 | the latest time of a kind is that of the run, if it brought a new event of that kind, and else what it was |
| `CriticalErrorsHelper.PublishedNeverDecreases` | deploy/collector/lab-critical-errors-helper:128-149 | published counters never decrease, wherever runs stopped between the two replacements |

## Left out

- Audit rows: written by every transaction and by some refusals, read by nothing modelled here.
- SQL, JSON and hashing: tables are maps under their primary keys, a configuration hash stands for its
  bundle, tokens for their hashes, and documents are decoded values.
- Times are integers in microseconds; that their stored texts compare alike is `IsoText.TextOrderIsTimeOrder`.
- Numbers are reals with the two infinities and NaN; rounding of binary floating point is not modelled.
- Inventory checks and inventory signatures (`src/lab_dashboard/database.py:1508-1640`): arbitrary functions,
  so everything holds whatever they are.
- Profile checks other than threshold overrides: an arbitrary function, so everything holds whatever they
  are. Request parsing: long conjunctions without state.
- The two messages of a failed registration: a taken name and a taken Server ID are one outcome.
- Display names compare without case for ASCII letters only, as the database collation does.
- Row order where nothing depends on it: the servers of a publication, of an expiry and of a recovery are
  taken in any order.
- Transactions are serial: `BEGIN IMMEDIATE` and the write lock order them, and a run is that order. A
  bootstrap request is its two transactions with anything in between.
- Certificate issuance, scrape credentials on disk, HTTP, TLS and Prometheus: their results are inputs.
- Texts for people: cause summaries, explanations, and the wording of durations and maintenance annotations,
  which are modelled as values; administrator links.
- Acknowledgments: single inserts that influence no rule.
- Schema creation, legacy renames and the backfill of old databases: runs start from a fresh installation,
  and `FleetRuns.InitialisingAgainChangesNothing` covers a restart.
- The lines of the helper's output: modelled as the values they show, not as text; writing the temporary
  file and its permissions are not part of this model.
- CriticalErrorsHelper.Helper.Run: assumes a state file the helper wrote itself; a hand-edited one is not modelled.
- HealthStore.HealthDatabase.EvaluateServerHealth: assumes stored states the code wrote itself.
- FleetDatabase.Database.RecoverIntermediate: requires the certificate part of the invariant, which every
  reachable state has; otherwise which of two servers with one fingerprint is named would depend on row order.
