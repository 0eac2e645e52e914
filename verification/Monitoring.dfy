/** The monitoring cycle: each evaluation of a server reads the overrides its profile has by then. */
module Monitoring {
  import opened FleetTables
  import opened FleetRuns
  import Rules
  import Timers
  import Health
  import Thresholds

  /** The evaluation reads the overrides of the profile revision the server has in these tables. */
  predicate ReadsProfile(t: Tables, s: string, e: Health.Evaluation) {
    && s in t.servers.rows && (t.servers.rows[s].profile, t.servers.rows[s].revision) in t.profiles.rows
    && e.ov == OverridesOf(t.profiles.rows[(t.servers.rows[s].profile, t.servers.rows[s].revision)].definition)
  }

  /** Evaluation `i` of the server is made in the state after the first `at[i]` requests of the run. */
  ghost predicate ReadsProfiles(r: Run, s: string, at: seq<nat>, evaluations: seq<Health.Evaluation>) {
    && |at| == |evaluations|
    && forall i :: 0 <= i < |at| ==> at[i] < |r.states| && ReadsProfile(r.states[at[i]], s, evaluations[i])
  }

  lemma ProfilesAreAccepted(r: Run, s: string, at: seq<nat>, evaluations: seq<Health.Evaluation>)
    requires IsRun(r) && ReadsProfiles(r, s, at, evaluations)
    ensures Health.AllAccepted(evaluations)
  {
    forall i | 0 <= i < |evaluations| ensures Thresholds.Accepted(evaluations[i].ov) {
      assert ReadsProfile(r.states[at[i]], s, evaluations[i]);
      ServersHaveAcceptedOverrides(r, at[i], s);
    }
  }

  /** Whatever is requested of the fleet in between, profiles published and activated included, the
      overrides a server is evaluated with never hide a cause nor lower the severity. */
  lemma ProfilesNeverWeakenHealth(r: Run, s: string, at: seq<nat>, evaluations: seq<Health.Evaluation>, n: nat,
                                  global: seq<map<Rules.Rule, Timers.RuleState>>,
                                  stored: seq<map<Rules.Rule, Timers.RuleState>>)
    requires IsRun(r) && ReadsProfiles(r, s, at, evaluations) && n <= |evaluations|
    requires Health.StatesAfter(Health.Global(evaluations), global) && Health.StatesAfter(evaluations, stored)
    ensures Health.ActiveRules(global[n]) <= Health.ActiveRules(stored[n])
    ensures Health.SeverityOf(Health.ActiveRules(global[n])).Rank()
            <= Health.SeverityOf(Health.ActiveRules(stored[n])).Rank()
  {
    ProfilesAreAccepted(r, s, at, evaluations);
    Health.OverridesNeverWeakenHealth(evaluations, n, global, stored);
  }
}
