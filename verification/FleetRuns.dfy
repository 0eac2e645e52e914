/** Runs: any sequence of requests, at any times, from a fresh installation. */
module FleetRuns {
  import opened Basics
  import Thresholds
  import opened FleetTables
  import opened FleetInvariants
  import opened FleetTransactions
  import opened FleetSteps

  datatype Step = Step(now: int, request: Request)

  /** The requests served and the tables before and after each. */
  datatype Run = Run(
    checks: Checks, seeds: map<(string, nat), Profile>, steps: seq<Step>, states: seq<Tables>)

  ghost function After(checks: Checks, t: Tables, step: Step): (Tables, Outcome) {
    Apply(t, step.now, checks, step.request)
  }

  ghost predicate IsRun(r: Run) {
    && AreSeeds(r.seeds)
    && |r.states| == |r.steps| + 1
    && r.states[0] == Installed(r.seeds)
    && forall i :: 0 <= i < |r.steps| ==> IsStep(r, i)
  }

  ghost predicate IsStep(r: Run, i: nat)
    requires i < |r.steps| && |r.states| == |r.steps| + 1
  {
    r.states[i + 1] == After(r.checks, r.states[i], r.steps[i]).0
  }

  lemma Next(r: Run, i: nat)
    requires IsRun(r) && i < |r.steps|
    ensures r.states[i + 1] == After(r.checks, r.states[i], r.steps[i]).0
  {
    assert IsStep(r, i);
  }

  /** The step commits. */
  ghost predicate Commits(r: Run, i: nat)
    requires IsRun(r) && i < |r.steps|
  {
    After(r.checks, r.states[i], r.steps[i]).1.Done?
  }

  /** Whatever is requested, there is a run. */
  lemma {:induction false} RunsExist(checks: Checks, seeds: map<(string, nat), Profile>, steps: seq<Step>)
    returns (r: Run)
    requires AreSeeds(seeds)
    ensures IsRun(r) && r.checks == checks && r.seeds == seeds && r.steps == steps
  {
    if steps == [] {
      r := Run(checks, seeds, [], [Installed(seeds)]);
    } else {
      var n := |steps| - 1;
      var before := RunsExist(checks, seeds, steps[..n]);
      r := Extended(before, steps[n]);
      RunExtends(before, steps[n]);
    }
  }

  ghost function Extended(r: Run, step: Step): Run
    requires IsRun(r)
  {
    Run(r.checks, r.seeds, r.steps + [step], r.states + [After(r.checks, r.states[|r.steps|], step).0])
  }

  lemma RunExtends(r: Run, step: Step)
    requires IsRun(r)
    ensures IsRun(Extended(r, step))
  {
    var next := Extended(r, step);
    forall i | 0 <= i < |next.steps| ensures IsStep(next, i) {
      if i < |r.steps| {
        Next(r, i);
      }
    }
  }

  ghost predicate HoldsAt(r: Run, n: nat)
    requires n < |r.states|
  {
    Invariant(r.states[n])
  }

  /** Every reachable state satisfies the invariant. */
  lemma RunsKeepInvariant(r: Run, n: nat)
    requires IsRun(r) && n < |r.states|
    ensures Invariant(r.states[n])
  {
    RunHoldsAt(r, n);
  }

  lemma {:induction false} RunHoldsAt(r: Run, n: nat)
    requires IsRun(r) && n < |r.states|
    ensures HoldsAt(r, n)
  {
    if n == 0 {
      RunStartsHolding(r);
    } else {
      RunHoldsAt(r, n - 1);
      NextHolds(r, n - 1);
    }
  }

  lemma RunStartsHolding(r: Run)
    requires IsRun(r)
    ensures HoldsAt(r, 0)
  {
    InstalledHolds(r.seeds);
  }

  lemma NextHolds(r: Run, i: nat)
    requires IsRun(r) && i < |r.steps| && HoldsAt(r, i)
    ensures HoldsAt(r, i + 1)
  {
    Next(r, i);
    StepKeepsInvariant(r.checks, r.states[i], r.steps[i], r.states[i + 1]);
  }

  lemma StepKeepsInvariant(checks: Checks, t: Tables, step: Step, u: Tables)
    requires Invariant(t) && u == After(checks, t, step).0
    ensures Invariant(u)
  {
    ApplyKeepsInvariant(t, step.now, checks, step.request);
  }

  /** No run takes anything back. */
  lemma {:induction false} RunsTakeNothingBack(r: Run, i: nat, n: nat)
    requires IsRun(r) && i <= n < |r.states|
    ensures Later(r.states[i], r.states[n])
    decreases n
  {
    if i == n {
      LaterIsReflexive(r.states[i]);
    } else {
      RunsTakeNothingBack(r, i, n - 1);
      NextAdvances(r, n - 1);
      LaterIsTransitive(r.states[i], r.states[n - 1], r.states[n]);
    }
  }

  lemma NextAdvances(r: Run, i: nat)
    requires IsRun(r) && i < |r.steps|
    ensures Later(r.states[i], r.states[i + 1])
  {
    RunsKeepInvariant(r, i);
    Next(r, i);
    StepAdvances(r.checks, r.states[i], r.steps[i], r.states[i + 1]);
  }

  lemma StepAdvances(checks: Checks, t: Tables, step: Step, u: Tables)
    requires Invariant(t) && u == After(checks, t, step).0
    ensures Later(t, u)
  {
    ApplyAdvances(t, step.now, checks, step.request);
  }

  // ---- certificates ----

  ghost predicate IsLive(t: Tables, f: string) {
    exists s :: Holds(t.certificates.rows, s, f)
  }

  /** In every reachable state a certificate is live at a server exactly when its history row is that
      server's, has not ended, and it is not revoked; and it is live at one server only. */
  lemma CertificatesAreAccountedFor(r: Run, n: nat, s: string, f: string)
    requires IsRun(r) && n < |r.states|
    ensures var t := r.states[n];
            && (Holds(t.certificates.rows, s, f) <==>
                  f in t.history.rows && t.history.rows[f].server == s && t.history.rows[f].ended.None?
                  && f !in t.revoked.rows)
            && (forall x :: Holds(t.certificates.rows, s, f) && Holds(t.certificates.rows, x, f) ==> x == s)
            && (f in t.revoked.rows ==> f in t.history.rows)
  {
    var t := r.states[n];
    RunsKeepInvariant(r, n);
    LiveIsUnended(t, s, f);
    forall x ensures Holds(t.certificates.rows, s, f) && Holds(t.certificates.rows, x, f) ==> x == s {
      LiveIsUnended(t, x, f);
    }
  }

  /** A certificate stays in the history under its server, and once it is not live it never is again. */
  lemma CertificatesNeverReturn(r: Run, i: nat, n: nat, f: string)
    requires IsRun(r) && i <= n < |r.states| && f in r.states[i].history.rows
    ensures var t, u := r.states[i], r.states[n];
            && f in u.history.rows && RowLater(t.history.rows[f], u.history.rows[f])
            && (IsLive(u, f) ==> IsLive(t, f))
            && (f in t.revoked.rows ==> f in u.revoked.rows && u.revoked.rows[f] == t.revoked.rows[f])
  {
    var t, u := r.states[i], r.states[n];
    RunsTakeNothingBack(r, i, n);
    if s :| Holds(u.certificates.rows, s, f) {
      assert Holds(t.certificates.rows, s, f);
    }
  }

  /** The fingerprint a request asks to certify. */
  function Certifies(r: Request): Option<string> {
    match r
    case ConsumeBootstrapToken(_, _, contact) => Some(contact.fingerprint)
    case RenewCertificate(_, _, fingerprint, _) => Some(fingerprint)
    case RotateCertificate(_, fingerprint, _) => Some(fingerprint)
    case _ => None
  }

  /** How many of the first `n` steps issued a certificate with this fingerprint. */
  ghost function Issuances(r: Run, n: nat, f: string): nat
    requires IsRun(r) && n <= |r.steps|
  {
    if n == 0 then 0
    else Issuances(r, n - 1, f) + if Certifies(r.steps[n - 1].request) == Some(f) && Commits(r, n - 1) then 1 else 0
  }

  /** A fingerprint is issued at most once in a run, and is in the history exactly when it was. */
  lemma {:induction false} CertificatesAreIssuedOnce(r: Run, n: nat, f: string)
    requires IsRun(r) && n <= |r.steps|
    ensures Issuances(r, n, f) == if f in r.states[n].history.rows then 1 else 0
  {
    if n > 0 {
      var i := n - 1;
      CertificatesAreIssuedOnce(r, i, f);
      Next(r, i);
      IssuanceEntersHistory(r.states[i], r.steps[i].now, r.checks, r.steps[i].request, f);
    }
  }

  lemma IssuanceEntersHistory(t: Tables, now: int, checks: Checks, r: Request, f: string)
    ensures var (u, outcome) := Apply(t, now, checks, r);
            var issued := Certifies(r) == Some(f) && outcome.Done?;
            (f in u.history.rows <==> f in t.history.rows || issued) && !(issued && f in t.history.rows)
  {
  }

  /** A rejection never fails on the revoked table's key: it commits exactly when the server is under
      review with a live certificate and the code is right. */
  lemma RejectionNeverCollides(r: Run, n: nat, now: int, s: string, code: string)
    requires IsRun(r) && n < |r.states|
    ensures var t := r.states[n]; var outcome := Reject(t, now, s, code).1;
            && outcome != IntegrityError
            && (outcome.Done? <==> InState(t, s, PendingVerification) && s in t.certificates.rows
                                   && s in t.contacts.rows && t.contacts.rows[s].code == code)
  {
    var t := r.states[n];
    RunsKeepInvariant(r, n);
    assert RowsFit(RowsOf(t, s));
    if s in t.certificates.rows {
      assert Trusted(s, t.certificates.rows[s].fingerprint, t.history.rows, t.revoked.rows);
    }
    if s in t.servers.rows {
      assert InUse(t.profiles.rows, t.servers.rows[s].profile, t.servers.rows[s].revision);
    }
  }

  /** A first contact commits exactly when its token is unused and unexpired and the server's, the
      server awaits a contact, the certificate was never issued, and nothing is left of an earlier contact. */
  lemma ContactCommitsWhen(r: Run, n: nat, now: int, s: string, token: string, c: Contact)
    requires IsRun(r) && n < |r.states|
    ensures var t := r.states[n];
            Bootstrap(t, now, s, token, c).1.Done? <==>
              && TokenUsable(t, now, s, token) && AwaitsContact(t, s) && c.fingerprint !in t.history.rows
              && s !in t.stagingTargets.rows && s !in t.contacts.rows
  {
    RunsKeepInvariant(r, n);
    assert RowsFit(RowsOf(r.states[n], s));
  }

  // ---- enrollment ----

  /** What each enrollment state entails, in every reachable state. */
  lemma EnrollmentStatesHold(r: Run, n: nat, s: string)
    requires IsRun(r) && n < |r.states|
    ensures var t := r.states[n];
            && (InState(t, s, Active) ==>
                  s in t.certificates.rows && s in t.activeTargets.rows && s in t.verified.rows)
            && (s in t.certificates.rows ==> InState(t, s, PendingVerification) || InState(t, s, Active))
            && (InState(t, s, PendingVerification) ==> s in t.contacts.rows)
            && (InState(t, s, Retired) || s !in t.servers.rows ==>
                  && s !in t.certificates.rows && s !in t.stagingTargets.rows && s !in t.activeTargets.rows
                  && s !in t.contacts.rows && s !in t.addressChanges.rows)
  {
    RunsKeepInvariant(r, n);
    assert RowsFit(RowsOf(r.states[n], s));
  }

  /** A retired server stays retired, and nothing of it comes back. */
  lemma RetirementIsFinal(r: Run, i: nat, n: nat, s: string)
    requires IsRun(r) && i <= n < |r.states| && InState(r.states[i], s, Retired)
    ensures var u := r.states[n];
            && InState(u, s, Retired) && s !in u.certificates.rows && s !in u.stagingTargets.rows
            && s !in u.activeTargets.rows && s !in u.contacts.rows && s !in u.addressChanges.rows
  {
    RunsTakeNothingBack(r, i, n);
    EnrollmentStatesHold(r, n, s);
  }

  // ---- profiles ----

  /** The number of revisions of a profile. */
  ghost function Latest(profiles: map<(string, nat), Profile>, p: string): nat {
    if Revisions(profiles, p) == {} then 0 else Greatest(Revisions(profiles, p))
  }

  /** The revisions of a profile are numbered from 1 without gaps; once drafted, a revision keeps its
      content, and its state only advances. */
  lemma RevisionsAreNumberedAndImmutable(r: Run, i: nat, n: nat, p: string, revision: nat)
    requires IsRun(r) && i <= n < |r.states|
    ensures var a, b := r.states[i].profiles.rows, r.states[n].profiles.rows;
            && ((p, revision) in b <==> 1 <= revision <= Latest(b, p))
            && ((p, revision) in a ==> (p, revision) in b && ProfileLater(a[(p, revision)], b[(p, revision)]))
  {
    RunsTakeNothingBack(r, i, n);
    RunsKeepInvariant(r, n);
    var b := r.states[n].profiles.rows;
    if (p, revision) in b {
      assert revision in Revisions(b, p);
    }
    if Revisions(b, p) != {} {
      assert (p, Latest(b, p)) in b;
    }
  }

  /** No server has or awaits a draft, in any reachable state. */
  lemma DraftsAreNeverInUse(r: Run, n: nat, s: string)
    requires IsRun(r) && n < |r.states|
    ensures var t := r.states[n];
            && (s in t.servers.rows ==> InUse(t.profiles.rows, t.servers.rows[s].profile, t.servers.rows[s].revision))
            && (s in t.staged.rows ==> InUse(t.profiles.rows, t.staged.rows[s].profile, t.staged.rows[s].revision))
  {
    RunsKeepInvariant(r, n);
    var t := r.states[n];
    if s in t.staged.rows {
      assert StagedFits(t.profiles.rows, t.staged.rows[s], t.servers.rows[s]);
    }
  }

  /** In every reachable state the overrides of every server's profile were accepted, so that those the
      health rules read for it are the whole list, and an accepted one. */
  lemma ServersHaveAcceptedOverrides(r: Run, n: nat, s: string)
    requires IsRun(r) && n < |r.states| && s in r.states[n].servers.rows
    ensures var t := r.states[n]; var key := (t.servers.rows[s].profile, t.servers.rows[s].revision);
            && key in t.profiles.rows && t.profiles.rows[key].definition.overrides.JList?
            && OverridesOf(t.profiles.rows[key].definition) == t.profiles.rows[key].definition.overrides.items
            && Thresholds.Accepted(OverridesOf(t.profiles.rows[key].definition))
  {
    var t := r.states[n];
    DraftsAreNeverInUse(r, n, s);
    RunsKeepInvariant(r, n);
    var key := (t.servers.rows[s].profile, t.servers.rows[s].revision);
    assert OverridesAccepted(t.profiles.rows[key].definition);
    AcceptedEntriesAreObjects(t.profiles.rows[key].definition.overrides.items);
  }

  lemma {:induction false} AcceptedEntriesAreObjects(items: seq<Json>)
    requires Thresholds.Accepted(items)
    ensures Objects(items) == items
  {
    if items != [] {
      assert Thresholds.OverrideError(items[0]).None?;
      assert forall i :: 0 <= i < |items[1..]| ==> items[1..][i] == items[i + 1];
      AcceptedEntriesAreObjects(items[1..]);
      assert [items[0]] + items[1..] == items;
    }
  }

  /** When a staged rollback is activated, after whatever happened since it was staged, it still moves
      the server to a smaller revision of the profile it has; a publication moves it to another one. */
  lemma ActivationsGoWhereStaged(r: Run, i: nat)
    requires IsRun(r) && i < |r.steps| && r.steps[i].request.ActivateConfiguration? && Commits(r, i)
    ensures var t, u, s := r.states[i], r.states[i + 1], r.steps[i].request.server;
            && s in t.staged.rows && s in t.servers.rows && s in u.servers.rows && s !in u.staged.rows
            && Moves(t.staged.rows[s], t.servers.rows[s], u.servers.rows[s])
  {
    RunsKeepInvariant(r, i);
    Next(r, i);
    var q := r.steps[i].request;
    ActivationMoves(r.states[i], r.steps[i].now, r.checks, q.server, q.digest, q.observations, q.inventory);
  }

  lemma ActivationMoves(t: Tables, now: int, checks: Checks, s: string, digest: Digest, observations: set<string>,
                        inventory: Inventory)
    requires StagingOk(t.servers.rows, t.profiles.rows, t.staged.rows)
    requires ActivateProfile(t, now, checks, s, digest, observations, inventory).1.Done?
    ensures var u := ActivateProfile(t, now, checks, s, digest, observations, inventory).0;
            && s in t.staged.rows && s in t.servers.rows && s in u.servers.rows && s !in u.staged.rows
            && Moves(t.staged.rows[s], t.servers.rows[s], u.servers.rows[s])
  {
    assert StagedFits(t.profiles.rows, t.staged.rows[s], t.servers.rows[s]);
  }

  predicate Moves(staged: Staged, before: Server, after: Server) {
    && after.profile == staged.profile && after.revision == staged.revision
    && (staged.operation == Rollback ==> after.profile == before.profile && after.revision < before.revision)
    && (staged.operation == Publication ==> after.profile == before.profile && after.revision != before.revision)
  }

  /** A staged assignment or rollback stays as it is until the same server's configuration is staged
      or activated again: no publication overwrites it. */
  lemma {:induction false} StagedDecisionsSurvive(r: Run, i: nat, n: nat, s: string)
    requires IsRun(r) && i <= n < |r.states|
    requires s in r.states[i].staged.rows && r.states[i].staged.rows[s].operation != Publication
    requires forall k :: i <= k < n ==> !Configures(r.steps[k].request, s)
    ensures s in r.states[n].staged.rows && r.states[n].staged.rows[s] == r.states[i].staged.rows[s]
    decreases n
  {
    if i < n {
      var k := n - 1;
      StagedDecisionsSurvive(r, i, k, s);
      assert !Configures(r.steps[k].request, s);
      Next(r, k);
      StagedDecisionSurvives(r.states[k], r.steps[k].now, r.checks, r.steps[k].request, s);
    }
  }

  predicate Configures(r: Request, s: string) {
    (r.StageConfiguration? || r.ActivateConfiguration?) && r.server == s
  }

  lemma StagedDecisionSurvives(t: Tables, now: int, checks: Checks, r: Request, s: string)
    requires s in t.staged.rows && t.staged.rows[s].operation != Publication && !Configures(r, s)
    ensures var u := Apply(t, now, checks, r).0; s in u.staged.rows && u.staged.rows[s] == t.staged.rows[s]
  {
    if !r.Publish? && !r.StageConfiguration? && !r.ActivateConfiguration? {
      OthersKeepStaged(t, now, checks, r);
    }
  }

  lemma OthersKeepStaged(t: Tables, now: int, checks: Checks, r: Request)
    requires !r.Publish? && !r.StageConfiguration? && !r.ActivateConfiguration?
    ensures Apply(t, now, checks, r).0.staged == t.staged
  {
  }

  // ---- initialising again ----

  predicate Logged(activations: seq<Activation>, s: string) {
    exists k :: 0 <= k < |activations| && activations[k].server == s
  }

  lemma {:induction false} LastActivationIsLogged(activations: seq<Activation>, s: string)
    ensures LastActivation(activations, s).Some? ==> Logged(activations, s)
  {
    if activations != [] {
      var n := |activations| - 1;
      LastActivationIsLogged(activations[..n], s);
      if activations[n].server != s && LastActivation(activations, s).Some? {
        var k :| 0 <= k < n && activations[..n][k].server == s;
        assert activations[k].server == s;
      }
    }
  }

  /** Initialising the database again, at any point of a run, finds nothing to add and nothing to
      object to: every live certificate has its history row, every active server its activation, and
      the seeded profiles are as they were seeded. */
  lemma InitialisingAgainChangesNothing(r: Run, n: nat, s: string, seed: (string, nat))
    requires IsRun(r) && n < |r.states|
    ensures var t := r.states[n];
            && (s in t.certificates.rows ==> t.certificates.rows[s].fingerprint in t.history.rows)
            && (InState(t, s, Active) ==> Logged(t.activations, s))
            && (seed in r.seeds ==> Get(t.profiles.rows, seed) == Get(r.seeds, seed))
  {
    var t := r.states[n];
    RunsKeepInvariant(r, n);
    RunsTakeNothingBack(r, 0, n);
    assert RowsFit(RowsOf(t, s));
    assert s in t.certificates.rows ==>
      Trusted(s, t.certificates.rows[s].fingerprint, t.history.rows, t.revoked.rows);
    assert ActivationFits(LastActivation(t.activations, s), s in t.verified.rows, Get(t.servers.rows, s));
    LastActivationIsLogged(t.activations, s);
    if seed in r.seeds {
      assert ProfileLater(r.seeds[seed], t.profiles.rows[seed]);
    }
  }
}
