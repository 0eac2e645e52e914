/** When a server that must enroll again can: rows that earlier contacts and address changes left. */
module FleetRecovery {
  import opened Basics
  import opened FleetTables
  import opened FleetInvariants
  import opened FleetRuns

  // ---- what a new first contact and its approval need ----

  /** In every reachable state a server that must enroll again gets its token, and a contact with it and
      with a new certificate commits exactly when no contact row and no staging target is left. */
  lemma ReEnrollmentCommitsWhen(r: Run, n: nat, now: int, later: int, s: string, token: string, c: Contact)
    requires IsRun(r) && n < |r.states| && InState(r.states[n], s, ReEnrollmentRequired)
    requires token !in r.states[n].tokens.rows && c.fingerprint !in r.states[n].history.rows
    requires later < now + 15 * MINUTE
    ensures var t := r.states[n]; var (u, issued) := IssueToken(t, now, s, token);
            && issued.Done?
            && (Bootstrap(u, later, s, token, c).1.Done? <==> s !in t.contacts.rows && s !in t.stagingTargets.rows)
  {
    RunsKeepInvariant(r, n);
    assert RowsFit(RowsOf(r.states[n], s));
    DraftsAreNeverInUse(r, n, s);
  }

  /** The row under review passes the checks of the server's profile. */
  predicate Passes(t: Tables, checks: Checks, s: string, code: string)
    requires IsReviewed(t, s)
  {
    && t.contacts.rows[s].code == code && checks.satisfies(t.contacts.rows[s].inventory, DefinitionOf(t, s))
    && Required(DefinitionOf(t, s)) <= t.contacts.rows[s].observations
  }

  /** There is a contact to review and a profile to review it by. */
  predicate IsReviewed(t: Tables, s: string) {
    HasProfile(t, s) && s in t.contacts.rows
  }

  /** An approval commits exactly when the server is under review with a live certificate and a staging
      target, the code is right, and inventory and observations satisfy the profile. */
  lemma ApprovalCommitsWhen(r: Run, n: nat, now: int, s: string, code: string)
    requires IsRun(r) && n < |r.states|
    ensures InState(r.states[n], s, PendingVerification) ==> IsReviewed(r.states[n], s)
    ensures var t := r.states[n];
            Approve(t, now, r.checks, s, code).1.Done? <==>
              && InState(t, s, PendingVerification) && s in t.certificates.rows && s in t.stagingTargets.rows
              && Passes(t, r.checks, s, code)
  {
    RunsKeepInvariant(r, n);
    assert RowsFit(RowsOf(r.states[n], s));
    DraftsAreNeverInUse(r, n, s);
  }

  /** From step `i` on the server gets a token, makes contact with it, is observed and approved. */
  ghost predicate Reenrolls(r: Run, i: nat, s: string, token: string, c: Contact, observations: set<string>,
                            code: string) {
    && IsRun(r) && i + 4 <= |r.steps|
    && r.steps[i].request == IssueBootstrapToken(s, token)
    && r.steps[i + 1].request == ConsumeBootstrapToken(s, token, c)
    && r.steps[i + 2].request == RecordStagedObservations(s, observations)
    && r.steps[i + 3].request == ApproveEnrollment(s, code)
  }

  /** The new contact is in time, newly certified, and passes the checks of the server's profile. */
  predicate IsGood(t: Tables, checks: Checks, s: string, issued: int, contacted: int, c: Contact,
                   observations: set<string>, code: string)
    requires HasProfile(t, s)
  {
    && contacted < issued + 15 * MINUTE && c.fingerprint !in t.history.rows && code == c.code
    && checks.satisfies(c.inventory, DefinitionOf(t, s)) && Required(DefinitionOf(t, s)) <= observations
  }

  /** From any reachable state a server that must enroll again is restored, by a new token, contact,
      observations and approval with nothing in between, exactly when nothing is left from before: no
      contact row and no staging target; and the new contact is good. */
  lemma ServersAreRestoredWhen(r: Run, i: nat, s: string, token: string, c: Contact, observations: set<string>,
                               code: string)
    requires Reenrolls(r, i, s, token, c, observations, code)
    requires InState(r.states[i], s, ReEnrollmentRequired) && token !in r.states[i].tokens.rows
    ensures var t := r.states[i];
            && HasProfile(t, s)
            && (InState(r.states[i + 4], s, Active) <==>
                  && s !in t.contacts.rows && s !in t.stagingTargets.rows
                  && IsGood(t, r.checks, s, r.steps[i].now, r.steps[i + 1].now, c, observations, code))
  {
    DraftsAreNeverInUse(r, i, s);
    ContactComesWhen(r, i, s, token, c, observations, code);
    if IsContacted(r.states[i], r.states[i + 2], s, c) {
      ApprovalFollowsWhen(r, i, s, token, c, observations, code);
    } else {
      NoContactNoApproval(r, i, s, token, c, observations, code);
    }
  }

  /** The contact is under review, with certificate and target, under the profile from before. */
  predicate IsContacted(t: Tables, u: Tables, s: string, c: Contact) {
    && InState(u, s, PendingVerification) && s in u.certificates.rows && s in u.stagingTargets.rows
    && s in u.contacts.rows && u.contacts.rows[s].inventory == c.inventory && u.contacts.rows[s].code == c.code
    && u.profiles == t.profiles && s in t.servers.rows
    && u.servers.rows[s].profile == t.servers.rows[s].profile
    && u.servers.rows[s].revision == t.servers.rows[s].revision
  }

  lemma ContactComesWhen(r: Run, i: nat, s: string, token: string, c: Contact, observations: set<string>, code: string)
    requires Reenrolls(r, i, s, token, c, observations, code)
    requires InState(r.states[i], s, ReEnrollmentRequired) && token !in r.states[i].tokens.rows
    ensures var t, u := r.states[i], r.states[i + 2];
            if s !in t.contacts.rows && s !in t.stagingTargets.rows && c.fingerprint !in t.history.rows
               && r.steps[i + 1].now < r.steps[i].now + 15 * MINUTE
            then IsContacted(t, u, s, c)
            else InState(u, s, ReEnrollmentRequired)
  {
    MustEnrollAgain(r, i, s);
    TokenStep(r, i, s, token, c, observations, code);
    ContactStep(r, i, s, token, c, observations, code);
    ContactAfterToken(r.states[i], r.states[i + 1], r.steps[i].now, r.steps[i + 1].now, s, token, c);
  }

  lemma MustEnrollAgain(r: Run, i: nat, s: string)
    requires IsRun(r) && i < |r.states| && InState(r.states[i], s, ReEnrollmentRequired)
    ensures var t := r.states[i];
            && s !in t.certificates.rows && t.revoked.rows.Keys <= t.history.rows.Keys
            && (t.servers.rows[s].profile, t.servers.rows[s].revision) in t.profiles.rows
  {
    RunsKeepInvariant(r, i);
    assert RowsFit(RowsOf(r.states[i], s));
    DraftsAreNeverInUse(r, i, s);
  }

  lemma TokenStep(r: Run, i: nat, s: string, token: string, c: Contact, observations: set<string>, code: string)
    requires Reenrolls(r, i, s, token, c, observations, code)
    requires InState(r.states[i], s, ReEnrollmentRequired) && token !in r.states[i].tokens.rows
    ensures var t := r.states[i];
            r.states[i + 1]
            == t.(tokens := Table(t.tokens.rows[token := Token(s, r.steps[i].now + 15 * MINUTE, None)]))
  {
    MustEnrollAgain(r, i, s);
    Next(r, i);
    TokenIsIssued(r.states[i], r.steps[i].now, s, token);
  }

  lemma ContactStep(r: Run, i: nat, s: string, token: string, c: Contact, observations: set<string>, code: string)
    requires Reenrolls(r, i, s, token, c, observations, code)
    ensures r.states[i + 2] == Bootstrap(r.states[i + 1], r.steps[i + 1].now, s, token, c).0
  {
    Next(r, i + 1);
  }

  lemma ObservationStep(r: Run, i: nat, s: string, token: string, c: Contact, observations: set<string>, code: string)
    requires Reenrolls(r, i, s, token, c, observations, code)
    ensures r.states[i + 3] == RecordObservations(r.states[i + 2], s, observations).0
  {
    Next(r, i + 2);
  }

  lemma ApprovalStep(r: Run, i: nat, s: string, token: string, c: Contact, observations: set<string>, code: string)
    requires Reenrolls(r, i, s, token, c, observations, code)
    ensures r.states[i + 4] == Approve(r.states[i + 3], r.steps[i + 3].now, r.checks, s, code).0
  {
    Next(r, i + 3);
  }

  lemma TokenIsIssued(t: Tables, now: int, s: string, token: string)
    requires InState(t, s, ReEnrollmentRequired) && token !in t.tokens.rows
    requires (t.servers.rows[s].profile, t.servers.rows[s].revision) in t.profiles.rows
    ensures IssueToken(t, now, s, token).0
            == t.(tokens := Table(t.tokens.rows[token := Token(s, now + 15 * MINUTE, None)]))
  {
  }

  lemma ContactAfterToken(t: Tables, u: Tables, now: int, later: int, s: string, token: string, c: Contact)
    requires InState(t, s, ReEnrollmentRequired) && s !in t.certificates.rows
    requires t.revoked.rows.Keys <= t.history.rows.Keys
    requires u == t.(tokens := Table(t.tokens.rows[token := Token(s, now + 15 * MINUTE, None)]))
    ensures var v := Bootstrap(u, later, s, token, c).0;
            if s !in t.contacts.rows && s !in t.stagingTargets.rows && c.fingerprint !in t.history.rows
               && later < now + 15 * MINUTE
            then IsContacted(t, v, s, c)
            else InState(v, s, ReEnrollmentRequired)
  {
  }

  lemma ApprovalFollowsWhen(r: Run, i: nat, s: string, token: string, c: Contact, observations: set<string>,
                            code: string)
    requires Reenrolls(r, i, s, token, c, observations, code) && IsContacted(r.states[i], r.states[i + 2], s, c)
    requires (r.states[i].servers.rows[s].profile, r.states[i].servers.rows[s].revision) in r.states[i].profiles.rows
    ensures InState(r.states[i + 4], s, Active) <==>
            && code == c.code && r.checks.satisfies(c.inventory, DefinitionOf(r.states[i], s))
            && Required(DefinitionOf(r.states[i], s)) <= observations
  {
    ObservationStep(r, i, s, token, c, observations, code);
    ObservationsAreRecorded(r.states[i], r.states[i + 2], s, c, observations);
    ApprovalStep(r, i, s, token, c, observations, code);
    ApprovalAfterObservations(r.states[i], r.states[i + 3], r.steps[i + 3].now, r.checks, s, c, code);
  }

  lemma ObservationsAreRecorded(t: Tables, u: Tables, s: string, c: Contact, observations: set<string>)
    requires IsContacted(t, u, s, c)
    ensures var v := RecordObservations(u, s, observations).0;
            IsContacted(t, v, s, c) && v.contacts.rows[s].observations == observations
  {
  }

  lemma ApprovalAfterObservations(t: Tables, u: Tables, now: int, checks: Checks, s: string, c: Contact, code: string)
    requires IsContacted(t, u, s, c)
    requires (t.servers.rows[s].profile, t.servers.rows[s].revision) in t.profiles.rows
    ensures InState(Approve(u, now, checks, s, code).0, s, Active) <==>
            && code == c.code && checks.satisfies(c.inventory, DefinitionOf(t, s))
            && Required(DefinitionOf(t, s)) <= u.contacts.rows[s].observations
  {
  }

  lemma NoContactNoApproval(r: Run, i: nat, s: string, token: string, c: Contact, observations: set<string>,
                            code: string)
    requires Reenrolls(r, i, s, token, c, observations, code) && InState(r.states[i + 2], s, ReEnrollmentRequired)
    ensures !InState(r.states[i + 4], s, Active)
  {
    ObservationStep(r, i, s, token, c, observations, code);
    ApprovalStep(r, i, s, token, c, observations, code);
  }

  // ---- a contact that outlived its certificate ----

  /** The contact row outlived its certificate. */
  predicate Stranded(t: Tables, s: string) {
    s in t.contacts.rows && s !in t.certificates.rows
  }

  /** The server's certificate dies while its first contact waits for a decision. */
  predicate Strands(t: Tables, now: int, r: Request, s: string) {
    && s in t.contacts.rows && s in t.certificates.rows
    && (r.RecoverIntermediate? || (r.ExpireCertificates? && t.certificates.rows[s].expiresAt <= now))
  }

  /** A contact is stranded exactly by an expiry or a recovery while it waits, and is released by
      nothing but the server's retirement. */
  lemma StrandedExactlyWhen(t: Tables, now: int, checks: Checks, r: Request, s: string)
    requires Invariant(t)
    ensures Stranded(Apply(t, now, checks, r).0, s) <==>
            Strands(t, now, r, s) || (Stranded(t, s) && r != RetireServer(s))
  {
    if ConcernsEnrollment(r) {
      EnrollmentKeepsStranded(t, now, checks, r, s);
    } else if EndsCertificates(r) {
      EndingStrands(t, now, checks, r, s);
    } else {
      OthersKeepStranded(t, now, checks, r, s);
    }
  }

  lemma EndingStrands(t: Tables, now: int, checks: Checks, r: Request, s: string)
    requires Invariant(t) && EndsCertificates(r)
    ensures Stranded(Apply(t, now, checks, r).0, s) <==>
            Strands(t, now, r, s) || (Stranded(t, s) && r != RetireServer(s))
  {
    match r
    case RevokeCertificate(x) =>
      assert RowsFit(RowsOf(t, x));
      RevocationKeepsContacts(t, now, x, s);
    case ExpireCertificates => ExpiryStrands(t, now, s);
    case RecoverIntermediate => RecoveryStrands(t, now, s);
    case RetireServer(x) =>
      assert RowsFit(RowsOf(t, x));
      RetirementReleases(t, now, x, s);
  }

  lemma RevocationKeepsContacts(t: Tables, now: int, x: string, s: string)
    requires RowsFit(RowsOf(t, x))
    ensures Stranded(Revoke(t, now, x).0, s) <==> Stranded(t, s)
  {
  }

  lemma ExpiryStrands(t: Tables, now: int, s: string)
    ensures Stranded(Expire(t, now).0, s) <==> Strands(t, now, ExpireCertificates, s) || Stranded(t, s)
  {
  }

  lemma RecoveryStrands(t: Tables, now: int, s: string)
    ensures Stranded(Recover(t, now).0, s) <==> Strands(t, now, RecoverIntermediate, s) || Stranded(t, s)
  {
  }

  lemma RetirementReleases(t: Tables, now: int, x: string, s: string)
    requires RowsFit(RowsOf(t, x))
    ensures Stranded(Retire(t, now, x).0, s) <==> Stranded(t, s) && x != s
  {
  }

  lemma EnrollmentKeepsStranded(t: Tables, now: int, checks: Checks, r: Request, s: string)
    requires ConcernsEnrollment(r)
    ensures Stranded(Apply(t, now, checks, r).0, s) <==> Stranded(t, s)
  {
  }

  lemma OthersKeepStranded(t: Tables, now: int, checks: Checks, r: Request, s: string)
    requires !ConcernsEnrollment(r) && !EndsCertificates(r)
    ensures Stranded(Apply(t, now, checks, r).0, s) <==> Stranded(t, s)
  {
  }

  /** A first contact of the server or a decision on one. */
  predicate Decides(r: Request, s: string) {
    (r.ConsumeBootstrapToken? || r.ApproveEnrollment? || r.RejectEnrollment?) && r.server == s
  }

  /** A stranded server is never active again for as long as it is not retired. */
  lemma {:induction false} StrandedServersWait(r: Run, i: nat, n: nat, s: string)
    requires IsRun(r) && i <= n < |r.states| && Stranded(r.states[i], s)
    requires forall k :: i <= k < n ==> r.steps[k].request != RetireServer(s)
    ensures Stranded(r.states[n], s) && !InState(r.states[n], s, Active)
    decreases n
  {
    if i < n {
      StrandedServersWait(r, i, n - 1, s);
      StrandedStep(r, n - 1, s);
    }
    RunsKeepInvariant(r, n);
    assert RowsFit(RowsOf(r.states[n], s));
  }

  lemma StrandedStep(r: Run, k: nat, s: string)
    requires IsRun(r) && k < |r.steps| && Stranded(r.states[k], s) && r.steps[k].request != RetireServer(s)
    ensures Stranded(r.states[k + 1], s)
  {
    RunsKeepInvariant(r, k);
    Next(r, k);
    StrandedExactlyWhen(r.states[k], r.steps[k].now, r.checks, r.steps[k].request, s);
  }

  /** And until then it commits no contact and no decision. */
  lemma StrandedServersCommitNothing(r: Run, i: nat, n: nat, s: string)
    requires IsRun(r) && i <= n < |r.steps| && Stranded(r.states[i], s)
    requires forall k :: i <= k < n ==> r.steps[k].request != RetireServer(s)
    requires Decides(r.steps[n].request, s)
    ensures !Commits(r, n)
  {
    StrandedServersWait(r, i, n, s);
    StrandedServersAreRefused(r.states[n], r.steps[n].now, r.checks, r.steps[n].request, s);
  }

  lemma StrandedServersAreRefused(t: Tables, now: int, checks: Checks, r: Request, s: string)
    requires Stranded(t, s) && Decides(r, s)
    ensures Apply(t, now, checks, r).1 != Done
  {
  }

  // ---- a staging target that outlived the certificate ----

  /** A scrape target is staged for a server without a certificate. */
  predicate Leftover(t: Tables, s: string) {
    s in t.stagingTargets.rows && s !in t.certificates.rows
  }

  /** The certificate goes and the staged target stays. */
  predicate LeavesTarget(t: Tables, now: int, r: Request, s: string) {
    && s in t.stagingTargets.rows && s in t.certificates.rows
    && ((r == RevokeCertificate(s) && InState(t, s, Active))
        || (r.ExpireCertificates? && t.certificates.rows[s].expiresAt <= now))
  }

  /** The request activates the address change staged for the server. */
  predicate Activates(t: Tables, r: Request, s: string) {
    && r.ActivateScrapeAddress? && r.server == s
    && s in t.addressChanges.rows && t.addressChanges.rows[s].fingerprint == r.fingerprint
  }

  /** A staging target is left over exactly when its server's certificate is revoked or expires, and goes
      exactly when the address change is activated, the intermediate recovered or the server retired. */
  lemma LeftoverExactlyWhen(t: Tables, now: int, checks: Checks, r: Request, s: string)
    requires Invariant(t)
    ensures Leftover(Apply(t, now, checks, r).0, s) <==>
            LeavesTarget(t, now, r, s)
            || (Leftover(t, s) && !Activates(t, r, s) && !r.RecoverIntermediate? && r != RetireServer(s))
  {
    assert RowsFit(RowsOf(t, s));
    LeftoverMoves(t, now, checks, r, s);
  }

  lemma LeftoverMoves(t: Tables, now: int, checks: Checks, r: Request, s: string)
    requires RowsFit(RowsOf(t, s))
    ensures Leftover(Apply(t, now, checks, r).0, s) <==>
            LeavesTarget(t, now, r, s)
            || (Leftover(t, s) && !Activates(t, r, s) && !r.RecoverIntermediate? && r != RetireServer(s))
  {
    if ConcernsEnrollment(r) {
      EnrollmentKeepsLeftover(t, now, checks, r, s);
    } else if EndsCertificates(r) {
      EndingLeavesTarget(t, now, checks, r, s);
    } else {
      OthersKeepLeftover(t, now, checks, r, s);
    }
  }

  lemma EnrollmentKeepsLeftover(t: Tables, now: int, checks: Checks, r: Request, s: string)
    requires ConcernsEnrollment(r) && RowsFit(RowsOf(t, s))
    ensures Leftover(Apply(t, now, checks, r).0, s) <==> Leftover(t, s)
  {
  }

  lemma EndingLeavesTarget(t: Tables, now: int, checks: Checks, r: Request, s: string)
    requires EndsCertificates(r) && RowsFit(RowsOf(t, s))
    ensures Leftover(Apply(t, now, checks, r).0, s) <==>
            LeavesTarget(t, now, r, s) || (Leftover(t, s) && !r.RecoverIntermediate? && r != RetireServer(s))
  {
  }

  lemma OthersKeepLeftover(t: Tables, now: int, checks: Checks, r: Request, s: string)
    requires !ConcernsEnrollment(r) && !EndsCertificates(r)
    ensures Leftover(Apply(t, now, checks, r).0, s) <==> Leftover(t, s) && !Activates(t, r, s)
  {
  }

  // ---- a contact that lost its staging target ----

  /** A server under review has no target to approve. */
  predicate Untargeted(t: Tables, s: string) {
    InState(t, s, PendingVerification) && s !in t.stagingTargets.rows
  }

  /** The review ends, or a target is staged again. */
  predicate EndsUntargeted(t: Tables, now: int, r: Request, s: string) {
    || r.RecoverIntermediate? || r == RetireServer(s)
    || (r.RejectEnrollment? && r.server == s && Reject(t, now, s, r.code).1.Done?)
    || (r.StageScrapeAddress? && r.server == s && StageAddress(t, now, s, r.address, r.fingerprint).1.Done?)
  }

  /** A server under review loses its target exactly when the address change staged for it is activated,
      whether that was staged before the review or during it. */
  lemma UntargetedExactlyWhen(t: Tables, now: int, checks: Checks, r: Request, s: string)
    requires Invariant(t)
    ensures Untargeted(Apply(t, now, checks, r).0, s) <==>
            (InState(t, s, PendingVerification) && Activates(t, r, s))
            || (Untargeted(t, s) && !EndsUntargeted(t, now, r, s))
  {
    assert RowsFit(RowsOf(t, s));
    if ConcernsEnrollment(r) {
      EnrollmentKeepsUntargeted(t, now, checks, r, s);
    } else if EndsCertificates(r) {
      EndingKeepsUntargeted(t, now, checks, r, s);
    } else {
      OthersKeepUntargeted(t, now, checks, r, s);
    }
  }

  lemma EnrollmentKeepsUntargeted(t: Tables, now: int, checks: Checks, r: Request, s: string)
    requires ConcernsEnrollment(r)
    ensures Untargeted(Apply(t, now, checks, r).0, s) <==> Untargeted(t, s) && !EndsUntargeted(t, now, r, s)
  {
  }

  lemma EndingKeepsUntargeted(t: Tables, now: int, checks: Checks, r: Request, s: string)
    requires EndsCertificates(r)
    ensures Untargeted(Apply(t, now, checks, r).0, s) <==> Untargeted(t, s) && !EndsUntargeted(t, now, r, s)
  {
  }

  lemma OthersKeepUntargeted(t: Tables, now: int, checks: Checks, r: Request, s: string)
    requires !ConcernsEnrollment(r) && !EndsCertificates(r)
    ensures Untargeted(Apply(t, now, checks, r).0, s) <==>
            (InState(t, s, PendingVerification) && Activates(t, r, s))
            || (Untargeted(t, s) && !EndsUntargeted(t, now, r, s))
  {
  }

  /** A server that is not active still has an active target. A target can be staged for it again. */
  predicate HasIdleTarget(t: Tables, s: string) {
    s in t.activeTargets.rows && !InState(t, s, Active)
  }

  /** An active target is left exactly by the expiry of an active server's certificate, until the server
      is approved again, recovered or retired. */
  lemma IdleTargetExactlyWhen(t: Tables, now: int, checks: Checks, r: Request, s: string)
    requires Invariant(t)
    ensures HasIdleTarget(Apply(t, now, checks, r).0, s) <==>
            (InState(t, s, Active) && Expires(t, now, r, s)) || (HasIdleTarget(t, s) && !EndsIdle(t, now, checks, r, s))
  {
    assert RowsFit(RowsOf(t, s));
    if ConcernsEnrollment(r) {
      EnrollmentKeepsIdle(t, now, checks, r, s);
    } else if EndsCertificates(r) {
      EndingLeavesIdle(t, now, checks, r, s);
    } else {
      OthersKeepIdle(t, now, checks, r, s);
    }
  }

  predicate Expires(t: Tables, now: int, r: Request, s: string) {
    r.ExpireCertificates? && s in t.certificates.rows && t.certificates.rows[s].expiresAt <= now
  }

  predicate EndsIdle(t: Tables, now: int, checks: Checks, r: Request, s: string) {
    || r.RecoverIntermediate? || r == RetireServer(s)
    || (r.ApproveEnrollment? && r.server == s && Approve(t, now, checks, s, r.code).1.Done?)
  }

  lemma EnrollmentKeepsIdle(t: Tables, now: int, checks: Checks, r: Request, s: string)
    requires ConcernsEnrollment(r) && RowsFit(RowsOf(t, s))
    ensures HasIdleTarget(Apply(t, now, checks, r).0, s) <==> HasIdleTarget(t, s) && !EndsIdle(t, now, checks, r, s)
  {
  }

  lemma EndingLeavesIdle(t: Tables, now: int, checks: Checks, r: Request, s: string)
    requires EndsCertificates(r) && RowsFit(RowsOf(t, s))
    ensures HasIdleTarget(Apply(t, now, checks, r).0, s) <==>
            (InState(t, s, Active) && Expires(t, now, r, s)) || (HasIdleTarget(t, s) && !EndsIdle(t, now, checks, r, s))
  {
  }

  lemma OthersKeepIdle(t: Tables, now: int, checks: Checks, r: Request, s: string)
    requires !ConcernsEnrollment(r) && !EndsCertificates(r)
    ensures HasIdleTarget(Apply(t, now, checks, r).0, s) <==> HasIdleTarget(t, s)
  {
  }

  /** For a server under review without a target, staging one commits only on such a target. */
  lemma StagingAgainNeedsIdleTarget(t: Tables, now: int, s: string, address: string, fingerprint: string)
    requires Untargeted(t, s) && StageAddress(t, now, s, address, fingerprint).1.Done?
    ensures HasIdleTarget(t, s)
  {
  }

  // ---- runs that lead there ----

  /** A server "s" is registered for a seeded profile and makes first contact. */
  ghost predicate Opens(r: Run, profile: string, inventory: Inventory) {
    && IsRun(r) && (profile, 1) in r.seeds && |r.steps| >= 4
    && r.steps[0] == Step(0, RegisterServer("s", "S", "a", profile))
    && r.steps[1] == Step(1, IssueBootstrapToken("s", "t"))
    && r.steps[2] == Step(2, ConsumeBootstrapToken("s", "t", Contact("f", DAY, "", "", "", inventory, "")))
  }

  predicate Unused(t: Tables) {
    "u" !in t.tokens.rows && "g" !in t.history.rows
  }

  lemma OpenedServerHasToken(r: Run, profile: string, inventory: Inventory)
    requires Opens(r, profile, inventory)
    ensures var t := r.states[2];
            && InState(t, "s", AwaitingFirstContact) && TokenUsable(t, 2, "s", "t") && RoomForContact(t, "s", "f")
            && "f" !in t.revoked.rows && t.profiles.rows == r.seeds && Unused(t)
            && t.servers.rows["s"].profile == profile && t.servers.rows["s"].revision == 1
  {
    Next(r, 0);
    assert 1 in PublishedRevisions(r.seeds, profile);
    assert InState(r.states[1], "s", AwaitingFirstContact);
    assert InUse(r.states[1].profiles.rows, profile, r.states[1].servers.rows["s"].revision);
    Next(r, 1);
  }

  lemma OpenedServerIsPending(r: Run, profile: string, inventory: Inventory)
    requires Opens(r, profile, inventory)
    ensures var t := r.states[3];
            && InState(t, "s", PendingVerification) && "s" in t.stagingTargets.rows
            && "s" in t.contacts.rows && t.contacts.rows["s"].inventory == inventory && t.contacts.rows["s"].code == ""
            && "s" in t.certificates.rows && t.certificates.rows["s"] == Certificate("f", DAY)
            && t.profiles.rows == r.seeds && Unused(t)
            && t.servers.rows["s"].profile == profile && t.servers.rows["s"].revision == 1
  {
    OpenedServerHasToken(r, profile, inventory);
    Next(r, 2);
  }

  /** A recovery before the decision: the server is asked for a new first contact, but accepts none. */
  lemma RecoveryCanStrand(r: Run, profile: string, inventory: Inventory)
    requires Opens(r, profile, inventory) && r.steps[3] == Step(3, RecoverIntermediate)
    ensures Stranded(r.states[4], "s") && InState(r.states[4], "s", ReEnrollmentRequired)
  {
    OpenedServerIsPending(r, profile, inventory);
    Next(r, 3);
  }

  /** The server is approved. */
  ghost predicate Enrolls(r: Run, profile: string, inventory: Inventory) {
    && Opens(r, profile, inventory) && |r.steps| >= 7
    && r.checks.satisfies(inventory, r.seeds[(profile, 1)].definition)
    && r.steps[3] == Step(3, RecordStagedObservations("s", Required(r.seeds[(profile, 1)].definition)))
    && r.steps[4] == Step(4, ApproveEnrollment("s", ""))
  }

  /** And a new address is staged for it. */
  ghost predicate Relocates(r: Run, profile: string, inventory: Inventory) {
    Enrolls(r, profile, inventory) && r.steps[5] == Step(5, StageScrapeAddress("s", "b", "f"))
  }

  lemma EnrolledServerIsObserved(r: Run, profile: string, inventory: Inventory)
    requires Enrolls(r, profile, inventory)
    ensures var t := r.states[4];
            && Decidable(t, "s") && IsReviewed(t, "s") && "s" in t.stagingTargets.rows
            && t.certificates.rows["s"] == Certificate("f", DAY)
            && Passes(t, r.checks, "s", "") && Unused(t)
  {
    OpenedServerIsPending(r, profile, inventory);
    Next(r, 3);
  }

  lemma EnrolledServerIsActive(r: Run, profile: string, inventory: Inventory)
    requires Enrolls(r, profile, inventory)
    ensures var t := r.states[5];
            && InState(t, "s", Active) && "s" in t.activeTargets.rows && Unused(t)
            && "s" !in t.contacts.rows && "s" !in t.stagingTargets.rows
            && "s" in t.certificates.rows && t.certificates.rows["s"] == Certificate("f", DAY)
  {
    EnrolledServerIsObserved(r, profile, inventory);
    Next(r, 4);
  }

  lemma MovedServerHasChange(r: Run, profile: string, inventory: Inventory)
    requires Relocates(r, profile, inventory)
    ensures var t := r.states[6];
            && InState(t, "s", Active) && "s" in t.stagingTargets.rows && "s" !in t.contacts.rows && Unused(t)
            && "s" in t.certificates.rows && t.certificates.rows["s"] == Certificate("f", DAY)
            && "s" in t.addressChanges.rows && t.addressChanges.rows["s"].fingerprint == "f"
  {
    EnrolledServerIsActive(r, profile, inventory);
    Next(r, 5);
  }

  /** Revoked or expired with the address change staged, the server must enroll again and cannot. */
  lemma AddressChangeCanBlock(r: Run, profile: string, inventory: Inventory)
    requires Relocates(r, profile, inventory)
    requires r.steps[6] == Step(6, RevokeCertificate("s")) || r.steps[6] == Step(DAY, ExpireCertificates)
    ensures Leftover(r.states[7], "s") && InState(r.states[7], "s", ReEnrollmentRequired)
  {
    MovedServerHasChange(r, profile, inventory);
    Next(r, 6);
  }

  /** After a recovery the server makes contact again, and then the old address change is activated. */
  ghost predicate Returns(r: Run, profile: string, inventory: Inventory) {
    && Relocates(r, profile, inventory) && |r.steps| >= 10
    && r.steps[6] == Step(6, RecoverIntermediate)
    && r.steps[7] == Step(7, IssueBootstrapToken("s", "u"))
    && r.steps[8] == Step(8, ConsumeBootstrapToken("s", "u", Contact("g", DAY, "", "", "", inventory, "")))
    && r.steps[9] == Step(9, ActivateScrapeAddress("s", "f"))
  }

  lemma ReturningServerIsRecovered(r: Run, profile: string, inventory: Inventory)
    requires Returns(r, profile, inventory)
    ensures var t := r.states[7];
            && InState(t, "s", ReEnrollmentRequired) && RoomForContact(t, "s", "g") && Unused(t)
            && "s" in t.addressChanges.rows && t.addressChanges.rows["s"].fingerprint == "f"
  {
    MovedServerHasChange(r, profile, inventory);
    Next(r, 6);
  }

  lemma ReturningServerHasToken(r: Run, profile: string, inventory: Inventory)
    requires Returns(r, profile, inventory)
    ensures var t := r.states[8];
            && InState(t, "s", ReEnrollmentRequired) && TokenUsable(t, 8, "s", "u") && "g" !in t.revoked.rows
            && RoomForContact(t, "s", "g")
            && "s" in t.addressChanges.rows && t.addressChanges.rows["s"].fingerprint == "f"
  {
    ReturningServerIsRecovered(r, profile, inventory);
    RunsKeepInvariant(r, 7);
    DraftsAreNeverInUse(r, 7, "s");
    Next(r, 7);
  }

  lemma ReturningServerIsPending(r: Run, profile: string, inventory: Inventory)
    requires Returns(r, profile, inventory)
    ensures var t := r.states[9];
            && InState(t, "s", PendingVerification)
            && "s" in t.addressChanges.rows && t.addressChanges.rows["s"].fingerprint == "f"
  {
    ReturningServerHasToken(r, profile, inventory);
    Next(r, 8);
  }

  /** So its new contact is under review, but cannot be approved. */
  lemma OldAddressChangeCanBlock(r: Run, profile: string, inventory: Inventory)
    requires Returns(r, profile, inventory)
    ensures Untargeted(r.states[10], "s")
  {
    ReturningServerIsPending(r, profile, inventory);
    Next(r, 9);
  }

  /** The certificate of the active server expires, it makes contact again, and a new address is staged
      and activated for it before the decision. */
  ghost predicate MovesUnderReview(r: Run, profile: string, inventory: Inventory) {
    && Enrolls(r, profile, inventory) && |r.steps| >= 10
    && r.steps[5] == Step(DAY, ExpireCertificates)
    && r.steps[6] == Step(DAY, IssueBootstrapToken("s", "u"))
    && r.steps[7] == Step(DAY, ConsumeBootstrapToken("s", "u", Contact("g", 2 * DAY, "", "", "", inventory, "")))
    && r.steps[8] == Step(DAY, StageScrapeAddress("s", "b", "g"))
    && r.steps[9] == Step(DAY, ActivateScrapeAddress("s", "g"))
  }

  lemma ExpiredServerMustReturn(r: Run, profile: string, inventory: Inventory)
    requires MovesUnderReview(r, profile, inventory)
    ensures var t := r.states[6];
            InState(t, "s", ReEnrollmentRequired) && RoomForContact(t, "s", "g") && Unused(t) && HasIdleTarget(t, "s")
  {
    EnrolledServerIsActive(r, profile, inventory);
    Next(r, 5);
  }

  lemma ExpiredServerHasToken(r: Run, profile: string, inventory: Inventory)
    requires MovesUnderReview(r, profile, inventory)
    ensures var t := r.states[7];
            && InState(t, "s", ReEnrollmentRequired) && TokenUsable(t, DAY, "s", "u") && "g" !in t.revoked.rows
            && RoomForContact(t, "s", "g") && HasIdleTarget(t, "s")
  {
    ExpiredServerMustReturn(r, profile, inventory);
    RunsKeepInvariant(r, 6);
    DraftsAreNeverInUse(r, 6, "s");
    Next(r, 6);
  }

  lemma ExpiredServerIsPending(r: Run, profile: string, inventory: Inventory)
    requires MovesUnderReview(r, profile, inventory)
    ensures var t := r.states[8];
            && InState(t, "s", PendingVerification) && HasIdleTarget(t, "s")
            && "s" in t.certificates.rows && t.certificates.rows["s"].fingerprint == "g"
  {
    ExpiredServerHasToken(r, profile, inventory);
    Next(r, 7);
  }

  /** So neither a recovery nor a change from before the review is needed to block an approval. */
  lemma NewAddressChangeCanBlock(r: Run, profile: string, inventory: Inventory)
    requires MovesUnderReview(r, profile, inventory)
    ensures Untargeted(r.states[10], "s") && HasIdleTarget(r.states[10], "s")
  {
    ExpiredServerIsPending(r, profile, inventory);
    Next(r, 8);
    assert InState(r.states[9], "s", PendingVerification) && HasIdleTarget(r.states[9], "s");
    Next(r, 9);
  }
}
