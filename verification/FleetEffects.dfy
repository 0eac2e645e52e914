/** What committed requests come to over a run. */
module FleetEffects {
  import opened Basics
  import opened FleetTables
  import opened FleetInvariants
  import opened FleetSteps
  import opened FleetRows
  import opened FleetCommits
  import opened FleetRuns

  // ---- rows ----

  /** A committed request moves the rows of a server by its rules; a refused one moves none, except that an
      activation may leave the inventory it reported. */
  lemma RunsMoveRows(r: Run, i: nat, s: string)
    requires IsRun(r) && i < |r.steps|
    ensures var t, u, step := r.states[i], r.states[i + 1], r.steps[i];
            if Commits(r, i) then RowsMove(t, u, step.now, r.checks, step.request, s)
            else u == t.(inventoryChanges := u.inventoryChanges) && (!step.request.ActivateConfiguration? ==> u == t)
  {
    var t, u, step := r.states[i], r.states[i + 1], r.steps[i];
    Next(r, i);
    RunsKeepInvariant(r, i);
    if Commits(r, i) {
      RowsFollowRequests(t, u, step.now, r.checks, step.request, s);
    } else {
      RefusalsChangeNothing(t, step.now, r.checks, step.request);
    }
  }

  /** The request names another server. */
  predicate NamesOther(r: Request, s: string) {
    !ConcernsCatalog(r) && !r.ExpireCertificates? && !r.RecoverIntermediate? && r.server != s
  }

  predicate SameRows(t: Tables, u: Tables, s: string) {
    && Get(u.servers.rows, s) == Get(t.servers.rows, s) && Get(u.certificates.rows, s) == Get(t.certificates.rows, s)
    && Get(u.stagingTargets.rows, s) == Get(t.stagingTargets.rows, s)
    && Get(u.activeTargets.rows, s) == Get(t.activeTargets.rows, s)
    && Get(u.addressChanges.rows, s) == Get(t.addressChanges.rows, s)
    && Get(u.contacts.rows, s) == Get(t.contacts.rows, s) && Get(u.verified.rows, s) == Get(t.verified.rows, s)
    && Get(u.inventoryChanges.rows, s) == Get(t.inventoryChanges.rows, s)
    && Get(u.staged.rows, s) == Get(t.staged.rows, s)
  }

  /** A request that names another server touches no row of this one, in any table. */
  lemma OthersAreUntouched(t: Tables, u: Tables, now: int, checks: Checks, r: Request, s: string)
    requires RowsMove(t, u, now, checks, r, s) && NamesOther(r, s)
    ensures SameRows(t, u, s)
  {
  }

  // ---- display names ----

  ghost predicate HaveOwnNames(servers: map<string, Server>) {
    forall a, b :: a in servers && b in servers && SameLetters(servers[a].displayName, servers[b].displayName) ==>
      a == b
  }

  /** In every reachable state two servers differ in their display names by more than case. */
  lemma {:induction false} NamesAreUnique(r: Run, n: nat)
    requires IsRun(r) && n < |r.states|
    ensures HaveOwnNames(r.states[n].servers.rows)
  {
    if n > 0 {
      var i := n - 1;
      NamesAreUnique(r, i);
      forall s
        ensures s in r.states[i].servers.rows ==>
                  s in r.states[n].servers.rows
                  && r.states[n].servers.rows[s].displayName == r.states[i].servers.rows[s].displayName
        ensures s in r.states[n].servers.rows && s !in r.states[i].servers.rows ==>
                  r.steps[i].request.RegisterServer? && r.steps[i].request.server == s && Commits(r, i)
                  && r.states[n].servers.rows[s].displayName == r.steps[i].request.displayName
      {
        NamesStay(r, i, s);
      }
      if r.steps[i].request.RegisterServer? {
        RequestsCommitWhen(r, i);
      }
    }
  }

  /** A server keeps the name it was registered with. */
  lemma NamesStay(r: Run, i: nat, s: string)
    requires IsRun(r) && i < |r.steps|
    ensures var before, after, q := r.states[i].servers.rows, r.states[i + 1].servers.rows, r.steps[i].request;
            && (s in before ==> s in after && after[s].displayName == before[s].displayName)
            && (s in after && s !in before ==>
                  q.RegisterServer? && q.server == s && Commits(r, i) && after[s].displayName == q.displayName)
  {
    RunsMoveRows(r, i, s);
  }

  // ---- activations ----

  /** The configuration reported becomes the server's with the revision that was staged, the activation is
      logged, and nothing else changes. */
  predicate Activates(t: Tables, u: Tables, now: int, s: string, digest: Digest) {
    && s in t.servers.rows && s in t.staged.rows
    && var staged, row := t.staged.rows[s], t.servers.rows[s];
       u == t.(servers := Table(t.servers.rows[s := row.(profile := staged.profile, revision := staged.revision,
                                                         configuration := Some(digest))]),
               staged := Table(t.staged.rows - {s}),
               activations := t.activations
                 + [Activation(s, staged.profile, staged.revision, now, staged.operation)])
  }

  /** In every run an activation commits exactly when the digest reported is the one staged, the required
      observations are there, and the inventory satisfies the staged definition with the hardware verified.
      Where only that last condition fails, the inventory waits for acceptance and nothing else changes. */
  lemma ActivationsCommitWhen(r: Run, i: nat)
    requires IsRun(r) && i < |r.steps| && r.steps[i].request.ActivateConfiguration?
    ensures var t, u, now, q := r.states[i], r.states[i + 1], r.steps[i].now, r.steps[i].request;
            if !IsVerified(t, r.checks, q.server, q.digest, q.observations, q.inventory) then !Commits(r, i) && u == t
            else if !IsSameHardware(t, r.checks, q.server,
                                    (t.staged.rows[q.server].profile, t.staged.rows[q.server].revision), q.inventory)
            then !Commits(r, i) && u == t.(inventoryChanges := Table(t.inventoryChanges.rows[q.server := q.inventory]))
            else Commits(r, i) && Activates(t, u, now, q.server, q.digest)
  {
    var q := r.steps[i].request;
    Next(r, i);
    RunsKeepInvariant(r, i);
    ActivationEnds(r.states[i], r.steps[i].now, r.checks, q.server, q.digest, q.observations, q.inventory);
  }

  lemma ActivationEnds(t: Tables, now: int, checks: Checks, s: string, digest: Digest, observations: set<string>,
                       inventory: Inventory)
    requires Invariant(t)
    ensures var (u, outcome) := ActivateProfile(t, now, checks, s, digest, observations, inventory);
            if !IsVerified(t, checks, s, digest, observations, inventory) then !outcome.Done? && u == t
            else if !IsSameHardware(t, checks, s, (t.staged.rows[s].profile, t.staged.rows[s].revision), inventory)
            then !outcome.Done? && u == t.(inventoryChanges := Table(t.inventoryChanges.rows[s := inventory]))
            else outcome.Done? && Activates(t, u, now, s, digest)
  {
    if s in t.staged.rows && (t.staged.rows[s].profile, t.staged.rows[s].revision) in t.profiles.rows {
      RequiredIsObserved(t.profiles.rows[(t.staged.rows[s].profile, t.staged.rows[s].revision)].definition,
                         observations);
      assert StagedFits(t.profiles.rows, t.staged.rows[s], t.servers.rows[s]);
    }
  }

  // ---- publications ----

  /** The server is to get the published revision: it has another of that profile. */
  predicate IsBehind(t: Tables, s: string, p: string, n: nat) {
    s in t.servers.rows && t.servers.rows[s].profile == p && t.servers.rows[s].revision != n
  }

  /** A publication reaches every server of the profile at another revision: it awaits the published one with
      its own bindings, unless an assignment or rollback was staged there, which stays. No other server's
      staged configuration changes. */
  lemma PublicationsReachServers(r: Run, i: nat, s: string)
    requires IsRun(r) && i < |r.steps| && r.steps[i].request.Publish? && Commits(r, i)
    ensures var t, u, p, n := r.states[i], r.states[i + 1], r.steps[i].request.profile, r.steps[i].request.revision;
            && (p, n) in u.profiles.rows && u.profiles.rows[(p, n)].state == Published
            && if !IsBehind(t, s, p, n) then Get(u.staged.rows, s) == Get(t.staged.rows, s)
               else s in u.staged.rows
                    && if s in t.staged.rows && t.staged.rows[s].operation != Publication
                       then u.staged.rows[s] == t.staged.rows[s]
                       else IsStagedFor(t, u.staged.rows[s], s, (p, n), Publication, r.steps[i].now)
  {
    PublishedIsPublished(r, i);
    RunsMoveRows(r, i, s);
    StagedFollows(r.states[i], r.states[i + 1], r.steps[i].now, r.checks, r.steps[i].request, s);
  }

  lemma StagedFollows(t: Tables, u: Tables, now: int, checks: Checks, r: Request, s: string)
    requires RowsMove(t, u, now, checks, r, s)
    ensures StagedMoves(t, u, now, r, s)
  {
  }

  lemma PublishedIsPublished(r: Run, i: nat)
    requires IsRun(r) && i < |r.steps| && r.steps[i].request.Publish? && Commits(r, i)
    ensures var key := (r.steps[i].request.profile, r.steps[i].request.revision);
            key in r.states[i + 1].profiles.rows && r.states[i + 1].profiles.rows[key].state == Published
  {
    var q := r.steps[i].request;
    RequestsCommitWhen(r, i);
    RunsKeepInvariant(r, i);
    Next(r, i);
    CatalogChanges(r.states[i], r.states[i + 1], r.steps[i].now, r.checks, q, (q.profile, q.revision));
  }

  // ---- renewals and rotations ----

  /** The fingerprint of the certificate that replaces the server's. */
  function Replacement(r: Request): Option<(string, int)> {
    match r
    case RenewCertificate(_, _, f, expiresAt) => Some((f, expiresAt))
    case RotateCertificate(_, f, expiresAt) => Some((f, expiresAt))
    case _ => None
  }

  /** A renewal or a rotation puts the new certificate in the place of the live one, whose row ends at once
      or, for a rotation, a day later. */
  lemma ReplacementsTakeOver(r: Run, i: nat)
    requires IsRun(r) && i < |r.steps| && Replacement(r.steps[i].request).Some? && Commits(r, i)
    ensures var t, u, q, now := r.states[i], r.states[i + 1], r.steps[i].request, r.steps[i].now;
            var (f, expiresAt) := Replacement(q).value;
            && q.server in t.certificates.rows
            && Get(u.certificates.rows, q.server) == Some(Certificate(f, expiresAt))
            && Get(u.history.rows, f) == Some(Issued(q.server, now, expiresAt, None))
            && var replaced := t.certificates.rows[q.server].fingerprint;
               && replaced in t.history.rows
               && Get(u.history.rows, replaced)
                  == Some(t.history.rows[replaced].(ended := Some(if q.RenewCertificate? then (now, Renewed)
                                                             else (now + 24 * 3600 * 1_000_000, RotationOverlap))))
  {
    var q := r.steps[i].request;
    RequestsCommitWhen(r, i);
    Next(r, i);
    RunsKeepInvariant(r, i);
    NewCertificateIsLive(r, i);
    ReplacedRowEnds(r.states[i], r.states[i + 1], r.steps[i].now, r.checks, q);
  }

  lemma NewCertificateIsLive(r: Run, i: nat)
    requires IsRun(r) && i < |r.steps| && Replacement(r.steps[i].request).Some? && Commits(r, i)
    ensures var (f, expiresAt) := Replacement(r.steps[i].request).value;
            Get(r.states[i + 1].certificates.rows, r.steps[i].request.server) == Some(Certificate(f, expiresAt))
  {
    RunsMoveRows(r, i, r.steps[i].request.server);
  }

  lemma ReplacedRowEnds(t: Tables, u: Tables, now: int, checks: Checks, q: Request)
    requires Invariant(t) && Apply(t, now, checks, q) == (u, Done)
    requires Replacement(q).Some? && q.server in t.certificates.rows && Replacement(q).value.0 !in t.history.rows
    ensures var (f, expiresAt) := Replacement(q).value;
            Get(u.history.rows, f) == Some(Issued(q.server, now, expiresAt, None))
    ensures var replaced := t.certificates.rows[q.server].fingerprint;
            && replaced in t.history.rows
            && Get(u.history.rows, replaced)
               == Some(t.history.rows[replaced].(ended := Some(if q.RenewCertificate? then (now, Renewed)
                                                               else (now + 24 * 3600 * 1_000_000, RotationOverlap))))
  {
    var replaced := t.certificates.rows[q.server].fingerprint;
    HistoryChanges(t, u, now, checks, q, Replacement(q).value.0);
    HistoryChanges(t, u, now, checks, q, replaced);
    assert Trusted(q.server, replaced, t.history.rows, t.revoked.rows);
  }

  // ---- inventories ----

  /** Requests that may bring other hardware or another definition of what is required. */
  predicate Redefines(r: Request, s: string) {
    (r.ApproveEnrollment? || r.AcceptInventoryChange? || r.ActivateConfiguration?) && r.server == s
  }

  /** The hardware of a server that its profile requires, as it was verified. */
  function HardwareOf(t: Tables, checks: Checks, s: string): Option<string> {
    if s in t.verified.rows && HasProfile(t, s) then Some(checks.signature(t.verified.rows[s], DefinitionOf(t, s)))
    else None
  }

  /** Whatever inventories are observed, the required hardware on record for a server stays as it was verified
      until it is approved, its inventory change accepted or another configuration activated. */
  lemma {:induction false} VerifiedHardwareStays(r: Run, i: nat, n: nat, s: string)
    requires IsRun(r) && i <= n < |r.states| && s in r.states[i].verified.rows
    requires forall k :: i <= k < n ==> !Redefines(r.steps[k].request, s)
    ensures HardwareOf(r.states[i], r.checks, s).Some?
    ensures HardwareOf(r.states[n], r.checks, s) == HardwareOf(r.states[i], r.checks, s)
    decreases n
  {
    if i < n {
      VerifiedHardwareStays(r, i, n - 1, s);
      HardwareStays(r, n - 1, s);
    } else {
      HardwareIsKnown(r, n, s);
    }
  }

  lemma HardwareIsKnown(r: Run, n: nat, s: string)
    requires IsRun(r) && n < |r.states| && s in r.states[n].verified.rows
    ensures HardwareOf(r.states[n], r.checks, s).Some?
  {
    RunsKeepInvariant(r, n);
    assert RowsFit(RowsOf(r.states[n], s));
    DraftsAreNeverInUse(r, n, s);
  }

  lemma HardwareStays(r: Run, i: nat, s: string)
    requires IsRun(r) && i < |r.steps| && HardwareOf(r.states[i], r.checks, s).Some?
    requires !Redefines(r.steps[i].request, s)
    ensures HardwareOf(r.states[i + 1], r.checks, s) == HardwareOf(r.states[i], r.checks, s)
  {
    RunsMoveRows(r, i, s);
    NextAdvances(r, i);
    if Commits(r, i) {
      HardwareFollows(r.states[i], r.states[i + 1], r.steps[i].now, r.checks, r.steps[i].request, s);
    }
  }

  lemma HardwareFollows(t: Tables, u: Tables, now: int, checks: Checks, r: Request, s: string)
    requires RowsMove(t, u, now, checks, r, s) && ProfilesLater(t.profiles.rows, u.profiles.rows)
    requires HardwareOf(t, checks, s).Some? && !Redefines(r, s)
    ensures HardwareOf(u, checks, s) == HardwareOf(t, checks, s)
  {
    var key := (t.servers.rows[s].profile, t.servers.rows[s].revision);
    assert ProfileLater(t.profiles.rows[key], u.profiles.rows[key]);
  }

  /** The inventory that waits is the first one observed with other hardware: it stays until it is accepted
      or an activation reports another. */
  lemma {:induction false} WaitingInventoryStays(r: Run, i: nat, n: nat, s: string)
    requires IsRun(r) && i <= n < |r.states| && s in r.states[i].inventoryChanges.rows
    requires forall k :: i <= k < n ==> !Redefines(r.steps[k].request, s)
    ensures Get(r.states[n].inventoryChanges.rows, s) == Get(r.states[i].inventoryChanges.rows, s)
    decreases n
  {
    if i < n {
      WaitingInventoryStays(r, i, n - 1, s);
      assert !Redefines(r.steps[n - 1].request, s);
      WaitingStays(r, n - 1, s);
    }
  }

  lemma WaitingStays(r: Run, i: nat, s: string)
    requires IsRun(r) && i < |r.steps| && s in r.states[i].inventoryChanges.rows
    requires !Redefines(r.steps[i].request, s)
    ensures Get(r.states[i + 1].inventoryChanges.rows, s) == Get(r.states[i].inventoryChanges.rows, s)
  {
    RunsMoveRows(r, i, s);
    Next(r, i);
  }
}
