/** Which requests commit, in every reachable state, read from the rows. */
module FleetCommits {
  import opened Basics
  import Thresholds
  import opened FleetTables
  import opened FleetInvariants
  import opened FleetRows
  import opened FleetRuns

  // ---- what the guards read ----

  /** Equal, or the two cases of one ASCII letter. */
  predicate SameLetter(a: char, b: char) {
    a == b || ('A' <= a <= 'Z' && a as int + 32 == b as int) || ('A' <= b <= 'Z' && b as int + 32 == a as int)
  }

  predicate SameLetters(a: string, b: string) {
    |a| == |b| && forall i :: 0 <= i < |a| ==> SameLetter(a[i], b[i])
  }

  lemma {:induction false} FoldedTextsAgree(a: string, b: string)
    ensures FoldCase(a) == FoldCase(b) <==> SameLetters(a, b)
  {
    FoldCaseKeepsLength(a);
    FoldCaseKeepsLength(b);
    if |a| == |b| && a != "" {
      FoldedTextsAgree(a[1..], b[1..]);
      assert FoldCase(a)[0] == FoldCase(b)[0] <==> SameLetter(a[0], b[0]);
      assert FoldCase(a)[1..] == FoldCase(a[1..]) && FoldCase(b)[1..] == FoldCase(b[1..]);
      assert SameLetters(a, b) <==> SameLetter(a[0], b[0]) && SameLetters(a[1..], b[1..]) by {
        assert forall i :: 0 < i < |a| ==> a[i] == a[1..][i - 1] && b[i] == b[1..][i - 1];
      }
    }
  }

  lemma {:induction false} FoldCaseKeepsLength(text: string)
    ensures |FoldCase(text)| == |text|
  {
    if text != "" {
      FoldCaseKeepsLength(text[1..]);
    }
  }

  /** Everything the profile asks for was observed: its observations, each persistent mount, each Required
      Service and each sensor. */
  predicate Observed(d: Definition, observations: set<string>) {
    && (forall o :: o in d.requiredObservations ==> o in observations)
    && (forall m :: m in d.persistentMounts ==> "persistent-mount:" + m in observations)
    && (forall s :: s in d.requiredServices ==> "required-service:" + s in observations)
    && (forall n :: n in d.sensors ==> "temperature-sensor:" + n in observations)
  }

  lemma {:induction false} PrefixedHolds(prefix: string, names: seq<string>, observations: set<string>)
    ensures (forall o :: o in Prefixed(prefix, names) ==> o in observations)
            <==> forall n :: n in names ==> prefix + n in observations
  {
    if names != [] {
      PrefixedHolds(prefix, names[1..], observations);
      assert names == [names[0]] + names[1..];
    }
  }

  lemma RequiredIsObserved(d: Definition, observations: set<string>)
    ensures Required(d) <= observations <==> Observed(d, observations)
  {
    PrefixedHolds("persistent-mount:", d.persistentMounts, observations);
    PrefixedHolds("required-service:", d.requiredServices, observations);
    PrefixedHolds("temperature-sensor:", d.sensors, observations);
    assert Required(d) <= observations <==> forall o :: o in Required(d) ==> o in observations;
  }

  // ---- what each request needs ----

  predicate Awaits(t: Tables, s: string) {
    s in t.servers.rows && t.servers.rows[s].state in {AwaitingFirstContact, ReEnrollmentRequired}
  }

  predicate IsUsable(t: Tables, now: int, s: string, token: string) {
    && token in t.tokens.rows && t.tokens.rows[token].server == s
    && t.tokens.rows[token].consumedAt == None && now < t.tokens.rows[token].expiresAt
  }

  predicate HasCertificate(t: Tables, s: string, fingerprint: string) {
    s in t.certificates.rows && t.certificates.rows[s].fingerprint == fingerprint
  }

  /** The server is under review, and what it awaits the decision with. */
  predicate UnderReview(t: Tables, s: string, code: string) {
    && s in t.servers.rows && t.servers.rows[s].state == PendingVerification
    && s in t.certificates.rows && s in t.contacts.rows && t.contacts.rows[s].code == code
  }

  /** The inventory and the observations are those of the profile the server has. */
  predicate Satisfies(t: Tables, checks: Checks, s: string, inventory: Inventory, observations: set<string>) {
    && HasProfile(t, s) && checks.satisfies(inventory, DefinitionOf(t, s))
    && Observed(DefinitionOf(t, s), observations)
  }

  ghost predicate MayEnroll(t: Tables, now: int, checks: Checks, r: Request)
    requires ConcernsEnrollment(r)
  {
    match r
    case RegisterServer(s, name, _, profile) =>
      && (exists n :: (profile, n) in t.profiles.rows && t.profiles.rows[(profile, n)].state == Published)
      && s !in t.servers.rows && forall x :: x in t.servers.rows ==> !SameLetters(t.servers.rows[x].displayName, name)
    case IssueBootstrapToken(s, token) => Awaits(t, s) && token !in t.tokens.rows
    case ValidateBootstrapToken(s, token) => IsUsable(t, now, s, token)
    case ConsumeBootstrapToken(s, token, c) =>
      && IsUsable(t, now, s, token) && Awaits(t, s) && c.fingerprint !in t.history.rows
      && s !in t.stagingTargets.rows && s !in t.contacts.rows
    case RecordStagedObservations(s, _) => s in t.servers.rows && t.servers.rows[s].state == PendingVerification
    case ApproveEnrollment(s, code) =>
      && UnderReview(t, s, code) && s in t.stagingTargets.rows
      && Satisfies(t, checks, s, t.contacts.rows[s].inventory, t.contacts.rows[s].observations)
    case RejectEnrollment(s, code) => UnderReview(t, s, code)
  }

  predicate MayCertify(t: Tables, now: int, r: Request)
    requires ConcernsCertificates(r)
  {
    match r
    case RevokeCertificate(s) => s in t.servers.rows && t.servers.rows[s].state == Active
    case RenewCertificate(s, current, f, _) =>
      && HasCertificate(t, s, current) && f !in t.history.rows
      && t.certificates.rows[s].expiresAt <= now + 10 * 24 * 3600 * 1_000_000
    case RotateCertificate(s, f, _) => s in t.certificates.rows && f !in t.history.rows
    case StageScrapeAddress(s, _, f) => HasCertificate(t, s, f) && s in t.activeTargets.rows
    case ActivateScrapeAddress(s, f) => s in t.addressChanges.rows && t.addressChanges.rows[s].fingerprint == f
    case RetireServer(s) => s in t.servers.rows && t.servers.rows[s].state != Retired
    case ExpireCertificates => true
    case RecoverIntermediate => true
  }

  ghost predicate MayCatalog(t: Tables, checks: Checks, r: Request)
    requires ConcernsCatalog(r)
  {
    match r
    case Clone(p, name, source, n) =>
      && (source, n) in t.profiles.rows && t.profiles.rows[(source, n)].state != Draft
      && checks.wellFormed(t.profiles.rows[(source, n)].definition)
      && forall key :: key in t.profiles.rows ==> key.0 != p && t.profiles.rows[key].name != name
    case CreateDraft(p, name, _) =>
      && (exists n :: (p, n) in t.profiles.rows)
      && forall key :: key in t.profiles.rows && t.profiles.rows[key].name == name ==> key.0 == p
    case Publish(p, n) =>
      && (p, n) in t.profiles.rows && t.profiles.rows[(p, n)].state == Draft
      && checks.wellFormed(t.profiles.rows[(p, n)].definition)
      && t.profiles.rows[(p, n)].definition.overrides.JList?
      && Thresholds.Accepted(t.profiles.rows[(p, n)].definition.overrides.items)
    case Withdraw(p, n) =>
      (p, n) in t.profiles.rows && t.profiles.rows[(p, n)].state == Published && !t.profiles.rows[(p, n)].seeded
  }

  /** The staged configuration is the reported one, and what it is for was observed. */
  predicate IsVerified(t: Tables, checks: Checks, s: string, digest: Digest, observations: set<string>,
                       inventory: Inventory)
  {
    && s in t.staged.rows && t.staged.rows[s].configuration == digest
    && (t.staged.rows[s].profile, t.staged.rows[s].revision) in t.profiles.rows
    && var d := t.profiles.rows[(t.staged.rows[s].profile, t.staged.rows[s].revision)].definition;
       Observed(d, observations) && checks.satisfies(inventory, d)
  }

  predicate MayConfigure(t: Tables, checks: Checks, r: Request)
    requires ConcernsConfiguration(r)
  {
    match r
    case StageConfiguration(s, p, n, rollback) =>
      && s in t.servers.rows && (p, n) in t.profiles.rows && checks.wellFormed(t.profiles.rows[(p, n)].definition)
      && (t.profiles.rows[(p, n)].state == Published || (rollback && t.profiles.rows[(p, n)].state == Withdrawn))
      && (rollback ==> p == t.servers.rows[s].profile && n < t.servers.rows[s].revision)
    case ActivateConfiguration(s, digest, observations, inventory) =>
      && IsVerified(t, checks, s, digest, observations, inventory)
      && IsSameHardware(t, checks, s, (t.staged.rows[s].profile, t.staged.rows[s].revision), inventory)
    case ObserveInventory(s, _) => s in t.servers.rows && t.servers.rows[s].state == Active
    case AcceptInventoryChange(s) => s in t.inventoryChanges.rows
  }

  ghost predicate MayCommit(t: Tables, now: int, checks: Checks, r: Request) {
    if ConcernsEnrollment(r) then MayEnroll(t, now, checks, r)
    else if ConcernsCertificates(r) then MayCertify(t, now, r)
    else if ConcernsCatalog(r) then MayCatalog(t, checks, r)
    else MayConfigure(t, checks, r)
  }

  // ---- enrollment ----

  lemma EnrollmentCommitsWhen(t: Tables, now: int, checks: Checks, r: Request)
    requires Invariant(t) && ConcernsEnrollment(r)
    ensures Apply(t, now, checks, r).1.Done? <==> MayEnroll(t, now, checks, r)
  {
    match r
    case RegisterServer(s, name, address, profile) => RegistrationCommitsWhen(t, s, name, address, profile);
    case IssueBootstrapToken(s, token) => IssueCommitsWhen(t, now, checks, r);
    case ValidateBootstrapToken(s, token) =>
    case ConsumeBootstrapToken(s, token, c) =>
      assert RowsFit(RowsOf(t, s));
    case RecordStagedObservations(s, _) =>
      assert RowsFit(RowsOf(t, s));
    case ApproveEnrollment(s, code) => ApprovalCommits(t, now, checks, s, code);
    case RejectEnrollment(s, code) => RejectionCommits(t, now, s, code);
  }

  lemma RegistrationCommitsWhen(t: Tables, s: string, name: string, address: string, profile: string)
    ensures Register(t, s, name, address, profile).1.Done? <==>
            && (exists n :: (profile, n) in t.profiles.rows && t.profiles.rows[(profile, n)].state == Published)
            && s !in t.servers.rows
            && forall x :: x in t.servers.rows ==> !SameLetters(t.servers.rows[x].displayName, name)
  {
    forall x | x in t.servers.rows
      ensures FoldCase(t.servers.rows[x].displayName) == FoldCase(name) <==>
              SameLetters(t.servers.rows[x].displayName, name)
    {
      FoldedTextsAgree(t.servers.rows[x].displayName, name);
    }
    if n :| (profile, n) in t.profiles.rows && t.profiles.rows[(profile, n)].state == Published {
      assert n in PublishedRevisions(t.profiles.rows, profile);
    }
    if PublishedRevisions(t.profiles.rows, profile) != {} {
      var n :| n in PublishedRevisions(t.profiles.rows, profile);
      assert (profile, n) in t.profiles.rows;
    }
  }

  lemma IssueCommitsWhen(t: Tables, now: int, checks: Checks, r: Request)
    requires StagingOk(t.servers.rows, t.profiles.rows, t.staged.rows) && r.IssueBootstrapToken?
    ensures Apply(t, now, checks, r).1.Done? <==> Awaits(t, r.server) && r.token !in t.tokens.rows
  {
  }

  lemma ApprovalCommits(t: Tables, now: int, checks: Checks, s: string, code: string)
    requires Invariant(t)
    ensures Approve(t, now, checks, s, code).1.Done? <==>
            && UnderReview(t, s, code) && s in t.stagingTargets.rows
            && Satisfies(t, checks, s, t.contacts.rows[s].inventory, t.contacts.rows[s].observations)
  {
    if Decidable(t, s) {
      RequiredIsObserved(DefinitionOf(t, s), t.contacts.rows[s].observations);
    }
  }

  lemma RejectionCommits(t: Tables, now: int, s: string, code: string)
    requires Invariant(t)
    ensures Reject(t, now, s, code).1.Done? <==> UnderReview(t, s, code)
  {
    if s in t.certificates.rows {
      assert Trusted(s, t.certificates.rows[s].fingerprint, t.history.rows, t.revoked.rows);
    }
    if s in t.servers.rows {
      assert InUse(t.profiles.rows, t.servers.rows[s].profile, t.servers.rows[s].revision);
    }
  }

  // ---- certificates and addresses ----

  lemma CertificatesCommitWhen(t: Tables, now: int, checks: Checks, r: Request)
    requires Invariant(t) && ConcernsCertificates(r)
    ensures Apply(t, now, checks, r).1.Done? <==> MayCertify(t, now, r)
  {
    if r.RevokeCertificate? {
      assert RowsFit(RowsOf(t, r.server));
    }
  }

  // ---- profiles ----

  lemma CatalogCommitsWhen(t: Tables, now: int, checks: Checks, r: Request)
    requires ProfilesOk(t.profiles.rows) && ConcernsCatalog(r)
    ensures Apply(t, now, checks, r).1.Done? <==> MayCatalog(t, checks, r)
  {
    match r
    case Clone(p, name, source, n) => CloneCommitsWhen(t, checks, p, name, source, n);
    case CreateDraft(p, name, definition) => DraftCommitsWhen(t, p, name, definition);
    case Publish(p, n) =>
    case Withdraw(p, n) =>
  }

  lemma CloneCommitsWhen(t: Tables, checks: Checks, p: string, name: string, source: string, n: nat)
    requires ProfilesOk(t.profiles.rows)
    ensures CloneProfile(t, checks, p, name, source, n).1.Done? <==>
            && (source, n) in t.profiles.rows && t.profiles.rows[(source, n)].state != Draft
            && checks.wellFormed(t.profiles.rows[(source, n)].definition)
            && forall key :: key in t.profiles.rows ==> key.0 != p && t.profiles.rows[key].name != name
  {
    forall key | key in t.profiles.rows && key.0 == p ensures key.1 in Revisions(t.profiles.rows, p) {
    }
  }

  lemma DraftCommitsWhen(t: Tables, p: string, name: string, definition: Definition)
    ensures DraftProfile(t, p, name, definition).1.Done? <==>
            && (exists n :: (p, n) in t.profiles.rows)
            && forall key :: key in t.profiles.rows && t.profiles.rows[key].name == name ==> key.0 == p
  {
    if n :| (p, n) in t.profiles.rows {
      assert n in Revisions(t.profiles.rows, p);
    }
  }

  // ---- configurations and inventories ----

  lemma ConfigurationCommitsWhen(t: Tables, now: int, checks: Checks, r: Request)
    requires Invariant(t) && ConcernsConfiguration(r)
    ensures Apply(t, now, checks, r).1.Done? <==> MayConfigure(t, checks, r)
  {
    match r
    case StageConfiguration(s, p, n, rollback) => StagingCommitsWhen(t, now, checks, s, p, n, rollback);
    case ActivateConfiguration(s, digest, observations, inventory) =>
      ActivationCommits(t, now, checks, s, digest, observations, inventory);
    case ObserveInventory(s, inventory) => ObservationCommitsWhen(t, checks, s, inventory);
    case AcceptInventoryChange(s) =>
  }

  lemma StagingCommitsWhen(t: Tables, now: int, checks: Checks, s: string, p: string, n: nat, rollback: bool)
    requires ProfilesOk(t.profiles.rows)
    ensures StageProfile(t, now, checks, s, p, n, rollback).1.Done? <==>
            && s in t.servers.rows && (p, n) in t.profiles.rows && checks.wellFormed(t.profiles.rows[(p, n)].definition)
            && (t.profiles.rows[(p, n)].state == Published || (rollback && t.profiles.rows[(p, n)].state == Withdrawn))
            && (rollback ==> p == t.servers.rows[s].profile && n < t.servers.rows[s].revision)
  {
  }

  lemma ActivationCommits(t: Tables, now: int, checks: Checks, s: string, digest: Digest, observations: set<string>,
                          inventory: Inventory)
    requires StagingOk(t.servers.rows, t.profiles.rows, t.staged.rows)
    ensures ActivateProfile(t, now, checks, s, digest, observations, inventory).1.Done? <==>
            && IsVerified(t, checks, s, digest, observations, inventory)
            && IsSameHardware(t, checks, s, (t.staged.rows[s].profile, t.staged.rows[s].revision), inventory)
  {
    if s in t.staged.rows && (t.staged.rows[s].profile, t.staged.rows[s].revision) in t.profiles.rows {
      RequiredIsObserved(t.profiles.rows[(t.staged.rows[s].profile, t.staged.rows[s].revision)].definition,
                         observations);
    }
  }

  lemma ObservationCommitsWhen(t: Tables, checks: Checks, s: string, inventory: Inventory)
    requires Invariant(t)
    ensures RecordInventory(t, checks, s, inventory).1.Done? <==>
            s in t.servers.rows && t.servers.rows[s].state == Active
  {
    assert RowsFit(RowsOf(t, s));
    if s in t.servers.rows {
      assert InUse(t.profiles.rows, t.servers.rows[s].profile, t.servers.rows[s].revision);
    }
  }

  // ---- every request ----

  lemma AppliesWhen(t: Tables, now: int, checks: Checks, r: Request)
    requires Invariant(t)
    ensures Apply(t, now, checks, r).1.Done? <==> MayCommit(t, now, checks, r)
  {
    if ConcernsEnrollment(r) {
      EnrollmentCommitsWhen(t, now, checks, r);
    } else if ConcernsCertificates(r) {
      CertificatesCommitWhen(t, now, checks, r);
    } else if ConcernsCatalog(r) {
      CatalogCommitsWhen(t, now, checks, r);
    } else {
      ConfigurationCommitsWhen(t, now, checks, r);
    }
  }

  /** In every run each of the 23 requests commits exactly when the rows it finds meet its conditions. */
  lemma RequestsCommitWhen(r: Run, i: nat)
    requires IsRun(r) && i < |r.steps|
    ensures Commits(r, i) <==> MayCommit(r.states[i], r.steps[i].now, r.checks, r.steps[i].request)
  {
    RunsKeepInvariant(r, i);
    AppliesWhen(r.states[i], r.steps[i].now, r.checks, r.steps[i].request);
  }

  // ---- refusals ----

  /** What the answer to a request that may be refused for several reasons says. */
  ghost predicate SaysWhy(t: Tables, now: int, checks: Checks, r: Request, o: Outcome) {
    match r
    case RegisterServer(_, _, _, profile) =>
      o == ProfileNotPublished <==>
        forall n :: (profile, n) in t.profiles.rows ==> t.profiles.rows[(profile, n)].state != Published
    case IssueBootstrapToken(s, _) => o == NotAwaitingFirstContact <==> !Awaits(t, s)
    case ConsumeBootstrapToken(s, token, c) =>
      o == InvalidCredentials <==> c.fingerprint in t.revoked.rows || !IsUsable(t, now, s, token) || !Awaits(t, s)
    case ApproveEnrollment(s, code) =>
      && (o == CodeMismatch <==> IsPending(t, s) && t.contacts.rows[s].code != code)
      && (o == InventoryMismatch <==>
            && UnderReview(t, s, code) && HasProfile(t, s)
            && !checks.satisfies(t.contacts.rows[s].inventory, DefinitionOf(t, s)))
      && (o == IncompleteObservations <==>
            && UnderReview(t, s, code) && HasProfile(t, s)
            && checks.satisfies(t.contacts.rows[s].inventory, DefinitionOf(t, s))
            && !Observed(DefinitionOf(t, s), t.contacts.rows[s].observations))
    case RejectEnrollment(s, code) => o == CodeMismatch <==> IsPending(t, s) && t.contacts.rows[s].code != code
    case RenewCertificate(s, current, _, _) =>
      && (o == LifecycleConflict <==> !HasCertificate(t, s, current))
      && (o == RenewalNotDue <==>
            HasCertificate(t, s, current) && t.certificates.rows[s].expiresAt > now + 10 * 24 * 3600 * 1_000_000)
    case RotateCertificate(s, _, _) => o == LifecycleConflict <==> s !in t.certificates.rows
    case Clone(_, _, source, n) =>
      o == ProfileNotFound <==> (source, n) !in t.profiles.rows || t.profiles.rows[(source, n)].state == Draft
    case CreateDraft(p, _, _) => o == ProfileNotFound <==> forall n :: (p, n) !in t.profiles.rows
    case Publish(p, n) =>
      && (o == ProfileNotFound <==> (p, n) !in t.profiles.rows)
      && (o == ProfileConflict <==> (p, n) in t.profiles.rows && t.profiles.rows[(p, n)].state != Draft)
    case Withdraw(p, n) => o == ProfileNotFound <==> (p, n) !in t.profiles.rows
    case StageConfiguration(s, p, n, rollback) =>
      && (o == ProfileNotFound <==> s !in t.servers.rows || (p, n) !in t.profiles.rows)
      && (o == ProfileNotPublished <==>
            && s in t.servers.rows && (p, n) in t.profiles.rows
            && (t.profiles.rows[(p, n)].state == Draft || (t.profiles.rows[(p, n)].state == Withdrawn && !rollback)))
    case ActivateConfiguration(s, digest, _, _) =>
      && (o == ProfileConflict <==> s !in t.staged.rows)
      && (o == HashMismatch <==> s in t.staged.rows && t.staged.rows[s].configuration != digest)
    case _ => true
  }

  /** A decision on the server is awaited. */
  predicate IsPending(t: Tables, s: string) {
    && s in t.servers.rows && t.servers.rows[s].state == PendingVerification
    && s in t.certificates.rows && s in t.contacts.rows
  }

  lemma EnrollmentSaysWhy(t: Tables, now: int, checks: Checks, r: Request)
    requires Invariant(t) && ConcernsEnrollment(r)
    ensures SaysWhy(t, now, checks, r, Apply(t, now, checks, r).1)
  {
    match r
    case RegisterServer(s, name, address, profile) => RegistrationSaysWhy(t, now, checks, r);
    case ApproveEnrollment(s, code) => ApprovalSaysWhy(t, now, checks, s, code);
    case RejectEnrollment(s, code) => RejectionSaysWhy(t, now, checks, s, code);
    case IssueBootstrapToken(s, _) => IssueCommitsWhen(t, now, checks, r);
    case ConsumeBootstrapToken(s, token, c) => ContactSaysWhy(t, now, checks, s, token, c);
    case _ =>
  }

  lemma ContactSaysWhy(t: Tables, now: int, checks: Checks, s: string, token: string, c: Contact)
    ensures SaysWhy(t, now, checks, ConsumeBootstrapToken(s, token, c), Bootstrap(t, now, s, token, c).1)
  {
  }

  lemma RegistrationSaysWhy(t: Tables, now: int, checks: Checks, r: Request)
    requires r.RegisterServer?
    ensures SaysWhy(t, now, checks, r, Apply(t, now, checks, r).1)
  {
    assert forall n :: n in PublishedRevisions(t.profiles.rows, r.profile) <==>
                         (r.profile, n) in t.profiles.rows && t.profiles.rows[(r.profile, n)].state == Published;
  }

  lemma ApprovalSaysWhy(t: Tables, now: int, checks: Checks, s: string, code: string)
    requires Invariant(t)
    ensures SaysWhy(t, now, checks, ApproveEnrollment(s, code), Approve(t, now, checks, s, code).1)
  {
    if s in t.servers.rows {
      assert InUse(t.profiles.rows, t.servers.rows[s].profile, t.servers.rows[s].revision);
    }
    if Decidable(t, s) {
      RequiredIsObserved(DefinitionOf(t, s), t.contacts.rows[s].observations);
    }
  }

  lemma RejectionSaysWhy(t: Tables, now: int, checks: Checks, s: string, code: string)
    requires Invariant(t)
    ensures SaysWhy(t, now, checks, RejectEnrollment(s, code), Reject(t, now, s, code).1)
  {
    if s in t.servers.rows {
      assert InUse(t.profiles.rows, t.servers.rows[s].profile, t.servers.rows[s].revision);
    }
  }

  lemma CertificatesSayWhy(t: Tables, now: int, checks: Checks, r: Request)
    requires ConcernsCertificates(r)
    ensures SaysWhy(t, now, checks, r, Apply(t, now, checks, r).1)
  {
  }

  lemma CatalogSaysWhy(t: Tables, now: int, checks: Checks, r: Request)
    requires ConcernsCatalog(r)
    ensures SaysWhy(t, now, checks, r, Apply(t, now, checks, r).1)
  {
    if r.CreateDraft? {
      assert forall n :: n in Revisions(t.profiles.rows, r.profile) <==> (r.profile, n) in t.profiles.rows;
    }
  }

  lemma ConfigurationSaysWhy(t: Tables, now: int, checks: Checks, r: Request)
    requires Invariant(t) && ConcernsConfiguration(r)
    ensures SaysWhy(t, now, checks, r, Apply(t, now, checks, r).1)
  {
    match r
    case ActivateConfiguration(s, digest, observations, inventory) =>
      ActivationSaysWhy(t, now, checks, s, digest, observations, inventory);
    case StageConfiguration(s, p, n, rollback) => StagingSaysWhy(t, now, checks, s, p, n, rollback);
    case _ =>
  }

  lemma ActivationSaysWhy(t: Tables, now: int, checks: Checks, s: string, digest: Digest, observations: set<string>,
                          inventory: Inventory)
    requires StagingOk(t.servers.rows, t.profiles.rows, t.staged.rows)
    ensures SaysWhy(t, now, checks, ActivateConfiguration(s, digest, observations, inventory),
                    ActivateProfile(t, now, checks, s, digest, observations, inventory).1)
  {
    if s in t.staged.rows {
      assert StagedFits(t.profiles.rows, t.staged.rows[s], t.servers.rows[s]);
    }
  }

  lemma StagingSaysWhy(t: Tables, now: int, checks: Checks, s: string, p: string, n: nat, rollback: bool)
    ensures SaysWhy(t, now, checks, StageConfiguration(s, p, n, rollback),
                    StageProfile(t, now, checks, s, p, n, rollback).1)
  {
  }

  /** And a refusal says which condition was not met. */
  lemma RefusalsSayWhy(r: Run, i: nat)
    requires IsRun(r) && i < |r.steps|
    ensures SaysWhy(r.states[i], r.steps[i].now, r.checks, r.steps[i].request,
                    After(r.checks, r.states[i], r.steps[i]).1)
  {
    var t, now, q := r.states[i], r.steps[i].now, r.steps[i].request;
    RunsKeepInvariant(r, i);
    if ConcernsEnrollment(q) {
      EnrollmentSaysWhy(t, now, r.checks, q);
    } else if ConcernsCertificates(q) {
      CertificatesSayWhy(t, now, r.checks, q);
    } else if ConcernsCatalog(q) {
      CatalogSaysWhy(t, now, r.checks, q);
    } else {
      ConfigurationSaysWhy(t, now, r.checks, q);
    }
  }
}
