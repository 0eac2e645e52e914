/** What no transaction ever takes back. */
module FleetSteps {
  import opened Basics
  import opened FleetTables
  import opened FleetInvariants

  /** Issued certificates are never forgotten, and how one ended is never rewritten. */
  ghost predicate HistoryLater(a: map<string, Issued>, b: map<string, Issued>) {
    forall f :: f in a ==> f in b && RowLater(a[f], b[f])
  }

  predicate RowLater(a: Issued, b: Issued) {
    && a.server == b.server && a.issuedAt == b.issuedAt && a.expiresAt == b.expiresAt
    && (a.ended.Some? ==> b.ended == a.ended)
  }

  /** A certificate that was issued before can only be live if it was live before. */
  ghost predicate NoneReturns(before: map<string, Certificate>, history: map<string, Issued>,
                              after: map<string, Certificate>) {
    forall s :: s in after && after[s].fingerprint in history ==> s in before && before[s] == after[s]
  }

  ghost predicate RevokedLater(a: map<string, Revocation>, b: map<string, Revocation>) {
    forall f :: f in a ==> f in b && b[f] == a[f]
  }

  ghost predicate ServersLater(a: map<string, Server>, b: map<string, Server>) {
    forall s :: s in a ==> s in b && (a[s].state == Retired ==> b[s].state == Retired)
  }

  function Stage(state: ProfileState): nat {
    match state case Draft => 0 case Published => 1 case Withdrawn => 2
  }

  /** A profile revision stays as it was drafted; only its state advances. */
  ghost predicate ProfilesLater(a: map<(string, nat), Profile>, b: map<(string, nat), Profile>) {
    forall key :: key in a ==> key in b && ProfileLater(a[key], b[key])
  }

  predicate ProfileLater(a: Profile, b: Profile) {
    b == a.(state := b.state) && Stage(a.state) <= Stage(b.state)
  }

  /** A token stays its server's and is consumed once. */
  ghost predicate TokensLater(a: map<string, Token>, b: map<string, Token>) {
    forall token :: token in a ==> token in b && TokenLater(a[token], b[token])
  }

  predicate TokenLater(a: Token, b: Token) {
    a.server == b.server && a.expiresAt == b.expiresAt && (a.consumedAt.Some? ==> b.consumedAt == a.consumedAt)
  }

  predicate ActivationsLater(a: seq<Activation>, b: seq<Activation>) {
    |a| <= |b| && b[..|a|] == a
  }

  ghost predicate Later(t: Tables, u: Tables) {
    && HistoryLater(t.history.rows, u.history.rows)
    && NoneReturns(t.certificates.rows, t.history.rows, u.certificates.rows)
    && RevokedLater(t.revoked.rows, u.revoked.rows)
    && ServersLater(t.servers.rows, u.servers.rows)
    && ProfilesLater(t.profiles.rows, u.profiles.rows)
    && TokensLater(t.tokens.rows, u.tokens.rows)
    && ActivationsLater(t.activations, u.activations)
  }

  lemma LaterIsTransitive(t: Tables, u: Tables, v: Tables)
    requires Later(t, u) && Later(u, v)
    ensures Later(t, v)
  {
    assert forall f :: f in t.history.rows ==> RowLater(t.history.rows[f], u.history.rows[f]);
    assert forall key :: key in t.profiles.rows ==> ProfileLater(t.profiles.rows[key], u.profiles.rows[key]);
    assert forall token :: token in t.tokens.rows ==> TokenLater(t.tokens.rows[token], u.tokens.rows[token]);
    assert v.activations[..|t.activations|] == v.activations[..|u.activations|][..|t.activations|];
  }

  lemma LaterIsReflexive(t: Tables)
    ensures Later(t, t)
  {
  }

  /** Servers change state or profile, and activations are logged. */
  lemma OnlyServersMove(t: Tables, u: Tables)
    requires u.history == t.history && u.certificates == t.certificates && u.revoked == t.revoked
    requires u.profiles == t.profiles && u.tokens == t.tokens
    requires ServersLater(t.servers.rows, u.servers.rows) && ActivationsLater(t.activations, u.activations)
    ensures Later(t, u)
  {
  }

  // ---- each transaction ----

  /** The history row of a live certificate may be ended, and that certificate taken away. */
  lemma EndsLive(t: Tables, s: string, at: int, reason: EndReason)
    requires Trust(t.certificates.rows, t.history.rows, t.revoked.rows) && s in t.certificates.rows
    ensures HistoryLater(t.history.rows, Ended(t.history.rows, t.certificates.rows[s].fingerprint, at, reason))
    ensures NoneReturns(t.certificates.rows, t.history.rows, t.certificates.rows - {s})
  {
    assert Trusted(s, t.certificates.rows[s].fingerprint, t.history.rows, t.revoked.rows);
  }

  lemma RegisterAdvances(t: Tables, s: string, displayName: string, address: string, profile: string)
    ensures Later(t, Register(t, s, displayName, address, profile).0)
  {
    if Register(t, s, displayName, address, profile).1 != Done {
      LaterIsReflexive(t);
    }
  }

  lemma IssueTokenAdvances(t: Tables, now: int, s: string, token: string)
    ensures Later(t, IssueToken(t, now, s, token).0)
  {
    if IssueToken(t, now, s, token).1 != Done {
      LaterIsReflexive(t);
    }
  }

  lemma BootstrapAdvances(t: Tables, now: int, s: string, token: string, c: Contact)
    ensures Later(t, Bootstrap(t, now, s, token, c).0)
  {
    if Bootstrap(t, now, s, token, c).1 != Done {
      LaterIsReflexive(t);
    }
  }

  lemma RecordObservationsAdvances(t: Tables, s: string, observations: set<string>)
    ensures Later(t, RecordObservations(t, s, observations).0)
  {
  }

  lemma ApproveAdvances(t: Tables, now: int, checks: Checks, s: string, code: string)
    ensures Later(t, Approve(t, now, checks, s, code).0)
  {
    var (u, outcome) := Approve(t, now, checks, s, code);
    if outcome.Done? {
      OnlyServersMove(t, u);
    } else {
      LaterIsReflexive(t);
    }
  }

  lemma RejectAdvances(t: Tables, now: int, s: string, code: string)
    ensures Later(t, Reject(t, now, s, code).0)
  {
    if Reject(t, now, s, code).1 != Done {
      LaterIsReflexive(t);
    }
  }

  lemma RevokeAdvances(t: Tables, now: int, s: string)
    requires Trust(t.certificates.rows, t.history.rows, t.revoked.rows)
    ensures Later(t, Revoke(t, now, s).0)
  {
    if s in t.certificates.rows {
      EndsLive(t, s, now, Revoked);
    }
  }

  lemma ReplaceAdvances(t: Tables, now: int, s: string, fingerprint: string, expiresAt: int, endedAt: int,
                        reason: EndReason)
    requires Trust(t.certificates.rows, t.history.rows, t.revoked.rows) && s in t.certificates.rows
    ensures Later(t, Replace(t, now, s, fingerprint, expiresAt, endedAt, reason).0)
  {
    EndsLive(t, s, endedAt, reason);
  }

  lemma RenewAdvances(t: Tables, now: int, s: string, current: string, fingerprint: string, expiresAt: int)
    requires Trust(t.certificates.rows, t.history.rows, t.revoked.rows)
    ensures Later(t, Renew(t, now, s, current, fingerprint, expiresAt).0)
  {
    LaterIsReflexive(t);
    if s in t.certificates.rows {
      ReplaceAdvances(t, now, s, fingerprint, expiresAt, now, Renewed);
    }
  }

  lemma RotateAdvances(t: Tables, now: int, s: string, fingerprint: string, expiresAt: int)
    requires Trust(t.certificates.rows, t.history.rows, t.revoked.rows)
    ensures Later(t, Rotate(t, now, s, fingerprint, expiresAt).0)
  {
    LaterIsReflexive(t);
    if s in t.certificates.rows {
      ReplaceAdvances(t, now, s, fingerprint, expiresAt, now + DAY, RotationOverlap);
    }
  }

  lemma StageAddressAdvances(t: Tables, now: int, s: string, address: string, fingerprint: string)
    ensures Later(t, StageAddress(t, now, s, address, fingerprint).0)
  {
  }

  lemma ActivateAddressAdvances(t: Tables, now: int, s: string, fingerprint: string)
    ensures Later(t, ActivateAddress(t, now, s, fingerprint).0)
  {
  }

  lemma RecoverAdvances(t: Tables, now: int)
    ensures Later(t, Recover(t, now).0)
  {
  }

  lemma RetireAdvances(t: Tables, now: int, s: string)
    requires Trust(t.certificates.rows, t.history.rows, t.revoked.rows)
    ensures Later(t, Retire(t, now, s).0)
  {
    if Retire(t, now, s).1 != Done {
      LaterIsReflexive(t);
    } else if s in t.certificates.rows {
      EndsLive(t, s, now, ServerRetired);
    }
  }

  lemma ExpireAdvances(t: Tables, now: int)
    requires Trust(t.certificates.rows, t.history.rows, t.revoked.rows)
    ensures Later(t, Expire(t, now).0)
  {
    var u := Expire(t, now).0;
    forall f | f in t.history.rows ensures f in u.history.rows && RowLater(t.history.rows[f], u.history.rows[f]) {
      if f in FingerprintsOf(t, ExpiredAt(t, now)) {
        var s :| s in t.certificates.rows && t.certificates.rows[s].fingerprint == f;
        assert Trusted(s, f, t.history.rows, t.revoked.rows);
      }
    }
  }

  lemma CloneProfileAdvances(t: Tables, checks: Checks, profile: string, name: string, source: string, revision: nat)
    ensures Later(t, CloneProfile(t, checks, profile, name, source, revision).0)
  {
    if CloneProfile(t, checks, profile, name, source, revision).1 != Done {
      LaterIsReflexive(t);
    } else {
      assert forall key :: key in t.profiles.rows && key.0 == profile ==> key.1 in Revisions(t.profiles.rows, profile);
    }
  }

  lemma DraftProfileAdvances(t: Tables, profile: string, name: string, definition: Definition)
    ensures Later(t, DraftProfile(t, profile, name, definition).0)
  {
    var revisions := Revisions(t.profiles.rows, profile);
    if revisions != {} {
      assert Greatest(revisions) + 1 !in revisions;
    }
  }

  lemma PublishProfileAdvances(t: Tables, now: int, checks: Checks, profile: string, revision: nat)
    ensures Later(t, PublishProfile(t, now, checks, profile, revision).0)
  {
    if PublishProfile(t, now, checks, profile, revision).1 != Done {
      LaterIsReflexive(t);
    }
  }

  lemma RetireProfileAdvances(t: Tables, profile: string, revision: nat)
    ensures Later(t, RetireProfile(t, profile, revision).0)
  {
    if RetireProfile(t, profile, revision).1 != Done {
      LaterIsReflexive(t);
    }
  }

  lemma StageProfileAdvances(t: Tables, now: int, checks: Checks, s: string, profile: string, revision: nat,
                             rollback: bool)
    ensures Later(t, StageProfile(t, now, checks, s, profile, revision, rollback).0)
  {
  }

  lemma ActivateProfileAdvances(t: Tables, now: int, checks: Checks, s: string, digest: Digest,
                                observations: set<string>, inventory: Inventory)
    ensures Later(t, ActivateProfile(t, now, checks, s, digest, observations, inventory).0)
  {
    var (u, outcome) := ActivateProfile(t, now, checks, s, digest, observations, inventory);
    if outcome.Done? {
      assert ServersLater(t.servers.rows, u.servers.rows);
    }
    OnlyServersMove(t, u);
  }

  lemma RecordInventoryAdvances(t: Tables, checks: Checks, s: string, inventory: Inventory)
    ensures Later(t, RecordInventory(t, checks, s, inventory).0)
  {
    OnlyServersMove(t, RecordInventory(t, checks, s, inventory).0);
  }

  lemma AcceptInventoryAdvances(t: Tables, s: string)
    ensures Later(t, AcceptInventory(t, s).0)
  {
  }

  /** Every transaction, whether it commits or is refused, takes nothing back. */
  lemma ApplyAdvances(t: Tables, now: int, checks: Checks, r: Request)
    requires Invariant(t)
    ensures Later(t, Apply(t, now, checks, r).0)
  {
    if r.RegisterServer? || r.IssueBootstrapToken? || r.ValidateBootstrapToken? {
      RegistrationRequestAdvances(t, now, checks, r);
    } else if r.ConsumeBootstrapToken? || r.RecordStagedObservations? {
      ContactRequestAdvances(t, now, checks, r);
    } else if r.ApproveEnrollment? || r.RejectEnrollment? {
      DecisionRequestAdvances(t, now, checks, r);
    } else if r.RenewCertificate? || r.RotateCertificate? {
      ReplacementRequestAdvances(t, now, checks, r);
    } else if EndsCertificates(r) {
      EndingRequestAdvances(t, now, checks, r);
    } else if r.StageScrapeAddress? || r.ActivateScrapeAddress? {
      AddressRequestAdvances(t, now, checks, r);
    } else if r.Clone? || r.CreateDraft? {
      DraftRequestAdvances(t, now, checks, r);
    } else if r.Publish? || r.Withdraw? {
      PublicationRequestAdvances(t, now, checks, r);
    } else if r.StageConfiguration? || r.ActivateConfiguration? {
      ConfigurationRequestAdvances(t, now, checks, r);
    } else {
      InventoryRequestAdvances(t, now, checks, r);
    }
  }

  lemma RegistrationRequestAdvances(t: Tables, now: int, checks: Checks, r: Request)
    requires Invariant(t) && (r.RegisterServer? || r.IssueBootstrapToken? || r.ValidateBootstrapToken?)
    ensures Later(t, Apply(t, now, checks, r).0)
  {
    match r
    case RegisterServer(s, name, address, profile) => RegisterAdvances(t, s, name, address, profile);
    case IssueBootstrapToken(s, token) => IssueTokenAdvances(t, now, s, token);
    case ValidateBootstrapToken(s, token) => LaterIsReflexive(t);
  }

  lemma ContactRequestAdvances(t: Tables, now: int, checks: Checks, r: Request)
    requires Invariant(t) && (r.ConsumeBootstrapToken? || r.RecordStagedObservations?)
    ensures Later(t, Apply(t, now, checks, r).0)
  {
    match r
    case ConsumeBootstrapToken(s, token, contact) => BootstrapAdvances(t, now, s, token, contact);
    case RecordStagedObservations(s, observations) => RecordObservationsAdvances(t, s, observations);
  }

  lemma DecisionRequestAdvances(t: Tables, now: int, checks: Checks, r: Request)
    requires Invariant(t) && (r.ApproveEnrollment? || r.RejectEnrollment?)
    ensures Later(t, Apply(t, now, checks, r).0)
  {
    match r
    case ApproveEnrollment(s, code) => ApproveAdvances(t, now, checks, s, code);
    case RejectEnrollment(s, code) => RejectAdvances(t, now, s, code);
  }

  lemma ReplacementRequestAdvances(t: Tables, now: int, checks: Checks, r: Request)
    requires Invariant(t) && (r.RenewCertificate? || r.RotateCertificate?)
    ensures Later(t, Apply(t, now, checks, r).0)
  {
    match r
    case RenewCertificate(s, current, fingerprint, expiresAt) =>
      RenewAdvances(t, now, s, current, fingerprint, expiresAt);
    case RotateCertificate(s, fingerprint, expiresAt) => RotateAdvances(t, now, s, fingerprint, expiresAt);
  }

  lemma EndingRequestAdvances(t: Tables, now: int, checks: Checks, r: Request)
    requires Invariant(t) && EndsCertificates(r)
    ensures Later(t, Apply(t, now, checks, r).0)
  {
    match r
    case RevokeCertificate(s) => RevokeAdvances(t, now, s);
    case ExpireCertificates => ExpireAdvances(t, now);
    case RecoverIntermediate => RecoverAdvances(t, now);
    case RetireServer(s) => RetireAdvances(t, now, s);
  }

  lemma AddressRequestAdvances(t: Tables, now: int, checks: Checks, r: Request)
    requires Invariant(t) && (r.StageScrapeAddress? || r.ActivateScrapeAddress?)
    ensures Later(t, Apply(t, now, checks, r).0)
  {
    match r
    case StageScrapeAddress(s, address, fingerprint) => StageAddressAdvances(t, now, s, address, fingerprint);
    case ActivateScrapeAddress(s, fingerprint) => ActivateAddressAdvances(t, now, s, fingerprint);
  }

  lemma DraftRequestAdvances(t: Tables, now: int, checks: Checks, r: Request)
    requires Invariant(t) && (r.Clone? || r.CreateDraft?)
    ensures Later(t, Apply(t, now, checks, r).0)
  {
    match r
    case Clone(profile, name, source, revision) => CloneProfileAdvances(t, checks, profile, name, source, revision);
    case CreateDraft(profile, name, definition) => DraftProfileAdvances(t, profile, name, definition);
  }

  lemma PublicationRequestAdvances(t: Tables, now: int, checks: Checks, r: Request)
    requires Invariant(t) && (r.Publish? || r.Withdraw?)
    ensures Later(t, Apply(t, now, checks, r).0)
  {
    match r
    case Publish(profile, revision) => PublishProfileAdvances(t, now, checks, profile, revision);
    case Withdraw(profile, revision) => RetireProfileAdvances(t, profile, revision);
  }

  lemma ConfigurationRequestAdvances(t: Tables, now: int, checks: Checks, r: Request)
    requires Invariant(t) && (r.StageConfiguration? || r.ActivateConfiguration?)
    ensures Later(t, Apply(t, now, checks, r).0)
  {
    match r
    case StageConfiguration(s, profile, revision, rollback) =>
      StageProfileAdvances(t, now, checks, s, profile, revision, rollback);
    case ActivateConfiguration(s, digest, observations, inventory) =>
      ActivateProfileAdvances(t, now, checks, s, digest, observations, inventory);
  }

  lemma InventoryRequestAdvances(t: Tables, now: int, checks: Checks, r: Request)
    requires Invariant(t) && (r.ObserveInventory? || r.AcceptInventoryChange?)
    ensures Later(t, Apply(t, now, checks, r).0)
  {
    match r
    case ObserveInventory(s, inventory) => RecordInventoryAdvances(t, checks, s, inventory);
    case AcceptInventoryChange(s) => AcceptInventoryAdvances(t, s);
  }
}
