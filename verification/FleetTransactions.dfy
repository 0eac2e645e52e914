/** Every transaction keeps the invariant of the fleet tables. */
module FleetTransactions {
  import opened Basics
  import opened FleetTables
  import opened FleetInvariants

  // ---- trust ----

  lemma TrustIssues(certificates: map<string, Certificate>, history: map<string, Issued>,
                    revoked: map<string, Revocation>, s: string, c: Certificate, row: Issued)
    requires Trust(certificates, history, revoked) && c.fingerprint !in history && s !in certificates
    requires row.server == s && row.ended.None?
    ensures Trust(certificates[s := c], history[c.fingerprint := row], revoked)
  {
    var after, history' := certificates[s := c], history[c.fingerprint := row];
    forall x | x in after ensures Trusted(x, after[x].fingerprint, history', revoked) {
      if x != s {
        assert Trusted(x, certificates[x].fingerprint, history, revoked);
      }
    }
    forall f | f in history' && Trusted(history'[f].server, f, history', revoked)
      ensures Holds(after, history'[f].server, f)
    {
      if f != c.fingerprint {
        assert Trusted(history[f].server, f, history, revoked);
        assert Holds(certificates, history[f].server, f);
      }
    }
  }

  /** The history may lose faith in one certificate, which is then gone. */
  lemma TrustDrops(certificates: map<string, Certificate>, history: map<string, Issued>,
                   revoked: map<string, Revocation>, s: string,
                   history': map<string, Issued>, revoked': map<string, Revocation>)
    requires Trust(certificates, history, revoked) && s in certificates
    requires history'.Keys == history.Keys && revoked'.Keys <= revoked.Keys + {certificates[s].fingerprint}
    requires revoked.Keys <= revoked'.Keys
    requires forall f :: f in history && f != certificates[s].fingerprint ==> history'[f] == history[f]
    requires !Trusted(s, certificates[s].fingerprint, history', revoked')
    requires certificates[s].fingerprint in history ==>
      history'[certificates[s].fingerprint].server == history[certificates[s].fingerprint].server
    ensures Trust(certificates - {s}, history', revoked')
  {
    assert Trusted(s, certificates[s].fingerprint, history, revoked);
    forall x | x in certificates - {s} ensures Trusted(x, (certificates - {s})[x].fingerprint, history', revoked') {
      assert Trusted(x, certificates[x].fingerprint, history, revoked);
    }
    forall f | f in history' && Trusted(history'[f].server, f, history', revoked')
      ensures Holds(certificates - {s}, history'[f].server, f)
    {
      assert Trusted(history[f].server, f, history, revoked);
      assert Holds(certificates, history[f].server, f);
    }
  }

  // ---- enrollment ----

  lemma RegisterRows(t: Tables, s: string, displayName: string, address: string, profile: string, x: string)
    requires RowsFit(RowsOf(t, x))
    ensures RowsFit(RowsOf(Register(t, s, displayName, address, profile).0, x))
  {
    var (u, outcome) := Register(t, s, displayName, address, profile);
    if outcome.Done? {
      assert RowsOf(u, x) == if x != s then RowsOf(t, x) else RowsOf(t, x).(state := Some(AwaitingFirstContact));
    }
  }

  lemma RegisterProfiles(t: Tables, s: string, displayName: string, address: string, profile: string)
    requires RowsFit(RowsOf(t, s)) && StagingOk(t.servers.rows, t.profiles.rows, t.staged.rows)
    requires ActivationsOk(t.activations, t.verified.rows, t.servers.rows)
    ensures var u := Register(t, s, displayName, address, profile).0;
            StagingOk(u.servers.rows, u.profiles.rows, u.staged.rows)
              && ActivationsOk(u.activations, u.verified.rows, u.servers.rows)
  {
    var (u, outcome) := Register(t, s, displayName, address, profile);
    if outcome.Done? {
      assert InUse(t.profiles.rows, profile, Greatest(PublishedRevisions(t.profiles.rows, profile)));
      ServerAdded(t, s, u.servers.rows[s]);
    }
  }

  lemma ServerAdded(t: Tables, s: string, server: Server)
    requires s !in t.servers.rows && s !in t.verified.rows && InUse(t.profiles.rows, server.profile, server.revision)
    requires StagingOk(t.servers.rows, t.profiles.rows, t.staged.rows)
    requires ActivationsOk(t.activations, t.verified.rows, t.servers.rows)
    ensures StagingOk(t.servers.rows[s := server], t.profiles.rows, t.staged.rows)
    ensures ActivationsOk(t.activations, t.verified.rows, t.servers.rows[s := server])
  {
    var after := t.servers.rows[s := server];
    forall x | x in t.staged.rows ensures x in after && StagedFits(t.profiles.rows, t.staged.rows[x], after[x]) {
      assert StagedFits(t.profiles.rows, t.staged.rows[x], t.servers.rows[x]);
    }
    forall x ensures ActivationFits(LastActivation(t.activations, x), x in t.verified.rows, Get(after, x)) {
      assert ActivationFits(LastActivation(t.activations, x), x in t.verified.rows, Get(t.servers.rows, x));
    }
  }

  lemma RegisterTokens(t: Tables, s: string, displayName: string, address: string, profile: string)
    requires TokensOk(t.tokens.rows, t.activations, t.servers.rows)
    ensures var u := Register(t, s, displayName, address, profile).0;
            TokensOk(u.tokens.rows, u.activations, u.servers.rows)
  {
    var (u, outcome) := Register(t, s, displayName, address, profile);
    if outcome.Done? {
      TokensIgnoreFewerPending(t.servers.rows, u.servers.rows, t.tokens.rows, t.activations);
    }
  }

  lemma RegisterKeeps(t: Tables, s: string, displayName: string, address: string, profile: string)
    requires Invariant(t)
    ensures Invariant(Register(t, s, displayName, address, profile).0)
  {
    assert RowsFit(RowsOf(t, s));
    RegisterProfiles(t, s, displayName, address, profile);
    RegisterTokens(t, s, displayName, address, profile);
    forall x ensures RowsFit(RowsOf(Register(t, s, displayName, address, profile).0, x)) {
      assert RowsFit(RowsOf(t, x));
      RegisterRows(t, s, displayName, address, profile, x);
    }
  }

  /** Every server keeps its rows. */
  lemma RowsStay(t: Tables, u: Tables)
    requires Enrollments(t) && forall x :: RowsOf(u, x) == RowsOf(t, x)
    ensures Enrollments(u)
  {
    forall x ensures RowsFit(RowsOf(u, x)) {
      assert RowsFit(RowsOf(t, x));
    }
  }

  /** A server changes state; it begins to wait for a decision only when it is bootstrapped. */
  lemma StateSet(t: Tables, s: string, state: Enrollment)
    requires s in t.servers.rows
    requires StagingOk(t.servers.rows, t.profiles.rows, t.staged.rows)
    requires ActivationsOk(t.activations, t.verified.rows, t.servers.rows)
    ensures StagingOk(WithState(t.servers.rows, s, state), t.profiles.rows, t.staged.rows)
    ensures ActivationsOk(t.activations, t.verified.rows, WithState(t.servers.rows, s, state))
  {
    StagingIgnoresStates(t.servers.rows, WithState(t.servers.rows, s, state), t.profiles.rows, t.staged.rows);
    ActivationsIgnoreStates(t.servers.rows, WithState(t.servers.rows, s, state), t.activations, t.verified.rows);
  }

  lemma StateSetTokens(t: Tables, s: string, state: Enrollment)
    requires s in t.servers.rows && state != PendingVerification
    requires TokensOk(t.tokens.rows, t.activations, t.servers.rows)
    ensures TokensOk(t.tokens.rows, t.activations, WithState(t.servers.rows, s, state))
  {
    TokensIgnoreFewerPending(t.servers.rows, WithState(t.servers.rows, s, state), t.tokens.rows, t.activations);
  }

  lemma IssueTokenRows(t: Tables, now: int, s: string, token: string, x: string)
    ensures RowsOf(IssueToken(t, now, s, token).0, x) == RowsOf(t, x)
  {
  }

  lemma IssueTokenKeeps(t: Tables, now: int, s: string, token: string)
    requires Invariant(t)
    ensures Invariant(IssueToken(t, now, s, token).0)
  {
    var (u, outcome) := IssueToken(t, now, s, token);
    if outcome.Done? {
      TokenAdded(t.tokens.rows, t.activations, t.servers.rows, token, u.tokens.rows[token]);
    }
    forall x ensures RowsFit(RowsOf(IssueToken(t, now, s, token).0, x)) {
      assert RowsFit(RowsOf(t, x));
      IssueTokenRows(t, now, s, token, x);
    }
  }

  lemma TokenAdded(tokens: map<string, Token>, activations: seq<Activation>, servers: map<string, Server>,
                   token: string, row: Token)
    requires TokensOk(tokens, activations, servers) && token !in tokens && row.consumedAt.None?
    ensures TokensOk(tokens[token := row], activations, servers)
  {
    forall x ensures Approvals(activations, x) + Pending(servers, x) <= |ConsumedTokens(tokens[token := row], x)| {
      assert ConsumedTokens(tokens[token := row], x) == ConsumedTokens(tokens, x);
      assert Approvals(activations, x) + Pending(servers, x) <= |ConsumedTokens(tokens, x)|;
    }
  }

  lemma TokenConsumed(tokens: map<string, Token>, activations: seq<Activation>, a: map<string, Server>,
                      b: map<string, Server>, token: string, now: int)
    requires TokensOk(tokens, activations, a) && token in tokens
    requires tokens[token].consumedAt.None? && now < tokens[token].expiresAt
    requires forall s :: Pending(b, s) <= Pending(a, s) + if s == tokens[token].server then 1 else 0
    ensures TokensOk(tokens[token := tokens[token].(consumedAt := Some(now))], activations, b)
  {
    var after := tokens[token := tokens[token].(consumedAt := Some(now))];
    forall x ensures Approvals(activations, x) + Pending(b, x) <= |ConsumedTokens(after, x)| {
      assert Approvals(activations, x) + Pending(a, x) <= |ConsumedTokens(tokens, x)|;
      if x == tokens[token].server {
        assert ConsumedTokens(after, x) == ConsumedTokens(tokens, x) + {token};
      } else {
        assert ConsumedTokens(after, x) == ConsumedTokens(tokens, x);
      }
    }
  }

  lemma BootstrapTrust(t: Tables, now: int, s: string, token: string, c: Contact)
    requires Trust(t.certificates.rows, t.history.rows, t.revoked.rows)
    ensures var u := Bootstrap(t, now, s, token, c).0; Trust(u.certificates.rows, u.history.rows, u.revoked.rows)
  {
    if Bootstrap(t, now, s, token, c).1.Done? {
      TrustIssues(t.certificates.rows, t.history.rows, t.revoked.rows, s, Certificate(c.fingerprint, c.expiresAt),
                  Issued(s, now, c.expiresAt, None));
    }
  }

  lemma BootstrapRows(t: Tables, now: int, s: string, token: string, c: Contact, x: string)
    requires RowsFit(RowsOf(t, x))
    ensures RowsFit(RowsOf(Bootstrap(t, now, s, token, c).0, x))
  {
    var (u, outcome) := Bootstrap(t, now, s, token, c);
    if outcome.Done? {
      assert RowsOf(u, x) == if x != s then RowsOf(t, x) else
        RowsOf(t, x).(state := Some(PendingVerification), certificate := true, staging := true, contact := true);
    }
  }

  lemma BootstrapTokens(t: Tables, now: int, s: string, token: string, c: Contact)
    requires TokensOk(t.tokens.rows, t.activations, t.servers.rows)
    ensures var u := Bootstrap(t, now, s, token, c).0; TokensOk(u.tokens.rows, u.activations, u.servers.rows)
  {
    var (u, outcome) := Bootstrap(t, now, s, token, c);
    if outcome.Done? {
      TokenConsumed(t.tokens.rows, t.activations, t.servers.rows, u.servers.rows, token, now);
    }
  }

  lemma BootstrapKeeps(t: Tables, now: int, s: string, token: string, c: Contact)
    requires Invariant(t)
    ensures Invariant(Bootstrap(t, now, s, token, c).0)
  {
    BootstrapTrust(t, now, s, token, c);
    forall x ensures RowsFit(RowsOf(Bootstrap(t, now, s, token, c).0, x)) {
      assert RowsFit(RowsOf(t, x));
      BootstrapRows(t, now, s, token, c, x);
    }
    if Bootstrap(t, now, s, token, c).1.Done? {
      StateSet(t, s, PendingVerification);
    }
    BootstrapTokens(t, now, s, token, c);
  }

  lemma RecordObservationsKeeps(t: Tables, s: string, observations: set<string>)
    requires Invariant(t)
    ensures Invariant(RecordObservations(t, s, observations).0)
  {
    RowsStay(t, RecordObservations(t, s, observations).0);
  }

  lemma {:induction false} ActivationsGrow(activations: seq<Activation>, a: Activation, s: string)
    ensures LastActivation(activations + [a], s) == if a.server == s then Some(a) else LastActivation(activations, s)
    ensures Approvals(activations + [a], s) ==
            Approvals(activations, s) + if a.server == s && a.operation == Enrolling then 1 else 0
  {
    assert (activations + [a])[..|activations|] == activations;
  }

  /** A server's new profile is logged. */
  lemma ActivationLogged(activations: seq<Activation>, a: Activation, before: map<string, Server>,
                         after: map<string, Server>, verified: map<string, Inventory>,
                         verified': map<string, Inventory>)
    requires ActivationsOk(activations, verified, before)
    requires a.server in after && after[a.server].profile == a.profile && after[a.server].revision == a.revision
    requires forall s :: s != a.server ==> Get(before, s) == Get(after, s)
    requires forall s :: s in verified' <==> s in verified || s == a.server
    ensures ActivationsOk(activations + [a], verified', after)
  {
    forall s
      ensures ActivationFits(LastActivation(activations + [a], s), s in verified', Get(after, s))
    {
      ActivationsGrow(activations, a, s);
      assert ActivationFits(LastActivation(activations, s), s in verified, Get(before, s));
    }
  }

  /** An approval uses up the token its first contact consumed. */
  lemma ApprovalLogged(tokens: map<string, Token>, activations: seq<Activation>, a: Activation,
                       before: map<string, Server>, after: map<string, Server>)
    requires TokensOk(tokens, activations, before)
    requires forall s :: Pending(after, s) + (if s == a.server && a.operation == Enrolling then 1 else 0)
                         <= Pending(before, s)
    ensures TokensOk(tokens, activations + [a], after)
  {
    forall s ensures Approvals(activations + [a], s) + Pending(after, s) <= |ConsumedTokens(tokens, s)| {
      ActivationsGrow(activations, a, s);
      assert Approvals(activations, s) + Pending(before, s) <= |ConsumedTokens(tokens, s)|;
    }
  }

  lemma ApproveRows(t: Tables, now: int, checks: Checks, s: string, code: string, x: string)
    requires RowsFit(RowsOf(t, x))
    ensures RowsFit(RowsOf(Approve(t, now, checks, s, code).0, x))
  {
    var (u, outcome) := Approve(t, now, checks, s, code);
    if outcome.Done? {
      assert RowsOf(u, x) == if x != s then RowsOf(t, x) else
        RowsOf(t, x).(state := Some(Active), staging := false, active := true, contact := false, verified := true);
    }
  }

  lemma ApproveProfiles(t: Tables, now: int, checks: Checks, s: string, code: string)
    requires StagingOk(t.servers.rows, t.profiles.rows, t.staged.rows)
    ensures var u := Approve(t, now, checks, s, code).0; StagingOk(u.servers.rows, u.profiles.rows, u.staged.rows)
  {
    if Approve(t, now, checks, s, code).1.Done? {
      var after := Approve(t, now, checks, s, code).0.servers.rows;
      assert after == t.servers.rows[s := after[s]];
      StagingIgnoresStates(t.servers.rows, after, t.profiles.rows, t.staged.rows);
    }
  }

  lemma ApproveActivations(t: Tables, now: int, checks: Checks, s: string, code: string)
    requires ActivationsOk(t.activations, t.verified.rows, t.servers.rows)
    ensures var u := Approve(t, now, checks, s, code).0;
            ActivationsOk(u.activations, u.verified.rows, u.servers.rows)
  {
    var (u, outcome) := Approve(t, now, checks, s, code);
    if outcome.Done? {
      var a := Activation(s, t.servers.rows[s].profile, t.servers.rows[s].revision, now, Enrolling);
      ActivationLogged(t.activations, a, t.servers.rows, u.servers.rows, t.verified.rows, u.verified.rows);
    }
  }

  lemma ApproveTokens(t: Tables, now: int, checks: Checks, s: string, code: string)
    requires TokensOk(t.tokens.rows, t.activations, t.servers.rows)
    ensures var u := Approve(t, now, checks, s, code).0; TokensOk(u.tokens.rows, u.activations, u.servers.rows)
  {
    var (u, outcome) := Approve(t, now, checks, s, code);
    if outcome.Done? {
      var a := Activation(s, t.servers.rows[s].profile, t.servers.rows[s].revision, now, Enrolling);
      ApprovalLogged(t.tokens.rows, t.activations, a, t.servers.rows, u.servers.rows);
    }
  }

  lemma ApproveKeeps(t: Tables, now: int, checks: Checks, s: string, code: string)
    requires Invariant(t)
    ensures Invariant(Approve(t, now, checks, s, code).0)
  {
    ApproveProfiles(t, now, checks, s, code);
    ApproveActivations(t, now, checks, s, code);
    ApproveTokens(t, now, checks, s, code);
    forall x ensures RowsFit(RowsOf(Approve(t, now, checks, s, code).0, x)) {
      assert RowsFit(RowsOf(t, x));
      ApproveRows(t, now, checks, s, code, x);
    }
  }

  lemma RejectRows(t: Tables, now: int, s: string, code: string, x: string)
    requires RowsFit(RowsOf(t, x))
    ensures RowsFit(RowsOf(Reject(t, now, s, code).0, x))
  {
    var (u, outcome) := Reject(t, now, s, code);
    if outcome.Done? {
      assert RowsOf(u, x) == if x != s then RowsOf(t, x) else
        RowsOf(t, x).(state := Some(AwaitingFirstContact), certificate := false, staging := false, contact := false);
    }
  }

  lemma RejectTrust(t: Tables, now: int, s: string, code: string)
    requires Trust(t.certificates.rows, t.history.rows, t.revoked.rows)
    ensures var u := Reject(t, now, s, code).0; Trust(u.certificates.rows, u.history.rows, u.revoked.rows)
  {
    var (u, outcome) := Reject(t, now, s, code);
    if outcome.Done? {
      TrustDrops(t.certificates.rows, t.history.rows, t.revoked.rows, s, u.history.rows, u.revoked.rows);
    }
  }

  lemma RejectKeeps(t: Tables, now: int, s: string, code: string)
    requires Invariant(t)
    ensures Invariant(Reject(t, now, s, code).0)
  {
    RejectTrust(t, now, s, code);
    if Reject(t, now, s, code).1.Done? {
      StateSet(t, s, AwaitingFirstContact);
      StateSetTokens(t, s, AwaitingFirstContact);
    }
    forall x ensures RowsFit(RowsOf(Reject(t, now, s, code).0, x)) {
      assert RowsFit(RowsOf(t, x));
      RejectRows(t, now, s, code, x);
    }
  }

  // ---- certificates ----

  lemma RevokeRows(t: Tables, now: int, s: string, x: string)
    requires RowsFit(RowsOf(t, x))
    ensures RowsFit(RowsOf(Revoke(t, now, s).0, x))
  {
    var (u, outcome) := Revoke(t, now, s);
    if outcome.Done? {
      assert RowsOf(u, x) == if x != s then RowsOf(t, x) else
        RowsOf(t, x).(state := Some(ReEnrollmentRequired), certificate := false, active := false);
    }
  }

  lemma RevokeTrust(t: Tables, now: int, s: string)
    requires Trust(t.certificates.rows, t.history.rows, t.revoked.rows)
    ensures var u := Revoke(t, now, s).0; Trust(u.certificates.rows, u.history.rows, u.revoked.rows)
  {
    var (u, outcome) := Revoke(t, now, s);
    if outcome.Done? {
      assert Trusted(s, t.certificates.rows[s].fingerprint, t.history.rows, t.revoked.rows);
      TrustDrops(t.certificates.rows, t.history.rows, t.revoked.rows, s, u.history.rows, u.revoked.rows);
    }
  }

  lemma RevokeKeeps(t: Tables, now: int, s: string)
    requires Invariant(t)
    ensures Invariant(Revoke(t, now, s).0)
  {
    RevokeTrust(t, now, s);
    if Revoke(t, now, s).1.Done? {
      StateSet(t, s, ReEnrollmentRequired);
      StateSetTokens(t, s, ReEnrollmentRequired);
    }
    forall x ensures RowsFit(RowsOf(Revoke(t, now, s).0, x)) {
      assert RowsFit(RowsOf(t, x));
      RevokeRows(t, now, s, x);
    }
  }

  lemma ReplaceTrust(t: Tables, now: int, s: string, fingerprint: string, expiresAt: int, endedAt: int,
                     reason: EndReason)
    requires Trust(t.certificates.rows, t.history.rows, t.revoked.rows) && s in t.certificates.rows
    ensures var u := Replace(t, now, s, fingerprint, expiresAt, endedAt, reason).0;
            Trust(u.certificates.rows, u.history.rows, u.revoked.rows)
  {
    var (u, outcome) := Replace(t, now, s, fingerprint, expiresAt, endedAt, reason);
    if outcome.Done? {
      var current := t.certificates.rows[s].fingerprint;
      var ended := Ended(t.history.rows, current, endedAt, reason);
      assert Trusted(s, current, t.history.rows, t.revoked.rows);
      TrustDrops(t.certificates.rows, t.history.rows, t.revoked.rows, s, ended, t.revoked.rows);
      TrustIssues(t.certificates.rows - {s}, ended, t.revoked.rows, s, u.certificates.rows[s],
                  u.history.rows[fingerprint]);
      assert (t.certificates.rows - {s})[s := u.certificates.rows[s]] == u.certificates.rows;
    }
  }

  lemma ReplaceRows(t: Tables, now: int, s: string, fingerprint: string, expiresAt: int, endedAt: int,
                    reason: EndReason,
                    x: string)
    requires s in t.certificates.rows
    ensures RowsOf(Replace(t, now, s, fingerprint, expiresAt, endedAt, reason).0, x) == RowsOf(t, x)
  {
  }

  lemma ReplaceKeeps(t: Tables, now: int, s: string, fingerprint: string, expiresAt: int, endedAt: int,
                     reason: EndReason)
    requires Invariant(t) && s in t.certificates.rows
    ensures Invariant(Replace(t, now, s, fingerprint, expiresAt, endedAt, reason).0)
  {
    ReplaceTrust(t, now, s, fingerprint, expiresAt, endedAt, reason);
    forall x ensures RowsFit(RowsOf(Replace(t, now, s, fingerprint, expiresAt, endedAt, reason).0, x)) {
      assert RowsFit(RowsOf(t, x));
      ReplaceRows(t, now, s, fingerprint, expiresAt, endedAt, reason, x);
    }
  }

  lemma RenewKeeps(t: Tables, now: int, s: string, current: string, fingerprint: string, expiresAt: int)
    requires Invariant(t)
    ensures Invariant(Renew(t, now, s, current, fingerprint, expiresAt).0)
  {
    if s in t.certificates.rows {
      ReplaceKeeps(t, now, s, fingerprint, expiresAt, now, Renewed);
    }
  }

  lemma RotateKeeps(t: Tables, now: int, s: string, fingerprint: string, expiresAt: int)
    requires Invariant(t)
    ensures Invariant(Rotate(t, now, s, fingerprint, expiresAt).0)
  {
    if s in t.certificates.rows {
      ReplaceKeeps(t, now, s, fingerprint, expiresAt, now + DAY, RotationOverlap);
    }
  }

  lemma ExpireKeeps(t: Tables, now: int)
    requires Invariant(t)
    ensures Invariant(Expire(t, now).0)
  {
    ExpireTrust(t, now);
    ExpireEnrollments(t, now);
    ExpireStates(t, now);
  }

  lemma ExpireStates(t: Tables, now: int)
    requires StagingOk(t.servers.rows, t.profiles.rows, t.staged.rows)
    requires ActivationsOk(t.activations, t.verified.rows, t.servers.rows)
    requires TokensOk(t.tokens.rows, t.activations, t.servers.rows)
    ensures var servers := Expire(t, now).0.servers.rows;
            && StagingOk(servers, t.profiles.rows, t.staged.rows)
              && ActivationsOk(t.activations, t.verified.rows, servers)
            && TokensOk(t.tokens.rows, t.activations, servers)
  {
    StatesMove(t, Expire(t, now).0.servers.rows);
  }

  lemma ExpireTrust(t: Tables, now: int)
    requires Trust(t.certificates.rows, t.history.rows, t.revoked.rows)
    ensures var u := Expire(t, now).0; Trust(u.certificates.rows, u.history.rows, u.revoked.rows)
  {
    var u := Expire(t, now).0;
    var expired := ExpiredAt(t, now);
    forall s | s in u.certificates.rows
      ensures Trusted(s, u.certificates.rows[s].fingerprint, u.history.rows, u.revoked.rows)
    {
      var f := t.certificates.rows[s].fingerprint;
      assert Trusted(s, f, t.history.rows, t.revoked.rows);
      assert forall x :: x in expired && t.certificates.rows[x].fingerprint == f ==>
        Trusted(x, f, t.history.rows, t.revoked.rows);
    }
  }

  lemma ExpireEnrollments(t: Tables, now: int)
    requires Enrollments(t)
    ensures Enrollments(Expire(t, now).0)
  {
    var u := Expire(t, now).0;
    forall s ensures RowsFit(RowsOf(u, s)) {
      assert RowsFit(RowsOf(t, s));
    }
  }

  lemma StageAddressRows(t: Tables, now: int, s: string, address: string, fingerprint: string, x: string)
    requires RowsFit(RowsOf(t, x))
    ensures RowsFit(RowsOf(StageAddress(t, now, s, address, fingerprint).0, x))
  {
    var (u, outcome) := StageAddress(t, now, s, address, fingerprint);
    if outcome.Done? {
      assert RowsOf(u, x) == if x != s then RowsOf(t, x) else RowsOf(t, x).(change := true, staging := true);
    }
  }

  lemma StageAddressKeeps(t: Tables, now: int, s: string, address: string, fingerprint: string)
    requires Invariant(t)
    ensures Invariant(StageAddress(t, now, s, address, fingerprint).0)
  {
    forall x ensures RowsFit(RowsOf(StageAddress(t, now, s, address, fingerprint).0, x)) {
      assert RowsFit(RowsOf(t, x));
      StageAddressRows(t, now, s, address, fingerprint, x);
    }
  }

  lemma ActivateAddressRows(t: Tables, now: int, s: string, fingerprint: string, x: string)
    requires RowsFit(RowsOf(t, x))
    ensures RowsFit(RowsOf(ActivateAddress(t, now, s, fingerprint).0, x))
  {
    var (u, outcome) := ActivateAddress(t, now, s, fingerprint);
    if outcome.Done? {
      assert RowsOf(u, x) == if x != s then RowsOf(t, x) else RowsOf(t, x).(change := false, staging := false);
    }
  }

  lemma ActivateAddressStates(t: Tables, now: int, s: string, fingerprint: string)
    requires StagingOk(t.servers.rows, t.profiles.rows, t.staged.rows)
    requires ActivationsOk(t.activations, t.verified.rows, t.servers.rows)
    requires TokensOk(t.tokens.rows, t.activations, t.servers.rows)
    ensures var servers := ActivateAddress(t, now, s, fingerprint).0.servers.rows;
            && StagingOk(servers, t.profiles.rows, t.staged.rows)
              && ActivationsOk(t.activations, t.verified.rows, servers)
            && TokensOk(t.tokens.rows, t.activations, servers)
  {
    var (u, outcome) := ActivateAddress(t, now, s, fingerprint);
    if outcome.Done? && s in t.servers.rows {
      assert SameProfiles(t.servers.rows, u.servers.rows);
      StatesMove(t, u.servers.rows);
    }
  }

  lemma ActivateAddressKeeps(t: Tables, now: int, s: string, fingerprint: string)
    requires Invariant(t)
    ensures Invariant(ActivateAddress(t, now, s, fingerprint).0)
  {
    ActivateAddressStates(t, now, s, fingerprint);
    forall x ensures RowsFit(RowsOf(ActivateAddress(t, now, s, fingerprint).0, x)) {
      assert RowsFit(RowsOf(t, x));
      ActivateAddressRows(t, now, s, fingerprint, x);
    }
  }

  lemma RecoverTrust(t: Tables, now: int)
    requires Trust(t.certificates.rows, t.history.rows, t.revoked.rows)
    ensures var u := Recover(t, now).0; Trust(u.certificates.rows, u.history.rows, u.revoked.rows)
  {
    var u := Recover(t, now).0;
    forall f | f in u.revoked.rows ensures f in u.history.rows {
      if f !in t.revoked.rows {
        var s :| s in t.certificates.rows && t.certificates.rows[s].fingerprint == f;
        assert Trusted(s, f, t.history.rows, t.revoked.rows);
      }
    }
  }

  lemma RecoverRows(t: Tables, now: int, x: string)
    requires RowsFit(RowsOf(t, x))
    ensures RowsFit(RowsOf(Recover(t, now).0, x))
  {
  }

  lemma RecoverStates(t: Tables, now: int)
    requires StagingOk(t.servers.rows, t.profiles.rows, t.staged.rows)
    requires ActivationsOk(t.activations, t.verified.rows, t.servers.rows)
    requires TokensOk(t.tokens.rows, t.activations, t.servers.rows)
    ensures var servers := Recover(t, now).0.servers.rows;
            && StagingOk(servers, t.profiles.rows, t.staged.rows)
              && ActivationsOk(t.activations, t.verified.rows, servers)
            && TokensOk(t.tokens.rows, t.activations, servers)
  {
    StatesMove(t, Recover(t, now).0.servers.rows);
  }

  lemma RecoverKeeps(t: Tables, now: int)
    requires Invariant(t)
    ensures Invariant(Recover(t, now).0)
  {
    RecoverTrust(t, now);
    RecoverStates(t, now);
    forall x ensures RowsFit(RowsOf(Recover(t, now).0, x)) {
      assert RowsFit(RowsOf(t, x));
      RecoverRows(t, now, x);
    }
  }

  lemma RetireTrust(t: Tables, now: int, s: string)
    requires Trust(t.certificates.rows, t.history.rows, t.revoked.rows)
    ensures var u := Retire(t, now, s).0; Trust(u.certificates.rows, u.history.rows, u.revoked.rows)
  {
    var (u, outcome) := Retire(t, now, s);
    if outcome.Done? {
      if s in t.certificates.rows {
        assert Trusted(s, t.certificates.rows[s].fingerprint, t.history.rows, t.revoked.rows);
        TrustDrops(t.certificates.rows, t.history.rows, t.revoked.rows, s, u.history.rows, u.revoked.rows);
      } else {
        assert t.certificates.rows - {s} == t.certificates.rows;
      }
    }
  }

  lemma RetireRows(t: Tables, now: int, s: string, x: string)
    requires RowsFit(RowsOf(t, x))
    ensures RowsFit(RowsOf(Retire(t, now, s).0, x))
  {
    var (u, outcome) := Retire(t, now, s);
    if outcome.Done? {
      assert RowsOf(u, x) == if x != s then RowsOf(t, x) else
        RowsOf(t, x).(state := Some(Retired), certificate := false, staging := false, active := false,
                      contact := false, change := false);
    }
  }

  lemma RetireKeeps(t: Tables, now: int, s: string)
    requires Invariant(t)
    ensures Invariant(Retire(t, now, s).0)
  {
    RetireTrust(t, now, s);
    if Retire(t, now, s).1.Done? {
      StateSet(t, s, Retired);
      StateSetTokens(t, s, Retired);
    }
    forall x ensures RowsFit(RowsOf(Retire(t, now, s).0, x)) {
      assert RowsFit(RowsOf(t, x));
      RetireRows(t, now, s, x);
    }
  }

  // ---- profiles ----

  /** A profile table in which everything in use stays in use. */
  lemma StagingAfterProfiles(servers: map<string, Server>, staged: map<string, Staged>,
                             before: map<(string, nat), Profile>, after: map<(string, nat), Profile>)
    requires StagingOk(servers, before, staged)
    requires forall key :: key in before && before[key].state != Draft ==> key in after && after[key].state != Draft
    ensures StagingOk(servers, after, staged)
  {
    forall s | s in servers ensures InUse(after, servers[s].profile, servers[s].revision) {
      assert InUse(before, servers[s].profile, servers[s].revision);
    }
    forall s | s in staged ensures s in servers && StagedFits(after, staged[s], servers[s]) {
      assert StagedFits(before, staged[s], servers[s]);
    }
  }

  lemma CloneProfileKeeps(t: Tables, checks: Checks, profile: string, name: string, source: string, revision: nat)
    requires Invariant(t)
    ensures Invariant(CloneProfile(t, checks, profile, name, source, revision).0)
  {
    var (u, outcome) := CloneProfile(t, checks, profile, name, source, revision);
    if outcome.Done? {
      assert forall key :: key in t.profiles.rows && key.0 == profile ==> key.1 in Revisions(t.profiles.rows, profile);
      RowAdded(t.profiles.rows, profile, 1, u.profiles.rows[(profile, 1)]);
      StagingAfterProfiles(t.servers.rows, t.staged.rows, t.profiles.rows, u.profiles.rows);
      RowsStay(t, u);
    }
  }

  /** A draft under the next free revision number. */
  lemma RowAdded(profiles: map<(string, nat), Profile>, profile: string, revision: nat, row: Profile)
    requires ProfilesOk(profiles) && (profile, revision) !in profiles && !row.seeded
    requires revision >= 1 && (revision > 1 ==> (profile, revision - 1) in profiles)
    requires !ProfileNameTaken(profiles, profile, row.name) && row.state == Draft
    ensures ProfilesOk(profiles[(profile, revision) := row])
  {
  }

  lemma DraftProfileKeeps(t: Tables, profile: string, name: string, definition: Definition)
    requires Invariant(t)
    ensures Invariant(DraftProfile(t, profile, name, definition).0)
  {
    var (u, outcome) := DraftProfile(t, profile, name, definition);
    if outcome.Done? {
      var latest := Greatest(Revisions(t.profiles.rows, profile));
      assert (profile, latest) in t.profiles.rows;
      assert latest + 1 !in Revisions(t.profiles.rows, profile);
      RowAdded(t.profiles.rows, profile, latest + 1, u.profiles.rows[(profile, latest + 1)]);
      StagingAfterProfiles(t.servers.rows, t.staged.rows, t.profiles.rows, u.profiles.rows);
      RowsStay(t, u);
    }
  }

  lemma PublishRows(t: Tables, now: int, checks: Checks, profile: string, revision: nat, x: string)
    requires RowsFit(RowsOf(t, x))
    ensures RowsFit(RowsOf(PublishProfile(t, now, checks, profile, revision).0, x))
  {
    var u := PublishProfile(t, now, checks, profile, revision).0;
    assert RowsOf(u, x) == RowsOf(t, x).(staged := x in u.staged.rows);
  }

  lemma PublishStaging(t: Tables, now: int, checks: Checks, profile: string, revision: nat)
    requires StagingOk(t.servers.rows, t.profiles.rows, t.staged.rows)
    ensures var u := PublishProfile(t, now, checks, profile, revision).0;
            StagingOk(u.servers.rows, u.profiles.rows, u.staged.rows)
  {
    var (u, outcome) := PublishProfile(t, now, checks, profile, revision);
    if outcome.Done? {
      StagingAfterProfiles(t.servers.rows, t.staged.rows, t.profiles.rows, u.profiles.rows);
      assert InUse(u.profiles.rows, profile, revision);
      forall s | s in u.staged.rows
        ensures s in u.servers.rows && StagedFits(u.profiles.rows, u.staged.rows[s], u.servers.rows[s])
      {
        assert s in t.staged.rows ==> StagedFits(u.profiles.rows, t.staged.rows[s], t.servers.rows[s]);
      }
    }
  }

  lemma PublishProfileKeeps(t: Tables, now: int, checks: Checks, profile: string, revision: nat)
    requires Invariant(t)
    ensures Invariant(PublishProfile(t, now, checks, profile, revision).0)
  {
    PublishStaging(t, now, checks, profile, revision);
    if PublishProfile(t, now, checks, profile, revision).1.Done? {
      RowChanged(t.profiles.rows, profile, revision, Published);
    }
    forall x ensures RowsFit(RowsOf(PublishProfile(t, now, checks, profile, revision).0, x)) {
      assert RowsFit(RowsOf(t, x));
      PublishRows(t, now, checks, profile, revision, x);
    }
  }

  lemma RowChanged(profiles: map<(string, nat), Profile>, profile: string, revision: nat, state: ProfileState)
    requires ProfilesOk(profiles) && (profile, revision) in profiles && !profiles[(profile, revision)].seeded
    requires OverridesAccepted(profiles[(profile, revision)].definition)
    ensures ProfilesOk(profiles[(profile, revision) := profiles[(profile, revision)].(state := state)])
  {
  }

  lemma RetireProfileKeeps(t: Tables, profile: string, revision: nat)
    requires Invariant(t)
    ensures Invariant(RetireProfile(t, profile, revision).0)
  {
    var (u, outcome) := RetireProfile(t, profile, revision);
    if outcome.Done? {
      RowChanged(t.profiles.rows, profile, revision, Withdrawn);
      StagingAfterProfiles(t.servers.rows, t.staged.rows, t.profiles.rows, u.profiles.rows);
      RowsStay(t, u);
    }
  }

  lemma StageProfileRows(t: Tables, now: int, checks: Checks, s: string, profile: string, revision: nat,
                         rollback: bool, x: string)
    requires RowsFit(RowsOf(t, x))
    ensures RowsFit(RowsOf(StageProfile(t, now, checks, s, profile, revision, rollback).0, x))
  {
    var (u, outcome) := StageProfile(t, now, checks, s, profile, revision, rollback);
    if outcome.Done? {
      assert RowsOf(u, x) == if x != s then RowsOf(t, x) else RowsOf(t, x).(staged := true);
    }
  }

  lemma StageProfileStaging(t: Tables, now: int, checks: Checks, s: string, profile: string, revision: nat,
                            rollback: bool)
    requires StagingOk(t.servers.rows, t.profiles.rows, t.staged.rows)
    ensures var u := StageProfile(t, now, checks, s, profile, revision, rollback).0;
            StagingOk(u.servers.rows, u.profiles.rows, u.staged.rows)
  {
    var (u, outcome) := StageProfile(t, now, checks, s, profile, revision, rollback);
    if outcome.Done? {
      forall x | x in u.staged.rows
        ensures x in u.servers.rows && StagedFits(u.profiles.rows, u.staged.rows[x], u.servers.rows[x])
      {
        if x != s { assert StagedFits(t.profiles.rows, t.staged.rows[x], t.servers.rows[x]); }
      }
    }
  }

  lemma StageProfileKeeps(t: Tables, now: int, checks: Checks, s: string, profile: string, revision: nat,
                          rollback: bool)
    requires Invariant(t)
    ensures Invariant(StageProfile(t, now, checks, s, profile, revision, rollback).0)
  {
    StageProfileStaging(t, now, checks, s, profile, revision, rollback);
    forall x ensures RowsFit(RowsOf(StageProfile(t, now, checks, s, profile, revision, rollback).0, x)) {
      assert RowsFit(RowsOf(t, x));
      StageProfileRows(t, now, checks, s, profile, revision, rollback, x);
    }
  }

  lemma ActivateProfileRows(t: Tables, now: int, checks: Checks, s: string, digest: Digest,
                            observations: set<string>, inventory: Inventory, x: string)
    requires RowsFit(RowsOf(t, x))
    ensures RowsFit(RowsOf(ActivateProfile(t, now, checks, s, digest, observations, inventory).0, x))
  {
    var (u, outcome) := ActivateProfile(t, now, checks, s, digest, observations, inventory);
    if outcome.Done? {
      assert RowsOf(u, x) == if x != s then RowsOf(t, x) else RowsOf(t, x).(staged := false);
    }
  }

  lemma ActivateProfileStaging(t: Tables, now: int, checks: Checks, s: string, digest: Digest,
                               observations: set<string>, inventory: Inventory)
    requires StagingOk(t.servers.rows, t.profiles.rows, t.staged.rows)
    ensures var u := ActivateProfile(t, now, checks, s, digest, observations, inventory).0;
            StagingOk(u.servers.rows, u.profiles.rows, u.staged.rows)
  {
    var (u, outcome) := ActivateProfile(t, now, checks, s, digest, observations, inventory);
    if outcome.Done? {
      assert StagedFits(t.profiles.rows, t.staged.rows[s], t.servers.rows[s]);
      forall x | x in u.staged.rows
        ensures x in u.servers.rows && StagedFits(u.profiles.rows, u.staged.rows[x], u.servers.rows[x])
      {
        assert StagedFits(t.profiles.rows, t.staged.rows[x], t.servers.rows[x]);
      }
    }
  }

  lemma ActivateProfileActivations(t: Tables, now: int, checks: Checks, s: string, digest: Digest,
                                   observations: set<string>, inventory: Inventory)
    requires ActivationsOk(t.activations, t.verified.rows, t.servers.rows)
    ensures var u := ActivateProfile(t, now, checks, s, digest, observations, inventory).0;
            ActivationsOk(u.activations, u.verified.rows, u.servers.rows)
  {
    var (u, outcome) := ActivateProfile(t, now, checks, s, digest, observations, inventory);
    if outcome.Done? {
      var a := Activation(s, t.staged.rows[s].profile, t.staged.rows[s].revision, now, t.staged.rows[s].operation);
      ActivationLogged(t.activations, a, t.servers.rows, u.servers.rows, t.verified.rows, u.verified.rows);
    }
  }

  lemma ActivateProfileTokens(t: Tables, now: int, checks: Checks, s: string, digest: Digest,
                              observations: set<string>, inventory: Inventory)
    requires StagingOk(t.servers.rows, t.profiles.rows, t.staged.rows)
    requires TokensOk(t.tokens.rows, t.activations, t.servers.rows)
    ensures var u := ActivateProfile(t, now, checks, s, digest, observations, inventory).0;
            TokensOk(u.tokens.rows, u.activations, u.servers.rows)
  {
    var (u, outcome) := ActivateProfile(t, now, checks, s, digest, observations, inventory);
    if outcome.Done? {
      var a := Activation(s, t.staged.rows[s].profile, t.staged.rows[s].revision, now, t.staged.rows[s].operation);
      assert StagedFits(t.profiles.rows, t.staged.rows[s], t.servers.rows[s]);
      ApprovalLogged(t.tokens.rows, t.activations, a, t.servers.rows, u.servers.rows);
    }
  }

  lemma ActivateProfileLeaves(t: Tables, now: int, checks: Checks, s: string, digest: Digest,
                              observations: set<string>, inventory: Inventory)
    ensures var u := ActivateProfile(t, now, checks, s, digest, observations, inventory).0;
            && u.certificates == t.certificates && u.history == t.history && u.revoked == t.revoked
            && u.profiles == t.profiles
  {
  }

  lemma ActivateProfileKeeps(t: Tables, now: int, checks: Checks, s: string, digest: Digest,
                             observations: set<string>, inventory: Inventory)
    requires Invariant(t)
    ensures Invariant(ActivateProfile(t, now, checks, s, digest, observations, inventory).0)
  {
    ActivateProfileLeaves(t, now, checks, s, digest, observations, inventory);
    ActivateProfileStaging(t, now, checks, s, digest, observations, inventory);
    ActivateProfileActivations(t, now, checks, s, digest, observations, inventory);
    ActivateProfileTokens(t, now, checks, s, digest, observations, inventory);
    forall x ensures RowsFit(RowsOf(ActivateProfile(t, now, checks, s, digest, observations, inventory).0, x)) {
      assert RowsFit(RowsOf(t, x));
      ActivateProfileRows(t, now, checks, s, digest, observations, inventory, x);
    }
  }

  lemma VerifiedReplaced(t: Tables, s: string, inventory: Inventory)
    requires s in t.verified.rows && ActivationsOk(t.activations, t.verified.rows, t.servers.rows)
    ensures ActivationsOk(t.activations, t.verified.rows[s := inventory], t.servers.rows)
  {
    var after := t.verified.rows[s := inventory];
    forall x ensures ActivationFits(LastActivation(t.activations, x), x in after, Get(t.servers.rows, x)) {
      assert ActivationFits(LastActivation(t.activations, x), x in t.verified.rows, Get(t.servers.rows, x));
    }
  }

  lemma InventoryRows(t: Tables, u: Tables, s: string, inventory: Inventory, x: string)
    requires RowsFit(RowsOf(t, x))
    requires || u == t.(inventoryChanges := Table(t.inventoryChanges.rows[s := inventory]))
             || (s in t.verified.rows && u == t.(verified := Table(t.verified.rows[s := inventory])))
    ensures RowsFit(RowsOf(u, x))
  {
    assert RowsOf(u, x) == RowsOf(t, x);
  }

  lemma InventoryKeeps(t: Tables, u: Tables, s: string, inventory: Inventory)
    requires Invariant(t)
    requires || u == t.(inventoryChanges := Table(t.inventoryChanges.rows[s := inventory]))
             || (s in t.verified.rows && u == t.(verified := Table(t.verified.rows[s := inventory])))
    ensures Invariant(u)
  {
    if s in t.verified.rows {
      VerifiedReplaced(t, s, inventory);
    }
    forall x ensures RowsFit(RowsOf(u, x)) {
      assert RowsFit(RowsOf(t, x));
      InventoryRows(t, u, s, inventory, x);
    }
  }

  lemma RecordInventoryKeeps(t: Tables, checks: Checks, s: string, inventory: Inventory)
    requires Invariant(t)
    ensures Invariant(RecordInventory(t, checks, s, inventory).0)
  {
    var u := RecordInventory(t, checks, s, inventory).0;
    if u != t {
      InventoryKeeps(t, u, s, inventory);
    }
  }

  lemma AcceptInventoryRows(t: Tables, s: string, x: string)
    ensures RowsOf(AcceptInventory(t, s).0, x) == RowsOf(t, x)
  {
  }

  lemma AcceptInventoryKeeps(t: Tables, s: string)
    requires Invariant(t)
    ensures Invariant(AcceptInventory(t, s).0)
  {
    if s in t.verified.rows && s in t.inventoryChanges.rows {
      VerifiedReplaced(t, s, t.inventoryChanges.rows[s]);
    }
    forall x ensures RowsFit(RowsOf(AcceptInventory(t, s).0, x)) {
      assert RowsFit(RowsOf(t, x));
      AcceptInventoryRows(t, s, x);
    }
  }

  /** Every transaction, whether it commits or is refused, keeps the invariant. */
  lemma ApplyKeepsInvariant(t: Tables, now: int, checks: Checks, r: Request)
    requires Invariant(t)
    ensures Invariant(Apply(t, now, checks, r).0)
  {
    if r.RegisterServer? || r.IssueBootstrapToken? || r.ValidateBootstrapToken? {
      RegistrationRequestKeeps(t, now, checks, r);
    } else if r.ConsumeBootstrapToken? || r.RecordStagedObservations? {
      ContactRequestKeeps(t, now, checks, r);
    } else if r.ApproveEnrollment? || r.RejectEnrollment? {
      DecisionRequestKeeps(t, now, checks, r);
    } else if r.RenewCertificate? || r.RotateCertificate? {
      ReplacementRequestKeeps(t, now, checks, r);
    } else if EndsCertificates(r) {
      EndingRequestKeeps(t, now, checks, r);
    } else if r.StageScrapeAddress? || r.ActivateScrapeAddress? {
      AddressRequestKeeps(t, now, checks, r);
    } else if r.Clone? || r.CreateDraft? {
      DraftRequestKeeps(t, now, checks, r);
    } else if r.Publish? || r.Withdraw? {
      PublicationRequestKeeps(t, now, checks, r);
    } else if r.StageConfiguration? || r.ActivateConfiguration? {
      ConfigurationRequestKeeps(t, now, checks, r);
    } else {
      InventoryRequestKeeps(t, now, checks, r);
    }
  }

  lemma RegistrationRequestKeeps(t: Tables, now: int, checks: Checks, r: Request)
    requires Invariant(t) && (r.RegisterServer? || r.IssueBootstrapToken? || r.ValidateBootstrapToken?)
    ensures Invariant(Apply(t, now, checks, r).0)
  {
    match r
    case RegisterServer(s, name, address, profile) => RegisterKeeps(t, s, name, address, profile);
    case IssueBootstrapToken(s, token) => IssueTokenKeeps(t, now, s, token);
    case ValidateBootstrapToken(s, token) =>
  }

  lemma ContactRequestKeeps(t: Tables, now: int, checks: Checks, r: Request)
    requires Invariant(t) && (r.ConsumeBootstrapToken? || r.RecordStagedObservations?)
    ensures Invariant(Apply(t, now, checks, r).0)
  {
    match r
    case ConsumeBootstrapToken(s, token, contact) => BootstrapKeeps(t, now, s, token, contact);
    case RecordStagedObservations(s, observations) => RecordObservationsKeeps(t, s, observations);
  }

  lemma DecisionRequestKeeps(t: Tables, now: int, checks: Checks, r: Request)
    requires Invariant(t) && (r.ApproveEnrollment? || r.RejectEnrollment?)
    ensures Invariant(Apply(t, now, checks, r).0)
  {
    match r
    case ApproveEnrollment(s, code) => ApproveKeeps(t, now, checks, s, code);
    case RejectEnrollment(s, code) => RejectKeeps(t, now, s, code);
  }

  lemma ReplacementRequestKeeps(t: Tables, now: int, checks: Checks, r: Request)
    requires Invariant(t) && (r.RenewCertificate? || r.RotateCertificate?)
    ensures Invariant(Apply(t, now, checks, r).0)
  {
    match r
    case RenewCertificate(s, current, fingerprint, expiresAt) =>
      RenewKeeps(t, now, s, current, fingerprint, expiresAt);
    case RotateCertificate(s, fingerprint, expiresAt) =>
      RotateKeeps(t, now, s, fingerprint, expiresAt);
  }

  lemma EndingRequestKeeps(t: Tables, now: int, checks: Checks, r: Request)
    requires Invariant(t) && EndsCertificates(r)
    ensures Invariant(Apply(t, now, checks, r).0)
  {
    match r
    case RevokeCertificate(s) => RevokeKeeps(t, now, s);
    case ExpireCertificates => ExpireKeeps(t, now);
    case RecoverIntermediate => RecoverKeeps(t, now);
    case RetireServer(s) => RetireKeeps(t, now, s);
  }

  lemma AddressRequestKeeps(t: Tables, now: int, checks: Checks, r: Request)
    requires Invariant(t) && (r.StageScrapeAddress? || r.ActivateScrapeAddress?)
    ensures Invariant(Apply(t, now, checks, r).0)
  {
    match r
    case StageScrapeAddress(s, address, fingerprint) => StageAddressKeeps(t, now, s, address, fingerprint);
    case ActivateScrapeAddress(s, fingerprint) => ActivateAddressKeeps(t, now, s, fingerprint);
  }

  lemma DraftRequestKeeps(t: Tables, now: int, checks: Checks, r: Request)
    requires Invariant(t) && (r.Clone? || r.CreateDraft?)
    ensures Invariant(Apply(t, now, checks, r).0)
  {
    match r
    case Clone(profile, name, source, revision) => CloneProfileKeeps(t, checks, profile, name, source, revision);
    case CreateDraft(profile, name, definition) => DraftProfileKeeps(t, profile, name, definition);
  }

  lemma PublicationRequestKeeps(t: Tables, now: int, checks: Checks, r: Request)
    requires Invariant(t) && (r.Publish? || r.Withdraw?)
    ensures Invariant(Apply(t, now, checks, r).0)
  {
    match r
    case Publish(profile, revision) => PublishProfileKeeps(t, now, checks, profile, revision);
    case Withdraw(profile, revision) => RetireProfileKeeps(t, profile, revision);
  }

  lemma ConfigurationRequestKeeps(t: Tables, now: int, checks: Checks, r: Request)
    requires Invariant(t) && (r.StageConfiguration? || r.ActivateConfiguration?)
    ensures Invariant(Apply(t, now, checks, r).0)
  {
    match r
    case StageConfiguration(s, profile, revision, rollback) =>
      StageProfileKeeps(t, now, checks, s, profile, revision, rollback);
    case ActivateConfiguration(s, digest, observations, inventory) =>
      ActivateProfileKeeps(t, now, checks, s, digest, observations, inventory);
  }

  lemma InventoryRequestKeeps(t: Tables, now: int, checks: Checks, r: Request)
    requires Invariant(t) && (r.ObserveInventory? || r.AcceptInventoryChange?)
    ensures Invariant(Apply(t, now, checks, r).0)
  {
    match r
    case ObserveInventory(s, inventory) => RecordInventoryKeeps(t, checks, s, inventory);
    case AcceptInventoryChange(s) => AcceptInventoryKeeps(t, s);
  }
}
