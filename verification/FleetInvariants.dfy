/** What every reachable state of the fleet tables satisfies. */
module FleetInvariants {
  import opened Basics
  import opened FleetTables

  /** Certificates: the live ones are exactly those of the history rows that neither ended nor were
      revoked; nothing is revoked that was never issued. */
  ghost predicate Trust(certificates: map<string, Certificate>, history: map<string, Issued>,
                        revoked: map<string, Revocation>) {
    && (forall s :: s in certificates ==> Trusted(s, certificates[s].fingerprint, history, revoked))
    && (forall f :: f in history && Trusted(history[f].server, f, history, revoked) ==>
          Holds(certificates, history[f].server, f))
    && revoked.Keys <= history.Keys
  }

  predicate Holds(certificates: map<string, Certificate>, s: string, f: string) {
    s in certificates && certificates[s].fingerprint == f
  }

  predicate Trusted(s: string, f: string, history: map<string, Issued>, revoked: map<string, Revocation>) {
    f in history && history[f].server == s && history[f].ended.None? && f !in revoked
  }

  /** A certificate is live exactly while its history row is unended and it is not revoked. */
  lemma LiveIsUnended(t: Tables, s: string, f: string)
    requires Trust(t.certificates.rows, t.history.rows, t.revoked.rows)
    ensures Holds(t.certificates.rows, s, f) <==>
            f in t.history.rows && t.history.rows[f].server == s && t.history.rows[f].ended.None?
              && f !in t.revoked.rows
  {
    if Holds(t.certificates.rows, s, f) {
      assert Trusted(s, f, t.history.rows, t.revoked.rows);
    }
    if Trusted(s, f, t.history.rows, t.revoked.rows) {
      assert Holds(t.certificates.rows, s, f);
    }
  }

  /** Two servers never share a live fingerprint. */
  lemma LiveFingerprintsAreUnique(t: Tables, a: string, b: string)
    requires Trust(t.certificates.rows, t.history.rows, t.revoked.rows) && a in t.certificates.rows
    requires b in t.certificates.rows
    requires t.certificates.rows[a].fingerprint == t.certificates.rows[b].fingerprint
    ensures a == b
  {
    assert Trusted(a, t.certificates.rows[a].fingerprint, t.history.rows, t.revoked.rows);
    assert Trusted(b, t.certificates.rows[b].fingerprint, t.history.rows, t.revoked.rows);
  }

  /** Which tables have a row for a server. */
  datatype Rows = Rows(
    state: Option<Enrollment>, certificate: bool, staging: bool, active: bool, contact: bool, change: bool,
    verified: bool, staged: bool)

  function RowsOf(t: Tables, s: string): Rows {
    Rows(if s in t.servers.rows then Some(t.servers.rows[s].state) else None,
         s in t.certificates.rows, s in t.stagingTargets.rows, s in t.activeTargets.rows, s in t.contacts.rows,
         s in t.addressChanges.rows, s in t.verified.rows, s in t.staged.rows)
  }

  /** A certificate only in contact; everything an active server needs; the contact under review;
      nothing left of a retired server, and nothing at all of an unregistered one. */
  predicate RowsFit(r: Rows) {
    && (r.certificate ==> r.state == Some(PendingVerification) || r.state == Some(Active))
    && (r.state == Some(Active) ==> r.certificate && r.active && r.verified)
    && (r.state == Some(PendingVerification) ==> r.contact)
    && (r.contact ==> r.state == Some(PendingVerification) || r.state == Some(ReEnrollmentRequired))
    && (r.state == Some(Retired) || r.state == None ==>
          !r.certificate && !r.staging && !r.active && !r.contact && !r.change)
    && (r.state == None ==> !r.verified && !r.staged)
  }

  /** Enrollment: what a server in each state has or lacks. */
  ghost predicate Enrollments(t: Tables) {
    forall s :: RowsFit(RowsOf(t, s))
  }

  predicate InUse(profiles: map<(string, nat), Profile>, profile: string, revision: nat) {
    (profile, revision) in profiles && profiles[(profile, revision)].state != Draft
  }

  /** Profiles: revisions are numbered without gaps from 1, names belong to one profile, seeds stay,
      and whatever was published has accepted overrides. */
  ghost predicate ProfilesOk(profiles: map<(string, nat), Profile>) {
    && (forall p, r, q :: (p, r) in profiles && 1 <= q <= r ==> (p, q) in profiles)
    && (forall p, r :: (p, r) in profiles ==> r >= 1)
    && (forall a, b :: a in profiles && b in profiles && profiles[a].name == profiles[b].name ==> a.0 == b.0)
    && (forall key :: key in profiles && profiles[key].seeded ==> profiles[key].state == Published)
    && (forall key :: key in profiles && profiles[key].state != Draft ==> OverridesAccepted(profiles[key].definition))
  }

  /** Staging: no server runs or awaits a draft, and a staged rollback or publication still concerns
      the profile the server has. */
  ghost predicate StagingOk(servers: map<string, Server>, profiles: map<(string, nat), Profile>,
                            staged: map<string, Staged>) {
    && (forall s :: s in servers ==> InUse(profiles, servers[s].profile, servers[s].revision))
    && (forall s :: s in staged ==> s in servers && StagedFits(profiles, staged[s], servers[s]))
  }

  predicate StagedFits(profiles: map<(string, nat), Profile>, staged: Staged, server: Server) {
    && InUse(profiles, staged.profile, staged.revision)
    && (staged.operation == Rollback ==> staged.profile == server.profile && staged.revision < server.revision)
    && (staged.operation == Publication ==> staged.profile == server.profile && staged.revision != server.revision)
    && staged.operation != Enrolling
  }

  /** The latest activation of a server. */
  function LastActivation(activations: seq<Activation>, s: string): Option<Activation> {
    if activations == [] then None
    else
      var last := activations[|activations| - 1];
      if last.server == s then Some(last) else LastActivation(activations[..|activations| - 1], s)
  }

  /** The activation log: a server is in it exactly when its inventory was ever verified, and its last
      entry there is the profile it has. */
  ghost predicate ActivationsOk(activations: seq<Activation>, verified: map<string, Inventory>,
                                servers: map<string, Server>) {
    forall s :: ActivationFits(LastActivation(activations, s), s in verified, Get(servers, s))
  }

  predicate ActivationFits(last: Option<Activation>, verified: bool, server: Option<Server>) {
    && (last.Some? <==> verified)
    && (last.Some? ==> server.Some? && last.value.profile == server.value.profile
                       && last.value.revision == server.value.revision)
  }

  /** The tokens consumed for a server. */
  function ConsumedTokens(tokens: map<string, Token>, s: string): set<string> {
    set token | token in tokens && tokens[token].server == s && tokens[token].consumedAt.Some?
  }

  /** How often a server was approved. */
  function Approvals(activations: seq<Activation>, s: string): nat {
    if activations == [] then 0
    else
      var last := activations[|activations| - 1];
      Approvals(activations[..|activations| - 1], s) + if last.server == s && last.operation == Enrolling then 1 else 0
  }

  function Pending(servers: map<string, Server>, s: string): nat {
    if s in servers && servers[s].state == PendingVerification then 1 else 0
  }

  /** Tokens: consumed only before expiry, and at least one for every approval made or pending. */
  ghost predicate TokensOk(tokens: map<string, Token>, activations: seq<Activation>, servers: map<string, Server>) {
    && (forall token :: token in tokens && tokens[token].consumedAt.Some? ==>
          tokens[token].consumedAt.value < tokens[token].expiresAt)
    && (forall s :: Approvals(activations, s) + Pending(servers, s) <= |ConsumedTokens(tokens, s)|)
  }

  ghost predicate Invariant(t: Tables) {
    && Trust(t.certificates.rows, t.history.rows, t.revoked.rows)
    && Enrollments(t)
    && ProfilesOk(t.profiles.rows)
    && StagingOk(t.servers.rows, t.profiles.rows, t.staged.rows)
    && ActivationsOk(t.activations, t.verified.rows, t.servers.rows)
    && TokensOk(t.tokens.rows, t.activations, t.servers.rows)
  }

  /** First revisions, published for good, each under a name of its own and with accepted overrides. */
  ghost predicate AreSeeds(seeds: map<(string, nat), Profile>) {
    && (forall key :: key in seeds ==> 
          key.1 == 1 && seeds[key].seeded && seeds[key].state == Published && OverridesAccepted(seeds[key].definition))
    && (forall a, b :: a in seeds && b in seeds && seeds[a].name == seeds[b].name ==> a.0 == b.0)
  }

  lemma SeedsAreSeeds()
    ensures AreSeeds(SEEDS)
  {
  }

  lemma InstalledHolds(seeds: map<(string, nat), Profile>)
    requires AreSeeds(seeds)
    ensures Invariant(Installed(seeds))
  {
    forall s ensures ConsumedTokens(map[], s) == {} {
    }
  }

  // ---- parts of the invariant that a change of servers cannot touch ----

  /** Servers may change state, address and configuration, not profile. */
  ghost predicate SameProfiles(a: map<string, Server>, b: map<string, Server>) {
    && a.Keys == b.Keys
    && forall s :: s in a ==> a[s].profile == b[s].profile && a[s].revision == b[s].revision
  }

  lemma StagingIgnoresStates(a: map<string, Server>, b: map<string, Server>,
                             profiles: map<(string, nat), Profile>, staged: map<string, Staged>)
    requires SameProfiles(a, b) && StagingOk(a, profiles, staged)
    ensures StagingOk(b, profiles, staged)
  {
    forall s | s in staged ensures s in b && StagedFits(profiles, staged[s], b[s]) {
      assert StagedFits(profiles, staged[s], a[s]);
    }
  }

  lemma ActivationsIgnoreStates(a: map<string, Server>, b: map<string, Server>,
                                activations: seq<Activation>, verified: map<string, Inventory>)
    requires SameProfiles(a, b) && ActivationsOk(activations, verified, a)
    ensures ActivationsOk(activations, verified, b)
  {
    forall s ensures ActivationFits(LastActivation(activations, s), s in verified, Get(b, s)) {
      assert ActivationFits(LastActivation(activations, s), s in verified, Get(a, s));
    }
  }

  lemma TokensIgnoreFewerPending(a: map<string, Server>, b: map<string, Server>,
                                 tokens: map<string, Token>, activations: seq<Activation>)
    requires TokensOk(tokens, activations, a) && forall s :: Pending(b, s) <= Pending(a, s)
    ensures TokensOk(tokens, activations, b)
  {
    forall s ensures Approvals(activations, s) + Pending(b, s) <= |ConsumedTokens(tokens, s)| {
      assert Approvals(activations, s) + Pending(a, s) <= |ConsumedTokens(tokens, s)|;
    }
  }

  /** States move, and no server begins to wait for a decision. */
  lemma StatesMove(t: Tables, servers: map<string, Server>)
    requires SameProfiles(t.servers.rows, servers) && forall s :: Pending(servers, s) <= Pending(t.servers.rows, s)
    requires StagingOk(t.servers.rows, t.profiles.rows, t.staged.rows)
    requires ActivationsOk(t.activations, t.verified.rows, t.servers.rows)
    requires TokensOk(t.tokens.rows, t.activations, t.servers.rows)
    ensures StagingOk(servers, t.profiles.rows, t.staged.rows) && ActivationsOk(t.activations, t.verified.rows, servers)
    ensures TokensOk(t.tokens.rows, t.activations, servers)
  {
    StagingIgnoresStates(t.servers.rows, servers, t.profiles.rows, t.staged.rows);
    ActivationsIgnoreStates(t.servers.rows, servers, t.activations, t.verified.rows);
    TokensIgnoreFewerPending(t.servers.rows, servers, t.tokens.rows, t.activations);
  }
}
