/** The database: each transaction changes the tables row by row and commits, or rolls back. */
module FleetDatabase {
  import opened Basics
  import Thresholds
  import opened FleetTables
  import opened FleetInvariants
  import opened FleetRuns

  class Database {
    const checks: Checks
    /** What the last commit left. A transaction works on its own copies of the tables it changes and
        commits them together; returning before that leaves everything as it was. */
    var committed: Tables
    /** The requests served so far, with the tables each left. */
    ghost var run: Run

    /** The tables are those of the run of all requests served. */
    ghost predicate Valid()
      reads this
    {
      IsRun(run) && run.checks == checks && committed == run.states[|run.steps|]
    }

    /** A fresh installation with its two seeded profiles. */
    constructor (checks: Checks)
      ensures Valid() && run.steps == [] && run.seeds == SEEDS && this.checks == checks
    {
      this.checks := checks;
      committed := Installed(SEEDS);
      run := Run(checks, SEEDS, [], [Installed(SEEDS)]);
      new;
      SeedsAreSeeds();
    }

    // ---- servers and bootstrap ----

    method RegisterServer(s: string, displayName: string, address: string, profile: string)
      returns (outcome: Outcome)
      modifies this`committed
      ensures (committed, outcome) == Register(old(committed), s, displayName, address, profile)
    {
      var t := committed;
      var servers := t.servers.rows;
      var published := PublishedRevisions(t.profiles.rows, profile);
      if published == {} { return ProfileNotPublished; }
      var revision := GreatestOf(published);
      if s in servers || NameTaken(servers, displayName) { return IntegrityError; }
      servers := servers[s := Server(displayName, address, profile, revision, AwaitingFirstContact, None)];
      committed := t.(servers := Table(servers));
      return Done;
    }

    method IssueBootstrapToken(now: int, s: string, token: string) returns (outcome: Outcome)
      modifies this`committed
      ensures (committed, outcome) == IssueToken(old(committed), now, s, token)
    {
      var t := committed;
      var tokens := t.tokens.rows;
      if s !in t.servers.rows || (t.servers.rows[s].profile, t.servers.rows[s].revision) !in t.profiles.rows
         || (t.servers.rows[s].state != AwaitingFirstContact && t.servers.rows[s].state != ReEnrollmentRequired) {
        return NotAwaitingFirstContact;
      }
      if token in tokens { return IntegrityError; }
      tokens := tokens[token := Token(s, now + 15 * MINUTE, None)];
      committed := t.(tokens := Table(tokens));
      return Done;
    }

    method ValidateBootstrapToken(now: int, s: string, token: string) returns (usable: bool)
      ensures usable <==> TokenUsable(committed, now, s, token)
    {
      var tokens := committed.tokens.rows;
      if token !in tokens || tokens[token].server != s || tokens[token].consumedAt.Some? { return false; }
      return !(tokens[token].expiresAt <= now);
    }

    method ConsumeBootstrapToken(now: int, s: string, token: string, c: Contact) returns (outcome: Outcome)
      modifies this`committed
      ensures (committed, outcome) == Bootstrap(old(committed), now, s, token, c)
    {
      var t := committed;
      var servers, tokens, certificates := t.servers.rows, t.tokens.rows, t.certificates.rows;
      var history, stagingTargets, contacts := t.history.rows, t.stagingTargets.rows, t.contacts.rows;
      if c.fingerprint in t.revoked.rows { return InvalidCredentials; }
      var usable := ValidateBootstrapToken(now, s, token);
      if !usable { return InvalidCredentials; }
      tokens := tokens[token := tokens[token].(consumedAt := Some(now))];
      if s !in servers || (servers[s].state != AwaitingFirstContact && servers[s].state != ReEnrollmentRequired) {
        return InvalidCredentials;
      }
      servers := servers[s := servers[s].(state := PendingVerification)];
      if s in certificates { return IntegrityError; }
      certificates := certificates[s := Certificate(c.fingerprint, c.expiresAt)];
      if c.fingerprint in history { return IntegrityError; }
      history := history[c.fingerprint := Issued(s, now, c.expiresAt, None)];
      if s in stagingTargets { return IntegrityError; }
      stagingTargets := stagingTargets[s := Target(servers[s].scrapeAddress, now, c.certificatePath, c.keyPath)];
      if s in contacts { return IntegrityError; }
      contacts := contacts[s := FirstContact(c.source, c.inventory, {}, c.code, now)];
      committed := t.(servers := Table(servers), tokens := Table(tokens), certificates := Table(certificates),
                      history := Table(history), stagingTargets := Table(stagingTargets),
                      contacts := Table(contacts));
      return Done;
    }

    method RecordStagedObservations(s: string, observations: set<string>) returns (outcome: Outcome)
      modifies this`committed
      ensures (committed, outcome) == RecordObservations(old(committed), s, observations)
    {
      var t := committed;
      var contacts := t.contacts.rows;
      if s !in contacts || s !in t.servers.rows || t.servers.rows[s].state != PendingVerification {
        return DecisionConflict;
      }
      contacts := contacts[s := contacts[s].(observations := observations)];
      committed := t.(contacts := Table(contacts));
      return Done;
    }

    method ApproveEnrollment(now: int, s: string, code: string) returns (outcome: Outcome)
      modifies this`committed
      ensures (committed, outcome) == Approve(old(committed), now, checks, s, code)
    {
      var t := committed;
      var servers, stagingTargets, activeTargets := t.servers.rows, t.stagingTargets.rows, t.activeTargets.rows;
      var contacts, verified, activations := t.contacts.rows, t.verified.rows, t.activations;
      if !Decidable(t, s) { return DecisionConflict; }
      var server, contact := servers[s], contacts[s];
      if contact.code != code { return CodeMismatch; }
      var definition := t.profiles.rows[(server.profile, server.revision)].definition;
      if !checks.satisfies(contact.inventory, definition) { return InventoryMismatch; }
      if !(Required(definition) <= contact.observations) { return IncompleteObservations; }
      verified := verified[s := contact.inventory];
      if s !in stagingTargets { return DecisionConflict; }
      activeTargets := activeTargets[s := stagingTargets[s].(since := now)];
      stagingTargets := stagingTargets - {s};
      contacts := contacts - {s};
      var digest := Digest(server.profile, server.revision, definition, contact.inventory.bindings);
      servers := servers[s := server.(state := Active, configuration := Some(digest))];
      activations := activations + [Activation(s, server.profile, server.revision, now, Enrolling)];
      committed := t.(servers := Table(servers), stagingTargets := Table(stagingTargets),
                      activeTargets := Table(activeTargets), contacts := Table(contacts),
                      verified := Table(verified), activations := activations);
      return Done;
    }

    method RejectEnrollment(now: int, s: string, code: string) returns (outcome: Outcome)
      modifies this`committed
      ensures (committed, outcome) == Reject(old(committed), now, s, code)
    {
      var t := committed;
      var servers, certificates, revoked := t.servers.rows, t.certificates.rows, t.revoked.rows;
      var stagingTargets, contacts := t.stagingTargets.rows, t.contacts.rows;
      if !Decidable(t, s) { return DecisionConflict; }
      if contacts[s].code != code { return CodeMismatch; }
      var fingerprint := certificates[s].fingerprint;
      if fingerprint in revoked { return IntegrityError; }
      revoked := revoked[fingerprint := Revocation(s, now)];
      certificates := certificates - {s};
      stagingTargets := stagingTargets - {s};
      contacts := contacts - {s};
      servers := servers[s := servers[s].(state := AwaitingFirstContact)];
      committed := t.(servers := Table(servers), certificates := Table(certificates), revoked := Table(revoked),
                      stagingTargets := Table(stagingTargets), contacts := Table(contacts));
      return Done;
    }

    // ---- certificates ----

    method RevokeCertificate(now: int, s: string) returns (outcome: Outcome)
      modifies this`committed
      ensures (committed, outcome) == Revoke(old(committed), now, s)
    {
      var t := committed;
      var servers, certificates, history := t.servers.rows, t.certificates.rows, t.history.rows;
      var revoked, activeTargets := t.revoked.rows, t.activeTargets.rows;
      if s !in certificates || s !in servers || servers[s].state != Active { return LifecycleConflict; }
      var fingerprint := certificates[s].fingerprint;
      if fingerprint !in revoked {
        revoked := revoked[fingerprint := Revocation(s, now)];
      }
      certificates := certificates - {s};
      activeTargets := activeTargets - {s};
      history := Ended(history, fingerprint, now, Revoked);
      servers := servers[s := servers[s].(state := ReEnrollmentRequired)];
      committed := t.(servers := Table(servers), certificates := Table(certificates), history := Table(history),
                      revoked := Table(revoked), activeTargets := Table(activeTargets));
      return Done;
    }

    method RenewCertificate(now: int, s: string, current: string, fingerprint: string, expiresAt: int)
      returns (outcome: Outcome)
      modifies this`committed
      ensures (committed, outcome) == Renew(old(committed), now, s, current, fingerprint, expiresAt)
    {
      var t := committed;
      if s !in t.certificates.rows || t.certificates.rows[s].fingerprint != current { return LifecycleConflict; }
      if t.certificates.rows[s].expiresAt - now > 10 * DAY { return RenewalNotDue; }
      outcome := ReplaceCertificate(now, s, fingerprint, expiresAt, now, Renewed);
    }

    method RotateCertificate(now: int, s: string, fingerprint: string, expiresAt: int) returns (outcome: Outcome)
      modifies this`committed
      ensures (committed, outcome) == Rotate(old(committed), now, s, fingerprint, expiresAt)
    {
      var t := committed;
      if s !in t.certificates.rows { return LifecycleConflict; }
      outcome := ReplaceCertificate(now, s, fingerprint, expiresAt, now + DAY, RotationOverlap);
    }

    method ReplaceCertificate(now: int, s: string, fingerprint: string, expiresAt: int, endedAt: int, reason: EndReason)
      returns (outcome: Outcome)
      requires s in committed.certificates.rows
      modifies this`committed
      ensures (committed, outcome) == Replace(old(committed), now, s, fingerprint, expiresAt, endedAt, reason)
    {
      var t := committed;
      var certificates, history := t.certificates.rows, t.history.rows;
      history := Ended(history, certificates[s].fingerprint, endedAt, reason);
      certificates := certificates[s := Certificate(fingerprint, expiresAt)];
      if fingerprint in history { return IntegrityError; }
      history := history[fingerprint := Issued(s, now, expiresAt, None)];
      committed := t.(certificates := Table(certificates), history := Table(history));
      return Done;
    }

    method ExpireCertificates(now: int)
      modifies this`committed
      ensures (committed, Done) == Expire(old(committed), now)
    {
      var t := committed;
      var servers, certificates, history := t.servers.rows, t.certificates.rows, t.history.rows;
      var expired := set s | s in certificates && certificates[s].expiresAt <= now;
      var todo := expired;
      while todo != {}
        invariant todo <= expired
        invariant t.(servers := Table(servers), history := Table(history), certificates := Table(certificates))
                  == ExpireThose(t, now, expired - todo)
        decreases |todo|
      {
        var s :| s in todo;
        ExpireOne(t, now, expired - todo, s);
        assert expired - (todo - {s}) == (expired - todo) + {s};
        if s in servers && servers[s].state == Active {
          servers := servers[s := servers[s].(state := ReEnrollmentRequired)];
        }
        history := Ended(history, certificates[s].fingerprint, now, EndReason.Expired);
        certificates := certificates - {s};
        todo := todo - {s};
      }
      assert expired - todo == expired;
      committed := t.(servers := Table(servers), certificates := Table(certificates), history := Table(history));
    }

    method StageScrapeAddress(now: int, s: string, address: string, fingerprint: string) returns (outcome: Outcome)
      modifies this`committed
      ensures (committed, outcome) == StageAddress(old(committed), now, s, address, fingerprint)
    {
      var t := committed;
      var stagingTargets, addressChanges := t.stagingTargets.rows, t.addressChanges.rows;
      if s !in t.certificates.rows || t.certificates.rows[s].fingerprint != fingerprint { return LifecycleConflict; }
      addressChanges := addressChanges[s := AddressChange(address, fingerprint, now)];
      if s !in t.activeTargets.rows { return LifecycleConflict; }
      if s in stagingTargets {
        stagingTargets := stagingTargets[s := stagingTargets[s].(address := address, since := now)];
      } else {
        var target := t.activeTargets.rows[s];
        stagingTargets := stagingTargets[s := Target(address, now, target.certificatePath, target.keyPath)];
      }
      committed := t.(stagingTargets := Table(stagingTargets), addressChanges := Table(addressChanges));
      return Done;
    }

    method ActivateScrapeAddress(now: int, s: string, fingerprint: string) returns (outcome: Outcome)
      modifies this`committed
      ensures (committed, outcome) == ActivateAddress(old(committed), now, s, fingerprint)
    {
      var t := committed;
      var servers, stagingTargets, activeTargets := t.servers.rows, t.stagingTargets.rows, t.activeTargets.rows;
      var addressChanges := t.addressChanges.rows;
      if s !in addressChanges || addressChanges[s].fingerprint != fingerprint { return LifecycleConflict; }
      var address := addressChanges[s].address;
      if s in servers {
        servers := servers[s := servers[s].(scrapeAddress := address)];
      }
      if s in activeTargets {
        activeTargets := activeTargets[s := activeTargets[s].(address := address, since := now)];
      }
      stagingTargets := stagingTargets - {s};
      addressChanges := addressChanges - {s};
      committed := t.(servers := Table(servers), stagingTargets := Table(stagingTargets),
                      activeTargets := Table(activeTargets), addressChanges := Table(addressChanges));
      return Done;
    }

    method RecoverIntermediate(now: int)
      requires Trust(committed.certificates.rows, committed.history.rows, committed.revoked.rows)
      modifies this`committed
      ensures (committed, Done) == Recover(old(committed), now)
    {
      var t := committed;
      var servers, certificates, history := t.servers.rows, t.certificates.rows, t.history.rows;
      var revoked, stagingTargets, activeTargets := t.revoked.rows, t.stagingTargets.rows, t.activeTargets.rows;
      revoked := RevokeEach(t, now);
      history := map f | f in history ::
        if history[f].ended.None? then history[f].(ended := Some((now, IntermediateCompromise))) else history[f];
      servers := map s | s in servers ::
        if servers[s].state == Active || servers[s].state == PendingVerification
        then servers[s].(state := ReEnrollmentRequired) else servers[s];
      certificates, stagingTargets, activeTargets := map[], map[], map[];
      committed := t.(servers := Table(servers), certificates := Table(certificates), history := Table(history),
                      revoked := Table(revoked), stagingTargets := Table(stagingTargets),
                      activeTargets := Table(activeTargets));
    }

    method RetireServer(now: int, s: string) returns (outcome: Outcome)
      modifies this`committed
      ensures (committed, outcome) == Retire(old(committed), now, s)
    {
      var t := committed;
      var servers, certificates, history := t.servers.rows, t.certificates.rows, t.history.rows;
      var revoked, stagingTargets, activeTargets := t.revoked.rows, t.stagingTargets.rows, t.activeTargets.rows;
      var addressChanges, contacts := t.addressChanges.rows, t.contacts.rows;
      if s !in servers || servers[s].state == Retired { return LifecycleConflict; }
      if s in certificates {
        var fingerprint := certificates[s].fingerprint;
        if fingerprint !in revoked {
          revoked := revoked[fingerprint := Revocation(s, now)];
        }
        history := Ended(history, fingerprint, now, ServerRetired);
      }
      certificates := certificates - {s};
      stagingTargets := stagingTargets - {s};
      activeTargets := activeTargets - {s};
      contacts := contacts - {s};
      addressChanges := addressChanges - {s};
      servers := servers[s := servers[s].(state := Retired)];
      committed := t.(servers := Table(servers), certificates := Table(certificates), history := Table(history),
                      revoked := Table(revoked), stagingTargets := Table(stagingTargets),
                      activeTargets := Table(activeTargets), addressChanges := Table(addressChanges),
                      contacts := Table(contacts));
      return Done;
    }

    // ---- profiles ----

    method Clone(profile: string, name: string, source: string, revision: nat) returns (outcome: Outcome)
      modifies this`committed
      ensures (committed, outcome) == CloneProfile(old(committed), checks, profile, name, source, revision)
    {
      var t := committed;
      var profiles := t.profiles.rows;
      if (source, revision) !in profiles || profiles[(source, revision)].state == Draft { return ProfileNotFound; }
      if Revisions(profiles, profile) != {} || ProfileNameTaken(profiles, profile, name) { return ProfileConflict; }
      var definition := profiles[(source, revision)].definition;
      var details := Thresholds.OverrideDetails(definition.overrides);
      if details != [] || !checks.wellFormed(definition) { return InvalidDefinition; }
      profiles := profiles[(profile, 1) := Profile(name, Draft, definition, false)];
      committed := t.(profiles := Table(profiles));
      return Done;
    }

    method CreateDraft(profile: string, name: string, definition: Definition) returns (outcome: Outcome)
      modifies this`committed
      ensures (committed, outcome) == DraftProfile(old(committed), profile, name, definition)
    {
      var t := committed;
      var profiles := t.profiles.rows;
      var revisions := Revisions(profiles, profile);
      if revisions == {} { return ProfileNotFound; }
      if ProfileNameTaken(profiles, profile, name) { return ProfileConflict; }
      var latest := GreatestOf(revisions);
      profiles := profiles[(profile, latest + 1) := Profile(name, Draft, definition, false)];
      committed := t.(profiles := Table(profiles));
      return Done;
    }

    method Publish(now: int, profile: string, revision: nat) returns (outcome: Outcome)
      modifies this`committed
      ensures (committed, outcome) == PublishProfile(old(committed), now, checks, profile, revision)
    {
      var t := committed;
      var profiles, staged := t.profiles.rows, t.staged.rows;
      if (profile, revision) !in profiles { return ProfileNotFound; }
      var row := profiles[(profile, revision)];
      if row.state != Draft { return ProfileConflict; }
      var details := Thresholds.OverrideDetails(row.definition.overrides);
      if details != [] || !checks.wellFormed(row.definition) { return InvalidDefinition; }
      var servers := t.servers.rows;
      var affected := set s | s in servers && servers[s].profile == profile && servers[s].revision != revision;
      profiles := profiles[(profile, revision) := row.(state := Published)];
      staged := StagePublication(t, now, profile, revision, row.definition, affected);
      committed := t.(profiles := Table(profiles), staged := Table(staged));
      return Done;
    }

    method Withdraw(profile: string, revision: nat) returns (outcome: Outcome)
      modifies this`committed
      ensures (committed, outcome) == RetireProfile(old(committed), profile, revision)
    {
      var t := committed;
      var profiles := t.profiles.rows;
      if (profile, revision) !in profiles { return ProfileNotFound; }
      var row := profiles[(profile, revision)];
      if row.state != Published || row.seeded { return ProfileConflict; }
      profiles := profiles[(profile, revision) := row.(state := Withdrawn)];
      committed := t.(profiles := Table(profiles));
      return Done;
    }

    method StageConfiguration(now: int, s: string, profile: string, revision: nat, rollback: bool)
      returns (outcome: Outcome)
      modifies this`committed
      ensures (committed, outcome) == StageProfile(old(committed), now, checks, s, profile, revision, rollback)
    {
      var t := committed;
      var staged := t.staged.rows;
      if s !in t.servers.rows || (profile, revision) !in t.profiles.rows { return ProfileNotFound; }
      var row := t.profiles.rows[(profile, revision)];
      var allowed := if rollback then {Published, Withdrawn} else {Published};
      if row.state !in allowed { return ProfileNotPublished; }
      if rollback && (t.servers.rows[s].profile != profile || revision >= t.servers.rows[s].revision) {
        return ProfileConflict;
      }
      var details := Thresholds.OverrideDetails(row.definition.overrides);
      if details != [] || !checks.wellFormed(row.definition) { return InvalidDefinition; }
      var bindings :=
        if s in t.verified.rows then BindingsFor(t.verified.rows[s].bindings, row.definition.sensors) else [];
      staged := staged[s := Staged(profile, revision, Digest(profile, revision, row.definition, bindings),
                                   if rollback then Operation.Rollback else Assignment, now)];
      committed := t.(staged := Table(staged));
      return Done;
    }

    method ActivateConfiguration(now: int, s: string, digest: Digest, observations: set<string>, inventory: Inventory)
      returns (outcome: Outcome)
      modifies this`committed
      ensures (committed, outcome) == ActivateProfile(old(committed), now, checks, s, digest, observations, inventory)
    {
      var t := committed;
      var servers, staged, activations := t.servers.rows, t.staged.rows, t.activations;
      if s !in staged || s !in servers || (staged[s].profile, staged[s].revision) !in t.profiles.rows {
        return ProfileConflict;
      }
      var row := staged[s];
      if row.configuration != digest { return HashMismatch; }
      var definition := t.profiles.rows[(row.profile, row.revision)].definition;
      if !(Required(definition) <= observations) || !checks.satisfies(inventory, definition) {
        return VerificationFailed;
      }
      if s !in t.verified.rows
         || checks.signature(t.verified.rows[s], definition) != checks.signature(inventory, definition) {
        committed := t.(inventoryChanges := Table(t.inventoryChanges.rows[s := inventory]));
        return VerificationFailed;
      }
      servers := servers[s := servers[s].(profile := row.profile, revision := row.revision,
                                          configuration := Some(row.configuration))];
      activations := activations + [Activation(s, row.profile, row.revision, now, row.operation)];
      staged := staged - {s};
      committed := t.(servers := Table(servers), staged := Table(staged), activations := activations);
      return Done;
    }

    method ObserveInventory(s: string, inventory: Inventory) returns (outcome: Outcome)
      modifies this`committed
      ensures (committed, outcome) == RecordInventory(old(committed), checks, s, inventory)
    {
      var t := committed;
      var servers, verified := t.servers.rows, t.verified.rows;
      if s !in servers || servers[s].state != Active || s !in verified
         || (servers[s].profile, servers[s].revision) !in t.profiles.rows {
        return ProfileNotFound;
      }
      if s in t.inventoryChanges.rows { return Done; }
      var definition := t.profiles.rows[(servers[s].profile, servers[s].revision)].definition;
      if checks.signature(verified[s], definition) == checks.signature(inventory, definition) {
        committed := t.(verified := Table(verified[s := inventory]));
      } else {
        committed := t.(inventoryChanges := Table(t.inventoryChanges.rows[s := inventory]));
      }
      return Done;
    }

    method AcceptInventoryChange(s: string) returns (outcome: Outcome)
      modifies this`committed
      ensures (committed, outcome) == AcceptInventory(old(committed), s)
    {
      var t := committed;
      var verified, inventoryChanges := t.verified.rows, t.inventoryChanges.rows;
      if s !in inventoryChanges { return ProfileConflict; }
      if s in verified {
        verified := verified[s := inventoryChanges[s]];
      }
      inventoryChanges := inventoryChanges - {s};
      committed := t.(verified := Table(verified), inventoryChanges := Table(inventoryChanges));
      return Done;
    }

    // ---- requests ----

    /** Serves a request: one transaction, after which the tables are still those of a run. */
    method Serve(now: int, r: Request) returns (outcome: Outcome)
      requires Valid()
      modifies this
      ensures Valid() && run == Extended(old(run), Step(now, r))
      ensures (committed, outcome) == Apply(old(committed), now, checks, r)
    {
      RunsKeepInvariant(run, |run.steps|);
      if ConcernsCatalog(r) {
        outcome := ServeCatalog(now, r);
      } else if ConcernsConfiguration(r) {
        outcome := ServeConfiguration(now, r);
      } else if ConcernsEnrollment(r) {
        outcome := ServeEnrollment(now, r);
      } else {
        outcome := ServeCertificate(now, r);
      }
      RunExtends(run, Step(now, r));
      run := Extended(run, Step(now, r));
    }

    method ServeEnrollment(now: int, r: Request) returns (outcome: Outcome)
      requires ConcernsEnrollment(r)
      modifies this`committed
      ensures (committed, outcome) == Apply(old(committed), now, checks, r)
    {
      match r
      case RegisterServer(s, name, address, profile) => outcome := RegisterServer(s, name, address, profile);
      case IssueBootstrapToken(s, token) => outcome := IssueBootstrapToken(now, s, token);
      case ValidateBootstrapToken(s, token) =>
        var usable := ValidateBootstrapToken(now, s, token);
        outcome := if usable then Done else InvalidCredentials;
      case ConsumeBootstrapToken(s, token, contact) => outcome := ConsumeBootstrapToken(now, s, token, contact);
      case RecordStagedObservations(s, observations) => outcome := RecordStagedObservations(s, observations);
      case ApproveEnrollment(s, code) => outcome := ApproveEnrollment(now, s, code);
      case RejectEnrollment(s, code) => outcome := RejectEnrollment(now, s, code);
    }

    method ServeCertificate(now: int, r: Request) returns (outcome: Outcome)
      requires !ConcernsEnrollment(r) && !ConcernsCatalog(r) && !ConcernsConfiguration(r)
      requires Trust(committed.certificates.rows, committed.history.rows, committed.revoked.rows)
      modifies this`committed
      ensures (committed, outcome) == Apply(old(committed), now, checks, r)
    {
      match r
      case RevokeCertificate(s) => outcome := RevokeCertificate(now, s);
      case RenewCertificate(s, current, fingerprint, expiresAt) =>
        outcome := RenewCertificate(now, s, current, fingerprint, expiresAt);
      case RotateCertificate(s, fingerprint, expiresAt) => outcome := RotateCertificate(now, s, fingerprint, expiresAt);
      case ExpireCertificates =>
        ExpireCertificates(now);
        outcome := Done;
      case StageScrapeAddress(s, address, fingerprint) =>
        outcome := StageScrapeAddress(now, s, address, fingerprint);
      case ActivateScrapeAddress(s, fingerprint) => outcome := ActivateScrapeAddress(now, s, fingerprint);
      case RecoverIntermediate =>
        RecoverIntermediate(now);
        outcome := Done;
      case RetireServer(s) => outcome := RetireServer(now, s);
    }

    method ServeCatalog(now: int, r: Request) returns (outcome: Outcome)
      requires ConcernsCatalog(r)
      modifies this`committed
      ensures (committed, outcome) == Apply(old(committed), now, checks, r)
    {
      match r
      case Clone(profile, name, source, revision) => outcome := Clone(profile, name, source, revision);
      case CreateDraft(profile, name, definition) => outcome := CreateDraft(profile, name, definition);
      case Publish(profile, revision) => outcome := Publish(now, profile, revision);
      case Withdraw(profile, revision) => outcome := Withdraw(profile, revision);
    }

    method ServeConfiguration(now: int, r: Request) returns (outcome: Outcome)
      requires ConcernsConfiguration(r)
      modifies this`committed
      ensures (committed, outcome) == Apply(old(committed), now, checks, r)
    {
      match r
      case StageConfiguration(s, profile, revision, rollback) =>
        outcome := StageConfiguration(now, s, profile, revision, rollback);
      case ActivateConfiguration(s, digest, observations, inventory) =>
        outcome := ActivateConfiguration(now, s, digest, observations, inventory);
      case ObserveInventory(s, inventory) => outcome := ObserveInventory(s, inventory);
      case AcceptInventoryChange(s) => outcome := AcceptInventoryChange(s);
    }
  }

  /** The loop over the live certificates at a recovery. */
  method RevokeEach(t: Tables, now: int) returns (revoked: map<string, Revocation>)
    requires Trust(t.certificates.rows, t.history.rows, t.revoked.rows)
    ensures revoked == RevokeThose(t, now, t.certificates.rows.Keys)
  {
    revoked := t.revoked.rows;
    RevokeNone(t, now);
    var todo := t.certificates.rows.Keys;
    ghost var done: set<string> := {};
    while todo != {}
      invariant done + todo == t.certificates.rows.Keys
      invariant revoked == RevokeThose(t, now, done)
      decreases |todo|
    {
      var s :| s in todo;
      RevokeOne(t, now, done, s);
      revoked := Revoking(revoked, t.certificates.rows[s].fingerprint, s, now);
      todo, done := todo - {s}, done + {s};
    }
  }

  /** The loop over the servers a publication affects. */
  method StagePublication(t: Tables, now: int, profile: string, revision: nat, d: Definition, affected: set<string>)
    returns (staged: map<string, Staged>)
    ensures staged == PublishTo(t, now, profile, revision, d, affected)
  {
    staged := t.staged.rows;
    PublishToNone(t, now, profile, revision, d);
    var todo := affected;
    ghost var done: set<string> := {};
    while todo != {}
      invariant done + todo == affected
      invariant staged == PublishTo(t, now, profile, revision, d, done)
      decreases |todo|
    {
      var s :| s in todo;
      PublishToOne(t, now, profile, revision, d, done, s);
      staged := Publishing(staged, s, PublicationFor(t, now, s, profile, revision, d));
      todo, done := todo - {s}, done + {s};
      assert staged == PublishTo(t, now, profile, revision, d, done);
    }
    assert done == affected;
  }

  /** `MAX(revision)`. */
  method GreatestOf(numbers: set<nat>) returns (m: nat)
    requires numbers != {}
    ensures m == Greatest(numbers)
  {
    ghost var g := GreatestExists(numbers);
    assert g in numbers;
    m :| m in numbers && forall r :: r in numbers ==> r <= m;
    assert IsGreatest(m, numbers);
  }

  lemma ExpireOne(t: Tables, now: int, expired: set<string>, s: string)
    requires expired <= t.certificates.rows.Keys && s in t.certificates.rows && s !in expired
    ensures var u := ExpireThose(t, now, expired); var fingerprint := t.certificates.rows[s].fingerprint;
            ExpireThose(t, now, expired + {s}) ==
              u.(servers := Table(if s in u.servers.rows && u.servers.rows[s].state == Active
                                  then WithState(u.servers.rows, s, ReEnrollmentRequired) else u.servers.rows),
                 history := Table(Ended(u.history.rows, fingerprint, now, EndReason.Expired)),
                 certificates := Table(u.certificates.rows - {s}))
  {
    assert FingerprintsOf(t, expired + {s}) == FingerprintsOf(t, expired) + {t.certificates.rows[s].fingerprint};
  }

  lemma RevokeNone(t: Tables, now: int)
    ensures RevokeThose(t, now, {}) == t.revoked.rows
  {
    assert FingerprintsOf(t, {}) == {};
  }

  lemma PublishToNone(t: Tables, now: int, profile: string, revision: nat, d: Definition)
    ensures PublishTo(t, now, profile, revision, d, {}) == t.staged.rows
  {
  }

  lemma RevokeOne(t: Tables, now: int, done: set<string>, s: string)
    requires Trust(t.certificates.rows, t.history.rows, t.revoked.rows)
    requires done <= t.certificates.rows.Keys && s in t.certificates.rows
    ensures RevokeThose(t, now, done + {s}) ==
            Revoking(RevokeThose(t, now, done), t.certificates.rows[s].fingerprint, s, now)
  {
    var fingerprint := t.certificates.rows[s].fingerprint;
    assert FingerprintsOf(t, done + {s}) == FingerprintsOf(t, done) + {fingerprint};
    LiveFingerprintsAreUnique(t, Holder(t, fingerprint), s);
  }

  lemma PublishToOne(t: Tables, now: int, profile: string, revision: nat, d: Definition, servers: set<string>,
                     s: string)
    ensures PublishTo(t, now, profile, revision, d, servers + {s}) ==
            Publishing(PublishTo(t, now, profile, revision, d, servers), s,
                       PublicationFor(t, now, s, profile, revision, d))
  {
  }
}
