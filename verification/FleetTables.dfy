/** The enrollment, certificate and profile tables, and what each committed transaction makes of them. */
module FleetTables {
  import opened Basics
  import Thresholds

  // ---- rows ----

  datatype Enrollment = AwaitingFirstContact | PendingVerification | Active | ReEnrollmentRequired | Retired

  datatype Binding = Binding(logicalName: string, sensorId: string, limitSource: string)

  /** A machine's inventory; `facts` stands for everything but the sensor bindings. */
  datatype Inventory = Inventory(facts: string, bindings: seq<Binding>)

  /** A profile definition; `facts` stands for the parts no transaction looks into. */
  datatype Definition = Definition(
    requiredObservations: seq<string>, persistentMounts: seq<string>, requiredServices: seq<string>,
    sensors: seq<string>, overrides: Json, facts: string)

  /** The digest of a configuration bundle, which determines the bundle. */
  datatype Digest = Digest(profile: string, revision: nat, definition: Definition, bindings: seq<Binding>)

  datatype Server = Server(
    displayName: string, scrapeAddress: string, profile: string, revision: nat, state: Enrollment,
    configuration: Option<Digest>)

  datatype ProfileState = Draft | Published | Withdrawn

  datatype Profile = Profile(name: string, state: ProfileState, definition: Definition, seeded: bool)

  datatype Token = Token(server: string, expiresAt: int, consumedAt: Option<int>)

  datatype Certificate = Certificate(fingerprint: string, expiresAt: int)

  datatype EndReason = Revoked | Renewed | RotationOverlap | Expired | IntermediateCompromise | ServerRetired

  datatype Issued = Issued(server: string, issuedAt: int, expiresAt: int, ended: Option<(int, EndReason)>)

  datatype Revocation = Revocation(server: string, revokedAt: int)

  datatype Target = Target(address: string, since: int, certificatePath: string, keyPath: string)

  datatype AddressChange = AddressChange(address: string, fingerprint: string, stagedAt: int)

  datatype FirstContact = FirstContact(
    source: string, inventory: Inventory, observations: set<string>, code: string, at: int)

  datatype Operation = Enrolling | Assignment | Rollback | Publication

  datatype Staged = Staged(profile: string, revision: nat, configuration: Digest, operation: Operation, at: int)

  datatype Activation = Activation(server: string, profile: string, revision: nat, at: int, operation: Operation)

  /** A table's rows under its primary key. */
  datatype Table<K, V> = Table(rows: map<K, V>)

  datatype Tables = Tables(
    profiles: Table<(string, nat), Profile>,
    servers: Table<string, Server>,
    tokens: Table<string, Token>,
    certificates: Table<string, Certificate>,
    history: Table<string, Issued>,
    revoked: Table<string, Revocation>,
    stagingTargets: Table<string, Target>,
    activeTargets: Table<string, Target>,
    addressChanges: Table<string, AddressChange>,
    contacts: Table<string, FirstContact>,
    verified: Table<string, Inventory>,
    inventoryChanges: Table<string, Inventory>,
    staged: Table<string, Staged>,
    activations: seq<Activation>)

  /** How a transaction ended; every outcome but `Done` stands for a raised exception. */
  datatype Outcome =
    | Done
    | IntegrityError | ProfileNotPublished | ProfileNotFound | ProfileConflict
    | NotAwaitingFirstContact | InvalidCredentials | DecisionConflict | CodeMismatch
    | InventoryMismatch | IncompleteObservations | LifecycleConflict | RenewalNotDue
    | HashMismatch | VerificationFailed | InvalidDefinition

  /** The inventory checks of a profile, and the checks of a definition other than those of its
      threshold overrides, whatever they are. */
  datatype Checks = Checks(
    satisfies: (Inventory, Definition) -> bool, signature: (Inventory, Definition) -> string,
    wellFormed: Definition -> bool)

  const MINUTE := 60_000_000
  const DAY := 86_400_000_000

  // ---- helpers ----

  predicate InState(t: Tables, s: string, state: Enrollment) {
    s in t.servers.rows && t.servers.rows[s].state == state
  }

  predicate HasProfile(t: Tables, s: string) {
    s in t.servers.rows && (t.servers.rows[s].profile, t.servers.rows[s].revision) in t.profiles.rows
  }

  /** The definition of the profile a server has. */
  function DefinitionOf(t: Tables, s: string): Definition
    requires HasProfile(t, s)
  {
    t.profiles.rows[(t.servers.rows[s].profile, t.servers.rows[s].revision)].definition
  }

  predicate AwaitsContact(t: Tables, s: string) {
    InState(t, s, AwaitingFirstContact) || InState(t, s, ReEnrollmentRequired)
  }

  function WithState(servers: map<string, Server>, s: string, state: Enrollment): map<string, Server>
    requires s in servers
  {
    servers[s := servers[s].(state := state)]
  }

  /** Ends a history row if there is one. */
  function Ended(history: map<string, Issued>, fingerprint: string, at: int, reason: EndReason): map<string, Issued> {
    if fingerprint in history then history[fingerprint := history[fingerprint].(ended := Some((at, reason)))]
    else history
  }

  /** `INSERT OR IGNORE`. */
  function Revoking(revoked: map<string, Revocation>, fingerprint: string, s: string, at: int)
    : map<string, Revocation>
  {
    if fingerprint in revoked then revoked else revoked[fingerprint := Revocation(s, at)]
  }

  function FoldCase(text: string): string {
    if text == "" then ""
    else [if 'A' <= text[0] <= 'Z' then (text[0] as int + 32) as char else text[0]] + FoldCase(text[1..])
  }

  function Revisions(profiles: map<(string, nat), Profile>, profile: string): set<nat> {
    set key | key in profiles && key.0 == profile :: key.1
  }

  function PublishedRevisions(profiles: map<(string, nat), Profile>, profile: string): set<nat> {
    set key | key in profiles && key.0 == profile && profiles[key].state == Published :: key.1
  }

  function Prefixed(prefix: string, names: seq<string>): seq<string> {
    if names == [] then [] else [prefix + names[0]] + Prefixed(prefix, names[1..])
  }

  /** The observations a profile asks for. */
  function Required(d: Definition): set<string> {
    set o | o in d.requiredObservations + Prefixed("persistent-mount:", d.persistentMounts)
                 + Prefixed("required-service:", d.requiredServices) + Prefixed("temperature-sensor:", d.sensors)
  }

  function BindingsFor(bindings: seq<Binding>, sensors: seq<string>): seq<Binding> {
    if bindings == [] then []
    else (if bindings[0].logicalName in sensors then [bindings[0]] else []) + BindingsFor(bindings[1..], sensors)
  }

  /** The digest staged for a server: the bundle carries its verified bindings of the profile's sensors. */
  function DigestFor(t: Tables, s: string, profile: string, revision: nat, d: Definition): Digest {
    Digest(profile, revision, d,
           if s in t.verified.rows then BindingsFor(t.verified.rows[s].bindings, d.sensors) else [])
  }

  // ---- servers and bootstrap ----

  predicate NameTaken(servers: map<string, Server>, displayName: string) {
    exists s :: s in servers && FoldCase(servers[s].displayName) == FoldCase(displayName)
  }

  ghost function Register(t: Tables, s: string, displayName: string, address: string, profile: string)
    : (Tables, Outcome)
  {
    var published := PublishedRevisions(t.profiles.rows, profile);
    if published == {} then (t, ProfileNotPublished)
    else if s in t.servers.rows || NameTaken(t.servers.rows, displayName) then (t, IntegrityError)
    else (t.(servers := Table(t.servers.rows[s := Server(displayName, address, profile, Greatest(published),
                                              AwaitingFirstContact, None)])), Done)
  }

  function IssueToken(t: Tables, now: int, s: string, token: string): (Tables, Outcome) {
    if !AwaitsContact(t, s) || (t.servers.rows[s].profile, t.servers.rows[s].revision) !in t.profiles.rows then
      (t, NotAwaitingFirstContact)
    else if token in t.tokens.rows then (t, IntegrityError)
    else (t.(tokens := Table(t.tokens.rows[token := Token(s, now + 15 * MINUTE, None)])), Done)
  }

  predicate TokenUsable(t: Tables, now: int, s: string, token: string) {
    token in t.tokens.rows && t.tokens.rows[token].server == s && t.tokens.rows[token].consumedAt.None?
    && now < t.tokens.rows[token].expiresAt
  }

  datatype Contact = Contact(
    fingerprint: string, expiresAt: int, certificatePath: string, keyPath: string,
    source: string, inventory: Inventory, code: string)

  /** Rows that a first contact inserts, one of which a leftover row would forbid. */
  predicate RoomForContact(t: Tables, s: string, fingerprint: string) {
    s !in t.certificates.rows && fingerprint !in t.history.rows && s !in t.stagingTargets.rows && s !in t.contacts.rows
  }

  function Bootstrap(t: Tables, now: int, s: string, token: string, c: Contact): (Tables, Outcome) {
    if c.fingerprint in t.revoked.rows || !TokenUsable(t, now, s, token) || !AwaitsContact(t, s) then
      (t, InvalidCredentials)
    else if !RoomForContact(t, s, c.fingerprint) then (t, IntegrityError)
    else (t.(tokens := Table(t.tokens.rows[token := t.tokens.rows[token].(consumedAt := Some(now))]),
             servers := Table(WithState(t.servers.rows, s, PendingVerification)),
             certificates := Table(t.certificates.rows[s := Certificate(c.fingerprint, c.expiresAt)]),
             history := Table(t.history.rows[c.fingerprint := Issued(s, now, c.expiresAt, None)]),
             stagingTargets := Table(t.stagingTargets.rows[s :=
               Target(t.servers.rows[s].scrapeAddress, now, c.certificatePath, c.keyPath)]),
             contacts := Table(t.contacts.rows[s := FirstContact(c.source, c.inventory, {}, c.code, now)])), Done)
  }

  function RecordObservations(t: Tables, s: string, observations: set<string>): (Tables, Outcome) {
    if s !in t.contacts.rows || !InState(t, s, PendingVerification) then (t, DecisionConflict)
    else (t.(contacts := Table(t.contacts.rows[s := t.contacts.rows[s].(observations := observations)])), Done)
  }

  /** What a decision joins: the server, its contact, its profile and its certificate. */
  predicate Decidable(t: Tables, s: string) {
    && InState(t, s, PendingVerification) && s in t.contacts.rows && s in t.certificates.rows
    && (t.servers.rows[s].profile, t.servers.rows[s].revision) in t.profiles.rows
  }

  function Approve(t: Tables, now: int, checks: Checks, s: string, code: string): (Tables, Outcome) {
    if !Decidable(t, s) then (t, DecisionConflict)
    else
      var server := t.servers.rows[s];
      var contact := t.contacts.rows[s];
      var definition := t.profiles.rows[(server.profile, server.revision)].definition;
      if contact.code != code then (t, CodeMismatch)
      else if !checks.satisfies(contact.inventory, definition) then (t, InventoryMismatch)
      else if !(Required(definition) <= contact.observations) then (t, IncompleteObservations)
      else if s !in t.stagingTargets.rows then (t, DecisionConflict)
      else (t.(verified := Table(t.verified.rows[s := contact.inventory]),
               activeTargets := Table(t.activeTargets.rows[s := t.stagingTargets.rows[s].(since := now)]),
               stagingTargets := Table(t.stagingTargets.rows - {s}),
               contacts := Table(t.contacts.rows - {s}),
               servers := Table(t.servers.rows[s := server.(state := Active, configuration :=
                 Some(Digest(server.profile, server.revision, definition, contact.inventory.bindings)))]),
               activations := t.activations + [Activation(s, server.profile, server.revision, now, Enrolling)]), Done)
  }

  function Reject(t: Tables, now: int, s: string, code: string): (Tables, Outcome) {
    if !Decidable(t, s) then (t, DecisionConflict)
    else if t.contacts.rows[s].code != code then (t, CodeMismatch)
    else if t.certificates.rows[s].fingerprint in t.revoked.rows then (t, IntegrityError)
    else (t.(revoked := Table(t.revoked.rows[t.certificates.rows[s].fingerprint := Revocation(s, now)]),
             certificates := Table(t.certificates.rows - {s}),
             stagingTargets := Table(t.stagingTargets.rows - {s}),
             contacts := Table(t.contacts.rows - {s}),
             servers := Table(WithState(t.servers.rows, s, AwaitingFirstContact))), Done)
  }

  // ---- certificates ----

  function Revoke(t: Tables, now: int, s: string): (Tables, Outcome) {
    if s !in t.certificates.rows || !InState(t, s, Active) then (t, LifecycleConflict)
    else
      var fingerprint := t.certificates.rows[s].fingerprint;
      (t.(revoked := Table(Revoking(t.revoked.rows, fingerprint, s, now)),
          certificates := Table(t.certificates.rows - {s}),
          activeTargets := Table(t.activeTargets.rows - {s}),
          history := Table(Ended(t.history.rows, fingerprint, now, Revoked)),
          servers := Table(WithState(t.servers.rows, s, ReEnrollmentRequired))), Done)
  }

  function Replace(t: Tables, now: int, s: string, fingerprint: string, expiresAt: int, endedAt: int, reason: EndReason)
    : (Tables, Outcome)
    requires s in t.certificates.rows
  {
    if fingerprint in t.history.rows then (t, IntegrityError)
    else (t.(history := Table(Ended(t.history.rows, t.certificates.rows[s].fingerprint, endedAt, reason)[
                          fingerprint := Issued(s, now, expiresAt, None)]),
             certificates := Table(t.certificates.rows[s := Certificate(fingerprint, expiresAt)])), Done)
  }

  function Renew(t: Tables, now: int, s: string, current: string, fingerprint: string, expiresAt: int)
    : (Tables, Outcome)
  {
    if s !in t.certificates.rows || t.certificates.rows[s].fingerprint != current then (t, LifecycleConflict)
    else if t.certificates.rows[s].expiresAt - now > 10 * DAY then (t, RenewalNotDue)
    else Replace(t, now, s, fingerprint, expiresAt, now, Renewed)
  }

  function Rotate(t: Tables, now: int, s: string, fingerprint: string, expiresAt: int): (Tables, Outcome) {
    if s !in t.certificates.rows then (t, LifecycleConflict)
    else Replace(t, now, s, fingerprint, expiresAt, now + DAY, RotationOverlap)
  }

  function ExpiredAt(t: Tables, now: int): set<string> {
    set s | s in t.certificates.rows && t.certificates.rows[s].expiresAt <= now
  }

  function FingerprintsOf(t: Tables, servers: set<string>): set<string>
    requires servers <= t.certificates.rows.Keys
  {
    set s | s in servers :: t.certificates.rows[s].fingerprint
  }

  /** Ends the certificates of some servers at their expiry. */
  function ExpireThose(t: Tables, now: int, expired: set<string>): Tables
    requires expired <= t.certificates.rows.Keys
  {
    var fingerprints := FingerprintsOf(t, expired);
    t.(servers := Table(map s | s in t.servers.rows ::
          if s in expired && t.servers.rows[s].state == Active then t.servers.rows[s].(state := ReEnrollmentRequired)
          else t.servers.rows[s]),
       history := Table(map f | f in t.history.rows ::
          if f in fingerprints then t.history.rows[f].(ended := Some((now, EndReason.Expired))) else t.history.rows[f]),
       certificates := Table(t.certificates.rows - expired))
  }

  function Expire(t: Tables, now: int): (Tables, Outcome) {
    (ExpireThose(t, now, ExpiredAt(t, now)), Done)
  }

  function StageAddress(t: Tables, now: int, s: string, address: string, fingerprint: string): (Tables, Outcome) {
    if s !in t.certificates.rows || t.certificates.rows[s].fingerprint != fingerprint || s !in t.activeTargets.rows then
      (t, LifecycleConflict)
    else
      var base := if s in t.stagingTargets.rows then t.stagingTargets.rows[s] else t.activeTargets.rows[s];
      (t.(addressChanges := Table(t.addressChanges.rows[s := AddressChange(address, fingerprint, now)]),
          stagingTargets := Table(t.stagingTargets.rows[s := base.(address := address, since := now)])), Done)
  }

  function ActivateAddress(t: Tables, now: int, s: string, fingerprint: string): (Tables, Outcome) {
    if s !in t.addressChanges.rows || t.addressChanges.rows[s].fingerprint != fingerprint then (t, LifecycleConflict)
    else
      var address := t.addressChanges.rows[s].address;
      (t.(servers := Table(if s in t.servers.rows then t.servers.rows[s := t.servers.rows[s].(scrapeAddress := address)]
                           else t.servers.rows),
          activeTargets := Table(if s in t.activeTargets.rows
                           then t.activeTargets.rows[s := t.activeTargets.rows[s].(address := address, since := now)]
                           else t.activeTargets.rows),
          stagingTargets := Table(t.stagingTargets.rows - {s}),
          addressChanges := Table(t.addressChanges.rows - {s})), Done)
  }

  /** A server whose live certificate has the fingerprint. */
  ghost function Holder(t: Tables, fingerprint: string): string
    requires fingerprint in FingerprintsOf(t, t.certificates.rows.Keys)
  {
    var s :| s in t.certificates.rows && t.certificates.rows[s].fingerprint == fingerprint;
    s
  }

  /** Revokes the certificates of some servers, except those revoked before. */
  ghost function RevokeThose(t: Tables, now: int, servers: set<string>): map<string, Revocation>
    requires servers <= t.certificates.rows.Keys
  {
    map f | f in t.revoked.rows.Keys + FingerprintsOf(t, servers) ::
      if f in t.revoked.rows then t.revoked.rows[f] else Revocation(Holder(t, f), now)
  }

  ghost function Recover(t: Tables, now: int): (Tables, Outcome) {
    (t.(revoked := Table(RevokeThose(t, now, t.certificates.rows.Keys)),
        history := Table(map f | f in t.history.rows ::
          if t.history.rows[f].ended.None? then t.history.rows[f].(ended := Some((now, IntermediateCompromise)))
          else t.history.rows[f]),
        servers := Table(map s | s in t.servers.rows ::
          if t.servers.rows[s].state == Active || t.servers.rows[s].state == PendingVerification
          then t.servers.rows[s].(state := ReEnrollmentRequired) else t.servers.rows[s]),
        certificates := Table(map[]), stagingTargets := Table(map[]), activeTargets := Table(map[])), Done)
  }

  function Retire(t: Tables, now: int, s: string): (Tables, Outcome) {
    if s !in t.servers.rows || t.servers.rows[s].state == Retired then (t, LifecycleConflict)
    else
      var live := s in t.certificates.rows;
      var fingerprint := if live then t.certificates.rows[s].fingerprint else "";
      (t.(revoked := Table(if live then Revoking(t.revoked.rows, fingerprint, s, now) else t.revoked.rows),
          history := Table(if live then Ended(t.history.rows, fingerprint, now, ServerRetired) else t.history.rows),
          certificates := Table(t.certificates.rows - {s}),
          stagingTargets := Table(t.stagingTargets.rows - {s}),
          activeTargets := Table(t.activeTargets.rows - {s}),
          contacts := Table(t.contacts.rows - {s}),
          addressChanges := Table(t.addressChanges.rows - {s}),
          servers := Table(WithState(t.servers.rows, s, Retired))), Done)
  }

  // ---- profiles ----

  /** The threshold overrides of a definition are a list of accepted ones. */
  predicate OverridesAccepted(d: Definition) {
    d.overrides.JList? && Thresholds.Accepted(d.overrides.items)
  }

  predicate IsSound(checks: Checks, d: Definition) {
    checks.wellFormed(d) && OverridesAccepted(d)
  }

  /** The overrides that the health rules of a server read: the objects among the entries. */
  function OverridesOf(d: Definition): seq<Json> {
    if d.overrides.JList? then Objects(d.overrides.items) else []
  }

  function Objects(items: seq<Json>): seq<Json> {
    if items == [] then [] else (if items[0].JObject? then [items[0]] else []) + Objects(items[1..])
  }

  predicate ProfileNameTaken(profiles: map<(string, nat), Profile>, profile: string, name: string) {
    exists key :: key in profiles && key.0 != profile && profiles[key].name == name
  }

  function CloneProfile(t: Tables, checks: Checks, profile: string, name: string, source: string, revision: nat)
    : (Tables, Outcome)
  {
    if (source, revision) !in t.profiles.rows || t.profiles.rows[(source, revision)].state == Draft then
      (t, ProfileNotFound)
    else if Revisions(t.profiles.rows, profile) != {} || ProfileNameTaken(t.profiles.rows, profile, name) then
      (t, ProfileConflict)
    else if !IsSound(checks, t.profiles.rows[(source, revision)].definition) then (t, InvalidDefinition)
    else (t.(profiles := Table(t.profiles.rows[(profile, 1) :=
               Profile(name, Draft, t.profiles.rows[(source, revision)].definition, false)])), Done)
  }

  ghost function DraftProfile(t: Tables, profile: string, name: string, definition: Definition): (Tables, Outcome) {
    var revisions := Revisions(t.profiles.rows, profile);
    if revisions == {} then (t, ProfileNotFound)
    else if ProfileNameTaken(t.profiles.rows, profile, name) then (t, ProfileConflict)
    else (t.(profiles := Table(t.profiles.rows[(profile, Greatest(revisions) + 1) :=
               Profile(name, Draft, definition, false)])), Done)
  }

  /** The servers a publication is staged for. */
  function Affected(t: Tables, profile: string, revision: nat): set<string> {
    set s | s in t.servers.rows && t.servers.rows[s].profile == profile && t.servers.rows[s].revision != revision
  }

  /** The configuration a publication stages for a server. */
  function PublicationFor(t: Tables, now: int, s: string, profile: string, revision: nat, d: Definition): Staged {
    Staged(profile, revision, DigestFor(t, s, profile, revision, d), Publication, now)
  }

  /** `ON CONFLICT DO UPDATE ... WHERE operation = 'publication'`. */
  function Publishing(staged: map<string, Staged>, s: string, row: Staged): map<string, Staged> {
    if s in staged && staged[s].operation != Publication then staged else staged[s := row]
  }

  /** Stages a publication for some servers, unless an assignment or rollback is staged there. */
  function PublishTo(t: Tables, now: int, profile: string, revision: nat, d: Definition, servers: set<string>)
    : map<string, Staged>
  {
    map s | s in t.staged.rows.Keys + servers ::
      if s in servers && (s in t.staged.rows ==> t.staged.rows[s].operation == Publication)
      then PublicationFor(t, now, s, profile, revision, d) else t.staged.rows[s]
  }

  function PublishProfile(t: Tables, now: int, checks: Checks, profile: string, revision: nat): (Tables, Outcome) {
    if (profile, revision) !in t.profiles.rows then (t, ProfileNotFound)
    else if t.profiles.rows[(profile, revision)].state != Draft then (t, ProfileConflict)
    else if !IsSound(checks, t.profiles.rows[(profile, revision)].definition) then (t, InvalidDefinition)
    else
      var row := t.profiles.rows[(profile, revision)];
      (t.(profiles := Table(t.profiles.rows[(profile, revision) := row.(state := Published)]),
          staged := Table(PublishTo(t, now, profile, revision, row.definition, Affected(t, profile, revision)))), Done)
  }

  function RetireProfile(t: Tables, profile: string, revision: nat): (Tables, Outcome) {
    if (profile, revision) !in t.profiles.rows then (t, ProfileNotFound)
    else if t.profiles.rows[(profile, revision)].state != Published || t.profiles.rows[(profile, revision)].seeded then
      (t, ProfileConflict)
    else (t.(profiles := Table(t.profiles.rows[(profile, revision) :=
               t.profiles.rows[(profile, revision)].(state := Withdrawn)])), Done)
  }

  /** Stages an assignment, or a rollback when `rollback` holds. */
  function StageProfile(t: Tables, now: int, checks: Checks, s: string, profile: string, revision: nat, rollback: bool)
    : (Tables, Outcome)
  {
    if s !in t.servers.rows || (profile, revision) !in t.profiles.rows then (t, ProfileNotFound)
    else
      var row := t.profiles.rows[(profile, revision)];
      if !(row.state == Published || (rollback && row.state == Withdrawn)) then (t, ProfileNotPublished)
      else if rollback && (t.servers.rows[s].profile != profile || revision >= t.servers.rows[s].revision) then
        (t, ProfileConflict)
      else if !IsSound(checks, row.definition) then (t, InvalidDefinition)
      else (t.(staged := Table(t.staged.rows[s :=
                 Staged(profile, revision, DigestFor(t, s, profile, revision, row.definition),
                        if rollback then Rollback else Assignment, now)])), Done)
  }

  function ActivateProfile(t: Tables, now: int, checks: Checks, s: string, digest: Digest,
                           observations: set<string>, inventory: Inventory): (Tables, Outcome) {
    if s !in t.staged.rows || s !in t.servers.rows
       || (t.staged.rows[s].profile, t.staged.rows[s].revision) !in t.profiles.rows then
      (t, ProfileConflict)
    else
      var staged := t.staged.rows[s];
      var definition := t.profiles.rows[(staged.profile, staged.revision)].definition;
      if staged.configuration != digest then (t, HashMismatch)
      else if !(Required(definition) <= observations) || !checks.satisfies(inventory, definition) then
        (t, VerificationFailed)
      else if s !in t.verified.rows
              || checks.signature(t.verified.rows[s], definition) != checks.signature(inventory, definition) then
        (t.(inventoryChanges := Table(t.inventoryChanges.rows[s := inventory])), VerificationFailed)
      else (t.(servers := Table(t.servers.rows[s :=
                 t.servers.rows[s].(profile := staged.profile, revision := staged.revision,
                                    configuration := Some(staged.configuration))]),
               activations := t.activations + [Activation(s, staged.profile, staged.revision, now, staged.operation)],
               staged := Table(t.staged.rows - {s})), Done)
  }

  function RecordInventory(t: Tables, checks: Checks, s: string, inventory: Inventory): (Tables, Outcome) {
    if !InState(t, s, Active) || s !in t.verified.rows
       || (t.servers.rows[s].profile, t.servers.rows[s].revision) !in t.profiles.rows then (t, ProfileNotFound)
    else
      var definition := t.profiles.rows[(t.servers.rows[s].profile, t.servers.rows[s].revision)].definition;
      if s in t.inventoryChanges.rows then (t, Done)
      else if checks.signature(t.verified.rows[s], definition) == checks.signature(inventory, definition) then
        (t.(verified := Table(t.verified.rows[s := inventory])), Done)
      else (t.(inventoryChanges := Table(t.inventoryChanges.rows[s := inventory])), Done)
  }

  function AcceptInventory(t: Tables, s: string): (Tables, Outcome) {
    if s !in t.inventoryChanges.rows then (t, ProfileConflict)
    else (t.(verified := Table(if s in t.verified.rows then t.verified.rows[s := t.inventoryChanges.rows[s]]
                               else t.verified.rows),
             inventoryChanges := Table(t.inventoryChanges.rows - {s})), Done)
  }

  // ---- one transaction ----

  datatype Request =
    | RegisterServer(server: string, displayName: string, address: string, profile: string)
    | IssueBootstrapToken(server: string, token: string)
    | ValidateBootstrapToken(server: string, token: string)
    | ConsumeBootstrapToken(server: string, token: string, contact: Contact)
    | RecordStagedObservations(server: string, observations: set<string>)
    | ApproveEnrollment(server: string, code: string)
    | RejectEnrollment(server: string, code: string)
    | RevokeCertificate(server: string)
    | RenewCertificate(server: string, current: string, fingerprint: string, expiresAt: int)
    | RotateCertificate(server: string, fingerprint: string, expiresAt: int)
    | ExpireCertificates
    | StageScrapeAddress(server: string, address: string, fingerprint: string)
    | ActivateScrapeAddress(server: string, fingerprint: string)
    | RecoverIntermediate
    | RetireServer(server: string)
    | Clone(profile: string, name: string, source: string, revision: nat)
    | CreateDraft(profile: string, name: string, definition: Definition)
    | Publish(profile: string, revision: nat)
    | Withdraw(profile: string, revision: nat)
    | StageConfiguration(server: string, profile: string, revision: nat, rollback: bool)
    | ActivateConfiguration(server: string, digest: Digest, observations: set<string>, inventory: Inventory)
    | ObserveInventory(server: string, inventory: Inventory)
    | AcceptInventoryChange(server: string)

  /** Requests that take certificates away. */
  predicate EndsCertificates(r: Request) {
    r.RevokeCertificate? || r.ExpireCertificates? || r.RecoverIntermediate? || r.RetireServer?
  }

  /** Requests about first contacts, about the profiles, and about which profile and inventory a server has. */
  predicate ConcernsEnrollment(r: Request) {
    r.RegisterServer? || r.IssueBootstrapToken? || r.ValidateBootstrapToken? || r.ConsumeBootstrapToken?
    || r.RecordStagedObservations? || r.ApproveEnrollment? || r.RejectEnrollment?
  }

  /** Requests about certificates and scrape addresses. */
  predicate ConcernsCertificates(r: Request) {
    EndsCertificates(r) || r.RenewCertificate? || r.RotateCertificate? || r.StageScrapeAddress?
    || r.ActivateScrapeAddress?
  }

  predicate ConcernsCatalog(r: Request) {
    r.Clone? || r.CreateDraft? || r.Publish? || r.Withdraw?
  }

  predicate ConcernsConfiguration(r: Request) {
    r.StageConfiguration? || r.ActivateConfiguration? || r.ObserveInventory? || r.AcceptInventoryChange?
  }

  ghost function Apply(t: Tables, now: int, checks: Checks, r: Request): (Tables, Outcome) {
    match r
    case RegisterServer(s, name, address, profile) => Register(t, s, name, address, profile)
    case IssueBootstrapToken(s, token) => IssueToken(t, now, s, token)
    case ValidateBootstrapToken(s, token) => (t, if TokenUsable(t, now, s, token) then Done else InvalidCredentials)
    case ConsumeBootstrapToken(s, token, contact) => Bootstrap(t, now, s, token, contact)
    case RecordStagedObservations(s, observations) => RecordObservations(t, s, observations)
    case ApproveEnrollment(s, code) => Approve(t, now, checks, s, code)
    case RejectEnrollment(s, code) => Reject(t, now, s, code)
    case RevokeCertificate(s) => Revoke(t, now, s)
    case RenewCertificate(s, current, fingerprint, expiresAt) => Renew(t, now, s, current, fingerprint, expiresAt)
    case RotateCertificate(s, fingerprint, expiresAt) => Rotate(t, now, s, fingerprint, expiresAt)
    case ExpireCertificates => Expire(t, now)
    case StageScrapeAddress(s, address, fingerprint) => StageAddress(t, now, s, address, fingerprint)
    case ActivateScrapeAddress(s, fingerprint) => ActivateAddress(t, now, s, fingerprint)
    case RecoverIntermediate => Recover(t, now)
    case RetireServer(s) => Retire(t, now, s)
    case Clone(profile, name, source, revision) => CloneProfile(t, checks, profile, name, source, revision)
    case CreateDraft(profile, name, definition) => DraftProfile(t, profile, name, definition)
    case Publish(profile, revision) => PublishProfile(t, now, checks, profile, revision)
    case Withdraw(profile, revision) => RetireProfile(t, profile, revision)
    case StageConfiguration(s, profile, revision, rollback) =>
      StageProfile(t, now, checks, s, profile, revision, rollback)
    case ActivateConfiguration(s, digest, observations, inventory) =>
      ActivateProfile(t, now, checks, s, digest, observations, inventory)
    case ObserveInventory(s, inventory) => RecordInventory(t, checks, s, inventory)
    case AcceptInventoryChange(s) => AcceptInventory(t, s)
  }

  // ---- a fresh database ----

  const GENERAL := Definition(
    ["reachability", "cpu", "memory", "root-filesystem", "temperature-headroom", "critical-errors"], ["/"], [], [],
    JList([]), "")

  const NVIDIA := Definition(
    ["reachability", "cpu", "memory", "root-filesystem", "temperature-headroom", "critical-errors",
     "gpu-utilization", "gpu-vram"], ["/"], [], [], JList([]), "NVIDIA CUDA-capable GPU x 1")

  const SEEDS: map<(string, nat), Profile> :=
    map[("general-linux", 1) := Profile("General Linux Server", Published, GENERAL, true),
        ("nvidia-gpu-compute", 1) := Profile("NVIDIA GPU Compute Server", Published, NVIDIA, true)]

  /** The tables of a fresh installation: the seeded profiles and nothing else. */
  function Installed(seeds: map<(string, nat), Profile>): Tables {
    Tables(Table(seeds),
           Table(map[]), Table(map[]), Table(map[]), Table(map[]), Table(map[]), Table(map[]), Table(map[]),
           Table(map[]), Table(map[]), Table(map[]), Table(map[]), Table(map[]), [])
  }
}
