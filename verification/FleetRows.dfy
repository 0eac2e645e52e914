/** What touches each kind of row: table by table, every request that changes it, and to what. */
module FleetRows {
  import opened Basics
  import opened FleetTables
  import opened FleetInvariants

  // ---- certificates, targets and contacts ----

  /** A certificate comes with a contact, a renewal or a rotation, and goes by rejection, revocation,
      retirement, recovery or at its expiry. */
  function CertificateAfter(row: Option<Certificate>, now: int, r: Request, s: string): Option<Certificate> {
    match r
    case ConsumeBootstrapToken(x, _, c) => if x == s then Some(Certificate(c.fingerprint, c.expiresAt)) else row
    case RenewCertificate(x, _, f, expiresAt) => if x == s then Some(Certificate(f, expiresAt)) else row
    case RotateCertificate(x, f, expiresAt) => if x == s then Some(Certificate(f, expiresAt)) else row
    case RejectEnrollment(x, _) => if x == s then None else row
    case RevokeCertificate(x) => if x == s then None else row
    case RetireServer(x) => if x == s then None else row
    case ExpireCertificates => if row.Some? && row.value.expiresAt <= now then None else row
    case RecoverIntermediate => None
    case _ => row
  }

  /** Where a server's new target comes from: its registered address, or the target it has. */
  function StagingTargetAfter(row: Option<Target>, active: Option<Target>, address: string, now: int, r: Request,
                              s: string): Option<Target> {
    match r
    case ConsumeBootstrapToken(x, _, c) =>
      if x == s then Some(Target(address, now, c.certificatePath, c.keyPath)) else row
    case StageScrapeAddress(x, moved, _) =>
      if x != s then row
      else if row.Some? then Some(row.value.(address := moved, since := now))
      else if active.Some? then Some(active.value.(address := moved, since := now))
      else None
    case ApproveEnrollment(x, _) => if x == s then None else row
    case RejectEnrollment(x, _) => if x == s then None else row
    case ActivateScrapeAddress(x, _) => if x == s then None else row
    case RetireServer(x) => if x == s then None else row
    case RecoverIntermediate => None
    case _ => row
  }

  function ActiveTargetAfter(row: Option<Target>, staging: Option<Target>, change: Option<AddressChange>, now: int,
                             r: Request, s: string): Option<Target> {
    match r
    case ApproveEnrollment(x, _) =>
      if x == s && staging.Some? then Some(staging.value.(since := now)) else row
    case ActivateScrapeAddress(x, _) =>
      if x == s && row.Some? && change.Some? then Some(row.value.(address := change.value.address, since := now))
      else row
    case RevokeCertificate(x) => if x == s then None else row
    case RetireServer(x) => if x == s then None else row
    case RecoverIntermediate => None
    case _ => row
  }

  function AddressChangeAfter(row: Option<AddressChange>, now: int, r: Request, s: string): Option<AddressChange> {
    match r
    case StageScrapeAddress(x, moved, f) => if x == s then Some(AddressChange(moved, f, now)) else row
    case ActivateScrapeAddress(x, _) => if x == s then None else row
    case RetireServer(x) => if x == s then None else row
    case _ => row
  }

  function ContactAfter(row: Option<FirstContact>, now: int, r: Request, s: string): Option<FirstContact> {
    match r
    case ConsumeBootstrapToken(x, _, c) =>
      if x == s then Some(FirstContact(c.source, c.inventory, {}, c.code, now)) else row
    case RecordStagedObservations(x, observations) =>
      if x == s && row.Some? then Some(row.value.(observations := observations)) else row
    case ApproveEnrollment(x, _) => if x == s then None else row
    case RejectEnrollment(x, _) => if x == s then None else row
    case RetireServer(x) => if x == s then None else row
    case _ => row
  }

  // ---- inventories ----

  /** The hardware that the profile requires is the same in the inventory as it was verified. */
  predicate IsSameHardware(t: Tables, checks: Checks, s: string, key: (string, nat), inventory: Inventory) {
    && s in t.verified.rows && key in t.profiles.rows
    && checks.signature(t.verified.rows[s], t.profiles.rows[key].definition)
       == checks.signature(inventory, t.profiles.rows[key].definition)
  }

  /** What is observed has the hardware required by the profile of its server. */
  predicate IsRefresh(t: Tables, checks: Checks, r: Request) {
    && r.ObserveInventory? && r.server in t.servers.rows
    && IsSameHardware(t, checks, r.server, (t.servers.rows[r.server].profile, t.servers.rows[r.server].revision),
                      r.inventory)
  }

  /** An inventory is verified by approval, by an observation of the same hardware while no change waits,
      and by accepting the one that waits. */
  function VerifiedAfter(row: Option<Inventory>, contact: Option<FirstContact>, waiting: Option<Inventory>,
                         refresh: bool, r: Request, s: string): Option<Inventory> {
    match r
    case ApproveEnrollment(x, _) => if x == s && contact.Some? then Some(contact.value.inventory) else row
    case ObserveInventory(x, inventory) => if x == s && waiting.None? && refresh then Some(inventory) else row
    case AcceptInventoryChange(x) => if x == s && row.Some? then waiting else row
    case _ => row
  }

  /** The first changed inventory observed waits until it is accepted. */
  function WaitingAfter(row: Option<Inventory>, refresh: bool, r: Request, s: string): Option<Inventory> {
    match r
    case ObserveInventory(x, inventory) => if x == s && row.None? && !refresh then Some(inventory) else row
    case AcceptInventoryChange(x) => if x == s then None else row
    case _ => row
  }

  // ---- servers and staged configurations ----

  /** The greatest published revision of the profile. */
  ghost predicate IsLatest(t: Tables, profile: string, n: nat) {
    && (profile, n) in t.profiles.rows && t.profiles.rows[(profile, n)].state == Published
    && forall m :: (profile, m) in t.profiles.rows && t.profiles.rows[(profile, m)].state == Published ==> m <= n
  }

  /** A server as it is approved: with the configuration of its profile and of the inventory in the contact. */
  function Approved(t: Tables, row: Server, contact: FirstContact): Server
    requires (row.profile, row.revision) in t.profiles.rows
  {
    var definition := t.profiles.rows[(row.profile, row.revision)].definition;
    row.(state := Active,
         configuration := Some(Digest(row.profile, row.revision, definition, contact.inventory.bindings)))
  }

  predicate IsExpired(t: Tables, now: int, s: string) {
    s in t.certificates.rows && t.certificates.rows[s].expiresAt <= now
  }

  /** The row of a registered server after a request: which states it goes through, and where its address,
      its profile and its configuration come from. */
  predicate ServerMoves(t: Tables, now: int, r: Request, s: string, row: Server, next: Server) {
    match r
    case ConsumeBootstrapToken(x, _, _) => next == if x == s then row.(state := PendingVerification) else row
    case ApproveEnrollment(x, _) =>
      if x != s then next == row
      else s in t.contacts.rows && (row.profile, row.revision) in t.profiles.rows
           && next == Approved(t, row, t.contacts.rows[s])
    case RejectEnrollment(x, _) => next == if x == s then row.(state := AwaitingFirstContact) else row
    case RevokeCertificate(x) => next == if x == s then row.(state := ReEnrollmentRequired) else row
    case RetireServer(x) => next == if x == s then row.(state := Retired) else row
    case ExpireCertificates =>
      next == if IsExpired(t, now, s) && row.state == Active then row.(state := ReEnrollmentRequired) else row
    case RecoverIntermediate =>
      next == if row.state == Active || row.state == PendingVerification then row.(state := ReEnrollmentRequired)
              else row
    case ActivateScrapeAddress(x, _) =>
      if x != s then next == row
      else s in t.addressChanges.rows && next == row.(scrapeAddress := t.addressChanges.rows[s].address)
    case ActivateConfiguration(x, digest, _, _) =>
      if x != s then next == row
      else s in t.staged.rows
           && next == row.(profile := t.staged.rows[s].profile, revision := t.staged.rows[s].revision,
                           configuration := Some(digest))
    case _ => next == row
  }

  /** And only a registration brings a server, with the latest published revision of its profile. */
  ghost predicate ServersMove(t: Tables, u: Tables, now: int, r: Request, s: string) {
    if s in t.servers.rows then
      s in u.servers.rows && ServerMoves(t, now, r, s, t.servers.rows[s], u.servers.rows[s])
    else if r.RegisterServer? && r.server == s then
      && s in u.servers.rows && IsLatest(t, r.profile, u.servers.rows[s].revision)
      && u.servers.rows[s]
         == Server(r.displayName, r.address, r.profile, u.servers.rows[s].revision, AwaitingFirstContact, None)
    else s !in u.servers.rows
  }

  /** The bindings of some sensors, in the order in which they were verified. */
  ghost predicate IsSelection(out: seq<Binding>, from: seq<Binding>, sensors: seq<string>) {
    exists at :: Selects(out, from, sensors, at)
  }

  ghost predicate Selects(out: seq<Binding>, from: seq<Binding>, sensors: seq<string>, at: seq<nat>) {
    && |at| == |out| && (forall i, j :: 0 <= i < j < |at| ==> at[i] < at[j])
    && (forall k :: 0 <= k < |at| ==> at[k] < |from| && out[k] == from[at[k]])
    && forall i :: 0 <= i < |from| ==> (from[i].logicalName in sensors <==> i in at)
  }

  lemma {:induction false} BindingsAreSelected(from: seq<Binding>, sensors: seq<string>) returns (at: seq<nat>)
    ensures Selects(BindingsFor(from, sensors), from, sensors, at)
  {
    if from == [] {
      at := [];
    } else {
      var rest := BindingsAreSelected(from[1..], sensors);
      at := Shifted(rest);
      if from[0].logicalName in sensors {
        at := [0] + at;
      }
      SelectsOneMore(from, sensors, BindingsFor(from[1..], sensors), rest);
    }
  }

  function Shifted(at: seq<nat>): (out: seq<nat>)
    ensures |out| == |at| && forall k :: 0 <= k < |at| ==> out[k] == at[k] + 1
    ensures forall i: nat :: i in out <==> i > 0 && i - 1 in at
  {
    if at == [] then [] else [at[0] + 1] + Shifted(at[1..])
  }

  lemma {:induction false} SelectsOneMore(from: seq<Binding>, sensors: seq<string>, out: seq<Binding>, at: seq<nat>)
    requires from != [] && Selects(out, from[1..], sensors, at)
    ensures if from[0].logicalName in sensors then Selects([from[0]] + out, from, sensors, [0] + Shifted(at))
            else Selects(out, from, sensors, Shifted(at))
  {
    ShiftedPoint(from, out, at);
    ShiftedFind(from, sensors, at);
    ShiftedRise(at);
  }

  lemma {:induction false} ShiftedRise(at: seq<nat>)
    requires forall i, j :: 0 <= i < j < |at| ==> at[i] < at[j]
    ensures var out := Shifted(at); forall i, j :: 0 <= i < j < |out| ==> out[i] < out[j]
    ensures var out := [0] + Shifted(at); forall i, j :: 0 <= i < j < |out| ==> out[i] < out[j]
  {
  }

  lemma {:induction false} ShiftedPoint(from: seq<Binding>, out: seq<Binding>, at: seq<nat>)
    requires from != [] && |at| == |out|
    requires forall k :: 0 <= k < |at| ==> at[k] < |from[1..]| && out[k] == from[1..][at[k]]
    ensures forall k :: 0 <= k < |at| ==> Shifted(at)[k] < |from| && out[k] == from[Shifted(at)[k]]
    ensures forall k :: 0 <= k <= |at| ==>
              ([0] + Shifted(at))[k] < |from| && ([from[0]] + out)[k] == from[([0] + Shifted(at))[k]]
  {
  }

  lemma {:induction false} ShiftedFind(from: seq<Binding>, sensors: seq<string>, at: seq<nat>)
    requires from != [] && forall i :: 0 <= i < |from[1..]| ==> (from[1..][i].logicalName in sensors <==> i in at)
    ensures forall i :: 0 < i < |from| ==> (from[i].logicalName in sensors <==> i in Shifted(at))
    ensures forall i :: 0 < i < |from| ==> (from[i].logicalName in sensors <==> i in [0] + Shifted(at))
    ensures 0 in [0] + Shifted(at) && 0 !in Shifted(at)
  {
    forall i | 0 < i < |from| ensures from[i].logicalName in sensors <==> i in Shifted(at) {
      assert from[1..][i - 1] == from[i];
    }
    assert ([0] + Shifted(at))[0] == 0;
  }

  /** The row stages this revision for the server, with its definition and the server's verified bindings. */
  ghost predicate IsStagedFor(t: Tables, row: Staged, s: string, key: (string, nat), operation: Operation, now: int) {
    && key in t.profiles.rows && row == Staged(key.0, key.1, row.configuration, operation, now)
    && row.configuration
       == Digest(key.0, key.1, t.profiles.rows[key].definition, row.configuration.bindings)
    && if s in t.verified.rows
       then IsSelection(row.configuration.bindings, t.verified.rows[s].bindings,
                        t.profiles.rows[key].definition.sensors)
       else row.configuration.bindings == []
  }

  /** A configuration is staged for one server by an assignment or a rollback, for every other server of
      the profile by a publication that finds none of these, and goes by activation. */
  ghost predicate StagedMoves(t: Tables, u: Tables, now: int, r: Request, s: string) {
    match r
    case StageConfiguration(x, p, n, rollback) =>
      if x == s then
        && s in u.staged.rows
        && IsStagedFor(t, u.staged.rows[s], s, (p, n), if rollback then Rollback else Assignment, now)
      else Get(u.staged.rows, s) == Get(t.staged.rows, s)
    case ActivateConfiguration(x, _, _, _) => Get(u.staged.rows, s) == if x == s then None else Get(t.staged.rows, s)
    case Publish(p, n) =>
      if s in t.servers.rows && t.servers.rows[s].profile == p && t.servers.rows[s].revision != n
         && (s in t.staged.rows ==> t.staged.rows[s].operation == Publication)
      then s in u.staged.rows && IsStagedFor(t, u.staged.rows[s], s, (p, n), Publication, now)
      else Get(u.staged.rows, s) == Get(t.staged.rows, s)
    case _ => Get(u.staged.rows, s) == Get(t.staged.rows, s)
  }

  // ---- every table with a row for a server ----

  predicate TargetsMove(t: Tables, u: Tables, now: int, r: Request, s: string) {
    && Get(u.certificates.rows, s) == CertificateAfter(Get(t.certificates.rows, s), now, r, s)
    && Get(u.stagingTargets.rows, s)
       == StagingTargetAfter(Get(t.stagingTargets.rows, s), Get(t.activeTargets.rows, s),
                             if s in t.servers.rows then t.servers.rows[s].scrapeAddress else "", now, r, s)
    && Get(u.activeTargets.rows, s)
       == ActiveTargetAfter(Get(t.activeTargets.rows, s), Get(t.stagingTargets.rows, s), Get(t.addressChanges.rows, s),
                            now, r, s)
    && Get(u.addressChanges.rows, s) == AddressChangeAfter(Get(t.addressChanges.rows, s), now, r, s)
    && Get(u.contacts.rows, s) == ContactAfter(Get(t.contacts.rows, s), now, r, s)
  }

  predicate InventoriesMove(t: Tables, u: Tables, checks: Checks, r: Request, s: string) {
    && Get(u.verified.rows, s)
       == VerifiedAfter(Get(t.verified.rows, s), Get(t.contacts.rows, s), Get(t.inventoryChanges.rows, s),
                        IsRefresh(t, checks, r), r, s)
    && Get(u.inventoryChanges.rows, s) == WaitingAfter(Get(t.inventoryChanges.rows, s), IsRefresh(t, checks, r), r, s)
  }

  /** What a committed request makes of the rows of a server. */
  ghost predicate RowsMove(t: Tables, u: Tables, now: int, checks: Checks, r: Request, s: string) {
    && TargetsMove(t, u, now, r, s)
    && InventoriesMove(t, u, checks, r, s)
    && ServersMove(t, u, now, r, s)
    && StagedMoves(t, u, now, r, s)
  }

  /** Every committed request moves the rows of every server by these rules. */
  lemma RowsFollowRequests(t: Tables, u: Tables, now: int, checks: Checks, r: Request, s: string)
    requires Invariant(t) && Apply(t, now, checks, r) == (u, Done)
    ensures RowsMove(t, u, now, checks, r, s)
  {
    assert RowsFit(RowsOf(t, s));
    if ConcernsEnrollment(r) {
      EnrollmentMovesRows(t, u, now, checks, r, s);
    } else if ConcernsCertificates(r) {
      CertificateMovesRows(t, u, now, checks, r, s);
    } else if ConcernsCatalog(r) {
      CatalogMovesRows(t, u, now, checks, r, s);
    } else {
      ConfigurationMovesRows(t, u, now, checks, r, s);
    }
  }

  lemma EnrollmentMovesRows(t: Tables, u: Tables, now: int, checks: Checks, r: Request, s: string)
    requires ConcernsEnrollment(r) && RowsFit(RowsOf(t, s)) && Apply(t, now, checks, r) == (u, Done)
    ensures RowsMove(t, u, now, checks, r, s)
  {
    match r
    case RegisterServer(x, name, address, profile) =>
      RegistrationMoves(t, u, now, checks, s, x, name, address, profile);
    case IssueBootstrapToken(x, token) => IssueMoves(t, u, now, checks, s, x, token);
    case ConsumeBootstrapToken(x, token, c) => ContactMoves(t, u, now, checks, s, x, token, c);
    case RecordStagedObservations(x, observations) => ObservationsMove(t, u, now, checks, s, x, observations);
    case ApproveEnrollment(x, code) => ApprovalMoves(t, u, now, checks, s, x, code);
    case RejectEnrollment(x, code) => RejectionMoves(t, u, now, checks, s, x, code);
    case ValidateBootstrapToken(_, _) => NothingMoves(t, now, checks, r, s);
  }

  lemma CertificateMovesRows(t: Tables, u: Tables, now: int, checks: Checks, r: Request, s: string)
    requires ConcernsCertificates(r) && RowsFit(RowsOf(t, s)) && Apply(t, now, checks, r) == (u, Done)
    ensures RowsMove(t, u, now, checks, r, s)
  {
    match r
    case RevokeCertificate(x) => RevocationMoves(t, u, now, checks, s, x);
    case RenewCertificate(x, current, f, expiresAt) => RenewalMoves(t, u, now, checks, s, x, current, f, expiresAt);
    case RotateCertificate(x, f, expiresAt) => RotationMoves(t, u, now, checks, s, x, f, expiresAt);
    case ExpireCertificates => ExpiryMoves(t, u, now, checks, s);
    case RecoverIntermediate => RecoveryMoves(t, u, now, checks, s);
    case RetireServer(x) => RetirementMoves(t, u, now, checks, s, x);
    case StageScrapeAddress(x, address, f) => AddressStagingMoves(t, u, now, checks, s, x, address, f);
    case ActivateScrapeAddress(x, f) => AddressActivationMoves(t, u, now, checks, s, x, f);
  }

  lemma CatalogMovesRows(t: Tables, u: Tables, now: int, checks: Checks, r: Request, s: string)
    requires ConcernsCatalog(r) && RowsFit(RowsOf(t, s)) && Apply(t, now, checks, r) == (u, Done)
    ensures RowsMove(t, u, now, checks, r, s)
  {
    match r
    case Clone(p, name, source, n) => CloneMoves(t, u, now, checks, s, p, name, source, n);
    case CreateDraft(p, name, definition) => DraftMoves(t, u, now, checks, s, p, name, definition);
    case Publish(p, n) => PublicationMoves(t, u, now, checks, s, p, n);
    case Withdraw(p, n) => WithdrawalMoves(t, u, now, checks, s, p, n);
  }

  lemma ConfigurationMovesRows(t: Tables, u: Tables, now: int, checks: Checks, r: Request, s: string)
    requires ConcernsConfiguration(r) && RowsFit(RowsOf(t, s)) && Apply(t, now, checks, r) == (u, Done)
    ensures RowsMove(t, u, now, checks, r, s)
  {
    match r
    case StageConfiguration(x, p, n, rollback) => StagingMoves(t, u, now, checks, s, x, p, n, rollback);
    case ActivateConfiguration(x, digest, observations, inventory) =>
      ActivationMoves(t, u, now, checks, s, x, digest, observations, inventory);
    case ObserveInventory(x, inventory) => InventoryMoves(t, u, now, checks, s, x, inventory);
    case AcceptInventoryChange(x) => AcceptanceMoves(t, u, now, checks, s, x);
  }

  lemma NothingMoves(t: Tables, now: int, checks: Checks, r: Request, s: string)
    requires r.ValidateBootstrapToken?
    ensures RowsMove(t, t, now, checks, r, s)
  {
  }

  lemma RegistrationMoves(t: Tables, u: Tables, now: int, checks: Checks, s: string,
                          x: string, name: string, address: string, profile: string)
    requires Register(t, x, name, address, profile) == (u, Done)
    ensures RowsMove(t, u, now, checks, RegisterServer(x, name, address, profile), s)
  {
    assert forall n :: n in PublishedRevisions(t.profiles.rows, profile) <==>
                         (profile, n) in t.profiles.rows && t.profiles.rows[(profile, n)].state == Published;
  }

  lemma IssueMoves(t: Tables, u: Tables, now: int, checks: Checks, s: string, x: string, token: string)
    requires IssueToken(t, now, x, token) == (u, Done)
    ensures RowsMove(t, u, now, checks, IssueBootstrapToken(x, token), s)
  {
  }

  lemma ContactMoves(t: Tables, u: Tables, now: int, checks: Checks, s: string, x: string, token: string, c: Contact)
    requires Bootstrap(t, now, x, token, c) == (u, Done)
    ensures RowsMove(t, u, now, checks, ConsumeBootstrapToken(x, token, c), s)
  {
  }

  lemma ObservationsMove(t: Tables, u: Tables, now: int, checks: Checks, s: string,
                         x: string, observations: set<string>)
    requires RecordObservations(t, x, observations) == (u, Done)
    ensures RowsMove(t, u, now, checks, RecordStagedObservations(x, observations), s)
  {
  }

  lemma ApprovalMoves(t: Tables, u: Tables, now: int, checks: Checks, s: string, x: string, code: string)
    requires Approve(t, now, checks, x, code) == (u, Done)
    ensures RowsMove(t, u, now, checks, ApproveEnrollment(x, code), s)
  {
  }

  lemma RejectionMoves(t: Tables, u: Tables, now: int, checks: Checks, s: string, x: string, code: string)
    requires Reject(t, now, x, code) == (u, Done)
    ensures RowsMove(t, u, now, checks, RejectEnrollment(x, code), s)
  {
  }

  lemma RevocationMoves(t: Tables, u: Tables, now: int, checks: Checks, s: string, x: string)
    requires Revoke(t, now, x) == (u, Done)
    ensures RowsMove(t, u, now, checks, RevokeCertificate(x), s)
  {
  }

  lemma RenewalMoves(t: Tables, u: Tables, now: int, checks: Checks, s: string,
                     x: string, current: string, f: string, expiresAt: int)
    requires Renew(t, now, x, current, f, expiresAt) == (u, Done)
    ensures RowsMove(t, u, now, checks, RenewCertificate(x, current, f, expiresAt), s)
  {
  }

  lemma RotationMoves(t: Tables, u: Tables, now: int, checks: Checks, s: string, x: string, f: string, expiresAt: int)
    requires Rotate(t, now, x, f, expiresAt) == (u, Done)
    ensures RowsMove(t, u, now, checks, RotateCertificate(x, f, expiresAt), s)
  {
  }

  lemma ExpiryMoves(t: Tables, u: Tables, now: int, checks: Checks, s: string)
    requires Expire(t, now) == (u, Done)
    ensures RowsMove(t, u, now, checks, ExpireCertificates, s)
  {
  }

  lemma RecoveryMoves(t: Tables, u: Tables, now: int, checks: Checks, s: string)
    requires Recover(t, now) == (u, Done)
    ensures RowsMove(t, u, now, checks, RecoverIntermediate, s)
  {
  }

  lemma RetirementMoves(t: Tables, u: Tables, now: int, checks: Checks, s: string, x: string)
    requires Retire(t, now, x) == (u, Done)
    ensures RowsMove(t, u, now, checks, RetireServer(x), s)
  {
  }

  lemma AddressStagingMoves(t: Tables, u: Tables, now: int, checks: Checks, s: string,
                            x: string, address: string, f: string)
    requires StageAddress(t, now, x, address, f) == (u, Done)
    ensures RowsMove(t, u, now, checks, StageScrapeAddress(x, address, f), s)
  {
  }

  lemma AddressActivationMoves(t: Tables, u: Tables, now: int, checks: Checks, s: string, x: string, f: string)
    requires RowsFit(RowsOf(t, s)) && ActivateAddress(t, now, x, f) == (u, Done)
    ensures RowsMove(t, u, now, checks, ActivateScrapeAddress(x, f), s)
  {
  }

  lemma CloneMoves(t: Tables, u: Tables, now: int, checks: Checks, s: string,
                   p: string, name: string, source: string, n: nat)
    requires CloneProfile(t, checks, p, name, source, n) == (u, Done)
    ensures RowsMove(t, u, now, checks, Clone(p, name, source, n), s)
  {
  }

  lemma DraftMoves(t: Tables, u: Tables, now: int, checks: Checks, s: string,
                   p: string, name: string, definition: Definition)
    requires DraftProfile(t, p, name, definition) == (u, Done)
    ensures RowsMove(t, u, now, checks, CreateDraft(p, name, definition), s)
  {
  }

  lemma PublicationMoves(t: Tables, u: Tables, now: int, checks: Checks, s: string, p: string, n: nat)
    requires PublishProfile(t, now, checks, p, n) == (u, Done)
    ensures RowsMove(t, u, now, checks, Publish(p, n), s)
  {
    if s in t.verified.rows && (p, n) in t.profiles.rows {
      var at := BindingsAreSelected(t.verified.rows[s].bindings, t.profiles.rows[(p, n)].definition.sensors);
    }
  }

  lemma WithdrawalMoves(t: Tables, u: Tables, now: int, checks: Checks, s: string, p: string, n: nat)
    requires RetireProfile(t, p, n) == (u, Done)
    ensures RowsMove(t, u, now, checks, Withdraw(p, n), s)
  {
  }

  lemma StagingMoves(t: Tables, u: Tables, now: int, checks: Checks, s: string,
                     x: string, p: string, n: nat, rollback: bool)
    requires StageProfile(t, now, checks, x, p, n, rollback) == (u, Done)
    ensures RowsMove(t, u, now, checks, StageConfiguration(x, p, n, rollback), s)
  {
    if s in t.verified.rows && (p, n) in t.profiles.rows {
      var at := BindingsAreSelected(t.verified.rows[s].bindings, t.profiles.rows[(p, n)].definition.sensors);
    }
  }

  lemma ActivationMoves(t: Tables, u: Tables, now: int, checks: Checks, s: string,
                        x: string, digest: Digest, observations: set<string>, inventory: Inventory)
    requires ActivateProfile(t, now, checks, x, digest, observations, inventory) == (u, Done)
    ensures RowsMove(t, u, now, checks, ActivateConfiguration(x, digest, observations, inventory), s)
  {
  }

  lemma InventoryMoves(t: Tables, u: Tables, now: int, checks: Checks, s: string, x: string, inventory: Inventory)
    requires RecordInventory(t, checks, x, inventory) == (u, Done)
    ensures RowsMove(t, u, now, checks, ObserveInventory(x, inventory), s)
  {
  }

  lemma AcceptanceMoves(t: Tables, u: Tables, now: int, checks: Checks, s: string, x: string)
    requires AcceptInventory(t, x) == (u, Done)
    ensures RowsMove(t, u, now, checks, AcceptInventoryChange(x), s)
  {
  }

  /** A refused request changes nothing, except that an activation may leave the inventory it reported. */
  lemma RefusalsChangeNothing(t: Tables, now: int, checks: Checks, r: Request)
    requires !Apply(t, now, checks, r).1.Done?
    ensures var u := Apply(t, now, checks, r).0; u == t.(inventoryChanges := u.inventoryChanges)
    ensures !r.ActivateConfiguration? ==> Apply(t, now, checks, r).0 == t
  {
  }

  // ---- history and revocations ----

  /** Why and when the request ends the history row of a certificate that is live at the server. */
  function EndingOf(c: Certificate, now: int, r: Request, s: string): Option<(int, EndReason)> {
    match r
    case RevokeCertificate(x) => if x == s then Some((now, Revoked)) else None
    case RenewCertificate(x, _, _, _) => if x == s then Some((now, Renewed)) else None
    case RotateCertificate(x, _, _) => if x == s then Some((now + 24 * 3600 * 1_000_000, RotationOverlap)) else None
    case RetireServer(x) => if x == s then Some((now, ServerRetired)) else None
    case ExpireCertificates => if c.expiresAt <= now then Some((now, EndReason.Expired)) else None
    case RecoverIntermediate => Some((now, IntermediateCompromise))
    case _ => None
  }

  /** The certificate that a request issues. */
  function IssuedBy(r: Request, now: int): Option<(string, Issued)> {
    match r
    case ConsumeBootstrapToken(s, _, c) => Some((c.fingerprint, Issued(s, now, c.expiresAt, None)))
    case RenewCertificate(s, _, f, expiresAt) => Some((f, Issued(s, now, expiresAt, None)))
    case RotateCertificate(s, f, expiresAt) => Some((f, Issued(s, now, expiresAt, None)))
    case _ => None
  }

  /** The live certificate that a history row is about. */
  function LiveOf(certificates: map<string, Certificate>, row: Issued, f: string): Option<Certificate> {
    if Holds(certificates, row.server, f) then Some(certificates[row.server]) else None
  }

  /** A row is entered as its certificate is issued and ends as it dies; recovery also ends those that were
      rejected. */
  function HistoryAfter(row: Option<Issued>, certificates: map<string, Certificate>, now: int, r: Request, f: string)
    : Option<Issued>
  {
    if row.None? then
      if IssuedBy(r, now).Some? && IssuedBy(r, now).value.0 == f then Some(IssuedBy(r, now).value.1) else None
    else
      var live := LiveOf(certificates, row.value, f);
      var ending := if live.Some? then EndingOf(live.value, now, r, row.value.server) else None;
      if ending.Some? then Some(row.value.(ended := ending))
      else if r.RecoverIntermediate? && row.value.ended.None? then
        Some(row.value.(ended := Some((now, IntermediateCompromise))))
      else row
  }

  lemma HistoryChanges(t: Tables, u: Tables, now: int, checks: Checks, r: Request, f: string)
    requires Invariant(t) && Apply(t, now, checks, r) == (u, Done)
    ensures Get(u.history.rows, f)
            == HistoryAfter(Get(t.history.rows, f), t.certificates.rows, now, r, f)
  {
    if ChangesHistory(r) {
      HistoryRequestsChange(t, u, now, checks, r, f);
    } else {
      OthersKeepHistory(t, u, now, checks, r, f);
    }
  }

  lemma HistoryRequestsChange(t: Tables, u: Tables, now: int, checks: Checks, r: Request, f: string)
    requires Trust(t.certificates.rows, t.history.rows, t.revoked.rows)
    requires ChangesHistory(r) && Apply(t, now, checks, r) == (u, Done)
    ensures Get(u.history.rows, f) == HistoryAfter(Get(t.history.rows, f), t.certificates.rows, now, r, f)
  {
    match r
    case ConsumeBootstrapToken(s, token, c) => ContactEntersHistory(t, now, s, token, c, f);
    case RevokeCertificate(s) => RevocationEndsRow(t, now, s, f);
    case RenewCertificate(s, current, g, expiresAt) => ReplacementEndsRow(t, u, now, checks, r, s, g, expiresAt, f);
    case RotateCertificate(s, g, expiresAt) => ReplacementEndsRow(t, u, now, checks, r, s, g, expiresAt, f);
    case ExpireCertificates => ExpiryEndsRows(t, now, f);
    case RecoverIntermediate => RecoveryEndsRows(t, now, f);
    case RetireServer(s) => RetirementEndsRow(t, now, s, f);
  }

  predicate ChangesHistory(r: Request) {
    r.ConsumeBootstrapToken? || r.RenewCertificate? || r.RotateCertificate? || EndsCertificates(r)
  }

  lemma OthersKeepHistory(t: Tables, u: Tables, now: int, checks: Checks, r: Request, f: string)
    requires !ChangesHistory(r) && Apply(t, now, checks, r) == (u, Done)
    ensures Get(u.history.rows, f)
            == HistoryAfter(Get(t.history.rows, f), t.certificates.rows, now, r, f)
  {
  }

  lemma ContactEntersHistory(t: Tables, now: int, s: string, token: string, c: Contact, f: string)
    requires Bootstrap(t, now, s, token, c).1.Done?
    ensures Get(Bootstrap(t, now, s, token, c).0.history.rows, f)
            == HistoryAfter(Get(t.history.rows, f), t.certificates.rows, now, ConsumeBootstrapToken(s, token, c), f)
  {
  }

  lemma RevocationEndsRow(t: Tables, now: int, s: string, f: string)
    requires Trust(t.certificates.rows, t.history.rows, t.revoked.rows) && Revoke(t, now, s).1.Done?
    ensures Get(Revoke(t, now, s).0.history.rows, f)
            == HistoryAfter(Get(t.history.rows, f), t.certificates.rows, now, RevokeCertificate(s), f)
  {
    assert Trusted(s, t.certificates.rows[s].fingerprint, t.history.rows, t.revoked.rows);
  }

  lemma ReplacementEndsRow(t: Tables, u: Tables, now: int, checks: Checks, r: Request, s: string, g: string,
                           expiresAt: int, f: string)
    requires Trust(t.certificates.rows, t.history.rows, t.revoked.rows) && Apply(t, now, checks, r) == (u, Done)
    requires r == RotateCertificate(s, g, expiresAt)
             || (r.RenewCertificate? && r == RenewCertificate(s, r.current, g, expiresAt))
    ensures Get(u.history.rows, f)
            == HistoryAfter(Get(t.history.rows, f), t.certificates.rows, now, r, f)
  {
    assert Trusted(s, t.certificates.rows[s].fingerprint, t.history.rows, t.revoked.rows);
  }

  lemma ExpiryEndsRows(t: Tables, now: int, f: string)
    requires Trust(t.certificates.rows, t.history.rows, t.revoked.rows)
    ensures Get(Expire(t, now).0.history.rows, f)
            == HistoryAfter(Get(t.history.rows, f), t.certificates.rows, now, ExpireCertificates, f)
  {
    if f in FingerprintsOf(t, ExpiredAt(t, now)) {
      var s :| s in ExpiredAt(t, now) && t.certificates.rows[s].fingerprint == f;
      assert Trusted(s, f, t.history.rows, t.revoked.rows);
    } else if f in t.history.rows && Holds(t.certificates.rows, t.history.rows[f].server, f) {
      assert t.history.rows[f].server !in ExpiredAt(t, now);
    }
  }

  lemma RecoveryEndsRows(t: Tables, now: int, f: string)
    requires Trust(t.certificates.rows, t.history.rows, t.revoked.rows)
    ensures Get(Recover(t, now).0.history.rows, f)
            == HistoryAfter(Get(t.history.rows, f), t.certificates.rows, now, RecoverIntermediate, f)
  {
    if f in t.history.rows && Holds(t.certificates.rows, t.history.rows[f].server, f) {
      assert Trusted(t.history.rows[f].server, f, t.history.rows, t.revoked.rows);
    }
  }

  lemma RetirementEndsRow(t: Tables, now: int, s: string, f: string)
    requires Trust(t.certificates.rows, t.history.rows, t.revoked.rows) && Retire(t, now, s).1.Done?
    ensures Get(Retire(t, now, s).0.history.rows, f)
            == HistoryAfter(Get(t.history.rows, f), t.certificates.rows, now, RetireServer(s), f)
  {
    if s in t.certificates.rows {
      assert Trusted(s, t.certificates.rows[s].fingerprint, t.history.rows, t.revoked.rows);
    }
  }

  /** The requests that revoke the live certificate of a server. */
  predicate Revokes(r: Request, s: string) {
    || (r.RejectEnrollment? && r.server == s) || r == RevokeCertificate(s) || r == RetireServer(s)
    || r.RecoverIntermediate?
  }

  /** A certificate is revoked once, by one of these requests while it is live, at its time. */
  lemma RevocationsChange(t: Tables, u: Tables, now: int, checks: Checks, r: Request, s: string, f: string)
    requires Invariant(t) && Apply(t, now, checks, r) == (u, Done)
    ensures Holds(t.certificates.rows, s, f) ==> f !in t.revoked.rows
    ensures Holds(t.certificates.rows, s, f) ==>
              Get(u.revoked.rows, f) == if Revokes(r, s) then Some(Revocation(s, now)) else None
    ensures (forall x :: !Holds(t.certificates.rows, x, f)) ==> Get(u.revoked.rows, f) == Get(t.revoked.rows, f)
  {
    if Holds(t.certificates.rows, s, f) {
      assert Trusted(s, f, t.history.rows, t.revoked.rows);
    }
    if MayRevoke(r) {
      RevokersRevoke(t, u, now, checks, r, s, f);
    } else {
      OthersKeepRevoked(t, u, now, checks, r, f);
    }
  }

  predicate MayRevoke(r: Request) {
    r.RejectEnrollment? || r.RevokeCertificate? || r.RetireServer? || r.RecoverIntermediate?
  }

  lemma RevokersRevoke(t: Tables, u: Tables, now: int, checks: Checks, r: Request, s: string, f: string)
    requires Trust(t.certificates.rows, t.history.rows, t.revoked.rows)
    requires MayRevoke(r) && Apply(t, now, checks, r) == (u, Done)
    ensures Holds(t.certificates.rows, s, f) ==>
              Get(u.revoked.rows, f) == if Revokes(r, s) then Some(Revocation(s, now)) else None
    ensures (forall x :: !Holds(t.certificates.rows, x, f)) ==> Get(u.revoked.rows, f) == Get(t.revoked.rows, f)
  {
    if r.RecoverIntermediate? {
      RecoveryRevokesLive(t, now, s, f);
    } else {
      LiveOnceRevoked(t, u, now, checks, r, r.server, s, f);
    }
  }

  lemma OthersKeepRevoked(t: Tables, u: Tables, now: int, checks: Checks, r: Request, f: string)
    requires !MayRevoke(r)
    requires Apply(t, now, checks, r) == (u, Done)
    ensures u.revoked == t.revoked
  {
  }

  lemma LiveOnceRevoked(t: Tables, u: Tables, now: int, checks: Checks, r: Request, x: string, s: string, f: string)
    requires Trust(t.certificates.rows, t.history.rows, t.revoked.rows) && Apply(t, now, checks, r) == (u, Done)
    requires (r.RejectEnrollment? && r.server == x) || r == RevokeCertificate(x) || r == RetireServer(x)
    ensures Holds(t.certificates.rows, s, f) ==>
              Get(u.revoked.rows, f) == if x == s then Some(Revocation(s, now)) else None
    ensures (forall y :: !Holds(t.certificates.rows, y, f)) ==>
              Get(u.revoked.rows, f) == Get(t.revoked.rows, f)
  {
    if Holds(t.certificates.rows, s, f) {
      assert Trusted(s, f, t.history.rows, t.revoked.rows);
    }
    if x in t.certificates.rows {
      assert Holds(t.certificates.rows, x, t.certificates.rows[x].fingerprint);
      assert Trusted(x, t.certificates.rows[x].fingerprint, t.history.rows, t.revoked.rows);
    }
  }

  lemma RecoveryRevokesLive(t: Tables, now: int, s: string, f: string)
    requires Trust(t.certificates.rows, t.history.rows, t.revoked.rows)
    ensures Holds(t.certificates.rows, s, f) ==> Get(Recover(t, now).0.revoked.rows, f) == Some(Revocation(s, now))
    ensures (forall x :: !Holds(t.certificates.rows, x, f)) ==>
              Get(Recover(t, now).0.revoked.rows, f) == Get(t.revoked.rows, f)
  {
    if Holds(t.certificates.rows, s, f) {
      assert Trusted(s, f, t.history.rows, t.revoked.rows);
      assert f in FingerprintsOf(t, t.certificates.rows.Keys);
      LiveFingerprintsAreUnique(t, s, Holder(t, f));
    } else if f in FingerprintsOf(t, t.certificates.rows.Keys) {
      assert Holds(t.certificates.rows, Holder(t, f), f);
    }
  }

  // ---- tokens, profiles and the log ----

  function TokenAfter(row: Option<Token>, now: int, r: Request, token: string): Option<Token> {
    match r
    case IssueBootstrapToken(x, k) => if k == token then Some(Token(x, now + 15 * 60 * 1_000_000, None)) else row
    case ConsumeBootstrapToken(_, k, _) =>
      if k == token && row.Some? then Some(row.value.(consumedAt := Some(now))) else row
    case _ => row
  }

  /** A token is good for fifteen minutes from its issue, and consumed by a contact. */
  lemma TokensChange(t: Tables, u: Tables, now: int, checks: Checks, r: Request, token: string)
    requires Apply(t, now, checks, r) == (u, Done)
    ensures Get(u.tokens.rows, token) == TokenAfter(Get(t.tokens.rows, token), now, r, token)
  {
  }

  /** What a request logs: an approval the profile the server has, an activation what was staged. */
  function LoggedBy(t: Tables, now: int, r: Request): seq<Activation> {
    match r
    case ApproveEnrollment(s, _) =>
      if s in t.servers.rows
      then [Activation(s, t.servers.rows[s].profile, t.servers.rows[s].revision, now, Enrolling)] else []
    case ActivateConfiguration(s, _, _, _) =>
      if s in t.staged.rows
      then [Activation(s, t.staged.rows[s].profile, t.staged.rows[s].revision, now, t.staged.rows[s].operation)] else []
    case _ => []
  }

  lemma LogChanges(t: Tables, u: Tables, now: int, checks: Checks, r: Request)
    requires Apply(t, now, checks, r) == (u, Done)
    ensures u.activations == t.activations + LoggedBy(t, now, r)
  {
  }

  /** A revision of the profile that has none yet, but one before. */
  predicate IsNext(profiles: map<(string, nat), Profile>, key: (string, nat), p: string) {
    key.0 == p && key !in profiles && key.1 > 0 && (p, key.1 - 1) in profiles
  }

  function ProfileAfter(profiles: map<(string, nat), Profile>, r: Request, key: (string, nat)): Option<Profile> {
    var row := Get(profiles, key);
    match r
    case Clone(p, name, source, n) =>
      if key == (p, 1) && (source, n) in profiles
      then Some(Profile(name, Draft, profiles[(source, n)].definition, false))
      else row
    case CreateDraft(p, name, definition) =>
      if IsNext(profiles, key, p) then Some(Profile(name, Draft, definition, false)) else row
    case Publish(p, n) => if key == (p, n) && row.Some? then Some(row.value.(state := Published)) else row
    case Withdraw(p, n) => if key == (p, n) && row.Some? then Some(row.value.(state := Withdrawn)) else row
    case _ => row
  }

  /** A clone is revision 1 of its profile with the definition of its source, a draft the next revision;
      publication and withdrawal change the state of their revision. */
  lemma CatalogChanges(t: Tables, u: Tables, now: int, checks: Checks, r: Request, key: (string, nat))
    requires Invariant(t) && Apply(t, now, checks, r) == (u, Done)
    ensures Get(u.profiles.rows, key) == ProfileAfter(t.profiles.rows, r, key)
  {
    if ConcernsCatalog(r) {
      CatalogRequestsChange(t, u, now, checks, r, key);
    } else {
      OthersKeepProfiles(t, u, now, checks, r);
    }
  }

  lemma CatalogRequestsChange(t: Tables, u: Tables, now: int, checks: Checks, r: Request, key: (string, nat))
    requires ConcernsCatalog(r) && ProfilesOk(t.profiles.rows) && Apply(t, now, checks, r) == (u, Done)
    ensures Get(u.profiles.rows, key) == ProfileAfter(t.profiles.rows, r, key)
  {
    match r
    case Clone(p, name, source, n) => CloneIsFirst(t, checks, p, name, source, n, key);
    case CreateDraft(p, name, definition) => DraftIsNext(t, p, name, definition, key);
    case Publish(p, n) => PublicationAdvances(t, now, checks, p, n, key);
    case Withdraw(p, n) => WithdrawalAdvances(t, p, n, key);
  }

  lemma OthersKeepProfiles(t: Tables, u: Tables, now: int, checks: Checks, r: Request)
    requires !ConcernsCatalog(r) && Apply(t, now, checks, r) == (u, Done)
    ensures u.profiles == t.profiles
  {
  }

  lemma CloneIsFirst(t: Tables, checks: Checks, p: string, name: string, source: string, n: nat, key: (string, nat))
    requires CloneProfile(t, checks, p, name, source, n).1.Done?
    ensures Get(CloneProfile(t, checks, p, name, source, n).0.profiles.rows, key)
            == ProfileAfter(t.profiles.rows, Clone(p, name, source, n), key)
  {
  }

  lemma PublicationAdvances(t: Tables, now: int, checks: Checks, p: string, n: nat, key: (string, nat))
    requires PublishProfile(t, now, checks, p, n).1.Done?
    ensures Get(PublishProfile(t, now, checks, p, n).0.profiles.rows, key)
            == ProfileAfter(t.profiles.rows, Publish(p, n), key)
  {
  }

  lemma WithdrawalAdvances(t: Tables, p: string, n: nat, key: (string, nat))
    requires RetireProfile(t, p, n).1.Done?
    ensures Get(RetireProfile(t, p, n).0.profiles.rows, key) == ProfileAfter(t.profiles.rows, Withdraw(p, n), key)
  {
  }

  lemma DraftIsNext(t: Tables, p: string, name: string, definition: Definition, key: (string, nat))
    requires ProfilesOk(t.profiles.rows) && DraftProfile(t, p, name, definition).1.Done?
    ensures Get(DraftProfile(t, p, name, definition).0.profiles.rows, key)
            == ProfileAfter(t.profiles.rows, CreateDraft(p, name, definition), key)
  {
    var revisions := Revisions(t.profiles.rows, p);
    assert forall n :: n in revisions <==> (p, n) in t.profiles.rows;
    assert (p, Greatest(revisions)) in t.profiles.rows;
  }
}
