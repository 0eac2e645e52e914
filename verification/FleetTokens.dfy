/** Bootstrap tokens under any interleaving of validations, first contacts and other requests. */
module FleetTokens {
  import opened FleetTables
  import opened FleetInvariants
  import opened FleetTransactions
  import opened FleetSteps
  import opened FleetRuns

  /** How many of the first `n` steps committed a first contact with the token. */
  ghost function Consumptions(r: Run, n: nat, token: string): nat
    requires IsRun(r) && n <= |r.steps|
  {
    if n == 0 then 0
    else
      var request := r.steps[n - 1].request;
      Consumptions(r, n - 1, token)
      + if request.ConsumeBootstrapToken? && request.token == token && Commits(r, n - 1) then 1 else 0
  }

  predicate IsConsumed(tokens: map<string, Token>, token: string) {
    token in tokens && tokens[token].consumedAt.Some?
  }

  /** A token is consumed by at most one commit of a run, and it is marked consumed exactly when it was. */
  lemma {:induction false} TokensAreConsumedOnce(r: Run, n: nat, token: string)
    requires IsRun(r) && n <= |r.steps|
    ensures Consumptions(r, n, token) == if IsConsumed(r.states[n].tokens.rows, token) then 1 else 0
  {
    if n > 0 {
      var i := n - 1;
      TokensAreConsumedOnce(r, i, token);
      Next(r, i);
      ConsumptionMarksToken(r.states[i], r.steps[i].now, r.checks, r.steps[i].request, token);
    }
  }

  lemma ConsumptionMarksToken(t: Tables, now: int, checks: Checks, r: Request, token: string)
    ensures var (u, outcome) := Apply(t, now, checks, r);
            var consumed := r.ConsumeBootstrapToken? && r.token == token && outcome.Done?;
            && (IsConsumed(u.tokens.rows, token) <==> IsConsumed(t.tokens.rows, token) || consumed)
            && !(consumed && IsConsumed(t.tokens.rows, token))
  {
  }

  /** Every token was issued to its server at some step, expires fifteen minutes later, and is
      consumed, if at all, before that. */
  lemma {:induction false} TokensAreIssuedAndExpire(r: Run, n: nat, token: string) returns (k: nat)
    requires IsRun(r) && n <= |r.steps| && token in r.states[n].tokens.rows
    ensures k < n && Issues(r.steps[k], token, r.states[n].tokens.rows[token])
    ensures var row := r.states[n].tokens.rows[token];
            row.consumedAt.Some? ==> row.consumedAt.value < row.expiresAt
  {
    var i := n - 1;
    var t, u := r.states[i], r.states[n];
    RunsKeepInvariant(r, n);
    assert n == 0 ==> token in Installed(r.seeds).tokens.rows;
    if token in t.tokens.rows {
      k := TokensAreIssuedAndExpire(r, i, token);
      RunsTakeNothingBack(r, i, n);
      assert TokenLater(t.tokens.rows[token], u.tokens.rows[token]);
    } else {
      Next(r, i);
      TokensAreAddedByIssue(t, r.steps[i].now, r.checks, r.steps[i].request, token);
      k := i;
    }
  }

  /** Between the validation of a token and a later first contact anything may happen; the token is
      still usable then exactly when it has not expired and no other contact consumed it. */
  lemma ValidatedTokensStayUsable(r: Run, i: nat, n: nat, later: int)
    requires IsRun(r) && i < n < |r.states| && r.steps[i].request.ValidateBootstrapToken? && Commits(r, i)
    ensures var t, u, token := r.states[i], r.states[n], r.steps[i].request.token;
            && token in t.tokens.rows
            && (TokenUsable(u, later, r.steps[i].request.server, token) <==>
                  later < t.tokens.rows[token].expiresAt && !IsConsumed(u.tokens.rows, token))
  {
    var token := r.steps[i].request.token;
    RunsTakeNothingBack(r, i, n);
    assert TokenLater(r.states[i].tokens.rows[token], r.states[n].tokens.rows[token]);
  }

  predicate Issues(step: Step, token: string, row: Token) {
    step.request == IssueBootstrapToken(row.server, token) && row.expiresAt == step.now + 15 * MINUTE
  }

  lemma TokensAreAddedByIssue(t: Tables, now: int, checks: Checks, r: Request, token: string)
    requires token !in t.tokens.rows && token in Apply(t, now, checks, r).0.tokens.rows
    ensures Issues(Step(now, r), token, Apply(t, now, checks, r).0.tokens.rows[token])
  {
  }

  // ---- approvals ----

  /** How many of the first `n` steps committed a first contact of the server. */
  ghost function Contacts(r: Run, n: nat, s: string): nat
    requires IsRun(r) && n <= |r.steps|
  {
    if n == 0 then 0
    else
      var request := r.steps[n - 1].request;
      Contacts(r, n - 1, s)
      + if request.ConsumeBootstrapToken? && request.server == s && Commits(r, n - 1) then 1 else 0
  }

  /** How many of the first `n` steps made the server active. */
  ghost function Entries(r: Run, n: nat, s: string): nat
    requires IsRun(r) && n <= |r.steps|
  {
    if n == 0 then 0
    else Entries(r, n - 1, s) + if InState(r.states[n], s, Active) && !InState(r.states[n - 1], s, Active) then 1 else 0
  }

  /** A server becomes active at most as often as one of its tokens was consumed, each by one contact. */
  lemma {:induction false} EntriesNeedTokens(r: Run, n: nat, s: string)
    requires IsRun(r) && n <= |r.steps|
    ensures Entries(r, n, s) <= |ConsumedTokens(r.states[n].tokens.rows, s)| == Contacts(r, n, s)
  {
    var t := r.states[n];
    RunsKeepInvariant(r, n);
    EntriesAreApprovals(r, n, s);
    ContactsAreConsumedTokens(r, n, s);
    assert Approvals(t.activations, s) + Pending(t.servers.rows, s) <= |ConsumedTokens(t.tokens.rows, s)|;
  }

  lemma {:induction false} ContactsAreConsumedTokens(r: Run, n: nat, s: string)
    requires IsRun(r) && n <= |r.steps|
    ensures |ConsumedTokens(r.states[n].tokens.rows, s)| == Contacts(r, n, s)
  {
    if n == 0 {
      NoneConsumedAtFirst(r, s);
    } else {
      ContactsAreConsumedTokens(r, n - 1, s);
      StepConsumes(r, n - 1, s);
    }
  }

  lemma NoneConsumedAtFirst(r: Run, s: string)
    requires IsRun(r)
    ensures ConsumedTokens(r.states[0].tokens.rows, s) == {}
  {
  }

  lemma StepConsumes(r: Run, i: nat, s: string)
    requires IsRun(r) && i < |r.steps|
    ensures |ConsumedTokens(r.states[i + 1].tokens.rows, s)| == |ConsumedTokens(r.states[i].tokens.rows, s)|
              + if r.steps[i].request.ConsumeBootstrapToken? && r.steps[i].request.server == s && Commits(r, i)
                then 1 else 0
  {
    Next(r, i);
    ContactConsumesOne(r.states[i], r.steps[i].now, r.checks, r.steps[i].request, s);
  }

  lemma ContactConsumesOne(t: Tables, now: int, checks: Checks, r: Request, s: string)
    ensures var (u, outcome) := Apply(t, now, checks, r);
            |ConsumedTokens(u.tokens.rows, s)| == |ConsumedTokens(t.tokens.rows, s)|
              + if r.ConsumeBootstrapToken? && r.server == s && outcome.Done? then 1 else 0
  {
    match r
    case ConsumeBootstrapToken(x, token, contact) => BootstrapConsumesOne(t, now, x, token, contact, s);
    case IssueBootstrapToken(x, token) =>
      assert ConsumedTokens(IssueToken(t, now, x, token).0.tokens.rows, s) == ConsumedTokens(t.tokens.rows, s);
    case _ => OtherRequestsKeepTokens(t, now, checks, r);
  }

  lemma BootstrapConsumesOne(t: Tables, now: int, x: string, token: string, c: Contact, s: string)
    ensures var (u, outcome) := Bootstrap(t, now, x, token, c);
            |ConsumedTokens(u.tokens.rows, s)| ==
              |ConsumedTokens(t.tokens.rows, s)| + if x == s && outcome.Done? then 1 else 0
  {
    var (u, outcome) := Bootstrap(t, now, x, token, c);
    if x == s && outcome.Done? {
      assert ConsumedTokens(u.tokens.rows, s) == ConsumedTokens(t.tokens.rows, s) + {token};
    } else {
      assert ConsumedTokens(u.tokens.rows, s) == ConsumedTokens(t.tokens.rows, s);
    }
  }

  lemma OtherRequestsKeepTokens(t: Tables, now: int, checks: Checks, r: Request)
    requires !r.ConsumeBootstrapToken? && !r.IssueBootstrapToken?
    ensures Apply(t, now, checks, r).0.tokens == t.tokens
  {
  }

  lemma {:induction false} EntriesAreApprovals(r: Run, n: nat, s: string)
    requires IsRun(r) && n <= |r.steps|
    ensures Entries(r, n, s) == Approvals(r.states[n].activations, s)
  {
    if n > 0 {
      EntriesAreApprovals(r, n - 1, s);
      StepEnters(r, n - 1, s);
    }
  }

  lemma {:induction false} StepEnters(r: Run, i: nat, s: string)
    requires IsRun(r) && i < |r.steps|
    ensures Approvals(r.states[i + 1].activations, s) == Approvals(r.states[i].activations, s)
              + if InState(r.states[i + 1], s, Active) && !InState(r.states[i], s, Active) then 1 else 0
  {
    RunsKeepInvariant(r, i);
    Next(r, i);
    EntryIsApproval(r.states[i], r.steps[i].now, r.checks, r.steps[i].request, s);
  }

  lemma {:induction false} EntryIsApproval(t: Tables, now: int, checks: Checks, r: Request, s: string)
    requires Invariant(t)
    ensures var u := Apply(t, now, checks, r).0;
            Approvals(u.activations, s) == Approvals(t.activations, s)
              + if InState(u, s, Active) && !InState(t, s, Active) then 1 else 0
  {
    match r
    case ApproveEnrollment(x, code) => ApprovalEnters(t, now, checks, x, code, s);
    case ActivateConfiguration(x, digest, observations, inventory) =>
      ConfigurationEntersNone(t, now, checks, x, digest, observations, inventory, s);
    case _ => OtherRequestsMakeNoneActive(t, now, checks, r, s);
  }

  lemma {:induction false} ApprovalEnters(t: Tables, now: int, checks: Checks, x: string, code: string, s: string)
    ensures var u := Approve(t, now, checks, x, code).0;
            Approvals(u.activations, s) == Approvals(t.activations, s)
              + if InState(u, s, Active) && !InState(t, s, Active) then 1 else 0
  {
    if Approve(t, now, checks, x, code).1.Done? {
      var server := t.servers.rows[x];
      ActivationsGrow(t.activations, Activation(x, server.profile, server.revision, now, Enrolling), s);
    }
  }

  lemma {:induction false} ConfigurationEntersNone(t: Tables, now: int, checks: Checks, x: string, digest: Digest,
                                                  observations: set<string>, inventory: Inventory, s: string)
    requires StagingOk(t.servers.rows, t.profiles.rows, t.staged.rows)
    ensures var u := ActivateProfile(t, now, checks, x, digest, observations, inventory).0;
            Approvals(u.activations, s) == Approvals(t.activations, s)
              && (InState(u, s, Active) <==> InState(t, s, Active))
  {
    if ActivateProfile(t, now, checks, x, digest, observations, inventory).1.Done? {
      var staged := t.staged.rows[x];
      assert StagedFits(t.profiles.rows, staged, t.servers.rows[x]);
      ActivationsGrow(t.activations, Activation(x, staged.profile, staged.revision, now, staged.operation), s);
    }
  }

  lemma OtherRequestsMakeNoneActive(t: Tables, now: int, checks: Checks, r: Request, s: string)
    requires !r.ApproveEnrollment? && !r.ActivateConfiguration?
    ensures var u := Apply(t, now, checks, r).0;
            u.activations == t.activations && (InState(u, s, Active) ==> InState(t, s, Active))
  {
    OtherRequestsLogNothing(t, now, checks, r);
    OtherRequestsKeepInactive(t, now, checks, r, s);
  }

  lemma OtherRequestsLogNothing(t: Tables, now: int, checks: Checks, r: Request)
    requires !r.ApproveEnrollment? && !r.ActivateConfiguration?
    ensures Apply(t, now, checks, r).0.activations == t.activations
  {
  }

  lemma OtherRequestsKeepInactive(t: Tables, now: int, checks: Checks, r: Request, s: string)
    requires !r.ApproveEnrollment? && !r.ActivateConfiguration?
    ensures InState(Apply(t, now, checks, r).0, s, Active) ==> InState(t, s, Active)
  {
  }
}
