/** Which profile a server had at a past time, answered from the activation log. */
module FleetActivations {
  import opened Basics
  import opened FleetTables
  import opened FleetInvariants
  import opened FleetRuns
  import opened FleetTokens

  predicate Candidate(a: Activation, s: string, until: int) {
    a.server == s && a.at <= until
  }

  /** The position of the server's activation that comes last by time, then by position, among those
      made until then. */
  function PositionAt(activations: seq<Activation>, s: string, until: int): (i: Option<nat>)
    ensures i.Some? ==> i.value < |activations|
  {
    if activations == [] then None
    else
      var n := |activations| - 1;
      var best := PositionAt(activations[..n], s, until);
      if Candidate(activations[n], s, until) && (best.None? || activations[best.value].at <= activations[n].at)
      then Some(n) else best
  }

  function ActivationAt(activations: seq<Activation>, s: string, until: int): Option<Activation> {
    var i := PositionAt(activations, s, until);
    if i.None? then None else Some(activations[i.value])
  }

  function ProfileRevisionAt(activations: seq<Activation>, s: string, until: int): Option<(string, nat)> {
    var a := ActivationAt(activations, s, until);
    if a.None? then None else Some((a.value.profile, a.value.revision))
  }

  /** No candidate is later than the entry found, and none as late follows it. */
  lemma {:induction false} PositionAtIsLast(activations: seq<Activation>, s: string, until: int)
    ensures var i := PositionAt(activations, s, until);
            forall k :: 0 <= k < |activations| && Candidate(activations[k], s, until) ==>
              i.Some? && NotAfter(activations, k, i.value)
    ensures var i := PositionAt(activations, s, until); i.Some? ==> Candidate(activations[i.value], s, until)
  {
    if activations != [] {
      var n := |activations| - 1;
      var before, best := activations[..n], PositionAt(activations[..n], s, until);
      PositionAtIsLast(before, s, until);
      forall k | 0 <= k < n && Candidate(activations[k], s, until)
        ensures best.Some? && NotAfter(activations, k, best.value)
      {
        assert before[k] == activations[k];
        assert NotAfter(before, k, best.value);
      }
    }
  }

  /** Entry k does not come after entry i. */
  predicate NotAfter(activations: seq<Activation>, k: nat, i: nat)
    requires k < |activations| && i < |activations|
  {
    activations[k].at < activations[i].at || (activations[k].at == activations[i].at && k <= i)
  }

  // ---- runs on a clock that never goes back ----

  predicate Clocked(r: Run) {
    forall i, j :: 0 <= i <= j < |r.steps| ==> r.steps[i].now <= r.steps[j].now
  }

  predicate Until(activations: seq<Activation>, time: int) {
    forall k :: 0 <= k < |activations| ==> activations[k].at <= time
  }

  predicate InOrder(activations: seq<Activation>) {
    forall i, j :: 0 <= i <= j < |activations| ==> activations[i].at <= activations[j].at
  }

  lemma RequestLogsNow(t: Tables, now: int, checks: Checks, r: Request)
    ensures var u := Apply(t, now, checks, r).0;
            u.activations == t.activations
            || exists a :: u.activations == t.activations + [a] && a.at == now
  {
    match r
    case ApproveEnrollment(x, code) =>
      if Approve(t, now, checks, x, code).1.Done? {
        var a := Activation(x, t.servers.rows[x].profile, t.servers.rows[x].revision, now, Enrolling);
        assert Approve(t, now, checks, x, code).0.activations == t.activations + [a] && a.at == now;
      }
    case ActivateConfiguration(x, digest, observations, inventory) =>
      if ActivateProfile(t, now, checks, x, digest, observations, inventory).1.Done? {
        var staged := t.staged.rows[x];
        var a := Activation(x, staged.profile, staged.revision, now, staged.operation);
        assert ActivateProfile(t, now, checks, x, digest, observations, inventory).0.activations == t.activations + [a]
          && a.at == now;
      }
    case _ => OtherRequestsMakeNoneActive(t, now, checks, r, "");
  }

  /** The log of a run is in time order and ends by the last step. */
  lemma {:induction false} LogIsInOrder(r: Run, n: nat, time: int)
    requires IsRun(r) && Clocked(r) && n <= |r.steps| && forall k :: 0 <= k < n ==> r.steps[k].now <= time
    ensures var log := r.states[n].activations; InOrder(log) && Until(log, time)
  {
    if n > 0 {
      var i := n - 1;
      assert forall k :: 0 <= k < i ==> r.steps[k].now <= r.steps[i].now;
      LogIsInOrder(r, i, r.steps[i].now);
      Next(r, i);
      RequestLogsNow(r.states[i], r.steps[i].now, r.checks, r.steps[i].request);
      assert r.steps[i].now <= time;
    }
  }

  /** In a log in time order the answer is the last entry. */
  lemma {:induction false} OrderedLogEndsLast(activations: seq<Activation>, s: string, until: int)
    requires InOrder(activations) && Until(activations, until)
    ensures ActivationAt(activations, s, until) == LastActivation(activations, s)
    ensures var a := ActivationAt(activations, s, until); a.Some? ==> a.value in activations
  {
    if activations != [] {
      OrderedLogEndsLast(activations[..|activations| - 1], s, until);
    }
  }

  /** Entries made later do not change the answer. */
  lemma {:induction false} LaterStepsDoNotMatter(r: Run, k: nat, n: nat, s: string, until: int)
    requires IsRun(r) && k <= n <= |r.steps| && forall j :: k <= j < n ==> until < r.steps[j].now
    ensures ActivationAt(r.states[n].activations, s, until) == ActivationAt(r.states[k].activations, s, until)
    decreases n
  {
    if k < n {
      var i := n - 1;
      LaterStepsDoNotMatter(r, k, i, s, until);
      assert until < r.steps[i].now;
      Next(r, i);
      RequestLogsNow(r.states[i], r.steps[i].now, r.checks, r.steps[i].request);
      LateEntryDoesNotMatter(r.states[i].activations, r.states[n].activations, r.steps[i].now, s, until);
    }
  }

  lemma LateEntryDoesNotMatter(log: seq<Activation>, log': seq<Activation>, now: int, s: string, until: int)
    requires log' == log || exists a :: log' == log + [a] && a.at == now
    requires until < now
    ensures ActivationAt(log', s, until) == ActivationAt(log, s, until)
  {
    if log' != log {
      assert log'[..|log|] == log;
    }
  }

  /** On a clock that never goes back the log answers with the profile revision the server really had
      after its last commit until then, once the server was approved, and with nothing before. */
  lemma {:induction false} LogAgreesWithHistory(r: Run, n: nat, k: nat, s: string, until: int)
    requires IsRun(r) && Clocked(r) && k <= n <= |r.steps|
    requires forall j :: 0 <= j < k ==> r.steps[j].now <= until
    requires forall j :: k <= j < n ==> until < r.steps[j].now
    ensures var past, answer := r.states[k], ProfileRevisionAt(r.states[n].activations, s, until);
            if Approvals(past.activations, s) == 0 then answer.None?
            else s in past.servers.rows
                 && answer == Some((past.servers.rows[s].profile, past.servers.rows[s].revision))
  {
    var past := r.states[k];
    LaterStepsDoNotMatter(r, k, n, s, until);
    LogIsInOrder(r, k, until);
    OrderedLogEndsLast(past.activations, s, until);
    RunsKeepInvariant(r, k);
    assert ActivationFits(LastActivation(past.activations, s), s in past.verified.rows, Get(past.servers.rows, s));
    VerifiedWhenApproved(r, k, s);
  }

  /** A server's inventory is verified exactly when the server was ever approved. */
  lemma {:induction false} VerifiedWhenApproved(r: Run, n: nat, s: string)
    requires IsRun(r) && n <= |r.steps|
    ensures s in r.states[n].verified.rows <==> Approvals(r.states[n].activations, s) > 0
  {
    if n > 0 {
      var i := n - 1;
      VerifiedWhenApproved(r, i, s);
      RunsKeepInvariant(r, i);
      Next(r, i);
      EntryIsApproval(r.states[i], r.steps[i].now, r.checks, r.steps[i].request, s);
      VerifiedOnEntry(r.states[i], r.steps[i].now, r.checks, r.steps[i].request, s);
    }
  }

  lemma VerifiedOnEntry(t: Tables, now: int, checks: Checks, r: Request, s: string)
    requires Invariant(t)
    ensures var u := Apply(t, now, checks, r).0;
            s in u.verified.rows <==> s in t.verified.rows || (InState(u, s, Active) && !InState(t, s, Active))
  {
    match r
    case ApproveEnrollment(x, code) => ApprovalVerifies(t, now, checks, x, code, s);
    case ActivateConfiguration(x, digest, observations, inventory) =>
      ConfigurationEntersNone(t, now, checks, x, digest, observations, inventory, s);
      OtherRequestsVerifyNone(t, now, checks, r, s);
    case _ =>
      OtherRequestsMakeNoneActive(t, now, checks, r, s);
      OtherRequestsVerifyNone(t, now, checks, r, s);
  }

  lemma ApprovalVerifies(t: Tables, now: int, checks: Checks, x: string, code: string, s: string)
    ensures var u := Approve(t, now, checks, x, code).0;
            s in u.verified.rows <==> s in t.verified.rows || (InState(u, s, Active) && !InState(t, s, Active))
  {
  }

  lemma OtherRequestsVerifyNone(t: Tables, now: int, checks: Checks, r: Request, s: string)
    requires !r.ApproveEnrollment?
    ensures s in Apply(t, now, checks, r).0.verified.rows <==> s in t.verified.rows
  {
  }
}
