/** The hysteresis timer of one rule, and what it means: a signal held without a break. */
module Timers {
  import opened Basics

  /** Times are whole microseconds, the resolution of the stored timestamps. */
  const SECOND := 1_000_000

  datatype RuleState = RuleState(active: bool, firingSince: Option<int>, clearingSince: Option<int>)

  const IDLE := RuleState(false, None, None)

  function TimerStart(value: Option<int>, now: int): int {
    if value.None? then now else if value.value <= now then value.value else now
  }

  function Elapsed(value: Option<int>, now: int): int {
    if value.None? || now < value.value then 0 else now - value.value
  }

  /** One timer: restarted by a missing signal, done once the signal has lasted `hold` seconds. */
  function Hold(since: Option<int>, signal: bool, now: int, hold: nat): (Option<int>, bool) {
    var start := TimerStart(since, now);
    if !signal then (None, false)
    else if now - start >= hold * SECOND then (None, true)
    else (Some(start), false)
  }

  /** The state after one sample: only the timer of the opposite transition runs. */
  function Advance(state: RuleState, now: int, firing: Option<bool>, clearing: Option<bool>,
                   firingSeconds: nat, clearingSeconds: nat): RuleState
  {
    if state.active then
      var (timer, done) := Hold(state.clearingSince, clearing == Some(true), now, clearingSeconds);
      RuleState(!done, None, timer)
    else
      var (timer, done) := Hold(state.firingSince, firing == Some(true), now, firingSeconds);
      RuleState(done, timer, None)
  }

  method AdvanceRule(state: Option<RuleState>, now: int, firing: Option<bool>, clearing: Option<bool>,
                     firingSeconds: nat, clearingSeconds: nat)
    returns (current: RuleState)
    ensures current == Advance(if state.Some? then state.value else IDLE, now, firing, clearing,
                               firingSeconds, clearingSeconds)
  {
    current := if state.Some? then state.value else RuleState(false, None, None);
    if current.active {
      current := current.(firingSince := None);
      if clearing == Some(true) {
        current := current.(clearingSince := Some(TimerStart(current.clearingSince, now)));
        if Elapsed(current.clearingSince, now) >= clearingSeconds * SECOND {
          current := current.(active := false);
          current := current.(clearingSince := None);
        }
      } else {
        current := current.(clearingSince := None);
      }
    } else {
      current := current.(clearingSince := None);
      if firing == Some(true) {
        current := current.(firingSince := Some(TimerStart(current.firingSince, now)));
        if Elapsed(current.firingSince, now) >= firingSeconds * SECOND {
          current := current.(active := true);
          current := current.(firingSince := None);
        }
      } else {
        current := current.(firingSince := None);
      }
    }
  }

  /** One evaluation of a rule that is present. */
  datatype Sample = Sample(now: int, firing: Option<bool>, clearing: Option<bool>)

  /** The firing and the clearing hold time, in seconds. */
  datatype Holds = Holds(firing: nat, clearing: nat) {
    function For(active: bool): nat { if active then clearing else firing }
  }

  /** The state after a run of samples, whatever the clock did between them. */
  function Run(h: seq<Sample>, k: Holds): RuleState {
    if h == [] then IDLE
    else
      var s := h[|h| - 1];
      Advance(Run(h[..|h| - 1], k), s.now, s.firing, s.clearing, k.firing, k.clearing)
  }

  /** A sample in favour of leaving the given activity. */
  predicate Signal(s: Sample, active: bool) {
    if active then s.clearing == Some(true) else s.firing == Some(true)
  }

  /** `acts[i]` is the activity before sample `i`. At sample `n` a signal to leave it has been held,
      without a break and without a change of activity, since some sample long enough ago. */
  ghost predicate Held(h: seq<Sample>, k: Holds, acts: seq<bool>, n: nat)
    requires n < |h| && n < |acts|
  {
    exists j :: 0 <= j <= n && HeldSince(h, acts, n, j, k.For(acts[n]) * SECOND)
  }

  ghost predicate HeldSince(h: seq<Sample>, acts: seq<bool>, n: nat, j: nat, hold: int)
    requires j <= n < |h| && n < |acts|
  {
    && (forall i :: j <= i <= n ==> acts[i] == acts[n] && Signal(h[i], acts[n]))
    && h[n].now - h[j].now >= hold
  }

  /** The meaning of hysteresis, without timers: activity changes exactly when a signal is held. */
  ghost predicate IsHoldTrace(h: seq<Sample>, k: Holds, acts: seq<bool>) {
    && |acts| == |h| + 1
    && acts[0] == false
    && forall n {:trigger acts[n + 1]} :: 0 <= n < |h| ==> acts[n + 1] == (acts[n] != Held(h, k, acts, n))
  }

  /** Samples at the same times and with the same signals have the same meaning. */
  lemma SignalsDecide(h: seq<Sample>, g: seq<Sample>, k: Holds, acts: seq<bool>)
    requires |g| == |h| && IsHoldTrace(h, k, acts)
    requires forall i :: 0 <= i < |h| ==>
               g[i].now == h[i].now && forall a: bool :: Signal(g[i], a) == Signal(h[i], a)
    ensures IsHoldTrace(g, k, acts)
  {
    forall n {:trigger acts[n + 1]} | 0 <= n < |g| ensures acts[n + 1] == (acts[n] != Held(g, k, acts, n)) {
      if Held(h, k, acts, n) {
        HeldBySignals(h, g, k, acts, n);
      }
      if Held(g, k, acts, n) {
        HeldBySignals(g, h, k, acts, n);
      }
    }
  }

  lemma HeldBySignals(h: seq<Sample>, g: seq<Sample>, k: Holds, acts: seq<bool>, n: nat)
    requires |g| == |h| && n < |h| && n < |acts| && Held(h, k, acts, n)
    requires forall i :: 0 <= i < |h| ==>
               g[i].now == h[i].now && forall a: bool :: Signal(g[i], a) == Signal(h[i], a)
    ensures Held(g, k, acts, n)
  {
    var j :| 0 <= j <= n && HeldSince(h, acts, n, j, k.For(acts[n]) * SECOND);
    assert HeldSince(g, acts, n, j, k.For(acts[n]) * SECOND);
  }

  /** The activity the machine goes through. */
  function Trace(h: seq<Sample>, k: Holds): (acts: seq<bool>)
    ensures |acts| == |h| + 1
  {
    seq(|h| + 1, i requires 0 <= i <= |h| => Run(h[..i], k).active)
  }

  /** Where the current unbroken block of signals began; `n` when there is none. */
  function BlockStart(h: seq<Sample>, acts: seq<bool>, n: nat): (j: nat)
    requires n <= |h| && n < |acts|
    ensures j <= n
    ensures forall i :: j <= i < n ==> acts[i] == acts[n] && Signal(h[i], acts[n])
    ensures j > 0 ==> !(acts[j - 1] == acts[n] && Signal(h[j - 1], acts[n]))
  {
    if n > 0 && acts[n - 1] == acts[n] && Signal(h[n - 1], acts[n]) then
      BlockStart(h, acts, n - 1)
    else n
  }

  /** The least timestamp among samples `j` to `n - 1`. */
  function Earliest(h: seq<Sample>, j: nat, n: nat): (least: int)
    requires j < n <= |h|
    ensures exists i :: j <= i < n && h[i].now == least
    ensures forall i :: j <= i < n ==> least <= h[i].now
  {
    if n == j + 1 then h[j].now
    else
      var rest := Earliest(h, j, n - 1);
      if rest <= h[n - 1].now then rest else h[n - 1].now
  }

  /** The stored timers are the least timestamp of the current block, or absent without a block. */
  ghost predicate TimersMatch(h: seq<Sample>, acts: seq<bool>, n: nat, st: RuleState)
    requires n <= |h| && n < |acts|
  {
    var j := BlockStart(h, acts, n);
    var since := if j == n then None else Some(Earliest(h, j, n));
    && st.active == acts[n]
    && (if st.active then st.clearingSince == since && st.firingSince == None
        else st.firingSince == since && st.clearingSince == None)
  }

  lemma {:induction false} RunExtends(h: seq<Sample>, k: Holds, n: nat)
    requires n < |h|
    ensures Run(h[..n + 1], k) ==
            Advance(Run(h[..n], k), h[n].now, h[n].firing, h[n].clearing, k.firing, k.clearing)
  {
    assert h[..n + 1][..n] == h[..n];
  }

  /** In every run the stored timer is the least timestamp of the unbroken block it measures. */
  lemma {:induction false} TimerIsEarliestOfBlock(h: seq<Sample>, k: Holds, n: nat)
    requires n <= |h|
    ensures TimersMatch(h, Trace(h, k), n, Run(h[..n], k))
  {
    if n > 0 {
      TimerIsEarliestOfBlock(h, k, n - 1);
      RunExtends(h, k, n - 1);
      TimersKeepMatching(h, k, Trace(h, k), n - 1, Run(h[..n - 1], k), Run(h[..n], k));
    }
  }

  lemma TimersKeepMatching(h: seq<Sample>, k: Holds, acts: seq<bool>, n: nat, st: RuleState, next: RuleState)
    requires n < |h| && n + 1 < |acts| && TimersMatch(h, acts, n, st)
    requires next == Advance(st, h[n].now, h[n].firing, h[n].clearing, k.firing, k.clearing)
    requires next.active == acts[n + 1]
    ensures TimersMatch(h, acts, n + 1, next)
  {
    BlockGrows(h, acts, n);
  }

  /** One more sample extends the block, or starts a new one. */
  lemma {:induction false} BlockGrows(h: seq<Sample>, acts: seq<bool>, n: nat)
    requires n < |h| && n + 1 < |acts|
    ensures var j := BlockStart(h, acts, n);
            BlockStart(h, acts, n + 1) ==
            if acts[n] == acts[n + 1] && Signal(h[n], acts[n]) then j else n + 1
  {
  }

  /** `Held` asks about the earliest timestamp of the block that the sample closes. */
  lemma {:induction false} HeldByEarliest(h: seq<Sample>, k: Holds, acts: seq<bool>, n: nat)
    requires n < |h| && n < |acts|
    ensures Held(h, k, acts, n) <==>
            Signal(h[n], acts[n])
            && h[n].now - Earliest(h, BlockStart(h, acts, n), n + 1) >= k.For(acts[n]) * SECOND
  {
    var b := BlockStart(h, acts, n);
    var hold := k.For(acts[n]) * SECOND;
    if Signal(h[n], acts[n]) && h[n].now - Earliest(h, b, n + 1) >= hold {
      var j :| b <= j < n + 1 && h[j].now == Earliest(h, b, n + 1);
      assert HeldSince(h, acts, n, j, hold);
    }
    if Held(h, k, acts, n) {
      var j :| 0 <= j <= n && HeldSince(h, acts, n, j, hold);
      BlockHoldsSince(h, acts, n, j, hold);
    }
  }

  lemma {:induction false} BlockHoldsSince(h: seq<Sample>, acts: seq<bool>, n: nat, j: nat, hold: int)
    requires j <= n < |h| && n < |acts| && HeldSince(h, acts, n, j, hold)
    ensures Signal(h[n], acts[n]) && h[n].now - Earliest(h, BlockStart(h, acts, n), n + 1) >= hold
  {
    assert BlockStart(h, acts, n) <= j;
  }

  /** The timer machine refines the timer-free meaning, for every run and every clock. */
  lemma MachineRefinesHold(h: seq<Sample>, k: Holds)
    ensures IsHoldTrace(h, k, Trace(h, k))
  {
    var acts := Trace(h, k);
    forall n | 0 <= n < |h| ensures acts[n + 1] == (acts[n] != Held(h, k, acts, n)) {
      TimerIsEarliestOfBlock(h, k, n);
      RunExtends(h, k, n);
      AdvanceToggles(h, k, acts, n, Run(h[..n], k));
    }
  }

  /** With timers that match, one advance toggles exactly when a signal is held. */
  lemma AdvanceToggles(h: seq<Sample>, k: Holds, acts: seq<bool>, n: nat, st: RuleState)
    requires n < |h| && n < |acts| && TimersMatch(h, acts, n, st)
    ensures Advance(st, h[n].now, h[n].firing, h[n].clearing, k.firing, k.clearing).active ==
            (acts[n] != Held(h, k, acts, n))
  {
    HeldByEarliest(h, k, acts, n);
    var b := BlockStart(h, acts, n);
    if b < n {
      assert Earliest(h, b, n + 1) == TimerStart(Some(Earliest(h, b, n)), h[n].now);
    }
  }

  /** Nothing else has that meaning: the samples determine the activity. */
  lemma {:induction false} HoldTraceIsUnique(h: seq<Sample>, k: Holds, a: seq<bool>, b: seq<bool>, n: nat)
    requires IsHoldTrace(h, k, a) && IsHoldTrace(h, k, b)
    requires n <= |h|
    ensures a[..n + 1] == b[..n + 1]
  {
    if n > 0 {
      HoldTraceIsUnique(h, k, a, b, n - 1);
      HeldReadsThePast(h, k, a, b, n - 1);
      assert a[n] == (a[n - 1] != Held(h, k, a, n - 1));
      assert b[n] == (b[n - 1] != Held(h, k, b, n - 1));
      assert a[n - 1] == a[..n][n - 1] == b[..n][n - 1] == b[n - 1];
      assert a[..n + 1] == a[..n] + [a[n]] && b[..n + 1] == b[..n] + [b[n]];
    }
  }

  lemma HeldReadsThePast(h: seq<Sample>, k: Holds, a: seq<bool>, b: seq<bool>, n: nat)
    requires n < |h| && n < |a| && n < |b| && a[..n + 1] == b[..n + 1]
    ensures Held(h, k, a, n) == Held(h, k, b, n)
  {
    assert forall i :: 0 <= i <= n ==> a[i] == a[..n + 1][i] && b[i] == b[..n + 1][i];
    var hold := k.For(a[n]) * SECOND;
    if Held(h, k, a, n) {
      var j :| 0 <= j <= n && HeldSince(h, a, n, j, hold);
      assert HeldSince(h, b, n, j, hold);
    }
    if Held(h, k, b, n) {
      var j :| 0 <= j <= n && HeldSince(h, b, n, j, hold);
      assert HeldSince(h, a, n, j, hold);
    }
  }

  // ---- flapping ----

  ghost predicate ClockNeverSteps(h: seq<Sample>) {
    forall i, j :: 0 <= i <= j < |h| ==> h[i].now <= h[j].now
  }

  predicate Toggles(acts: seq<bool>, n: nat)
    requires n + 1 < |acts|
  {
    acts[n] != acts[n + 1]
  }

  /** How often the rule becomes active at samples `i + 1` to `n`. */
  function Activations(acts: seq<bool>, i: nat, n: nat): nat
    requires i <= n && n + 1 < |acts|
  {
    if n == i then 0
    else Activations(acts, i, n - 1) + if !acts[n] && acts[n + 1] then 1 else 0
  }

  ghost predicate NoToggleBetween(acts: seq<bool>, p: nat, q: nat)
    requires q < |acts|
  {
    forall i :: p < i < q ==> !Toggles(acts, i)
  }

  /** Toggles that follow one another alternate, each a hold time after the one before. */
  ghost predicate HoldSpaced(h: seq<Sample>, k: Holds, acts: seq<bool>) {
    && |acts| == |h| + 1
    && forall p, q :: 0 <= p < q < |h| && Toggles(acts, p) && Toggles(acts, q) && NoToggleBetween(acts, p, q) ==>
         h[q].now - h[p].now >= k.For(acts[q]) * SECOND && acts[p] != acts[q]
  }

  lemma TogglesAreHoldSpaced(h: seq<Sample>, k: Holds, acts: seq<bool>)
    requires ClockNeverSteps(h) && IsHoldTrace(h, k, acts)
    ensures HoldSpaced(h, k, acts)
  {
    forall p, q | 0 <= p < q < |h| && Toggles(acts, p) && Toggles(acts, q) && NoToggleBetween(acts, p, q)
      ensures h[q].now - h[p].now >= k.For(acts[q]) * SECOND && acts[p] != acts[q]
    {
      assert acts[q + 1] == (acts[q] != Held(h, k, acts, q));
      var j :| 0 <= j <= q && HeldSince(h, acts, q, j, k.For(acts[q]) * SECOND);
      SteadyBetween(acts, p + 1, q);
      assert p < j;
      assert h[p].now <= h[j].now;
    }
  }

  lemma {:induction false} SteadyBetween(acts: seq<bool>, p: nat, q: nat)
    requires p <= q && q + 1 < |acts|
    requires forall i :: p <= i < q ==> !Toggles(acts, i)
    ensures acts[p] == acts[q]
    decreases q
  {
    if p < q {
      SteadyBetween(acts, p, q - 1);
      assert !Toggles(acts, q - 1);
    }
  }

  /** The last toggle at or before `n`. */
  function LastToggle(acts: seq<bool>, i: nat, n: nat): (p: nat)
    requires i <= n && n + 1 < |acts| && Toggles(acts, i)
    ensures i <= p <= n && Toggles(acts, p)
    ensures forall m :: p < m <= n ==> !Toggles(acts, m)
  {
    if Toggles(acts, n) then n else LastToggle(acts, i, n - 1)
  }

  /** The length of `m` cycles of firing and clearing. */
  function CycleTime(k: Holds, m: nat): int {
    if m == 0 then 0 else CycleTime(k, m - 1) + k.firing * SECOND + k.clearing * SECOND
  }

  lemma {:induction false} CycleTimeIsProduct(k: Holds, m: nat)
    ensures CycleTime(k, m) == m * (k.firing + k.clearing) * SECOND
  {
    if m > 0 {
      CycleTimeIsProduct(k, m - 1);
      assert m * (k.firing + k.clearing) == (m - 1) * (k.firing + k.clearing) + k.firing + k.clearing;
    }
  }

  /** From an activation to the last toggle so far, every further activation took a whole cycle. */
  lemma {:induction false} CyclesTakeTime(h: seq<Sample>, k: Holds, acts: seq<bool>, i: nat, n: nat)
    requires HoldSpaced(h, k, acts)
    requires i <= n < |h| && !acts[i] && acts[i + 1]
    ensures var p := LastToggle(acts, i, n);
            h[p].now - h[i].now >=
            CycleTime(k, Activations(acts, i, n)) + if acts[p] then k.clearing * SECOND else 0
    decreases n
  {
    if n > i {
      CyclesTakeTime(h, k, acts, i, n - 1);
      if Toggles(acts, n) {
        var p := LastToggle(acts, i, n - 1);
        assert NoToggleBetween(acts, p, n);
        assert acts[p] == acts[n + 1];
      }
    }
  }

  /** With a clock that never steps back, `m` further activations take at least `m` full cycles. */
  lemma {:induction false} FlappingIsBounded(h: seq<Sample>, k: Holds, i: nat, n: nat)
    requires ClockNeverSteps(h)
    requires i <= n < |h|
    requires !Trace(h, k)[i] && Trace(h, k)[i + 1]
    requires !Trace(h, k)[n] && Trace(h, k)[n + 1]
    ensures h[n].now - h[i].now >= Activations(Trace(h, k), i, n) * (k.firing + k.clearing) * SECOND
  {
    MachineRefinesHold(h, k);
    TogglesAreHoldSpaced(h, k, Trace(h, k));
    CyclesTakeTime(h, k, Trace(h, k), i, n);
    CycleTimeIsProduct(k, Activations(Trace(h, k), i, n));
  }
}
