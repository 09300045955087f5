/**
 The circuit breaker of apps/api/src/app/core/circuit_breaker.py, whose counter is a
 streak and whose success handler closes the circuit from any state.
 */
module CircuitBreaker {
  import opened Basics

  datatype Circuit = Closed | Open | HalfOpen

  datatype Config = Config(threshold: int, timeout: real, halfOpenMax: int)

  datatype Breaker = Breaker(state: Circuit, failures: int, openedAt: Option<real>, halfOpenCalls: int)

  const FRESH := Breaker(Closed, 0, None, 0)

  // ---------------------------------------------------------------- the steps of one call

  // Reading the `state` property.
  function Observed(c: Config, b: Breaker, now: real): Breaker {
    if b.state.Open? && b.openedAt.Some? && now - b.openedAt.value >= c.timeout
    then b.(state := HalfOpen, halfOpenCalls := 0)
    else b
  }

  predicate Admits(c: Config, b: Breaker, now: real) {
    match Observed(c, b, now).state
    case Closed => true
    case Open => false
    case HalfOpen => Observed(c, b, now).halfOpenCalls < c.halfOpenMax
  }

  function Begun(c: Config, b: Breaker, now: real): Breaker {
    var o := Observed(c, b, now);
    if o.state.HalfOpen? && o.halfOpenCalls < c.halfOpenMax then o.(halfOpenCalls := o.halfOpenCalls + 1) else o
  }

  function Tripped(now: real): Breaker { Breaker(Open, 0, Some(now), 0) }

  function Failed(c: Config, b: Breaker, now: real): Breaker {
    if b.state.HalfOpen? || b.failures + 1 >= c.threshold then Tripped(now) else b.(failures := b.failures + 1)
  }

  class CircuitBreaker {
    const cfg: Config
    var currentState: Circuit
    var failures: int
    var openedAt: Option<real>
    var halfOpenCalls: int

    constructor (cfg: Config)
      ensures this.cfg == cfg && View() == FRESH
    {
      this.cfg := cfg;
      currentState, failures, openedAt, halfOpenCalls := Closed, 0, None, 0;
    }

    function View(): Breaker
      reads this
    {
      Breaker(currentState, failures, openedAt, halfOpenCalls)
    }

    method State(now: real) returns (s: Circuit)
      modifies this
      ensures View() == Observed(cfg, old(View()), now) && s == View().state
    {
      if currentState == Open && openedAt != None {
        if now - openedAt.value >= cfg.timeout {
          currentState, halfOpenCalls := HalfOpen, 0;
        }
      }
      return currentState;
    }

    method Trip(now: real)
      modifies this
      ensures View() == Tripped(now)
    {
      currentState, openedAt, failures, halfOpenCalls := Open, Some(now), 0, 0;
    }

    // False stands for the exception.
    method BeforeCall(now: real) returns (ok: bool)
      modifies this
      ensures ok == Admits(cfg, old(View()), now) && View() == Begun(cfg, old(View()), now)
    {
      var s := State(now);
      if s == Open {
        return false;
      }
      if s == HalfOpen {
        if halfOpenCalls >= cfg.halfOpenMax {
          return false;
        }
        halfOpenCalls := halfOpenCalls + 1;
      }
      return true;
    }

    method OnSuccess()
      modifies this
      ensures View() == FRESH
    {
      failures, halfOpenCalls, currentState, openedAt := 0, 0, Closed, None;
    }

    method OnFailure(now: real)
      modifies this
      ensures View() == Failed(cfg, old(View()), now)
    {
      failures := failures + 1;
      if currentState == HalfOpen {
        Trip(now);
        return;
      }
      if failures >= cfg.threshold {
        Trip(now);
      }
    }
  }

  // ---------------------------------------------------------------- all interleavings

  datatype Op = Begin | Succeed | Fail | Read | Tick(dt: Span)

  datatype Sys = Sys(now: real, b: Breaker)

  function Next(c: Config, s: Sys, op: Op): Sys {
    match op
    case Begin => s.(b := Begun(c, s.b, s.now))
    case Succeed => s.(b := FRESH)
    case Fail => s.(b := Failed(c, s.b, s.now))
    case Read => s.(b := Observed(c, s.b, s.now))
    case Tick(dt) => s.(now := s.now + dt)
  }

  function Run(c: Config, now: real, ops: seq<Op>): Sys {
    if ops == [] then Sys(now, FRESH) else Next(c, Run(c, now, ops[..|ops| - 1]), ops[|ops| - 1])
  }

  // Failures recorded after the last recorded success.
  function Streak(ops: seq<Op>): nat {
    if ops == [] then 0
    else
      match ops[|ops| - 1]
      case Succeed => 0
      case Fail => Streak(ops[..|ops| - 1]) + 1
      case _ => Streak(ops[..|ops| - 1])
  }

  // Calls let through since the circuit last opened or closed.
  function Probes(c: Config, now: real, ops: seq<Op>): nat {
    if ops == [] then 0
    else
      var before, after, rest :=
        Run(c, now, ops[..|ops| - 1]), Run(c, now, ops), Probes(c, now, ops[..|ops| - 1]);
      if !after.b.state.HalfOpen? then 0
      else if ops[|ops| - 1] == Begin && Admits(c, before.b, before.now) then rest + 1
      else rest
  }

  lemma {:induction false} ReachableIsSafe(c: Config, now: real, ops: seq<Op>)
    ensures var b := Run(c, now, ops).b;
            && 0 <= b.failures < Max(1, c.threshold)
            && (b.openedAt.Some? <==> !b.state.Closed?)
            && (b.openedAt.Some? ==> b.openedAt.value <= Run(c, now, ops).now)
            && 0 <= b.halfOpenCalls <= Max(0, c.halfOpenMax)
            && b.halfOpenCalls == Probes(c, now, ops)
            && (!b.state.HalfOpen? ==> b.halfOpenCalls == 0)
  {
    if ops != [] {
      ReachableIsSafe(c, now, ops[..|ops| - 1]);
    }
  }

  // The circuit is closed exactly when fewer than the threshold of failures have come in since the
  // last success, whichever calls they belong to; and while closed the counter is that streak.
  lemma {:induction false} ClosedIffShortStreak(c: Config, now: real, ops: seq<Op>)
    ensures Run(c, now, ops).b.state.Closed? <==> Streak(ops) < Max(1, c.threshold)
    ensures Run(c, now, ops).b.state.Closed? ==> Run(c, now, ops).b.failures == Streak(ops)
  {
    if ops != [] {
      ClosedIffShortStreak(c, now, ops[..|ops| - 1]);
    }
  }

  // From an opening until its timeout a call is let through exactly when a success recorded
  // meanwhile has closed the circuit and no new streak has opened it again.
  lemma {:induction false} BeforeTimeout(c: Config, now: real, ops: seq<Op>, n: nat)
    requires n <= |ops| && Run(c, now, ops[..n]).b.state.Open? && Run(c, now, ops[..n]).b.openedAt.Some?
    requires Run(c, now, ops).now < Run(c, now, ops[..n]).b.openedAt.value + c.timeout
    ensures var s, t := Run(c, now, ops), Run(c, now, ops[..n]).b.openedAt.value;
            && !s.b.state.HalfOpen? && (s.b.openedAt.Some? ==> t <= s.b.openedAt.value) && t <= s.now
            && (Admits(c, s.b, s.now) <==> Streak(ops) < Max(1, c.threshold))
    decreases |ops|
  {
    ClosedIffShortStreak(c, now, ops);
    ReachableIsSafe(c, now, ops);
    if n == |ops| {
      assert ops[..n] == ops;
    } else {
      var p := ops[..|ops| - 1];
      assert p[..n] == ops[..n];
      BeforeTimeout(c, now, p, n);
      ReachableIsSafe(c, now, p);
    }
  }

  lemma {:induction false} StreakGrows(ops: seq<Op>, more: seq<Op>)
    requires Succeed !in more
    ensures Streak(ops) <= Streak(ops + more)
  {
    if more == [] {
      assert ops + more == ops;
    } else {
      var all := ops + more;
      assert all[..|all| - 1] == ops + more[..|more| - 1];
      assert all[|all| - 1] == more[|more| - 1] && more[|more| - 1] in more;
      StreakGrows(ops, more[..|more| - 1]);
    }
  }

  // So without a success in between, nothing is let through before the timeout.
  lemma OpenKeepsOut(c: Config, now: real, ops: seq<Op>, more: seq<Op>)
    requires Run(c, now, ops).b.state.Open? && Succeed !in more
    requires Run(c, now, ops).b.openedAt.Some?
    requires Run(c, now, ops + more).now < Run(c, now, ops).b.openedAt.value + c.timeout
    ensures var s := Run(c, now, ops + more); !Admits(c, s.b, s.now) && s.b.state.Open?
  {
    assert (ops + more)[..|ops|] == ops;
    ClosedIffShortStreak(c, now, ops);
    StreakGrows(ops, more);
    ClosedIffShortStreak(c, now, ops + more);
    BeforeTimeout(c, now, ops + more, |ops|);
  }

  // Calls that begin together, and then fail one after another.
  function Failing(begun: nat, failed: nat): seq<Op> { Repeat(Begin, begun) + Repeat(Fail, failed) }

  lemma {:induction false} BegunTogether(c: Config, now: real, n: nat)
    ensures Run(c, now, Repeat(Begin, n)) == Sys(now, FRESH)
  {
    if n > 0 {
      BegunTogether(c, now, n - 1);
      assert Repeat(Begin, n)[..n - 1] == Repeat(Begin, n - 1);
    }
  }

  lemma FailingStep(begun: nat, failed: nat)
    ensures Failing(begun, failed + 1) == Failing(begun, failed) + [Fail]
    ensures Failing(begun, failed + 1)[..begun + failed] == Failing(begun, failed)
  {
  }

  lemma {:induction false} FailingCounts(c: Config, now: real, n: nat, k: nat)
    requires k < Max(1, c.threshold)
    ensures Run(c, now, Failing(n, k)) == Sys(now, FRESH.(failures := k))
  {
    if k == 0 {
      BegunTogether(c, now, n);
      assert Failing(n, 0) == Repeat(Begin, n);
    } else {
      FailingCounts(c, now, n, k - 1);
      FailingStep(n, k - 1);
    }
  }

  lemma FailingTrips(c: Config, now: real, n: nat)
    ensures Run(c, now, Failing(n, Max(1, c.threshold))) == Sys(now, Tripped(now))
  {
    var t: nat := Max(1, c.threshold);
    FailingCounts(c, now, n, t - 1);
    FailingStep(n, t - 1);
  }

  lemma BegunFirst(begun: nat, failed: nat, k: nat)
    requires k < begun
    ensures Failing(begun, failed)[k] == Begin && Failing(begun, failed)[..k] == Repeat(Begin, k)
  {
  }

  lemma SucceedResets(c: Config, now: real, ops: seq<Op>)
    ensures Run(c, now, ops + [Succeed]) == Run(c, now, ops).(b := FRESH)
  {
    assert (ops + [Succeed])[..|ops|] == ops;
  }

  // And with one it can be, at every threshold: one call more than the threshold is in flight, all
  // let through; the threshold of them fail and open the circuit, the last succeeds and closes it,
  // and the next call is let through with no time gone by.
  lemma LateSuccessCloses(c: Config, now: real)
    requires 0.0 < c.timeout
    ensures var t: nat := Max(1, c.threshold);
            var trip := Failing(t + 1, t);
            && (forall k | 0 <= k <= t :: trip[k] == Begin && Run(c, now, trip[..k]) == Sys(now, FRESH))
            && Admits(c, FRESH, now)
            && Run(c, now, trip).b == Tripped(now) && !Admits(c, Run(c, now, trip).b, now)
            && Run(c, now, trip + [Succeed]) == Sys(now, FRESH)
  {
    var t: nat := Max(1, c.threshold);
    var trip := Failing(t + 1, t);
    FailingTrips(c, now, t + 1);
    forall k | 0 <= k <= t ensures trip[k] == Begin && Run(c, now, trip[..k]) == Sys(now, FRESH) {
      BegunFirst(t + 1, t, k);
      BegunTogether(c, now, k);
    }
    SucceedResets(c, now, trip);
    hide Run, Failing;
  }

  // ---------------------------------------------------------------- probes whose outcome is never recorded

  // A half-open circuit at its maximum: however long it waits and however many calls ask, it lets
  // nothing through, until an outcome is recorded.
  predicate IsStuck(c: Config, b: Breaker) { b.state.HalfOpen? && b.halfOpenCalls >= c.halfOpenMax }

  predicate Silent(ops: seq<Op>) { Succeed !in ops && Fail !in ops }

  lemma {:induction false} StuckStays(c: Config, now: real, ops: seq<Op>, more: seq<Op>)
    requires IsStuck(c, Run(c, now, ops).b) && Silent(more)
    ensures Run(c, now, ops + more).b == Run(c, now, ops).b
    ensures !Admits(c, Run(c, now, ops + more).b, Run(c, now, ops + more).now)
  {
    if more == [] {
      assert ops + more == ops;
    } else {
      var all, last := ops + more, more[|more| - 1];
      assert last in more;
      assert all[..|all| - 1] == ops + more[..|more| - 1];
      StuckStays(c, now, ops, more[..|more| - 1]);
    }
  }

  // It is left exactly at the first recorded outcome: a success closes the circuit, a failure opens it.
  lemma StuckUntilOutcome(c: Config, now: real, ops: seq<Op>, more: seq<Op>)
    requires IsStuck(c, Run(c, now, ops).b)
    ensures Silent(more) <==> forall k | 0 <= k <= |more| :: Run(c, now, ops + more[..k]).b == Run(c, now, ops).b
    ensures Silent(more) ==> !Admits(c, Run(c, now, ops + more).b, Run(c, now, ops + more).now)
    ensures Silent(more) ==> Run(c, now, ops + more + [Succeed]).b == FRESH
                             && Run(c, now, ops + more + [Fail]).b == Tripped(Run(c, now, ops + more).now)
  {
    if Silent(more) {
      forall k | 0 <= k <= |more| ensures Run(c, now, ops + more[..k]).b == Run(c, now, ops).b {
        StuckStays(c, now, ops, more[..k]);
      }
      StuckStays(c, now, ops, more);
      assert (ops + more + [Succeed])[..|ops + more|] == ops + more == (ops + more + [Fail])[..|ops + more|];
    } else {
      var k :| 0 <= k < |more| && (more[k] == Succeed || more[k] == Fail);
      assert (ops + more[..k + 1])[..|ops| + k] == ops + more[..k];
      if Run(c, now, ops + more[..k]).b == Run(c, now, ops).b {
        assert Run(c, now, ops + more[..k + 1]).b != Run(c, now, ops).b;
      }
    }
  }

  // Such a state comes about when every probe is lost: the threshold of calls fail, the timeout
  // passes, and the maximum of probes begin.
  lemma LostProbes(c: Config, now: real)
    requires 0.0 <= c.timeout
    ensures var t: nat, m: nat := Max(1, c.threshold), Max(1, c.halfOpenMax);
            IsStuck(c, Run(c, now, Failing(t, t) + [Tick(c.timeout)] + Repeat(Begin, m)).b)
  {
    var t: nat, m: nat := Max(1, c.threshold), Max(1, c.halfOpenMax);
    FailingTrips(c, now, t);
    ProbesBegun(c, now, Failing(t, t), m);
  }

  lemma {:induction false} ProbesBegun(c: Config, now: real, ops: seq<Op>, n: nat)
    requires 0.0 <= c.timeout && 1 <= n <= Max(1, c.halfOpenMax)
    requires Run(c, now, ops).b == Tripped(Run(c, now, ops).now)
    ensures var b := Run(c, now, ops + [Tick(c.timeout)] + Repeat(Begin, n)).b;
            b.state.HalfOpen? && b.halfOpenCalls == Min(n, Max(0, c.halfOpenMax))
  {
    var waited := ops + [Tick(c.timeout)];
    assert waited[..|ops|] == ops;
    var all := waited + Repeat(Begin, n);
    assert all[..|all| - 1] == waited + Repeat(Begin, n - 1);
    if n == 1 {
      assert all[..|all| - 1] == waited;
    } else {
      ProbesBegun(c, now, ops, n - 1);
    }
  }
}
