/**
 The circuit breaker of apps/api/src/app/core/resilience.py. Every
 reading of the clock is an argument, so calls in flight may finish in any order.
 */
module Resilience {
  import opened Basics

  datatype Circuit = Closed | Open | HalfOpen

  datatype Config = Config(threshold: int, recovery: real, halfOpenMax: int)

  datatype Breaker = Breaker(state: Circuit, failures: int, lastFailure: real, halfOpenCalls: int)

  const FRESH := Breaker(Closed, 0, 0.0, 0)

  // ---------------------------------------------------------------- the steps of one call

  predicate Admits(c: Config, b: Breaker, now: real) {
    match b.state
    case Closed => true
    case Open => now - b.lastFailure >= c.recovery
    case HalfOpen => b.halfOpenCalls < c.halfOpenMax
  }

  function Probed(c: Config, b: Breaker, now: real): Breaker {
    if b.state.Open? && Admits(c, b, now) then b.(state := HalfOpen, halfOpenCalls := 0) else b
  }

  // The call up to the point where the function runs.
  function Begun(c: Config, b: Breaker, now: real): Breaker {
    var p := Probed(c, b, now);
    if Admits(c, b, now) && p.state.HalfOpen? then p.(halfOpenCalls := p.halfOpenCalls + 1) else p
  }

  function Succeeded(b: Breaker): Breaker {
    match b.state
    case HalfOpen => b.(state := Closed, failures := 0)
    case Closed => b.(failures := Max(0, b.failures - 1))
    case Open => b
  }

  function Failed(c: Config, b: Breaker, now: real): Breaker {
    var f := b.(failures := b.failures + 1, lastFailure := now);
    match b.state
    case HalfOpen => f.(state := Open)
    case Closed => if f.failures >= c.threshold then f.(state := Open) else f
    case Open => f
  }

  class CircuitBreaker {
    const config: Config
    var state: Circuit
    var failureCount: int
    var lastFailureTime: real
    var halfOpenCalls: int

    constructor (config: Config)
      ensures this.config == config && View() == FRESH
    {
      this.config := config;
      state, failureCount, lastFailureTime, halfOpenCalls := Closed, 0, 0.0, 0;
    }

    function View(): Breaker
      reads this
    {
      Breaker(state, failureCount, lastFailureTime, halfOpenCalls)
    }

    method CanExecute(now: real) returns (ok: bool)
      modifies this
      ensures ok == Admits(config, old(View()), now) && View() == Probed(config, old(View()), now)
    {
      if state == Closed {
        return true;
      }
      if state == Open {
        if now - lastFailureTime >= config.recovery {
          state, halfOpenCalls := HalfOpen, 0;
          return true;
        }
        return false;
      }
      return halfOpenCalls < config.halfOpenMax;
    }

    method RecordSuccess()
      modifies this
      ensures View() == Succeeded(old(View()))
    {
      if state == HalfOpen {
        state, failureCount := Closed, 0;
      } else if state == Closed {
        failureCount := Max(0, failureCount - 1);
      }
    }

    method RecordFailure(now: real)
      modifies this
      ensures View() == Failed(config, old(View()), now)
    {
      failureCount := failureCount + 1;
      lastFailureTime := now;
      if state == HalfOpen {
        state := Open;
      } else if state == Closed && failureCount >= config.threshold {
        state := Open;
      }
    }

    // The first half of `call`; the function runs after it, with no lock held.
    method Begin(now: real) returns (ok: bool)
      modifies this
      ensures ok == Admits(config, old(View()), now) && View() == Begun(config, old(View()), now)
    {
      ok := CanExecute(now);
      if ok && state == HalfOpen {
        halfOpenCalls := halfOpenCalls + 1;
      }
    }
  }

  // ---------------------------------------------------------------- all interleavings

  // Calls begin, and calls in flight finish, in any order; a call may also never finish.
  datatype Op = Begin | Succeed | Fail | Tick(dt: Span)

  datatype Sys = Sys(now: real, b: Breaker)

  function Next(c: Config, s: Sys, op: Op): Sys {
    match op
    case Begin => s.(b := Begun(c, s.b, s.now))
    case Succeed => s.(b := Succeeded(s.b))
    case Fail => s.(b := Failed(c, s.b, s.now))
    case Tick(dt) => s.(now := s.now + dt)
  }

  function Run(c: Config, now: real, ops: seq<Op>): Sys {
    if ops == [] then Sys(now, FRESH) else Next(c, Run(c, now, ops[..|ops| - 1]), ops[|ops| - 1])
  }

  // What an observer without the breaker's fields can compute: the time, and the last failure's time.
  function Clock(now: real, ops: seq<Op>): real {
    if ops == [] then now
    else
      var rest := Clock(now, ops[..|ops| - 1]);
      match ops[|ops| - 1] case Tick(dt) => rest + dt case _ => rest
  }

  function LastFail(now: real, ops: seq<Op>): real {
    if ops == [] then 0.0
    else if ops[|ops| - 1] == Fail then Clock(now, ops[..|ops| - 1])
    else LastFail(now, ops[..|ops| - 1])
  }

  // The calls let through since the circuit last went half-open.
  function Probes(c: Config, now: real, ops: seq<Op>): nat {
    if ops == [] then 0
    else
      var before, rest := Run(c, now, ops[..|ops| - 1]), Probes(c, now, ops[..|ops| - 1]);
      if ops[|ops| - 1] != Begin || !Admits(c, before.b, before.now) then rest
      else if before.b.state.Open? then 1
      else rest + 1
  }

  lemma RunStep(c: Config, now: real, ops: seq<Op>, n: nat)
    requires n < |ops|
    ensures Run(c, now, ops[..n + 1]) == Next(c, Run(c, now, ops[..n]), ops[n])
  {
    assert ops[..n + 1][..n] == ops[..n];
  }

  lemma {:induction false} ReachableIsSafe(c: Config, now: real, ops: seq<Op>)
    ensures var b := Run(c, now, ops).b;
            && 0 <= b.failures
            && (b.state.Closed? ==> b.failures < Max(1, c.threshold))
            && (b.state.HalfOpen? ==> 1 <= b.halfOpenCalls <= Max(1, c.halfOpenMax))
  {
    if ops != [] {
      ReachableIsSafe(c, now, ops[..|ops| - 1]);
    }
  }

  lemma {:induction false} FieldsAreHistory(c: Config, now: real, ops: seq<Op>)
    ensures Run(c, now, ops).now == Clock(now, ops)
    ensures Run(c, now, ops).b.lastFailure == LastFail(now, ops)
    ensures Run(c, now, ops).b.state.HalfOpen? ==> Run(c, now, ops).b.halfOpenCalls == Probes(c, now, ops)
  {
    if ops != [] {
      FieldsAreHistory(c, now, ops[..|ops| - 1]);
    }
  }

  // However many calls begin and finish, one half-open period lets at most the maximum through.
  lemma ProbesAreBounded(c: Config, now: real, ops: seq<Op>)
    requires 1 <= c.halfOpenMax && Run(c, now, ops).b.state.HalfOpen?
    ensures 1 <= Probes(c, now, ops) <= c.halfOpenMax
  {
    ReachableIsSafe(c, now, ops);
    FieldsAreHistory(c, now, ops);
  }

  // An open circuit lets the next call through exactly when the recovery time has passed since
  // the last failure of all, late ones of calls admitted earlier included.
  lemma OpenAdmitsExactlyAfterRecovery(c: Config, now: real, ops: seq<Op>)
    requires Run(c, now, ops).b.state.Open?
    ensures Admits(c, Run(c, now, ops).b, Run(c, now, ops).now)
            <==> Clock(now, ops) >= LastFail(now, ops) + c.recovery
  {
    FieldsAreHistory(c, now, ops);
  }

  // Over whole runs: once open, the circuit stays open and admits nothing while every call
  // arrives before the recovery time; late successes do not close it, late failures only extend it.
  lemma {:induction false} OpenKeepsOut(c: Config, now: real, ops: seq<Op>, n: nat)
    requires n <= |ops| && Run(c, now, ops[..n]).b.state.Open?
    requires forall k :: n <= k < |ops| && ops[k] == Begin
                         ==> Clock(now, ops[..k]) < LastFail(now, ops[..n]) + c.recovery
    requires now >= 0.0
    ensures Run(c, now, ops).b.state.Open? && LastFail(now, ops[..n]) <= LastFail(now, ops)
    ensures forall k :: n <= k < |ops| && ops[k] == Begin
                        ==> !Admits(c, Run(c, now, ops[..k]).b, Run(c, now, ops[..k]).now)
    decreases |ops|
  {
    if n == |ops| {
      assert ops[..n] == ops;
    } else {
      var p := ops[..|ops| - 1];
      assert forall k :: n <= k < |ops| ==> p[..k] == ops[..k];
      OpenKeepsOut(c, now, p, n);
      assert ops[..|p|] == p;
      FieldsAreHistory(c, now, p);
      LastFailIsPast(now, p);
    }
  }

  lemma {:induction false} LastFailIsPast(now: real, ops: seq<Op>)
    requires now >= 0.0
    ensures LastFail(now, ops) <= Clock(now, ops)
  {
    if ops != [] {
      LastFailIsPast(now, ops[..|ops| - 1]);
    }
  }

  // ---------------------------------------------------------------- probes whose outcome is never recorded

  // A half-open circuit at its maximum: a call cancelled while it runs records no outcome, and then
  // however long one waits and however many calls ask, nothing is let through.
  predicate IsStuck(c: Config, b: Breaker) { b.state.HalfOpen? && b.halfOpenCalls >= c.halfOpenMax }

  predicate Silent(ops: seq<Op>) { Succeed !in ops && Fail !in ops }

  lemma {:induction false} StuckStays(c: Config, now: real, ops: seq<Op>, more: seq<Op>)
    requires IsStuck(c, Run(c, now, ops).b) && Silent(more)
    ensures Run(c, now, ops + more).b == Run(c, now, ops).b
    ensures !Admits(c, Run(c, now, ops + more).b, Run(c, now, ops + more).now)
  {
    if more == [] {
      assert ops + more == ops;
    } else {
      var all, last := ops + more, more[|more| - 1];
      assert last in more;
      assert all[..|all| - 1] == ops + more[..|more| - 1];
      StuckStays(c, now, ops, more[..|more| - 1]);
    }
  }

  // It is left exactly at the first recorded outcome: a success closes the circuit, a failure opens it.
  lemma StuckUntilOutcome(c: Config, now: real, ops: seq<Op>, more: seq<Op>)
    requires IsStuck(c, Run(c, now, ops).b)
    ensures Silent(more) <==> forall k | 0 <= k <= |more| :: Run(c, now, ops + more[..k]).b == Run(c, now, ops).b
    ensures Silent(more) ==> !Admits(c, Run(c, now, ops + more).b, Run(c, now, ops + more).now)
    ensures Silent(more) ==> Run(c, now, ops + more + [Succeed]).b.state == Closed
                             && Run(c, now, ops + more + [Fail]).b.state == Open
  {
    if Silent(more) {
      forall k | 0 <= k <= |more| ensures Run(c, now, ops + more[..k]).b == Run(c, now, ops).b {
        StuckStays(c, now, ops, more[..k]);
      }
      StuckStays(c, now, ops, more);
      assert (ops + more + [Succeed])[..|ops + more|] == ops + more == (ops + more + [Fail])[..|ops + more|];
    } else {
      var k :| 0 <= k < |more| && (more[k] == Succeed || more[k] == Fail);
      assert (ops + more[..k + 1])[..|ops| + k] == ops + more[..k];
      if Run(c, now, ops + more[..k]).b == Run(c, now, ops).b {
        assert Run(c, now, ops + more[..k + 1]).b != Run(c, now, ops).b;
      }
    }
  }

  // Calls that begin together, and then fail one after another.
  function Failing(begun: nat, failed: nat): seq<Op> { Repeat(Begin, begun) + Repeat(Fail, failed) }

  lemma {:induction false} BegunTogether(c: Config, now: real, n: nat)
    ensures Run(c, now, Repeat(Begin, n)) == Sys(now, FRESH)
  {
    if n > 0 {
      BegunTogether(c, now, n - 1);
      assert Repeat(Begin, n)[..n - 1] == Repeat(Begin, n - 1);
    }
  }

  lemma {:induction false} FailingOpens(c: Config, now: real, begun: nat, n: nat)
    requires n <= Max(1, c.threshold)
    ensures var s := Run(c, now, Failing(begun, n));
            && s.now == now && s.b.failures == n
            && (if n < Max(1, c.threshold) then s.b.state.Closed? else s.b.state.Open? && s.b.lastFailure == now)
  {
    if n == 0 {
      BegunTogether(c, now, begun);
      assert Failing(begun, 0) == Repeat(Begin, begun);
    } else {
      FailingOpens(c, now, begun, n - 1);
      assert Failing(begun, n)[..begun + n - 1] == Failing(begun, n - 1);
    }
  }

  lemma {:induction false} ProbesBegun(c: Config, now: real, ops: seq<Op>, n: nat)
    requires 0.0 <= c.recovery && 1 <= n <= Max(1, c.halfOpenMax)
    requires Run(c, now, ops).b.state.Open? && Run(c, now, ops).b.lastFailure == Run(c, now, ops).now
    ensures var b := Run(c, now, ops + [Tick(c.recovery)] + Repeat(Begin, n)).b;
            b.state.HalfOpen? && b.halfOpenCalls == n
  {
    var waited := ops + [Tick(c.recovery)];
    assert waited[..|ops|] == ops;
    var all := waited + Repeat(Begin, n);
    assert all[..|all| - 1] == waited + Repeat(Begin, n - 1);
    if n == 1 {
      assert all[..|all| - 1] == waited;
    } else {
      ProbesBegun(c, now, ops, n - 1);
    }
  }

  // Such a state comes about when every probe is lost: the threshold of calls fail, the recovery
  // time passes, and the maximum of probes begin.
  lemma LostProbes(c: Config, now: real)
    requires 0.0 <= c.recovery
    ensures var t: nat, m: nat := Max(1, c.threshold), Max(1, c.halfOpenMax);
            IsStuck(c, Run(c, now, Failing(t, t) + [Tick(c.recovery)] + Repeat(Begin, m)).b)
  {
    var t: nat, m: nat := Max(1, c.threshold), Max(1, c.halfOpenMax);
    FailingOpens(c, now, t, t);
    ProbesBegun(c, now, Failing(t, t), m);
  }

  // ---------------------------------------------------------------- the count as a walk

  function Outcomes(ops: seq<Op>): seq<Op> {
    if ops == [] then []
    else
      var rest, last := Outcomes(ops[..|ops| - 1]), ops[|ops| - 1];
      if last.Succeed? || last.Fail? then rest + [last] else rest
  }

  // Failures minus successes.
  function Net(w: seq<Op>): int {
    if w == [] then 0
    else Net(w[..|w| - 1]) + (match w[|w| - 1] case Fail => 1 case Succeed => -1 case _ => 0)
  }

  // The largest excess of failures over successes in any suffix, the empty one included.
  ghost predicate IsPeak(m: int, w: seq<Op>) {
    (forall i :: 0 <= i <= |w| ==> Net(w[i..]) <= m) && exists i :: 0 <= i <= |w| && Net(w[i..]) == m
  }

  // Where the part of the run after the last change from half-open to closed begins.
  function LastClose(c: Config, now: real, ops: seq<Op>): (k: nat)
    ensures k <= |ops|
  {
    if ops == [] then 0
    else if ops[|ops| - 1] == Succeed && Run(c, now, ops[..|ops| - 1]).b.state.HalfOpen? then |ops|
    else LastClose(c, now, ops[..|ops| - 1])
  }

  function SinceClose(c: Config, now: real, ops: seq<Op>): seq<Op> {
    Outcomes(ops[LastClose(c, now, ops)..])
  }

  lemma NetSuffix(w: seq<Op>, op: Op, i: nat)
    requires i <= |w|
    ensures Net((w + [op])[i..]) == Net(w[i..]) + Net([op]) && Net((w + [op])[|w| + 1..]) == 0
  {
    var v := (w + [op])[i..];
    assert v[..|v| - 1] == w[i..] && v[|v| - 1] == op;
    assert [op][..0] == [];
  }

  lemma PeakStep(m: int, w: seq<Op>, op: Op)
    requires IsPeak(m, w) && (op.Succeed? || op.Fail?)
    ensures IsPeak(Max(0, m + Net([op])), w + [op])
  {
    var v := w + [op];
    forall i | 0 <= i <= |v| ensures Net(v[i..]) <= Max(0, m + Net([op])) {
      NetSuffix(w, op, if i <= |w| then i else 0);
    }
    var i :| 0 <= i <= |w| && Net(w[i..]) == m;
    NetSuffix(w, op, i);
    assert Net(v[i..]) == m + Net([op]) && Net(v[|v|..]) == 0;
  }

  lemma OneOutcome(op: Op)
    requires op.Succeed? || op.Fail?
    ensures Net([op]) == if op.Fail? then 1 else -1
  {
    assert [op][..0] == [];
  }

  lemma SinceCloseStep(c: Config, now: real, ops: seq<Op>, op: Op)
    ensures var k := LastClose(c, now, ops + [op]);
            SinceClose(c, now, ops + [op]) ==
              if k == |ops| + 1 then []
              else if op.Succeed? || op.Fail? then SinceClose(c, now, ops) + [op] else SinceClose(c, now, ops)
    ensures LastClose(c, now, ops + [op]) == |ops| + 1 <==> op == Succeed && Run(c, now, ops).b.state.HalfOpen?
  {
    var all := ops + [op];
    assert all[..|ops|] == ops;
    var k := LastClose(c, now, all);
    if k <= |ops| {
      var v := all[k..];
      assert v[..|v| - 1] == ops[k..] && v[|v| - 1] == op;
    } else {
      assert all[k..] == [];
    }
  }

  lemma PeakOfNothing()
    ensures IsPeak(0, [])
  {
    assert Net([][0..]) == 0;
  }

  lemma SinceNothing(c: Config, now: real)
    ensures SinceClose(c, now, []) == []
  {
  }

  // The failure count of a closed circuit is the peak of the outcomes since it last closed.
  lemma {:induction false} CountIsPeak(c: Config, now: real, ops: seq<Op>)
    requires Run(c, now, ops).b.state.Closed?
    ensures IsPeak(Run(c, now, ops).b.failures, SinceClose(c, now, ops))
    decreases ops
  {
    hide IsPeak, Net, SinceClose, LastClose, Outcomes, Admits;
    PeakOfNothing();
    if ops == [] {
      SinceNothing(c, now);
    } else {
      var p, op := ops[..|ops| - 1], ops[|ops| - 1];
      assert ops == p + [op];
      SinceCloseStep(c, now, p, op);
      ReachableIsSafe(c, now, p);
      if Run(c, now, p).b.state.Closed? {
        CountIsPeak(c, now, p);
        if op.Succeed? || op.Fail? {
          OneOutcome(op);
          PeakStep(Run(c, now, p).b.failures, SinceClose(c, now, p), op);
        }
      }
    }
  }

  lemma PeakIsUnique(m: int, n: int, w: seq<Op>)
    requires IsPeak(m, w) && IsPeak(n, w)
    ensures m == n
  {
    hide Net;
  }

  // A closed circuit opens exactly at the first outcome that takes the peak to the threshold.
  lemma {:induction false} OpensExactlyAtThreshold(c: Config, now: real, ops: seq<Op>, op: Op, peak: int)
    requires Run(c, now, ops).b.state.Closed? && (op.Succeed? || op.Fail?)
    requires IsPeak(peak, SinceClose(c, now, ops) + [op])
    ensures Run(c, now, ops + [op]).b.state ==
            if op.Fail? && peak >= c.threshold then Open else Closed
    ensures 1 <= c.threshold ==> (Run(c, now, ops + [op]).b.state.Open? <==> peak >= c.threshold)
  {
    hide IsPeak, Net, SinceClose, LastClose, Outcomes, Admits;
    CountIsPeak(c, now, ops);
    ReachableIsSafe(c, now, ops);
    var m := Run(c, now, ops).b.failures;
    OneOutcome(op);
    PeakStep(m, SinceClose(c, now, ops), op);
    PeakIsUnique(peak, Max(0, m + Net([op])), SinceClose(c, now, ops) + [op]);
    assert (ops + [op])[..|ops|] == ops;
  }
}
