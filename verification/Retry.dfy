/**
 The retry loop around the circuit breaker, apps/api/src/app/core/resilience.py. The
 wrapped function, the random numbers and the clock are arguments.
 */
module Retry {
  import opened Basics
  import opened Resilience

  datatype Policy = Policy(maxRetries: int, baseDelay: real, maxDelay: real, exponentialBase: real, jitter: bool)

  // RaisesOpen: the function itself raises the breaker's error, as a nested breaker does.
  datatype Effect = Returns | Raises | RaisesOpen

  datatype Attempt = Attempt(effect: Effect, took: Span)

  // Refused: by this breaker. Exhausted: the last exception. NothingToRaise: `raise None`.
  datatype Ending = Returned | Refused | PassedOn | Exhausted | NothingToRaise

  datatype Report = Report(ending: Ending, calls: nat, sleeps: seq<real>, now: real, b: Breaker)

  function Pow(x: real, n: nat): real { if n == 0 then 1.0 else x * Pow(x, n - 1) }

  function Uncapped(p: Policy, k: nat): real { p.baseDelay * Pow(p.exponentialBase, k) }

  function Backoff(p: Policy, k: nat): real {
    if Uncapped(p, k) < p.maxDelay then Uncapped(p, k) else p.maxDelay
  }

  function Delay(p: Policy, random: nat -> real, k: nat): real {
    if p.jitter then Backoff(p, k) * (0.5 + random(k) * 0.5) else Backoff(p, k)
  }

  // How long a sleep takes; one that is not positive returns at once.
  function Pause(d: real): real { if d > 0.0 then d else 0.0 }

  // Attempt number k, which is also invocation number k, and all that follows it.
  function From(c: Config, p: Policy, f: nat -> Attempt, random: nat -> real, k: nat, now: real, sleeps: seq<real>,
                b: Breaker): Report
    requires k <= p.maxRetries
    decreases p.maxRetries - k
  {
    var running := Begun(c, b, now);
    if !Admits(c, b, now) then Report(Refused, k, sleeps, now, running)
    else
      var t := now + f(k).took;
      match f(k).effect
      case Returns => Report(Returned, k + 1, sleeps, t, Succeeded(running))
      case RaisesOpen => Report(PassedOn, k + 1, sleeps, t, Failed(c, running, t))
      case Raises =>
        if k == p.maxRetries then Report(Exhausted, k + 1, sleeps, t, Failed(c, running, t))
        else
          var d := Delay(p, random, k);
          From(c, p, f, random, k + 1, t + Pause(d), sleeps + [d], Failed(c, running, t))
  }

  function Execute(c: Config, p: Policy, f: nat -> Attempt, random: nat -> real, now: real, b: Breaker): Report {
    if p.maxRetries < 0 then Report(NothingToRaise, 0, [], now, b) else From(c, p, f, random, 0, now, [], b)
  }

  method ExecuteWithResilience(breaker: CircuitBreaker, p: Policy, f: nat -> Attempt, random: nat -> real, start: real)
    returns (r: Report)
    modifies breaker
    ensures r == Execute(breaker.config, p, f, random, start, old(breaker.View())) && breaker.View() == r.b
  {
    hide Admits, Begun, Failed, Succeeded, Delay, Pause;
    ghost var c, whole := breaker.config, Execute(breaker.config, p, f, random, start, breaker.View());
    var now, sleeps, attempt, ending := start, [], 0, NothingToRaise;
    while attempt <= p.maxRetries
      invariant attempt <= p.maxRetries ==> whole == From(c, p, f, random, attempt, now, sleeps, breaker.View())
      invariant attempt > p.maxRetries ==> whole == Report(ending, attempt, sleeps, now, breaker.View())
    {
      var ok := breaker.Begin(now);
      if !ok {
        return Report(Refused, attempt, sleeps, now, breaker.View());
      }
      now := now + f(attempt).took;
      if f(attempt).effect == Returns {
        breaker.RecordSuccess();
        return Report(Returned, attempt + 1, sleeps, now, breaker.View());
      }
      breaker.RecordFailure(now);
      if f(attempt).effect == RaisesOpen {
        return Report(PassedOn, attempt + 1, sleeps, now, breaker.View());
      }
      ending := Exhausted;
      if attempt < p.maxRetries {
        var delay := Delay(p, random, attempt);
        sleeps := sleeps + [delay];
        now := now + Pause(delay);
      }
      attempt := attempt + 1;
    }
    return Report(ending, attempt, sleeps, now, breaker.View());
  }

  // ---------------------------------------------------------------- every run of the loop

  lemma {:induction false} ShapeFrom(c: Config, p: Policy, f: nat -> Attempt, random: nat -> real, k: nat, now: real,
                                     sleeps: seq<real>, b: Breaker)
    requires k <= p.maxRetries && |sleeps| == k && forall j :: 0 <= j < k ==> sleeps[j] == Delay(p, random, j)
    ensures var r := From(c, p, f, random, k, now, sleeps, b);
            && k <= r.calls <= p.maxRetries + 1
            && |r.sleeps| == (if r.ending == Refused then r.calls else r.calls - 1)
            && (forall j :: 0 <= j < |r.sleeps| ==> r.sleeps[j] == Delay(p, random, j))
            && (forall j :: k <= j < r.calls - 1 ==> f(j).effect == Raises)
            && (r.ending == Exhausted ==> r.calls == p.maxRetries + 1)
            && (r.ending == Refused ==> r.calls <= p.maxRetries)
            && (r.ending == Returned <==> r.calls > k && f(r.calls - 1).effect == Returns)
            && (r.ending == PassedOn <==> r.calls > k && f(r.calls - 1).effect == RaisesOpen)
            && (r.ending != NothingToRaise)
    decreases p.maxRetries - k
  {
    if Admits(c, b, now) && f(k).effect == Raises && k < p.maxRetries {
      var t, d := now + f(k).took, Delay(p, random, k);
      ShapeFrom(c, p, f, random, k + 1, t + Pause(d), sleeps + [d], Failed(c, Begun(c, b, now), t));
    }
  }

  // Whatever the function and the breaker do: at most one more call than retries, a sleep of the
  // scheduled length between any two calls, and a value is returned iff the last call gave one.
  lemma LoopIsBounded(c: Config, p: Policy, f: nat -> Attempt, random: nat -> real, now: real, b: Breaker)
    requires 0 <= p.maxRetries
    ensures var r := Execute(c, p, f, random, now, b);
            && r.calls <= p.maxRetries + 1
            && |r.sleeps| == (if r.ending == Refused then r.calls else r.calls - 1)
            && (forall j :: 0 <= j < |r.sleeps| ==> r.sleeps[j] == Delay(p, random, j))
            && (r.ending == Returned <==> r.calls > 0 && f(r.calls - 1).effect == Returns)
            && (r.ending == Exhausted ==> r.calls == p.maxRetries + 1)
            && (r.ending == Refused ==> r.calls <= p.maxRetries)
  {
    ShapeFrom(c, p, f, random, 0, now, [], b);
  }

  // How the loop ends, by its last call: a value, or the breaker's own error, is passed on at once; any
  // other exception comes out when no retry is left; and a refusal ends the loop before that.
  lemma EndingsAreExact(c: Config, p: Policy, f: nat -> Attempt, random: nat -> real, now: real, b: Breaker)
    ensures var r := Execute(c, p, f, random, now, b);
            if p.maxRetries < 0 then r == Report(NothingToRaise, 0, [], now, b)
            else if r.calls == 0 then r.ending == Refused
            else
              match f(r.calls - 1).effect
              case Returns => r.ending == Returned
              case RaisesOpen => r.ending == PassedOn
              case Raises => r.ending == if r.calls == p.maxRetries + 1 then Exhausted else Refused
  {
    if 0 <= p.maxRetries {
      ShapeFrom(c, p, f, random, 0, now, [], b);
      hide From;
    }
  }

  // ---------------------------------------------------------------- the loop as a run of the breaker

  function Stepped(c: Config, s: Sys, ops: seq<Op>): Sys {
    if ops == [] then s else Next(c, Stepped(c, s, ops[..|ops| - 1]), ops[|ops| - 1])
  }

  function Outcome(a: Attempt): Op { if a.effect == Returns then Succeed else Fail }

  // One call that is let through, and the outcome it records.
  function Called(a: Attempt): seq<Op> { [Begin, Tick(a.took), Outcome(a)] }

  // The first `n` calls, each with the sleep after it, if there is one.
  function Calls(f: nat -> Attempt, sleeps: seq<real>, n: nat): seq<Op> {
    if n == 0 then []
    else
      Calls(f, sleeps, n - 1) + Called(f(n - 1)) + if n <= |sleeps| then [Tick(Pause(sleeps[n - 1]))] else []
  }

  // All that the loop does to the breaker, and the time it takes.
  function Steps(f: nat -> Attempt, r: Report): seq<Op> {
    Calls(f, r.sleeps, r.calls) + if r.ending == Refused then [Begin] else []
  }

  lemma {:induction false} SteppedOn(c: Config, s: Sys, a: seq<Op>, b: seq<Op>)
    ensures Stepped(c, s, a + b) == Stepped(c, Stepped(c, s, a), b)
    decreases |b|
  {
    if b == [] {
      assert a + b == a;
    } else {
      hide Next;
      assert (a + b)[..|a + b| - 1] == a + b[..|b| - 1];
      SteppedOn(c, s, a, b[..|b| - 1]);
    }
  }

  lemma SteppedOne(c: Config, s: Sys, op: Op)
    ensures Stepped(c, s, [op]) == Next(c, s, op)
  {
    hide Next;
    assert [op][..0] == [];
  }

  lemma CalledSteps(c: Config, s: Sys, a: Attempt)
    ensures Stepped(c, s, Called(a)) == Next(c, Next(c, Next(c, s, Begin), Tick(a.took)), Outcome(a))
  {
    hide Next, Outcome;
    assert [Begin, Tick(a.took), Outcome(a)] == [Begin] + [Tick(a.took)] + [Outcome(a)];
    SteppedOn(c, s, [Begin] + [Tick(a.took)], [Outcome(a)]);
    SteppedOn(c, s, [Begin], [Tick(a.took)]);
    SteppedOne(c, s, Begin);
    SteppedOne(c, Next(c, s, Begin), Tick(a.took));
    SteppedOne(c, Next(c, Next(c, s, Begin), Tick(a.took)), Outcome(a));
  }

  // A later sleep does not change the calls before it.
  lemma {:induction false} CallsPrefix(f: nat -> Attempt, sleeps: seq<real>, d: real, n: nat)
    requires n <= |sleeps|
    ensures Calls(f, sleeps + [d], n) == Calls(f, sleeps, n)
    decreases n
  {
    if n > 0 {
      hide Called, Pause;
      CallsPrefix(f, sleeps, d, n - 1);
    }
  }

  lemma CallsStep(f: nat -> Attempt, sleeps: seq<real>, d: real)
    ensures var k := |sleeps|;
            && Calls(f, sleeps, k + 1) == Calls(f, sleeps, k) + Called(f(k))
            && Calls(f, sleeps + [d], k + 1) == Calls(f, sleeps, k) + Called(f(k)) + [Tick(Pause(d))]
  {
    hide Called, Pause;
    CallsPrefix(f, sleeps, d, |sleeps|);
    assert Calls(f, sleeps, |sleeps|) + Called(f(|sleeps|)) + [] == Calls(f, sleeps, |sleeps|) + Called(f(|sleeps|));
  }

  // Where a call that is let through takes the breaker, and where the sleep after it does.
  lemma CalledState(c: Config, s: Sys, a: Attempt, d: real)
    ensures var t := s.now + a.took;
            var running := Begun(c, s.b, s.now);
            var b := if a.effect == Returns then Succeeded(running) else Failed(c, running, t);
            && Stepped(c, s, Called(a)) == Sys(t, b)
            && Stepped(c, s, Called(a) + [Tick(Pause(d))]) == Sys(t + Pause(d), b)
  {
    CalledSteps(c, s, a);
    SteppedOn(c, s, Called(a), [Tick(Pause(d))]);
    SteppedOne(c, Stepped(c, s, Called(a)), Tick(Pause(d)));
    hide Begun, Succeeded, Failed, Stepped, Pause, Called;
  }

  lemma LastCall(c: Config, s: Sys, f: nat -> Attempt, sleeps: seq<real>, now: real, b: Breaker, d: real)
    requires Stepped(c, s, Calls(f, sleeps, |sleeps|)) == Sys(now, b)
    ensures var k := |sleeps|;
            var t := now + f(k).took;
            var running := Begun(c, b, now);
            var after := if f(k).effect == Returns then Succeeded(running) else Failed(c, running, t);
            && Stepped(c, s, Calls(f, sleeps, k + 1)) == Sys(t, after)
            && Stepped(c, s, Calls(f, sleeps + [d], k + 1)) == Sys(t + Pause(d), after)
            && Stepped(c, s, Calls(f, sleeps, k) + [Begin]) == Sys(now, running)
  {
    var k := |sleeps|;
    var before := Calls(f, sleeps, k);
    CallsStep(f, sleeps, d);
    CalledState(c, Sys(now, b), f(k), d);
    SteppedOn(c, s, before, Called(f(k)));
    SteppedOn(c, s, before, Called(f(k)) + [Tick(Pause(d))]);
    SteppedOn(c, s, before, [Begin]);
    SteppedOne(c, Sys(now, b), Begin);
    assert before + Called(f(k)) + [Tick(Pause(d))] == before + (Called(f(k)) + [Tick(Pause(d))]);
    hide Begun, Succeeded, Failed, Stepped, Pause, Called, Calls;
  }

  // How one round of the loop goes on or ends.
  lemma {:induction false} FromRound(c: Config, p: Policy, f: nat -> Attempt, random: nat -> real, now: real,
                                     sleeps: seq<real>, b: Breaker)
    requires |sleeps| <= p.maxRetries
    ensures var k := |sleeps|;
            var r := From(c, p, f, random, k, now, sleeps, b);
            var t, d := now + f(k).took, Delay(p, random, k);
            var running := Begun(c, b, now);
            if !Admits(c, b, now) then r == Report(Refused, k, sleeps, now, running)
            else if f(k).effect == Raises && k < p.maxRetries then
              r == From(c, p, f, random, k + 1, t + Pause(d), sleeps + [d], Failed(c, running, t))
            else
              && r.calls == k + 1 && r.sleeps == sleeps && r.ending != Refused && r.now == t
              && r.b == if f(k).effect == Returns then Succeeded(running) else Failed(c, running, t)
  {
    hide Begun, Admits, Succeeded, Failed, Delay, Pause;
  }

  lemma StepsAre(f: nat -> Attempt, r: Report)
    ensures var calls := Calls(f, r.sleeps, r.calls);
            Steps(f, r) == if r.ending == Refused then calls + [Begin] else calls
  {
    hide Calls;
    assert Calls(f, r.sleeps, r.calls) + [] == Calls(f, r.sleeps, r.calls);
  }

  lemma {:induction false} FromRuns(c: Config, p: Policy, f: nat -> Attempt, random: nat -> real, now: real,
                                    sleeps: seq<real>, b: Breaker, s: Sys)
    requires |sleeps| <= p.maxRetries && Stepped(c, s, Calls(f, sleeps, |sleeps|)) == Sys(now, b)
    ensures var r := From(c, p, f, random, |sleeps|, now, sleeps, b);
            Stepped(c, s, Steps(f, r)) == Sys(r.now, r.b)
    decreases p.maxRetries - |sleeps|
  {
    hide *;
    var k := |sleeps|;
    var t, d := now + f(k).took, Delay(p, random, k);
    FromRound(c, p, f, random, now, sleeps, b);
    StepsAre(f, From(c, p, f, random, k, now, sleeps, b));
    LastCall(c, s, f, sleeps, now, b, d);
    if Admits(c, b, now) && f(k).effect == Raises && k < p.maxRetries {
      FromRuns(c, p, f, random, t + Pause(d), sleeps + [d], Failed(c, Begun(c, b, now), t), s);
    }
  }

  // Whatever the function does, the loop is a run of the breaker's own steps: per call a begin, the
  // time it takes and its outcome, between calls the time slept, and at a refusal one more begin.
  lemma {:induction false} LoopIsRun(c: Config, p: Policy, f: nat -> Attempt, random: nat -> real, now: real, b: Breaker)
    ensures var r := Execute(c, p, f, random, now, b);
            Stepped(c, Sys(now, b), Steps(f, r)) == Sys(r.now, r.b)
  {
    if 0 <= p.maxRetries {
      FromRuns(c, p, f, random, now, [], b, Sys(now, b));
    }
  }

  lemma {:induction false} CallsOf(f: nat -> Attempt, a: seq<real>, b: seq<real>, n: nat)
    requires n <= |a| && a <= b
    ensures Calls(f, a, n) == Calls(f, b, n)
    decreases n
  {
    if n > 0 {
      hide Called, Pause;
      CallsOf(f, a, b, n - 1);
    }
  }

  // The breaker when call number `k` is about to be made.
  function BeforeCall(c: Config, f: nat -> Attempt, sleeps: seq<real>, k: nat, start: Sys): Sys {
    Stepped(c, start, Calls(f, sleeps, k))
  }

  lemma {:induction false} FromAdmits(c: Config, p: Policy, f: nat -> Attempt, random: nat -> real, now: real,
                                      sleeps: seq<real>, b: Breaker, s: Sys)
    requires |sleeps| <= p.maxRetries && BeforeCall(c, f, sleeps, |sleeps|, s) == Sys(now, b)
    ensures var r := From(c, p, f, random, |sleeps|, now, sleeps, b);
            && sleeps <= r.sleeps
            && (forall j: nat | |sleeps| <= j < r.calls ::
                  var t := BeforeCall(c, f, r.sleeps, j, s); Admits(c, t.b, t.now))
            && (r.ending == Refused ==> var t := BeforeCall(c, f, r.sleeps, r.calls, s); !Admits(c, t.b, t.now))
    decreases p.maxRetries - |sleeps|
  {
    hide *;
    var k := |sleeps|;
    var t, d := now + f(k).took, Delay(p, random, k);
    var r := From(c, p, f, random, k, now, sleeps, b);
    FromRound(c, p, f, random, now, sleeps, b);
    BeforeCallIs(c, f, sleeps, k, s);
    BeforeCallIs(c, f, sleeps + [d], k + 1, s);
    LastCall(c, s, f, sleeps, now, b, d);
    if Admits(c, b, now) && f(k).effect == Raises && k < p.maxRetries {
      FromAdmits(c, p, f, random, t + Pause(d), sleeps + [d], Failed(c, Begun(c, b, now), t), s);
    }
    CallsOf(f, sleeps, r.sleeps, k);
    BeforeCallIs(c, f, r.sleeps, k, s);
  }

  lemma BeforeCallIs(c: Config, f: nat -> Attempt, sleeps: seq<real>, k: nat, s: Sys)
    ensures BeforeCall(c, f, sleeps, k, s) == Stepped(c, s, Calls(f, sleeps, k))
  {
  }

  // Every call is made in a state that admits it, and a refusal comes from one that does not.
  lemma CallsAreAdmitted(c: Config, p: Policy, f: nat -> Attempt, random: nat -> real, now: real, b: Breaker)
    requires 0 <= p.maxRetries
    ensures var r := Execute(c, p, f, random, now, b);
            && (forall k: nat | k < r.calls :: var t := BeforeCall(c, f, r.sleeps, k, Sys(now, b)); Admits(c, t.b, t.now))
            && (r.ending == Refused ==> var t := BeforeCall(c, f, r.sleeps, r.calls, Sys(now, b)); !Admits(c, t.b, t.now))
  {
    FromAdmits(c, p, f, random, now, [], b, Sys(now, b));
    hide From, Admits, BeforeCall;
  }

  lemma {:induction false} CallsSucceed(f: nat -> Attempt, sleeps: seq<real>, n: nat)
    requires forall j: nat | j < n - 1 :: f(j).effect != Returns
    ensures Succeed in Calls(f, sleeps, n) <==> 0 < n && f(n - 1).effect == Returns
    decreases n
  {
    if n > 0 {
      hide Pause;
      CallsSucceed(f, sleeps, n - 1);
      assert Outcome(f(n - 1)) in Called(f(n - 1));
    }
  }

  // That run records a success iff the loop returns a value.
  lemma {:induction false} SuccessIffReturned(c: Config, p: Policy, f: nat -> Attempt, random: nat -> real, now: real,
                                              b: Breaker)
    ensures var r := Execute(c, p, f, random, now, b);
            Succeed in Steps(f, r) <==> r.ending == Returned
  {
    if 0 <= p.maxRetries {
      var r := Execute(c, p, f, random, now, b);
      ShapeFrom(c, p, f, random, 0, now, [], b);
      CallsSucceed(f, r.sleeps, r.calls);
    }
  }

  // A call that returns at once, over an open circuit past its recovery time or a half-open one with
  // room, closes the circuit.
  lemma ReturnCloses(c: Config, p: Policy, f: nat -> Attempt, random: nat -> real, now: real, b: Breaker)
    requires 0 <= p.maxRetries && f(0).effect == Returns
    requires || (b.state == Open && b.lastFailure + c.recovery <= now)
             || (b.state == HalfOpen && b.halfOpenCalls < c.halfOpenMax)
    ensures var r := Execute(c, p, f, random, now, b);
            && r.ending == Returned && r.calls == 1 && r.sleeps == [] && r.now == now + f(0).took
            && r.b.state == Closed && r.b.failures == 0
  {
  }

  lemma {:induction false} ReturnFrom(c: Config, p: Policy, f: nat -> Attempt, random: nat -> real, k: nat, n: nat,
                                      now: real, sleeps: seq<real>, b: Breaker)
    requires k <= n <= p.maxRetries && b.state == Closed && 0 <= b.failures && b.failures + (n - k) < c.threshold
    requires f(n).effect == Returns && forall j: nat | j < n :: f(j).effect == Raises
    ensures var r := From(c, p, f, random, k, now, sleeps, b);
            && r.ending == Returned && r.calls == n + 1
            && r.b.state == Closed && r.b.failures == Max(0, b.failures + (n - k) - 1)
    decreases n - k
  {
    if k < n {
      var t, d := now + f(k).took, Delay(p, random, k);
      ReturnFrom(c, p, f, random, k + 1, n, t + Pause(d), sleeps + [d], Failed(c, Begun(c, b, now), t));
    }
  }

  // Over a closed circuit, failures that do not trip it and then a return leave one failure less than
  // they made.
  lemma ReturnCountsDown(c: Config, p: Policy, f: nat -> Attempt, random: nat -> real, n: nat, now: real, b: Breaker)
    requires n <= p.maxRetries && b.state == Closed && 0 <= b.failures && b.failures + n < c.threshold
    requires f(n).effect == Returns && forall j: nat | j < n :: f(j).effect == Raises
    ensures var r := Execute(c, p, f, random, now, b);
            && r.ending == Returned && r.calls == n + 1
            && r.b.state == Closed && r.b.failures == Max(0, b.failures + n - 1)
  {
    ReturnFrom(c, p, f, random, 0, n, now, [], b);
  }

  // ---------------------------------------------------------------- retry against trip

  // After failure number k the circuit is open and still refuses when the sleep ends.
  predicate Blocks(c: Config, p: Policy, random: nat -> real, failures: int, k: nat) {
    failures + k + 1 >= c.threshold && Pause(Delay(p, random, k)) < c.recovery
  }

  // The breaker as attempt k finds it when all k before have failed.
  predicate Waiting(c: Config, p: Policy, random: nat -> real, failures: int, k: nat, now: real, b: Breaker) {
    && b.failures == failures + k
    && (if k == 0 || b.failures < c.threshold then b.state == Closed
        else b.state == Open && now == b.lastFailure + Pause(Delay(p, random, k - 1)))
  }

  lemma {:induction false} AlwaysFailingFrom(c: Config, p: Policy, f: nat -> Attempt, random: nat -> real,
                                             failures: nat, k: nat, now: real, sleeps: seq<real>, b: Breaker)
    requires k <= p.maxRetries && Waiting(c, p, random, failures, k, now, b)
    requires forall j: nat :: f(j).effect == Raises
    ensures var r := From(c, p, f, random, k, now, sleeps, b);
            && k <= r.calls <= p.maxRetries + 1 && r.ending == (if r.calls <= p.maxRetries then Refused else Exhausted)
            && (r.calls <= p.maxRetries ==> 0 < r.calls && Blocks(c, p, random, failures, r.calls - 1))
            && forall j: nat :: k <= j + 1 < r.calls ==> !Blocks(c, p, random, failures, j)
    decreases p.maxRetries - k
  {
    if Admits(c, b, now) && k < p.maxRetries {
      var t, d := now + f(k).took, Delay(p, random, k);
      AlwaysFailingFrom(c, p, f, random, failures, k + 1, t + Pause(d), sleeps + [d], Failed(c, Begun(c, b, now), t));
    }
  }

  // A function that always fails is called until the first failure that blocks the next call, or
  // until the retries run out, and the breaker's error is what the caller sees iff one blocks.
  lemma AlwaysFailing(c: Config, p: Policy, f: nat -> Attempt, random: nat -> real, now: real, b: Breaker, n: nat)
    requires b.state.Closed? && 0 <= b.failures && n <= p.maxRetries
    requires forall k: nat :: f(k).effect == Raises
    requires forall k: nat :: k < n ==> !Blocks(c, p, random, b.failures, k)
    requires n == p.maxRetries || Blocks(c, p, random, b.failures, n)
    ensures var r := Execute(c, p, f, random, now, b);
            && r.calls == n + 1
            && r.ending == (if n == p.maxRetries then Exhausted else Refused)
  {
    AlwaysFailingFrom(c, p, f, random, b.failures, 0, now, [], b);
  }

  // Every delay below the recovery time: the threshold decides.
  lemma FailsFast(c: Config, p: Policy, f: nat -> Attempt, random: nat -> real, now: real, b: Breaker)
    requires b.state.Closed? && 0 <= b.failures < c.threshold && 0 <= p.maxRetries
    requires forall k: nat :: f(k).effect == Raises
    requires forall k: nat :: k < p.maxRetries ==> Pause(Delay(p, random, k)) < c.recovery
    ensures var r, left := Execute(c, p, f, random, now, b), c.threshold - b.failures;
            && r.calls == Min(p.maxRetries + 1, left)
            && (r.ending == Refused <==> left <= p.maxRetries)
            && (r.ending == Exhausted <==> p.maxRetries < left)
            && |r.sleeps| == Min(p.maxRetries, left)
  {
    AlwaysFailing(c, p, f, random, now, b, Min(p.maxRetries, c.threshold - b.failures - 1));
    LoopIsBounded(c, p, f, random, now, b);
  }

  // ---------------------------------------------------------------- the time slept

  function Total(s: seq<real>): real { if s == [] then 0.0 else Total(s[..|s| - 1]) + s[|s| - 1] }

  function Backoffs(p: Policy, n: nat): (s: seq<real>)
    ensures |s| == n
  {
    if n == 0 then [] else Backoffs(p, n - 1) + [Backoff(p, n - 1)]
  }

  lemma ProductNonNegative(x: real, y: real)
    requires 0.0 <= x && 0.0 <= y
    ensures 0.0 <= x * y
  {
  }

  lemma PowNonNegative(x: real, n: nat)
    requires 0.0 <= x
    ensures 0.0 <= Pow(x, n)
  {
    if n > 0 {
      PowNonNegative(x, n - 1);
      ProductNonNegative(x, Pow(x, n - 1));
    }
  }

  lemma DelayBound(p: Policy, random: nat -> real, k: nat)
    requires 0.0 <= p.baseDelay && 0.0 <= p.maxDelay && 0.0 <= p.exponentialBase && 0.0 <= random(k) < 1.0
    ensures 0.0 <= Backoff(p, k) / 2.0 <= Delay(p, random, k) <= Backoff(p, k)
  {
    PowNonNegative(p.exponentialBase, k);
    var b := Backoff(p, k);
    var u := 0.5 + random(k) * 0.5;
    ProductNonNegative(p.baseDelay, Pow(p.exponentialBase, k));
    assert 0.0 <= Uncapped(p, k);
    ProductNonNegative(b, random(k));
    ProductNonNegative(b, 1.0 - u);
    assert b * u == b - b * (1.0 - u) == b * 0.5 + b * random(k) * 0.5;
  }

  // With jitter a delay can be any from half the schedule's up to the whole of it.
  lemma JitterReaches(p: Policy, k: nat, delay: real)
    requires p.jitter && Backoff(p, k) / 2.0 <= delay < Backoff(p, k)
    ensures var u := delay / Backoff(p, k) * 2.0 - 1.0;
            0.0 <= u < 1.0 && Delay(p, (_: nat) => u, k) == delay
  {
    var b := Backoff(p, k);
    var q := delay / b;
    Quotient(delay, b);
    assert b * (0.5 + (q * 2.0 - 1.0) * 0.5) == q * b;
  }

  lemma Quotient(x: real, b: real)
    requires b / 2.0 <= x < b
    ensures b > 0.0 && x / b * b == x && 0.5 <= x / b < 1.0
  {
    assert b > 0.0;
    var q := x / b;
    assert q * b == x;
    Ratio(q, b, x);
  }

  lemma Ratio(q: real, b: real, x: real)
    requires 0.0 < b && b / 2.0 <= x < b && q * b == x
    ensures 0.5 <= q < 1.0
  {
    if q < 0.5 {
      LessTimes(q, 0.5, b);
    }
    assert 1.0 * b == b;
    if 1.0 <= q {
      NoMoreTimes(1.0, q, b);
    }
  }

  lemma NoMoreTimes(p: real, q: real, b: real)
    requires p <= q && 0.0 < b
    ensures p * b <= q * b
  {
    ProductNonNegative(q - p, b);
    assert (q - p) * b == q * b - p * b;
  }

  lemma LessTimes(p: real, q: real, b: real)
    requires p < q && 0.0 < b
    ensures p * b < q * b
  {
    assert (q - p) * b > 0.0;
    assert (q - p) * b == q * b - p * b;
  }

  lemma {:induction false} TotalBound(p: Policy, random: nat -> real, s: seq<real>)
    requires 0.0 <= p.baseDelay && 0.0 <= p.maxDelay && 0.0 <= p.exponentialBase
    requires forall k: nat :: 0.0 <= random(k) < 1.0
    requires forall k: nat :: k < |s| ==> s[k] == Delay(p, random, k)
    ensures 0.0 <= Total(Backoffs(p, |s|)) / 2.0 <= Total(s) <= Total(Backoffs(p, |s|))
  {
    if s != [] {
      var n := |s| - 1;
      TotalBound(p, random, s[..n]);
      DelayBound(p, random, n);
    }
  }

  // The delay the settings ask for after failure number `k`: it grows from the base, up to the cap.
  function Due(p: Policy, k: nat): real {
    if p.maxDelay <= p.baseDelay * Pow(p.exponentialBase, k) then p.maxDelay else p.baseDelay * Pow(p.exponentialBase, k)
  }

  // Every sleep is between half of it and all of it, and without jitter just that.
  lemma SleepsAreDue(c: Config, p: Policy, f: nat -> Attempt, random: nat -> real, now: real, b: Breaker)
    requires 0 <= p.maxRetries && 0.0 <= p.baseDelay && 0.0 <= p.maxDelay && 0.0 <= p.exponentialBase
    requires forall k: nat :: 0.0 <= random(k) < 1.0
    ensures var r := Execute(c, p, f, random, now, b);
            forall k: nat | k < |r.sleeps| ::
              Due(p, k) / 2.0 <= r.sleeps[k] <= Due(p, k) && (!p.jitter ==> r.sleeps[k] == Due(p, k))
  {
    LoopIsBounded(c, p, f, random, now, b);
    hide Execute, Pow;
    var r := Execute(c, p, f, random, now, b);
    forall k: nat | k < |r.sleeps|
      ensures Due(p, k) / 2.0 <= r.sleeps[k] <= Due(p, k) && (!p.jitter ==> r.sleeps[k] == Due(p, k))
    {
      DelayBound(p, random, k);
    }
  }

  function Took(f: nat -> Attempt, n: nat): real { if n == 0 then 0.0 else Took(f, n - 1) + f(n - 1).took }

  lemma {:induction false} FromTakes(c: Config, p: Policy, f: nat -> Attempt, random: nat -> real, now: real,
                                     sleeps: seq<real>, b: Breaker)
    requires |sleeps| <= p.maxRetries && forall k: nat :: 0.0 <= Delay(p, random, k)
    ensures var r := From(c, p, f, random, |sleeps|, now, sleeps, b);
            r.now - Took(f, r.calls) - Total(r.sleeps) == now - Took(f, |sleeps|) - Total(sleeps)
    decreases p.maxRetries - |sleeps|
  {
    hide Delay, Admits, Begun, Failed, Succeeded, From;
    var k := |sleeps|;
    var t, d := now + f(k).took, Delay(p, random, k);
    FromRound(c, p, f, random, now, sleeps, b);
    if Admits(c, b, now) && f(k).effect == Raises && k < p.maxRetries {
      assert (sleeps + [d])[..k] == sleeps;
      FromTakes(c, p, f, random, t + Pause(d), sleeps + [d], Failed(c, Begun(c, b, now), t));
    }
  }

  // The whole takes what the calls take and what is slept between them, and nothing else.
  lemma TimeAddsUp(c: Config, p: Policy, f: nat -> Attempt, random: nat -> real, now: real, b: Breaker)
    requires 0 <= p.maxRetries && 0.0 <= p.baseDelay && 0.0 <= p.maxDelay && 0.0 <= p.exponentialBase
    requires forall k: nat :: 0.0 <= random(k) < 1.0
    ensures var r := Execute(c, p, f, random, now, b); r.now == now + Took(f, r.calls) + Total(r.sleeps)
  {
    hide Delay, From;
    forall k: nat ensures 0.0 <= Delay(p, random, k) {
      DelayBound(p, random, k);
    }
    FromTakes(c, p, f, random, now, [], b);
  }

  // All the sleeping of one call, whatever happens in it, is at most the undisturbed schedule, and at
  // least half of it.
  lemma SleepIsBounded(c: Config, p: Policy, f: nat -> Attempt, random: nat -> real, now: real, b: Breaker)
    requires 0 <= p.maxRetries && 0.0 <= p.baseDelay && 0.0 <= p.maxDelay && 0.0 <= p.exponentialBase
    requires forall k: nat :: 0.0 <= random(k) < 1.0
    ensures var r := Execute(c, p, f, random, now, b);
            var due := Total(Backoffs(p, |r.sleeps|));
            |r.sleeps| <= p.maxRetries && 0.0 <= due / 2.0 <= Total(r.sleeps) <= due
  {
    hide From, Delay, Backoff, Total, Pow;
    ShapeFrom(c, p, f, random, 0, now, [], b);
    TotalBound(p, random, Execute(c, p, f, random, now, b).sleeps);
  }

  function Scaled(p: Policy, x: real): real { x * (p.exponentialBase - 1.0) }

  lemma GeometricStep(p: Policy, k: nat, total: real)
    requires Scaled(p, total) == Uncapped(p, k) - p.baseDelay
    ensures Scaled(p, total + Uncapped(p, k)) == Uncapped(p, k + 1) - p.baseDelay
  {
    var base, e, x := p.baseDelay, p.exponentialBase, Pow(p.exponentialBase, k);
    assert Pow(e, k + 1) == e * x;
    hide Pow;
    assert (total + base * x) * (e - 1.0) == total * (e - 1.0) + base * x * (e - 1.0);
    assert base * x * (e - 1.0) == base * (e * x) - base * x;
  }

  // The schedule is a geometric series while the cap is out of reach.
  lemma {:induction false} GeometricSchedule(p: Policy, n: nat)
    requires forall k: nat :: k < n ==> Uncapped(p, k) <= p.maxDelay
    ensures Scaled(p, Total(Backoffs(p, n))) == Uncapped(p, n) - p.baseDelay
  {
    if n > 0 {
      hide Scaled, Uncapped;
      GeometricSchedule(p, n - 1);
      GeometricStep(p, n - 1, Total(Backoffs(p, n - 1)));
    }
  }

  // Without jitter and below the cap, an always failing call sleeps exactly that long.
  lemma ExactSleep(c: Config, p: Policy, f: nat -> Attempt, random: nat -> real, now: real, b: Breaker)
    requires b.state.Closed? && 0 <= b.failures < c.threshold && 0 <= p.maxRetries
    requires forall k: nat :: f(k).effect == Raises
    requires !p.jitter && p.exponentialBase == 2.0
    requires forall k: nat :: k < p.maxRetries ==> Uncapped(p, k) <= p.maxDelay
    requires forall k: nat :: k < p.maxRetries ==> Pause(Delay(p, random, k)) < c.recovery
    ensures Total(Execute(c, p, f, random, now, b).sleeps)
            == p.baseDelay * (Pow(2.0, Min(p.maxRetries, c.threshold - b.failures)) - 1.0)
  {
    hide Execute, From, Backoff, Total, Pow;
    FailsFast(c, p, f, random, now, b);
    LoopIsBounded(c, p, f, random, now, b);
    var s := Execute(c, p, f, random, now, b).sleeps;
    BackoffsAt(p, |s|);
    assert s == Backoffs(p, |s|);
    GeometricSchedule(p, |s|);
    assert Total(s) * (2.0 - 1.0) == Total(s);
  }

  lemma BackoffsAt(p: Policy, n: nat)
    ensures forall k: nat :: k < n ==> Backoffs(p, n)[k] == Backoff(p, k)
  {
    if n > 0 {
      BackoffsAt(p, n - 1);
    }
  }
}
