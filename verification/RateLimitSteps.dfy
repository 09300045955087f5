/**
 The rate limiter of apps/api/src/app/api/deps.py when requests run side by side: each of the
 up to four commands a request sends to Redis is a step of its own, and steps of any requests
 interleave, with any time in between.
 */
module RateLimitSteps {
  import opened Basics
  import opened RateLimit

  datatype Limits = Limits(rpm: int, rph: int)

  datatype End = MinuteRefused | HourRefused | LetIn

  // Where a request is: the clock read; the minute counted as first, so that EXPIRE comes next;
  // within the minute; the hour counted as first; over, and since when.
  datatype Phase = Began | MinuteCounted | InMinute | HourCounted | Over(end: End, ended: real)

  datatype Call = Call(client: string, at: Span, phase: Phase) {
    function MinuteKey(): Key { Key.Minute(client, Index(at, MINUTE)) }

    function HourKey(): Key { Key.Hour(client, Index(at, HOUR)) }

    predicate IsLetIn() { phase.Over? && phase.end == LetIn }
  }

  datatype Sys = Sys(now: Span, counters: map<Key, Counter>, calls: map<nat, Call>)

  datatype Op = Start(r: nat, client: string) | Advance(r: nat) | Tick(dt: Span)

  // ---------------------------------------------------------------- the steps

  datatype Sent = Sent(counters: map<Key, Counter>, phase: Phase)

  // The request's next command, and what it makes of the answer.
  function Command(counters: map<Key, Counter>, c: Call, now: real, q: Limits): Sent {
    match c.phase
    case Began =>
      var n := Live(counters, c.MinuteKey(), now) + 1;
      Sent(Increased(counters, c.MinuteKey(), now),
           if n == 1 then MinuteCounted else if n > q.rpm then Over(MinuteRefused, now) else InMinute)
    case MinuteCounted =>
      Sent(Expiring(counters, c.MinuteKey(), now, MINUTE), if 1 > q.rpm then Over(MinuteRefused, now) else InMinute)
    case InMinute =>
      var n := Live(counters, c.HourKey(), now) + 1;
      Sent(Increased(counters, c.HourKey(), now),
           if n == 1 then HourCounted else if n > q.rph then Over(HourRefused, now) else Over(LetIn, now))
    case HourCounted =>
      Sent(Expiring(counters, c.HourKey(), now, HOUR), if 1 > q.rph then Over(HourRefused, now) else Over(LetIn, now))
    case Over(_, _) => Sent(counters, c.phase)
  }

  function Next(s: Sys, op: Op, q: Limits): Sys {
    match op
    case Start(r, client) => if r in s.calls then s else s.(calls := s.calls[r := Call(client, s.now, Began)])
    case Advance(r) =>
      if r !in s.calls then s
      else
        var t := Command(s.counters, s.calls[r], s.now, q);
        s.(counters := t.counters, calls := s.calls[r := s.calls[r].(phase := t.phase)])
    case Tick(dt) => s.(now := s.now + dt)
  }

  function Run(now: Span, ops: seq<Op>, q: Limits): Sys {
    if ops == [] then Sys(now, map[], map[]) else Next(Run(now, ops[..|ops| - 1], q), ops[|ops| - 1], q)
  }

  // ---------------------------------------------------------------- a request that runs alone

  function Ended(e: End, at: Span): Verdict {
    match e
    case MinuteRefused => Limited(RetryAfter(at, MINUTE))
    case HourRefused => Limited(RetryAfter(at, HOUR))
    case LetIn => Admitted
  }

  function Advanced(s: Sys, r: nat, n: nat, q: Limits): Sys {
    if n == 0 then s else Next(Advanced(s, r, n - 1, q), Advance(r), q)
  }

  lemma {:induction false} AdvancedOn(s: Sys, r: nat, m: nat, n: nat, q: Limits)
    ensures Advanced(s, r, m + n, q) == Advanced(Advanced(s, r, m, q), r, n, q)
  {
    if n > 0 {
      hide Next;
      AdvancedOn(s, r, m, n - 1, q);
      assert Advanced(s, r, m + n, q) == Next(Advanced(s, r, m + (n - 1), q), Advance(r), q);
    }
  }

  lemma {:induction false} OverStays(s: Sys, r: nat, n: nat, q: Limits)
    requires r in s.calls && s.calls[r].phase.Over?
    ensures Advanced(s, r, n, q) == s
  {
    if n > 0 {
      OverStays(s, r, n - 1, q);
      assert s.calls[r := s.calls[r]] == s.calls;
    }
  }

  // INCR, and EXPIRE on the first count.
  function HalfSteps(counters: map<Key, Counter>, key: Key, now: real): nat {
    if Live(counters, key, now) == 0 then 2 else 1
  }

  lemma OneOrTwo(s: Sys, r: nat, q: Limits)
    ensures Advanced(s, r, 1, q) == Next(s, Advance(r), q)
    ensures Advanced(s, r, 2, q) == Next(Next(s, Advance(r), q), Advance(r), q)
  {
    hide Next;
    assert Advanced(s, r, 0, q) == s;
  }

  lemma MinuteHalf(s: Sys, r: nat, q: Limits)
    requires r in s.calls && s.calls[r].phase == Began
    ensures var c := s.calls[r];
            var key := c.MinuteKey();
            var end := if Live(s.counters, key, s.now) + 1 > q.rpm then Over(MinuteRefused, s.now) else InMinute;
            Advanced(s, r, HalfSteps(s.counters, key, s.now), q)
            == Sys(s.now, Counted(s.counters, key, s.now, MINUTE), s.calls[r := c.(phase := end)])
  {
    OneOrTwo(s, r, q);
    hide Increased, Expiring, Live, Advanced;
  }

  lemma HourHalf(s: Sys, r: nat, q: Limits)
    requires r in s.calls && s.calls[r].phase == InMinute
    ensures var c := s.calls[r];
            var key := c.HourKey();
            var end := if Live(s.counters, key, s.now) + 1 > q.rph then Over(HourRefused, s.now) else Over(LetIn, s.now);
            Advanced(s, r, HalfSteps(s.counters, key, s.now), q)
            == Sys(s.now, Counted(s.counters, key, s.now, HOUR), s.calls[r := c.(phase := end)])
  {
    OneOrTwo(s, r, q);
    hide Increased, Expiring, Live, Advanced;
  }

  // All the commands of a request with nothing in between.
  function Alone(counters: map<Key, Counter>, c: Call, now: real, q: Limits): Sent {
    var d := Counted(counters, c.MinuteKey(), now, MINUTE);
    if Live(counters, c.MinuteKey(), now) + 1 > q.rpm then Sent(d, Over(MinuteRefused, now))
    else
      Sent(Counted(d, c.HourKey(), now, HOUR),
           if Live(d, c.HourKey(), now) + 1 > q.rph then Over(HourRefused, now) else Over(LetIn, now))
  }

  lemma RunsAlone(s: Sys, r: nat, q: Limits)
    requires r in s.calls && s.calls[r].phase == Began
    ensures var t := Alone(s.counters, s.calls[r], s.now, q);
            Advanced(s, r, 4, q) == Sys(s.now, t.counters, s.calls[r := s.calls[r].(phase := t.phase)])
  {
    hide Counted, Live, Advanced;
    var n := HalfSteps(s.counters, s.calls[r].MinuteKey(), s.now);
    var half := Advanced(s, r, n, q);
    MinuteHalf(s, r, q);
    AdvancedOn(s, r, n, 4 - n, q);
    if half.calls[r].phase.Over? {
      OverStays(half, r, 4 - n, q);
    } else {
      var k := HalfSteps(half.counters, half.calls[r].HourKey(), half.now);
      HourHalf(half, r, q);
      AdvancedOn(half, r, k, 4 - n - k, q);
      OverStays(Advanced(half, r, k, q), r, 4 - n - k, q);
    }
  }

  // At the time its clock was read, that is the check as a whole.
  lemma AloneIsChecked(counters: map<Key, Counter>, c: Call, q: Limits)
    ensures var t := Alone(counters, c, c.at, q);
            t.phase.Over? && Outcome(t.counters, Ended(t.phase.end, c.at)) == Checked(counters, c.client, q.rpm, q.rph, c.at)
  {
    hide Counted, Live;
  }

  // ---------------------------------------------------------------- places in a window

  function Width(key: Key): int { if key.Minute? then MINUTE else HOUR }

  function Limit(key: Key, q: Limits): int { if key.Minute? then q.rpm else q.rph }

  // The request has been counted within the window's limit.
  predicate HasPlace(c: Call, key: Key, q: Limits) {
    if key.Minute? then
      && c.MinuteKey() == key
      && match c.phase
         case Began => false
         case MinuteCounted => 1 <= q.rpm
         case InMinute => true
         case HourCounted => true
         case Over(e, _) => e != MinuteRefused
    else
      && c.HourKey() == key
      && ((c.phase == HourCounted && 1 <= q.rph) || c.IsLetIn())
  }

  function Places(calls: map<nat, Call>, key: Key, q: Limits): set<nat> {
    set r | r in calls && HasPlace(calls[r], key, q)
  }

  predicate IsOwn(c: Call, key: Key) { key == if key.Minute? then c.MinuteKey() else c.HourKey() }

  // The step counts on this key.
  predicate Counts(s: Sys, op: Op, key: Key) {
    && op.Advance? && op.r in s.calls
    && var c := s.calls[op.r];
       (c.phase == Began && c.MinuteKey() == key) || (c.phase == InMinute && c.HourKey() == key)
  }

  // The step counts after the window is over.
  predicate IsLate(s: Sys, op: Op, key: Key) {
    Counts(s, op, key) && ((key.index + 1) * Width(key)) as real <= s.now
  }

  // The step counts from one again, the counter being gone.
  predicate Restarts(s: Sys, op: Op, key: Key) {
    Counts(s, op, key) && key in s.counters && !Alive(s.counters, key, s.now)
  }

  // How often a key was counted since its counter last began, and the places given out before that.
  datatype Tally = Tally(past: nat, current: nat)

  function TallyAfter(s: Sys, op: Op, key: Key, q: Limits, t: Tally): Tally {
    if !Counts(s, op, key) then t
    else if Restarts(s, op, key) then Tally(t.past + Min(t.current, Quota(Limit(key, q))), 1)
    else t.(current := t.current + 1)
  }

  function TallyOf(now: Span, ops: seq<Op>, key: Key, q: Limits): Tally {
    if ops == [] then Tally(0, 0)
    else TallyAfter(Run(now, ops[..|ops| - 1], q), ops[|ops| - 1], key, q, TallyOf(now, ops[..|ops| - 1], key, q))
  }

  // The places are what the tally makes them, the counter holds the count of its own time, and it
  // does not go before its window is over.
  predicate Tallied(s: Sys, key: Key, q: Limits, t: Tally) {
    && |Places(s.calls, key, q)| == t.past + Min(t.current, Quota(Limit(key, q)))
    && (key in s.counters <==> t.current > 0)
    && (key in s.counters ==>
          && s.counters[key].count == t.current
          && (s.counters[key].expires.Some? ==>
                ((key.index + 1) * Width(key)) as real <= s.counters[key].expires.value))
  }

  predicate Begun(s: Sys) {
    forall r | r in s.calls ::
      s.calls[r].at <= s.now && (s.calls[r].phase.Over? ==> s.calls[r].at <= s.calls[r].phase.ended)
  }

  lemma CommandEnds(counters: map<Key, Counter>, c: Call, now: real, q: Limits)
    ensures var t := Command(counters, c, now, q);
            t.phase.Over? ==> t.phase == c.phase || t.phase.ended == now
  {
    hide Live, Increased, Expiring, Index;
  }

  lemma BegunStep(s: Sys, op: Op, q: Limits)
    requires Begun(s)
    ensures Begun(Next(s, op, q))
  {
    if op.Advance? && op.r in s.calls {
      CommandEnds(s.counters, s.calls[op.r], s.now, q);
    }
    hide Command;
  }

  lemma {:induction false} NobodyEarly(now: Span, ops: seq<Op>, q: Limits)
    ensures Begun(Run(now, ops, q))
    decreases ops
  {
    if ops != [] {
      hide Next, Begun;
      NobodyEarly(now, ops[..|ops| - 1], q);
      BegunStep(Run(now, ops[..|ops| - 1], q), ops[|ops| - 1], q);
    }
  }

  // What one command does to the counter and to the places of a key.
  lemma CommandStep(s: Sys, r: nat, key: Key, q: Limits)
    requires r in s.calls
    ensures var c, t := s.calls[r], Next(s, Advance(r), q);
            && (Counts(s, Advance(r), key) ==>
                  && !HasPlace(c, key, q) && t.counters == Increased(s.counters, key, s.now)
                  && (HasPlace(t.calls[r], key, q) <==> Live(s.counters, key, s.now) + 1 <= Limit(key, q)))
            && (!Counts(s, Advance(r), key) ==>
                  && (HasPlace(t.calls[r], key, q) <==> HasPlace(c, key, q))
                  && (|| (t.counters == Expiring(s.counters, key, s.now, Width(key)) && IsOwn(c, key))
                      || ((key in t.counters <==> key in s.counters)
                          && (key in s.counters ==> t.counters[key] == s.counters[key]))))
  {
    hide Live, Index;
  }

  lemma PlaceOf(calls: map<nat, Call>, r: nat, key: Key, q: Limits)
    ensures r in Places(calls, key, q) <==> r in calls && HasPlace(calls[r], key, q)
  {
    hide HasPlace;
  }

  // An advance changes the places by at most the one of its request.
  lemma PlacesStep(s: Sys, r: nat, key: Key, q: Limits)
    requires r in s.calls
    ensures var t := Next(s, Advance(r), q);
            && r in t.calls && t.now == s.now
            && Places(t.calls, key, q) ==
               if HasPlace(t.calls[r], key, q) then Places(s.calls, key, q) + {r} else Places(s.calls, key, q) - {r}
  {
    hide HasPlace, Command;
  }

  // Counting takes a place exactly when the count is within the limit.
  lemma CountingStep(s: Sys, r: nat, key: Key, q: Limits)
    requires Counts(s, Advance(r), key)
    ensures var t := Next(s, Advance(r), q);
            && t.now == s.now && t.counters == Increased(s.counters, key, s.now)
            && |Places(t.calls, key, q)|
               == |Places(s.calls, key, q)| + if Live(s.counters, key, s.now) + 1 <= Limit(key, q) then 1 else 0
  {
    CommandStep(s, r, key, q);
    PlacesStep(s, r, key, q);
    PlaceOf(s.calls, r, key, q);
    hide HasPlace, Next, Places, Increased, Live;
  }

  lemma CountingTallied(s: Sys, r: nat, key: Key, q: Limits, t: Tally)
    requires Tallied(s, key, q, t) && Counts(s, Advance(r), key)
    ensures Tallied(Next(s, Advance(r), q), key, q, TallyAfter(s, Advance(r), key, q, t))
  {
    CountingStep(s, r, key, q);
    hide Next, Places, Counts;
  }

  // Any other command takes and frees no place.
  lemma OtherStep(s: Sys, r: nat, key: Key, q: Limits)
    requires r in s.calls && !Counts(s, Advance(r), key)
    ensures Places(Next(s, Advance(r), q).calls, key, q) == Places(s.calls, key, q)
  {
    CommandStep(s, r, key, q);
    PlacesStep(s, r, key, q);
    PlaceOf(s.calls, r, key, q);
    hide HasPlace, Next, Places, Expiring;
  }

  // A counter that is set to expire outlives its window: the clock was read before.
  lemma ExpiryIsLater(c: Call, key: Key, now: real)
    requires c.at <= now && IsOwn(c, key)
    ensures ((key.index + 1) * Width(key)) as real <= now + Width(key) as real
  {
    WindowIsCurrent(c.at, Width(key));
  }

  lemma OtherTallied(s: Sys, r: nat, key: Key, q: Limits, t: Tally)
    requires Tallied(s, key, q, t) && Begun(s) && r in s.calls && !Counts(s, Advance(r), key)
    ensures Tallied(Next(s, Advance(r), q), key, q, t)
  {
    OtherStep(s, r, key, q);
    CommandStep(s, r, key, q);
    if IsOwn(s.calls[r], key) {
      ExpiryIsLater(s.calls[r], key, s.now);
    }
    hide Next, Places, Counts, HasPlace, IsOwn;
  }

  lemma StepTallied(s: Sys, op: Op, key: Key, q: Limits, t: Tally)
    requires Tallied(s, key, q, t) && Begun(s)
    ensures Tallied(Next(s, op, q), key, q, TallyAfter(s, op, key, q, t))
  {
    if op.Start? {
      StartStep(s, op, key, q);
    } else if op.Advance? && op.r in s.calls {
      if Counts(s, op, key) {
        CountingTallied(s, op.r, key, q, t);
      } else {
        OtherTallied(s, op.r, key, q, t);
      }
    }
    hide Command, Places, Counts;
  }

  lemma StartStep(s: Sys, op: Op, key: Key, q: Limits)
    requires op.Start?
    ensures var t := Next(s, op, q); t.counters == s.counters && Places(t.calls, key, q) == Places(s.calls, key, q)
  {
    if op.r !in s.calls {
      assert !HasPlace(Call(op.client, s.now, Began), key, q);
    }
    hide HasPlace, Command;
  }

  // ---------------------------------------------------------------- every run

  predicate NoRestart(now: Span, ops: seq<Op>, key: Key, q: Limits) {
    forall i | 0 <= i < |ops| :: !Restarts(Run(now, ops[..i], q), ops[i], key)
  }

  predicate AllPrompt(now: Span, ops: seq<Op>, key: Key, q: Limits) {
    forall i | 0 <= i < |ops| :: !IsLate(Run(now, ops[..i], q), ops[i], key)
  }

  lemma CleanStep(now: Span, ops: seq<Op>, key: Key, q: Limits)
    requires ops != []
    ensures var p, op := ops[..|ops| - 1], ops[|ops| - 1];
            && (NoRestart(now, ops, key, q) <==> NoRestart(now, p, key, q) && !Restarts(Run(now, p, q), op, key))
            && (AllPrompt(now, ops, key, q) <==> AllPrompt(now, p, key, q) && !IsLate(Run(now, p, q), op, key))
  {
    hide Run, Restarts, IsLate;
    var p := ops[..|ops| - 1];
    assert forall i | 0 <= i < |p| :: p[..i] == ops[..i] && p[i] == ops[i];
  }

  // However the commands interleave, and however late they come: the places given out in a window
  // are, for each time its counter has begun, the counts of that time up to the limit.
  lemma {:induction false} PlacesAreTallied(now: Span, ops: seq<Op>, key: Key, q: Limits)
    ensures Tallied(Run(now, ops, q), key, q, TallyOf(now, ops, key, q))
  {
    if ops == [] {
      assert Places(map[], key, q) == {};
    } else {
      var p := ops[..|ops| - 1];
      NobodyEarly(now, p, q);
      hide Tallied, TallyAfter, Next;
      PlacesAreTallied(now, p, key, q);
      StepTallied(Run(now, p, q), ops[|ops| - 1], key, q, TallyOf(now, p, key, q));
    }
  }

  // Only a request that counts after its window is over finds its counter gone.
  lemma RestartIsLate(now: Span, ops: seq<Op>, op: Op, key: Key, q: Limits)
    requires Restarts(Run(now, ops, q), op, key)
    ensures IsLate(Run(now, ops, q), op, key)
  {
    PlacesAreTallied(now, ops, key, q);
    hide Run, TallyOf, Places, Counts;
  }

  lemma CleanNone(now: Span, key: Key, q: Limits)
    ensures NoRestart(now, [], key, q)
  {
  }

  // When every count comes before its window is over, no counter is found gone.
  lemma {:induction false} PromptIsClean(now: Span, ops: seq<Op>, key: Key, q: Limits)
    requires AllPrompt(now, ops, key, q)
    ensures NoRestart(now, ops, key, q)
    decreases ops
  {
    hide *;
    if ops == [] {
      CleanNone(now, key, q);
    } else {
      var p := ops[..|ops| - 1];
      CleanStep(now, ops, key, q);
      PromptIsClean(now, p, key, q);
      if Restarts(Run(now, p, q), ops[|p|], key) {
        RestartIsLate(now, p, ops[|p|], key, q);
      }
    }
  }

  lemma {:induction false} CleanHasNoPast(now: Span, ops: seq<Op>, key: Key, q: Limits)
    requires NoRestart(now, ops, key, q)
    ensures TallyOf(now, ops, key, q).past == 0
  {
    if ops != [] {
      CleanStep(now, ops, key, q);
      hide NoRestart, Run, Restarts, Counts;
      CleanHasNoPast(now, ops[..|ops| - 1], key, q);
    }
  }

  // And then the window gives out at most its limit of places.
  lemma CleanIsBounded(now: Span, ops: seq<Op>, key: Key, q: Limits)
    requires NoRestart(now, ops, key, q)
    ensures |Places(Run(now, ops, q).calls, key, q)| <= Quota(Limit(key, q))
  {
    PlacesAreTallied(now, ops, key, q);
    CleanHasNoPast(now, ops, key, q);
    hide Run, TallyOf, Places, NoRestart;
  }

  // Exactly which step gives out the first place too many: one that counts within the limit, its
  // counter being gone or having begun again, when the limit has been reached.
  lemma {:induction false} OverfillsIff(now: Span, ops: seq<Op>, op: Op, key: Key, q: Limits)
    requires |Places(Run(now, ops, q).calls, key, q)| <= Quota(Limit(key, q))
    ensures var s := Run(now, ops, q);
            |Places(Next(s, op, q).calls, key, q)| > Quota(Limit(key, q))
            <==> Counts(s, op, key) && Live(s.counters, key, s.now) < Limit(key, q) == |Places(s.calls, key, q)|
  {
    var s := Run(now, ops, q);
    PlacesAreTallied(now, ops, key, q);
    NobodyEarly(now, ops, q);
    if Counts(s, op, key) {
      CountingStep(s, op.r, key, q);
    } else {
      StepTallied(s, op, key, q, TallyOf(now, ops, key, q));
    }
    hide Run, TallyOf, Next, Places, Counts;
  }

  // In a run in which no counter has been found gone, that step is the first that finds one gone.
  lemma {:induction false} FirstRestartOverfills(now: Span, ops: seq<Op>, op: Op, key: Key, q: Limits)
    requires NoRestart(now, ops, key, q)
    ensures var s := Run(now, ops, q);
            |Places(Next(s, op, q).calls, key, q)| > Quota(Limit(key, q))
            <==> Restarts(s, op, key) && 1 <= Limit(key, q) == |Places(s.calls, key, q)|
  {
    var s := Run(now, ops, q);
    CleanIsBounded(now, ops, key, q);
    OverfillsIff(now, ops, op, key, q);
    PlacesAreTallied(now, ops, key, q);
    CleanHasNoPast(now, ops, key, q);
    hide Run, TallyOf, Next, Places, Counts, NoRestart;
  }

  // ---------------------------------------------------------------- how many are let in

  // Requests of a client let in whose clocks read from one time until before another.
  function LetInBetween(calls: map<nat, Call>, client: string, from: real, until: real): set<nat> {
    set r | r in calls && calls[r].IsLetIn() && calls[r].client == client && from <= calls[r].at < until
  }

  function LetInMinute(calls: map<nat, Call>, client: string, m: int): set<nat> {
    LetInBetween(calls, client, (m * MINUTE) as real, ((m + 1) * MINUTE) as real)
  }

  function LetInHour(calls: map<nat, Call>, client: string, h: int): set<nat> {
    LetInBetween(calls, client, (h * HOUR) as real, ((h + 1) * HOUR) as real)
  }

  lemma InWindow(at: Span, i: int, width: int)
    requires width == MINUTE || width == HOUR
    requires (i * width) as real <= at < ((i + 1) * width) as real
    ensures Index(at, width) == i
  {
    assert i * width <= at.Floor < (i + 1) * width;
  }

  lemma SubsetCount(a: set<nat>, b: set<nat>)
    requires a <= b
    ensures |a| <= |b|
  {
    assert b == a + (b - a);
  }

  lemma LetInHavePlaces(calls: map<nat, Call>, client: string, i: int, q: Limits)
    ensures LetInMinute(calls, client, i)
            <= Places(calls, Key.Minute(client, i), q)
    ensures LetInHour(calls, client, i)
            <= Places(calls, Key.Hour(client, i), q)
  {
    forall r | r in LetInMinute(calls, client, i)
      ensures r in Places(calls, Key.Minute(client, i), q)
    {
      InWindow(calls[r].at, i, MINUTE);
    }
    forall r | r in LetInHour(calls, client, i)
      ensures r in Places(calls, Key.Hour(client, i), q)
    {
      InWindow(calls[r].at, i, HOUR);
    }
  }

  lemma WindowBounds(now: Span, ops: seq<Op>, client: string, i: int, q: Limits)
    ensures var calls := Run(now, ops, q).calls;
            && (NoRestart(now, ops, Key.Minute(client, i), q) ==>
                  |LetInMinute(calls, client, i)| <= Quota(q.rpm))
            && (NoRestart(now, ops, Key.Hour(client, i), q) ==>
                  |LetInHour(calls, client, i)| <= Quota(q.rph))
  {
    var s := Run(now, ops, q);
    var minute, hour := Key.Minute(client, i), Key.Hour(client, i);
    LetInHavePlaces(s.calls, client, i, q);
    hide Run, NoRestart, LetInMinute, LetInHour, Places;
    SubsetCount(LetInMinute(s.calls, client, i), Places(s.calls, minute, q));
    SubsetCount(LetInHour(s.calls, client, i), Places(s.calls, hour, q));
    if NoRestart(now, ops, minute, q) {
      CleanIsBounded(now, ops, minute, q);
    }
    if NoRestart(now, ops, hour, q) {
      CleanIsBounded(now, ops, hour, q);
    }
  }

  lemma SixtySecondsInTwoMinutes(calls: map<nat, Call>, client: string, from: Span)
    ensures var m := Index(from, MINUTE);
            |LetInBetween(calls, client, from, from + 60.0)|
            <= |LetInMinute(calls, client, m)| + |LetInMinute(calls, client, m + 1)|
  {
    var m := Index(from, MINUTE);
    WindowIsCurrent(from, MINUTE);
    var x, y := LetInMinute(calls, client, m), LetInMinute(calls, client, m + 1);
    var both := LetInBetween(calls, client, from, from + 60.0);
    assert both <= x + y;
    hide LetInBetween, LetInMinute;
    SubsetCount(both, x + y);
    assert |x + y| == |x| + |y| - |x * y|;
  }

  // A client's counters, each while it lasts.
  ghost predicate IsClean(now: Span, ops: seq<Op>, client: string, q: Limits) {
    forall key: Key | key.client == client :: NoRestart(now, ops, key, q)
  }

  lemma CleanWindow(now: Span, ops: seq<Op>, client: string, i: int, q: Limits)
    requires IsClean(now, ops, client, q)
    ensures NoRestart(now, ops, Key.Minute(client, i), q) && NoRestart(now, ops, Key.Hour(client, i), q)
  {
    hide NoRestart;
  }

  // However the commands of requests interleave, of those that read the clock in a minute window at
  // most rpm are let in, in an hour window at most rph, and in any sixty seconds at most twice rpm,
  // as long as no request counts on a counter that was there and is gone.
  lemma {:induction false} InterleavedBounds(now: Span, ops: seq<Op>, client: string, i: int, from: Span, q: Limits)
    requires IsClean(now, ops, client, q)
    ensures var calls := Run(now, ops, q).calls;
            && |LetInMinute(calls, client, i)| <= Quota(q.rpm)
            && |LetInHour(calls, client, i)| <= Quota(q.rph)
            && |LetInBetween(calls, client, from, from + 60.0)| <= 2 * Quota(q.rpm)
  {
    var m := Index(from, MINUTE);
    hide Run, NoRestart, LetInBetween, LetInMinute, LetInHour, Index, IsClean;
    CleanWindow(now, ops, client, i, q);
    CleanWindow(now, ops, client, m, q);
    CleanWindow(now, ops, client, m + 1, q);
    WindowBounds(now, ops, client, i, q);
    WindowBounds(now, ops, client, m, q);
    WindowBounds(now, ops, client, m + 1, q);
    SixtySecondsInTwoMinutes(Run(now, ops, q).calls, client, from);
  }

  // ---------------------------------------------------------------- and when

  // Requests of a client let in at a time from one until before another.
  function LetInAt(calls: map<nat, Call>, client: string, from: real, until: real): set<nat> {
    set r | r in calls && calls[r].IsLetIn() && calls[r].client == client && from <= calls[r].phase.ended < until
  }

  // From the reading of its clock no request that is let in takes more than so many minutes.
  predicate Within(calls: map<nat, Call>, client: string, minutes: nat) {
    forall r | r in calls && calls[r].IsLetIn() && calls[r].client == client ::
      calls[r].phase.ended - calls[r].at <= (minutes * MINUTE) as real
  }

  lemma SplitLast(calls: map<nat, Call>, client: string, m: int, n: nat)
    ensures |LetInBetween(calls, client, (m * MINUTE) as real, ((m + n + 1) * MINUTE) as real)|
            <= |LetInBetween(calls, client, (m * MINUTE) as real, ((m + n) * MINUTE) as real)|
               + |LetInMinute(calls, client, m + n)|
  {
    var x, y := LetInBetween(calls, client, (m * MINUTE) as real, ((m + n) * MINUTE) as real), LetInMinute(calls, client, m + n);
    var both := LetInBetween(calls, client, (m * MINUTE) as real, ((m + n + 1) * MINUTE) as real);
    assert both <= x + y;
    hide LetInBetween, LetInMinute;
    SubsetCount(both, x + y);
    assert |x + y| == |x| + |y| - |x * y|;
  }

  lemma {:induction false} ManyMinutes(now: Span, ops: seq<Op>, client: string, m: int, n: nat, q: Limits)
    requires IsClean(now, ops, client, q)
    ensures |LetInBetween(Run(now, ops, q).calls, client, (m * MINUTE) as real, ((m + n) * MINUTE) as real)|
            <= n * Quota(q.rpm)
    decreases n
  {
    var calls := Run(now, ops, q).calls;
    if n == 0 {
      assert LetInBetween(calls, client, (m * MINUTE) as real, (m * MINUTE) as real) == {};
    } else {
      hide Run, NoRestart, LetInBetween, LetInMinute, LetInHour, IsClean;
      ManyMinutes(now, ops, client, m, n - 1, q);
      SplitLast(calls, client, m, n - 1);
      CleanWindow(now, ops, client, m + n - 1, q);
      WindowBounds(now, ops, client, m + n - 1, q);
      assert n * Quota(q.rpm) == (n - 1) * Quota(q.rpm) + Quota(q.rpm);
    }
  }

  lemma LetInAtWasRead(s: Sys, client: string, from: Span, k: nat)
    requires Begun(s) && Within(s.calls, client, k)
    ensures var m := Index(from, MINUTE);
            LetInAt(s.calls, client, from, from + 60.0)
            <= LetInBetween(s.calls, client, ((m - k) * MINUTE) as real, ((m - k + (k + 2)) * MINUTE) as real)
  {
    WindowIsCurrent(from, MINUTE);
    hide Index;
  }

  // Of the times at which requests are let in: sixty seconds let in at most k + 2 times rpm, when no
  // request takes more than k minutes.
  lemma {:induction false} AdmissionBound(now: Span, ops: seq<Op>, client: string, from: Span, k: nat, q: Limits)
    requires IsClean(now, ops, client, q) && Within(Run(now, ops, q).calls, client, k)
    ensures |LetInAt(Run(now, ops, q).calls, client, from, from + 60.0)| <= (k + 2) * Quota(q.rpm)
  {
    var s, m := Run(now, ops, q), Index(from, MINUTE);
    NobodyEarly(now, ops, q);
    hide Run, IsClean, Within, Begun, LetInAt, LetInBetween, Index;
    LetInAtWasRead(s, client, from, k);
    ManyMinutes(now, ops, client, m - k, k + 2, q);
    SubsetCount(LetInAt(s.calls, client, from, from + 60.0),
                LetInBetween(s.calls, client, ((m - k) * MINUTE) as real, ((m - k + (k + 2)) * MINUTE) as real));
  }

  // ---------------------------------------------------------------- a request that is too slow

  lemma RunOn(now: Span, ops: seq<Op>, op: Op, q: Limits)
    ensures Run(now, ops + [op], q) == Next(Run(now, ops, q), op, q)
  {
    assert (ops + [op])[..|ops|] == ops;
  }

  function Advances(r: nat, n: nat): seq<Op> { Repeat(Advance(r), n) }

  lemma {:induction false} RunAdvances(now: Span, ops: seq<Op>, r: nat, n: nat, q: Limits)
    ensures Run(now, ops + Advances(r, n), q) == Advanced(Run(now, ops, q), r, n, q)
  {
    if n == 0 {
      assert ops + Advances(r, 0) == ops;
    } else {
      hide Run, Next;
      RunAdvances(now, ops, r, n - 1, q);
      RunOn(now, ops + Advances(r, n - 1), Advance(r), q);
      assert ops + Advances(r, n) == ops + Advances(r, n - 1) + [Advance(r)];
    }
  }

  const FIRST := [Start(0, "u")] + Advances(0, 4)
  const SECOND := FIRST + [Tick(59.0)] + [Start(1, "u")] + [Tick(1.0)]

  const MINUTE_ONE := Key.Minute("u", 0)
  const HOUR_ONE := Key.Hour("u", 0)
  const COUNTED := map[MINUTE_ONE := Counter(1, Some(60.0)), HOUR_ONE := Counter(1, Some(3600.0))]

  lemma FirstAlone(q: Limits)
    requires 1 <= q.rpm && 1 <= q.rph
    ensures Alone(map[], Call("u", 0.0, Began), 0.0, q) == Sent(COUNTED, Over(LetIn, 0.0))
  {
  }

  lemma FirstIsIn(q: Limits)
    requires 1 <= q.rpm && 1 <= q.rph
    ensures Run(0.0, FIRST, q) == Sys(0.0, COUNTED, map[0 := Call("u", 0.0, Over(LetIn, 0.0))])
  {
    RunOn(0.0, [], Start(0, "u"), q);
    assert [] + [Start(0, "u")] == [Start(0, "u")];
    assert Run(0.0, [Start(0, "u")], q) == Sys(0.0, map[], map[0 := Call("u", 0.0, Began)]);
    hide Run, Advanced, Next, Alone;
    RunAdvances(0.0, [Start(0, "u")], 0, 4, q);
    RunsAlone(Run(0.0, [Start(0, "u")], q), 0, q);
    FirstAlone(q);
  }

  lemma SecondBegins(q: Limits)
    requires 1 <= q.rpm && 1 <= q.rph
    ensures Run(0.0, SECOND, q) ==
            Sys(60.0, COUNTED, map[0 := Call("u", 0.0, Over(LetIn, 0.0)), 1 := Call("u", 59.0, Began)])
  {
    FirstIsIn(q);
    RunOn(0.0, FIRST, Tick(59.0), q);
    RunOn(0.0, FIRST + [Tick(59.0)], Start(1, "u"), q);
    RunOn(0.0, FIRST + [Tick(59.0)] + [Start(1, "u")], Tick(1.0), q);
    hide Run, Command;
  }

  // Two requests of one minute are let in at a limit of one: the second reads the clock in the last
  // second of the window, and its first command arrives when the counter has just expired.
  lemma SlowRequestIsLetIn(rph: int)
    requires 2 <= rph
    ensures var q := Limits(1, rph);
            LetInMinute(Run(0.0, SECOND + Advances(1, 4), q).calls, "u", 0) == {0, 1}
  {
    var q := Limits(1, rph);
    SecondBegins(q);
    RunAdvances(0.0, SECOND, 1, 4, q);
    RunsAlone(Run(0.0, SECOND, q), 1, q);
    hide Run, Advanced, Next;
  }

  // ---------------------------------------------------------------- requests that arrive together

  // One request a minute, each within its minute, and none with its hour command sent.
  function Waiting(n: nat): seq<Op> {
    if n == 0 then [] else Waiting(n - 1) + [Start(n - 1, "u")] + Advances(n - 1, 2) + [Tick(60.0)]
  }

  function Minutes(n: nat): Span { (MINUTE * n) as real }

  predicate IsWaiting(s: Sys, n: nat) {
    && s.now == Minutes(n)
    && (forall r: nat | r < n :: r in s.calls && s.calls[r] == Call("u", Minutes(r), InMinute))
    && (forall r | r in s.calls :: r < n)
    && forall key | key in s.counters :: key.Minute? && 0 <= key.index < n
  }

  ghost predicate OnTime(now: Span, ops: seq<Op>, q: Limits) { forall key :: AllPrompt(now, ops, key, q) }

  lemma OnTimeOn(now: Span, ops: seq<Op>, op: Op, q: Limits)
    requires OnTime(now, ops, q) && forall key :: !IsLate(Run(now, ops, q), op, key)
    ensures OnTime(now, ops + [op], q)
  {
    hide Run, AllPrompt, IsLate;
    var all := ops + [op];
    assert all[..|all| - 1] == ops;
    forall key ensures AllPrompt(now, all, key, q) {
      CleanStep(now, all, key, q);
    }
  }

  // A request that advances in the hour and, if it has just begun, the minute it read.
  lemma NotLate(s: Sys, r: nat)
    requires r in s.calls
    requires s.calls[r].phase == Began ==> Index(s.calls[r].at, MINUTE) == Index(s.now, MINUTE)
    requires s.calls[r].phase == InMinute ==> Index(s.calls[r].at, HOUR) == Index(s.now, HOUR)
    ensures forall key :: !IsLate(s, Advance(r), key)
  {
    WindowIsCurrent(s.now, MINUTE);
    WindowIsCurrent(s.now, HOUR);
    hide Index;
  }

  lemma AtMinute(n: nat)
    ensures Index(Minutes(n), MINUTE) == n && (n < 60 ==> Index(Minutes(n), HOUR) == 0)
  {
    assert Minutes(n).Floor == 60 * n;
  }

  lemma NewKey(counters: map<Key, Counter>, key: Key, now: real, ttl: int)
    requires key !in counters
    ensures Live(counters, key, now) == 0 && HalfSteps(counters, key, now) == 2
    ensures forall k :: k in Counted(counters, key, now, ttl) <==> k in counters || k == key
  {
  }

  // One round: a request begins and passes the minute, and a minute goes by.
  lemma RoundState(s: Sys, n: nat, q: Limits)
    requires n !in s.calls && 1 <= q.rpm && Key.Minute("u", Index(s.now, MINUTE)) !in s.counters
    ensures var a, key := Next(s, Start(n, "u"), q), Key.Minute("u", Index(s.now, MINUTE));
            && n in a.calls && a.calls[n] == Call("u", s.now, Began) && a.now == s.now
            && Next(Advanced(a, n, 2, q), Tick(60.0), q)
               == Sys(s.now + 60.0, Counted(s.counters, key, s.now, MINUTE), s.calls[n := Call("u", s.now, InMinute)])
  {
    var a, key := Next(s, Start(n, "u"), q), Key.Minute("u", Index(s.now, MINUTE));
    NewKey(s.counters, key, s.now, MINUTE);
    MinuteHalf(a, n, q);
    hide Advanced, Index, Counted, Live, HalfSteps, Command;
  }

  lemma WaitingStep(s: Sys, n: nat, q: Limits)
    requires IsWaiting(s, n) && 1 <= q.rpm
    ensures var a := Next(s, Start(n, "u"), q);
            && n in a.calls && a.calls[n] == Call("u", Minutes(n), Began) && a.now == Minutes(n)
            && IsWaiting(Next(Advanced(a, n, 2, q), Tick(60.0), q), n + 1)
  {
    AtMinute(n);
    WaitingNew(s, n);
    hide IsWaiting, Minutes, Next, Advanced, Counted, Index, Live, HalfSteps;
    NewKey(s.counters, Key.Minute("u", n), s.now, MINUTE);
    RoundState(s, n, q);
    WaitingMore(s, Counted(s.counters, Key.Minute("u", n), s.now, MINUTE), n);
  }

  lemma WaitingNew(s: Sys, n: nat)
    requires IsWaiting(s, n)
    ensures n !in s.calls && Key.Minute("u", n) !in s.counters && s.now == Minutes(n)
  {
  }

  lemma WaitingMore(s: Sys, counters: map<Key, Counter>, n: nat)
    requires IsWaiting(s, n) && forall k :: k in counters <==> k in s.counters || k == Key.Minute("u", n)
    ensures IsWaiting(Sys(s.now + 60.0, counters, s.calls[n := Call("u", s.now, InMinute)]), n + 1)
  {
    assert Minutes(n + 1) == Minutes(n) + 60.0;
    hide Minutes;
  }

  lemma WaitingNone(q: Limits)
    ensures IsWaiting(Run(0.0, Waiting(0), q), 0) && OnTime(0.0, Waiting(0), q)
  {
  }

  lemma WaitingIs(n: nat)
    ensures Waiting(n + 1) == Waiting(n) + [Start(n, "u")] + Advances(n, 2) + [Tick(60.0)]
  {
    hide Advances;
  }

  lemma {:induction false} WaitingHolds(n: nat, q: Limits)
    requires n < 60 && 1 <= q.rpm
    ensures IsWaiting(Run(0.0, Waiting(n), q), n) && OnTime(0.0, Waiting(n), q)
    decreases n
  {
    hide *;
    if n == 0 {
      WaitingNone(q);
    } else {
      var m, ops := n - 1, Waiting(n - 1);
      WaitingHolds(m, q);
      WaitingIs(m);
      WaitingStep(Run(0.0, ops, q), m, q);
      RunOn(0.0, ops, Start(m, "u"), q);
      RunAdvances(0.0, ops + [Start(m, "u")], m, 2, q);
      RunOn(0.0, ops + [Start(m, "u")] + Advances(m, 2), Tick(60.0), q);
      RoundOnTime(ops, m, q);
    }
  }

  lemma NeverLate(s: Sys, op: Op)
    requires !op.Advance?
    ensures forall key :: !IsLate(s, op, key)
  {
  }

  lemma RoundOnTime(ops: seq<Op>, m: nat, q: Limits)
    requires OnTime(0.0, ops, q) && m < 60
    requires var s := Next(Run(0.0, ops, q), Start(m, "u"), q);
             m in s.calls && s.calls[m] == Call("u", Minutes(m), Began) && s.now == Minutes(m)
    ensures OnTime(0.0, ops + [Start(m, "u")] + Advances(m, 2) + [Tick(60.0)], q)
  {
    var begun := ops + [Start(m, "u")];
    RunOn(0.0, ops, Start(m, "u"), q);
    NeverLate(Run(0.0, ops, q), Start(m, "u"));
    OnTimeOn(0.0, ops, Start(m, "u"), q);
    AtMinute(m);
    hide Run, Next, OnTime, IsLate, Index, Minutes;
    AdvancesOnTime(0.0, begun, m, q);
    NeverLate(Run(0.0, begun + Advances(m, 2), q), Tick(60.0));
    OnTimeOn(0.0, begun + Advances(m, 2), Tick(60.0), q);
  }

  // Two advances of a request in the minute it read.
  lemma AdvancesOnTime(now: Span, ops: seq<Op>, r: nat, q: Limits)
    requires OnTime(now, ops, q)
    requires var s := Run(now, ops, q);
             && r in s.calls && Index(s.calls[r].at, HOUR) == Index(s.now, HOUR)
             && (s.calls[r].phase == Began ==> Index(s.calls[r].at, MINUTE) == Index(s.now, MINUTE))
    ensures OnTime(now, ops + Advances(r, 2), q)
  {
    var s := Run(now, ops, q);
    NotLate(s, r);
    OnTimeOn(now, ops, Advance(r), q);
    RunOn(now, ops, Advance(r), q);
    NotLate(Next(s, Advance(r), q), r);
    OnTimeOn(now, ops + [Advance(r)], Advance(r), q);
    assert Advances(r, 2) == [Advance(r), Advance(r)];
    assert ops + [Advance(r)] + [Advance(r)] == ops + Advances(r, 2);
    hide Run, OnTime, IsLate, Index;
  }

  // The hour commands of the first `j` of them, all at one time.
  function Burst(n: nat, j: nat): seq<Op> { if j == 0 then Waiting(n) else Burst(n, j - 1) + Advances(j - 1, 2) }

  predicate IsBurst(s: Sys, n: nat, j: nat)
    requires j <= n
  {
    && s.now == Minutes(n)
    && (forall r: nat | r < n ::
          r in s.calls
          && s.calls[r] == Call("u", Minutes(r), if r < j then Over(LetIn, Minutes(n)) else InMinute))
    && (if j == 0 then HOUR_ONE !in s.counters
        else HOUR_ONE in s.counters && s.counters[HOUR_ONE] == Counter(j, Some(Minutes(n) + 3600.0)))
  }

  lemma BurstStep(s: Sys, n: nat, j: nat, q: Limits)
    requires j < n < 60 && IsBurst(s, n, j) && n <= q.rph
    ensures IsBurst(Advanced(s, j, 2, q), n, j + 1)
  {
    AtMinute(j);
    HourHalf(s, j, q);
    if j > 0 {
      AdvancedOn(s, j, 1, 1, q);
      OverStays(Advanced(s, j, 1, q), j, 1, q);
    }
    hide Advanced, Index, Minutes;
  }

  lemma BurstNone(n: nat, q: Limits)
    requires IsWaiting(Run(0.0, Waiting(n), q), n)
    ensures IsBurst(Run(0.0, Burst(n, 0), q), n, 0)
  {
    hide Run, Waiting;
  }

  lemma BurstIs(n: nat, j: nat)
    ensures Burst(n, 0) == Waiting(n) && Burst(n, j + 1) == Burst(n, j) + Advances(j, 2)
  {
    hide Advances, Waiting;
  }

  lemma BurstOnTime(ops: seq<Op>, n: nat, j: nat, q: Limits)
    requires j < n < 60 && OnTime(0.0, ops, q) && IsBurst(Run(0.0, ops, q), n, j)
    ensures OnTime(0.0, ops + Advances(j, 2), q)
  {
    AtMinute(n);
    AtMinute(j);
    hide Run, OnTime, Index, Minutes;
    AdvancesOnTime(0.0, ops, j, q);
  }

  lemma {:induction false} BurstHolds(n: nat, j: nat, q: Limits)
    requires j <= n < 60 && 1 <= q.rpm && n <= q.rph
    ensures IsBurst(Run(0.0, Burst(n, j), q), n, j) && OnTime(0.0, Burst(n, j), q)
    decreases j
  {
    hide *;
    WaitingHolds(n, q);
    if j == 0 {
      BurstIs(n, 0);
      BurstNone(n, q);
    } else {
      var i, ops := j - 1, Burst(n, j - 1);
      BurstHolds(n, i, q);
      BurstIs(n, i);
      BurstStep(Run(0.0, ops, q), n, i, q);
      RunAdvances(0.0, ops, i, 2, q);
      BurstOnTime(ops, n, i, q);
    }
  }

  // With every count in time, requests of many minutes can be let in at one moment, whatever rpm is:
  // one a minute, n of them, all within their minutes, send their hour commands together.
  lemma {:induction false} SlowRequestsArriveTogether(n: nat, q: Limits)
    requires n < 60 && 1 <= q.rpm && n <= q.rph
    ensures var calls := Run(0.0, Burst(n, n), q).calls;
            && IsClean(0.0, Burst(n, n), "u", q)
            && n <= |LetInAt(calls, "u", Minutes(n), Minutes(n) + 1.0)|
  {
    BurstHolds(n, n, q);
    BurstIsLetIn(Run(0.0, Burst(n, n), q), n);
    forall key: Key | key.client == "u" ensures NoRestart(0.0, Burst(n, n), key, q) {
      PromptIsClean(0.0, Burst(n, n), key, q);
    }
    hide Run, AllPrompt, NoRestart, IsBurst, LetInAt;
  }

  lemma BurstIsLetIn(s: Sys, n: nat)
    requires IsBurst(s, n, n)
    ensures n <= |LetInAt(s.calls, "u", Minutes(n), Minutes(n) + 1.0)|
  {
    forall r | r in Below(n) ensures r in LetInAt(s.calls, "u", Minutes(n), Minutes(n) + 1.0) {
      assert r in s.calls && s.calls[r] == Call("u", Minutes(r), Over(LetIn, Minutes(n)));
    }
    SubsetCount(Below(n), LetInAt(s.calls, "u", Minutes(n), Minutes(n) + 1.0));
  }

  function Below(n: nat): (s: set<nat>)
    ensures |s| == n && forall r: nat :: r in s <==> r < n
  {
    if n == 0 then {}
    else
      assert n - 1 !in Below(n - 1);
      Below(n - 1) + {n - 1}
  }
}
