/**
 The collection cache of apps/api/src/app/adapters/qdrant_client.py. A refresh awaits the
 server between looking at the clock and storing the answer, so other steps come in between.
 */
module CollectionCache {
  import opened Basics

  // A refresh under way: when it looked at the clock, and the server's answer once it is made.
  datatype Flight = Flight(start: real, listing: Option<set<string>>)

  datatype Sys = Sys(now: real, server: set<string>, cache: set<string>, updated: real, flights: map<nat, Flight>)

  const TTL := 300.0

  // Create and Delete are what any client does to the server; Invalidate follows one of this adapter's own.
  datatype Op =
    | Refresh(c: nat) | List(c: nat) | Land(c: nat) | Fail(c: nat)
    | Create(name: string) | Delete(name: string) | Invalidate
    | Tick(dt: Span)

  // The cache answers without asking the server.
  predicate Hit(s: Sys) { s.now - s.updated < TTL }

  function Next(s: Sys, op: Op): Sys {
    match op
    case Refresh(c) => if Hit(s) || c in s.flights then s else s.(flights := s.flights[c := Flight(s.now, None)])
    case List(c) =>
      if c in s.flights && s.flights[c].listing == None
      then s.(flights := s.flights[c := s.flights[c].(listing := Some(s.server))])
      else s
    case Land(c) =>
      if c in s.flights && s.flights[c].listing.Some?
      then s.(cache := s.flights[c].listing.value, updated := s.flights[c].start, flights := s.flights - {c})
      else s
    case Fail(c) => s.(flights := s.flights - {c})
    case Create(name) => s.(server := s.server + {name})
    case Delete(name) => s.(server := s.server - {name})
    case Invalidate => s.(updated := 0.0)
    case Tick(dt) => s.(now := s.now + dt)
  }

  // What a step answers its caller with: the cache on a hit, the listing that lands, and whatever is
  // in the cache when the refresh fails, which is logged and otherwise ignored.
  function Answer(s: Sys, op: Op): Option<set<string>> {
    match op
    case Refresh(_) => if Hit(s) then Some(s.cache) else None
    case Land(c) => if c in s.flights then s.flights[c].listing else None
    case Fail(c) => if c in s.flights then Some(s.cache) else None
    case _ => None
  }

  // The adapter's own fields; what happens elsewhere is given to each method.
  class QdrantAdapter {
    var collectionCache: set<string>
    var lastCacheUpdate: real

    constructor ()
      ensures collectionCache == {} && lastCacheUpdate == 0.0
    {
      collectionCache, lastCacheUpdate := {}, 0.0;
    }

    function View(now: real, server: set<string>, flights: map<nat, Flight>): Sys
      reads this
    {
      Sys(now, server, collectionCache, lastCacheUpdate, flights)
    }

    // Up to the await: when the refresh began, unless the cache will do.
    method BeginRefresh(now: real, server: set<string>, flights: map<nat, Flight>, c: nat) returns (begun: Option<Flight>)
      requires c !in flights
      ensures var s := View(now, server, flights);
              Next(s, Refresh(c)) == if begun.Some? then s.(flights := flights[c := begun.value]) else s
      ensures begun.None? <==> Hit(View(now, server, flights))
    {
      if now - lastCacheUpdate < TTL {
        return None;
      }
      return Some(Flight(now, None));
    }

    method EndRefresh(now: real, server: set<string>, flights: map<nat, Flight>, c: nat)
      requires c in flights && flights[c].listing.Some?
      modifies this
      ensures View(now, server, flights - {c}) == Next(old(View(now, server, flights)), Land(c))
    {
      collectionCache := flights[c].listing.value;
      lastCacheUpdate := flights[c].start;
    }

    method InvalidateCache(now: real, server: set<string>, flights: map<nat, Flight>)
      modifies `lastCacheUpdate
      ensures View(now, server, flights) == Next(old(View(now, server, flights)), Invalidate)
    {
      lastCacheUpdate := 0.0;
    }
  }

  function Run(now: real, server: set<string>, ops: seq<Op>): Sys {
    if ops == [] then Sys(now, server, {}, 0.0, map[]) else Next(Run(now, server, ops[..|ops| - 1]), ops[|ops| - 1])
  }

  // ---------------------------------------------------------------- what an answer can be

  // At some moment from step `n` on, and not before time `t`, the server held just these collections.
  ghost predicate Held(now: real, server: set<string>, ops: seq<Op>, n: nat, t: real, names: set<string>) {
    exists k :: n <= k <= |ops| && IsAt(Run(now, server, ops[..k]), t, names)
  }

  predicate IsAt(s: Sys, t: real, names: set<string>) { s.server == names && t <= s.now }

  lemma HeldLater(now: real, server: set<string>, ops: seq<Op>, op: Op, n: nat, t: real, names: set<string>)
    requires Held(now, server, ops, n, t, names)
    ensures Held(now, server, ops + [op], n, t, names)
  {
    hide IsAt, Run;
    var k :| n <= k <= |ops| && IsAt(Run(now, server, ops[..k]), t, names);
    assert (ops + [op])[..k] == ops[..k];
  }

  lemma HeldNow(now: real, server: set<string>, ops: seq<Op>, n: nat, t: real)
    requires n <= |ops| && t <= Run(now, server, ops).now
    ensures Held(now, server, ops, n, t, Run(now, server, ops).server)
  {
    assert ops[..|ops|] == ops;
    assert IsAt(Run(now, server, ops), t, Run(now, server, ops).server);
  }

  // Everything the cache and the refreshes under way know was read off the server since step `n`.
  ghost predicate Grounded(now: real, server: set<string>, ops: seq<Op>, n: nat) {
    var s := Run(now, server, ops);
    && now <= s.now
    && (s.updated != 0.0 ==> Held(now, server, ops, n, s.updated, s.cache))
    && forall c | c in s.flights :: Known(now, server, ops, n, s.flights[c])
  }

  ghost predicate Known(now: real, server: set<string>, ops: seq<Op>, n: nat, f: Flight) {
    && f.start <= Run(now, server, ops).now
    && (f.listing.Some? ==> Held(now, server, ops, n, f.start, f.listing.value))
  }

  lemma KnownLater(now: real, server: set<string>, ops: seq<Op>, op: Op, n: nat, f: Flight)
    requires Known(now, server, ops, n, f)
    ensures Known(now, server, ops + [op], n, f)
  {
    assert (ops + [op])[..|ops|] == ops;
    if f.listing.Some? {
      HeldLater(now, server, ops, op, n, f.start, f.listing.value);
    }
  }

  lemma GroundedStep(now: real, server: set<string>, ops: seq<Op>, op: Op, n: nat)
    requires n <= |ops| && Grounded(now, server, ops, n)
    ensures Grounded(now, server, ops + [op], n)
  {
    var s, t, all := Run(now, server, ops), Run(now, server, ops + [op]), ops + [op];
    assert all[..|ops|] == ops;
    assert t == Next(s, op);
    if s.updated != 0.0 {
      HeldLater(now, server, ops, op, n, s.updated, s.cache);
    }
    forall c | c in s.flights ensures Known(now, server, all, n, s.flights[c]) {
      KnownLater(now, server, ops, op, n, s.flights[c]);
    }
    if op.List? && op.c in s.flights {
      HeldNow(now, server, ops, n, s.flights[op.c].start);
      HeldLater(now, server, ops, op, n, s.flights[op.c].start, s.server);
    }
    hide Held, Run;
  }

  lemma {:induction false} AlwaysGrounded(now: real, server: set<string>, ops: seq<Op>)
    ensures Grounded(now, server, ops, 0)
  {
    if ops != [] {
      hide Grounded;
      AlwaysGrounded(now, server, ops[..|ops| - 1]);
      GroundedStep(now, server, ops[..|ops| - 1], ops[|ops| - 1], 0);
      assert ops == ops[..|ops| - 1] + [ops[|ops| - 1]];
    }
  }

  // When what a step answers was asked for: the start of the refresh that landed, now or earlier.
  function DateOf(s: Sys, op: Op): real { if op.Land? && op.c in s.flights then s.flights[op.c].start else s.updated }

  // Every answer was what the server held at its date or later, unless it comes of a failed refresh
  // over a cache that was invalidated, or never filled.
  lemma AnswerIsDated(now: real, server: set<string>, ops: seq<Op>, op: Op)
    requires TTL <= now && Answer(Run(now, server, ops), op).Some?
    ensures var s := Run(now, server, ops);
            (op.Fail? && s.updated == 0.0) || Held(now, server, ops, 0, DateOf(s, op), Answer(s, op).value)
  {
    AlwaysGrounded(now, server, ops);
    hide Run, Held;
  }

  // On a hit that is less than the time to live ago.
  lemma StaleAtMostTtl(now: real, server: set<string>, ops: seq<Op>)
    requires TTL <= now && Hit(Run(now, server, ops))
    ensures var s := Run(now, server, ops);
            exists k :: 0 <= k <= |ops| && IsAt(Run(now, server, ops[..k]), s.updated, s.cache) && s.now - s.updated < 300.0
  {
    AlwaysGrounded(now, server, ops);
    var s := Run(now, server, ops);
    hide Run, IsAt;
    var k :| 0 <= k <= |ops| && IsAt(Run(now, server, ops[..k]), s.updated, s.cache);
  }

  lemma RunOn(now: real, server: set<string>, ops: seq<Op>, op: Op)
    ensures Run(now, server, ops + [op]) == Next(Run(now, server, ops), op)
  {
    assert (ops + [op])[..|ops|] == ops;
  }

  // A listing that lands is what is answered for 300 seconds from when its refresh began, whatever happens
  // meanwhile but another landing and an invalidation; after that the server is asked again.
  lemma {:induction false} ListingServes(now: real, server: set<string>, ops: seq<Op>, c: nat, more: seq<Op>, d: nat)
    requires var s := Run(now, server, ops); c in s.flights && s.flights[c].listing.Some?
    requires forall i | 0 <= i < |more| :: !more[i].Land? && !more[i].Invalidate?
    ensures var f, t := Run(now, server, ops).flights[c], Run(now, server, ops + [Land(c)] + more);
            && t.cache == f.listing.value && t.updated == f.start
            && Answer(t, Refresh(d)) == if t.now - f.start < 300.0 then f.listing else None
    decreases |more|
  {
    hide Run;
    if more == [] {
      RunOn(now, server, ops, Land(c));
      assert ops + [Land(c)] + more == ops + [Land(c)];
    } else {
      var n := |more| - 1;
      ListingServes(now, server, ops, c, more[..n], d);
      assert ops + [Land(c)] + more == ops + [Land(c)] + more[..n] + [more[n]];
      RunOn(now, server, ops + [Land(c)] + more[..n], more[n]);
    }
  }

  const FILLED := [Refresh(0)] + [List(0)] + [Land(0)]

  lemma FilledState(now: real)
    requires TTL <= now
    ensures Run(now, {}, FILLED) == Sys(now, {}, {}, now, map[])
  {
    var a := [Refresh(0)];
    assert [] + a == a;
    RunOn(now, {}, [], Refresh(0));
    RunOn(now, {}, a, List(0));
    RunOn(now, {}, a + [List(0)], Land(0));
    hide Run;
  }

  // After a refresh that fails it may be of any age: here the server holds another set for any time
  // `dt`, and the answer is what it held before.
  lemma FailedRefreshIsOld(now: real, name: string, dt: Span)
    requires TTL <= now && TTL <= dt
    ensures var created := FILLED + [Create(name)];
            var ops := created + [Tick(dt)] + [Refresh(1)];
            && Run(now, {}, created).server == Run(now, {}, ops).server == {name}
            && Run(now, {}, ops).now == Run(now, {}, created).now + dt
            && Answer(Run(now, {}, ops), Fail(1)) == Some({})
  {
    FilledState(now);
    RunOn(now, {}, FILLED, Create(name));
    RunOn(now, {}, FILLED + [Create(name)], Tick(dt));
    RunOn(now, {}, FILLED + [Create(name)] + [Tick(dt)], Refresh(1));
    hide Run;
  }

  // ---------------------------------------------------------------- own changes

  function After(ops: seq<Op>, more: seq<Op>): seq<Op> { ops + [Invalidate] + more }

  // What is answered after the invalidation and whatever else happens is something the server has
  // held since.
  ghost predicate IsSince(now: real, server: set<string>, ops: seq<Op>, more: seq<Op>, op: Op) {
    var all := After(ops, more);
    var a := Answer(Run(now, server, all), op);
    a.Some? ==> Held(now, server, all, |ops| + 1, now, a.value)
  }

  // Steps that answer a call begun after the state.
  predicate IsLater(s: Sys, op: Op) { op.Refresh? || ((op.Land? || op.Fail?) && op.c !in s.flights) }

  ghost predicate AllSince(now: real, server: set<string>, ops: seq<Op>) {
    forall more: seq<Op>, op :: IsSince(now, server, ops, more, op)
  }

  ghost predicate LaterSince(now: real, server: set<string>, ops: seq<Op>) {
    forall more: seq<Op>, op :: IsLater(Run(now, server, ops), op) ==> IsSince(now, server, ops, more, op)
  }

  ghost predicate LaterUnfailedSince(now: real, server: set<string>, ops: seq<Op>) {
    forall more: seq<Op>, op ::
      IsLater(Run(now, server, ops), op) && !op.Fail? ==> IsSince(now, server, ops, more, op)
  }

  // ---------------------------------------------------------------- own changes, when refreshes may fail

  // What the cache holds and what refreshes under way have read is what the server holds.
  predicate UpToDate(s: Sys) {
    s.cache == s.server && forall c | c in s.flights :: s.flights[c].listing.Some? ==> s.flights[c].listing.value == s.server
  }

  // What is in the cache or has been read has been held since step `n`.
  ghost predicate Current(now: real, server: set<string>, ops: seq<Op>, n: nat) {
    var s := Run(now, server, ops);
    && Held(now, server, ops, n, now, s.cache)
    && forall c | c in s.flights && s.flights[c].listing.Some? ::
         Held(now, server, ops, n, now, s.flights[c].listing.value)
  }

  lemma CurrentStep(now: real, server: set<string>, ops: seq<Op>, op: Op, n: nat)
    requires n <= |ops| && Current(now, server, ops, n)
    ensures Current(now, server, ops + [op], n)
  {
    var s := Run(now, server, ops);
    RunOn(now, server, ops, op);
    ClockGoesOn(now, server, ops);
    HeldLater(now, server, ops, op, n, now, s.cache);
    forall c | c in s.flights && s.flights[c].listing.Some?
      ensures Held(now, server, ops + [op], n, now, s.flights[c].listing.value)
    {
      HeldLater(now, server, ops, op, n, now, s.flights[c].listing.value);
    }
    HeldNow(now, server, ops, n, now);
    HeldLater(now, server, ops, op, n, now, s.server);
    hide Held, Run;
  }

  lemma {:induction false} CurrentAfter(now: real, server: set<string>, ops: seq<Op>, more: seq<Op>)
    requires UpToDate(Run(now, server, ops))
    ensures Current(now, server, After(ops, more), |ops| + 1)
    decreases more
  {
    if more == [] {
      assert After(ops, more) == ops + [Invalidate];
      RunOn(now, server, ops, Invalidate);
      ClockGoesOn(now, server, ops + [Invalidate]);
      HeldNow(now, server, ops + [Invalidate], |ops| + 1, now);
      hide Run, Held;
    } else {
      var m := more[..|more| - 1];
      assert After(ops, more) == After(ops, m) + [more[|more| - 1]];
      hide Current, UpToDate, Run;
      CurrentAfter(now, server, ops, m);
      CurrentStep(now, server, After(ops, m), more[|more| - 1], |ops| + 1);
    }
  }

  lemma CurrentAnswers(now: real, server: set<string>, ops: seq<Op>, more: seq<Op>, op: Op)
    requires Current(now, server, After(ops, more), |ops| + 1)
    ensures IsSince(now, server, ops, more, op)
  {
    hide Run, Held, After;
  }

  // A caller number that is not in use.
  lemma Above(keys: set<nat>) returns (k: nat)
    ensures forall c | c in keys :: c < k
  {
    if keys == {} {
      k := 0;
    } else {
      var c :| c in keys;
      k := Above(keys - {c});
      k := Max(k, c + 1);
      assert keys == (keys - {c}) + {c};
    }
  }

  // While nobody changes the server, it has held since the invalidation only what it holds.
  lemma {:induction false} HeldOnly(now: real, server: set<string>, ops: seq<Op>, more: seq<Op>, names: set<string>)
    requires forall op | op in more :: !op.Create? && !op.Delete?
    requires Held(now, server, After(ops, more), |ops| + 1, now, names)
    ensures names == Run(now, server, ops).server
  {
    var all := After(ops, more);
    var k :| |ops| + 1 <= k <= |all| && IsAt(Run(now, server, all[..k]), now, names);
    assert all[..k] == After(ops, more[..k - |ops| - 1]);
    ServerStays(now, server, ops, more[..k - |ops| - 1]);
  }

  lemma {:induction false} ServerStays(now: real, server: set<string>, ops: seq<Op>, more: seq<Op>)
    requires forall op | op in more :: !op.Create? && !op.Delete?
    ensures Run(now, server, After(ops, more)).server == Run(now, server, ops).server
    decreases more
  {
    if more == [] {
      assert After(ops, more) == ops + [Invalidate];
      RunOn(now, server, ops, Invalidate);
    } else {
      var m, op := more[..|more| - 1], more[|more| - 1];
      assert op in more && forall o | o in m :: o in more;
      assert After(ops, more) == After(ops, m) + [op];
      RunOn(now, server, After(ops, m), op);
      hide Run;
      ServerStays(now, server, ops, m);
    }
  }

  // The converse: a call begun after the invalidation, and a refresh of its own that fails.
  lemma {:induction false} OldCacheIsAnswered(now: real, server: set<string>, ops: seq<Op>, k: nat)
    requires TTL <= now && k !in Run(now, server, ops).flights
    requires Run(now, server, ops).cache != Run(now, server, ops).server
    ensures !IsSince(now, server, ops, [Refresh(k)], Fail(k))
  {
    var mid := ops + [Invalidate];
    RunOn(now, server, ops, Invalidate);
    RunOn(now, server, mid, Refresh(k));
    ClockGoesOn(now, server, mid);
    var s, more := Run(now, server, ops), [Refresh(k)];
    assert After(ops, more) == mid + [Refresh(k)];
    if Held(now, server, After(ops, more), |ops| + 1, now, s.cache) {
      HeldOnly(now, server, ops, more, s.cache);
    }
    hide Run, Held;
  }

  lemma {:induction false} OldListingIsAnswered(now: real, server: set<string>, ops: seq<Op>, c: nat, k: nat)
    requires TTL <= now && c in Run(now, server, ops).flights && k !in Run(now, server, ops).flights
    requires var l := Run(now, server, ops).flights[c].listing; l.Some? && l.value != Run(now, server, ops).server
    ensures !IsSince(now, server, ops, [Refresh(k), Land(c)], Fail(k))
  {
    var mid := ops + [Invalidate];
    RunOn(now, server, ops, Invalidate);
    RunOn(now, server, mid, Refresh(k));
    RunOn(now, server, mid + [Refresh(k)], Land(c));
    ClockGoesOn(now, server, mid);
    var s, more := Run(now, server, ops), [Refresh(k), Land(c)];
    assert After(ops, more) == mid + [Refresh(k)] + [Land(c)];
    if Held(now, server, After(ops, more), |ops| + 1, now, s.flights[c].listing.value) {
      HeldOnly(now, server, ops, more, s.flights[c].listing.value);
    }
    hide Run, Held;
  }

  // Exactly when an adapter is sure to see its own change once it has invalidated the cache, if any
  // refresh may fail: iff what the cache holds, and what refreshes under way have read, is what the
  // server holds at that moment. It makes no difference whether all answers given after the
  // invalidation are meant, or those to calls begun after it.
  lemma {:induction false} ReadsOwnWrites(now: real, server: set<string>, ops: seq<Op>)
    requires TTL <= now
    ensures AllSince(now, server, ops) <==> UpToDate(Run(now, server, ops))
    ensures LaterSince(now, server, ops) <==> UpToDate(Run(now, server, ops))
  {
    var s := Run(now, server, ops);
    hide Run, IsSince;
    if UpToDate(s) {
      forall more: seq<Op>, op ensures IsSince(now, server, ops, more, op) {
        CurrentAfter(now, server, ops, more);
        CurrentAnswers(now, server, ops, more, op);
      }
    } else {
      var k := Above(s.flights.Keys);
      assert IsLater(s, Fail(k));
      if s.cache != s.server {
        OldCacheIsAnswered(now, server, ops, k);
      } else {
        var c :| c in s.flights && s.flights[c].listing.Some? && s.flights[c].listing.value != s.server;
        OldListingIsAnswered(now, server, ops, c, k);
      }
    }
  }

  // The simplest input for which it is not: a collection is created, and the next refresh fails.
  lemma FailedRefreshHidesChange(now: real, name: string)
    requires TTL <= now
    ensures var ops := [Create(name)] + [Invalidate] + [Refresh(1)];
            Answer(Run(now, {}, ops), Fail(1)) == Some({}) && Run(now, {}, ops).server == {name}
  {
    var a := [Create(name)];
    assert [] + a == a;
    RunOn(now, {}, [], Create(name));
    RunOn(now, {}, a, Invalidate);
    RunOn(now, {}, a + [Invalidate], Refresh(1));
    hide Run;
  }

  // ---------------------------------------------------------------- own changes, when no refresh of the caller's fails

  // A refresh under way that can still hide a change: it has read something else than the server
  // holds now, and what it read would still count as fresh.
  predicate IsStale(s: Sys, f: Flight) {
    f.listing.Some? && f.listing.value != s.server && s.now - f.start < TTL
  }

  predicate NoneStale(s: Sys) { forall c | c in s.flights :: !IsStale(s, s.flights[c]) }

  // What can still be answered, or stored and then answered, has been held since step `n`.
  ghost predicate Sound(now: real, server: set<string>, ops: seq<Op>, n: nat) {
    var s := Run(now, server, ops);
    && (Hit(s) ==> Held(now, server, ops, n, now, s.cache))
    && forall c | c in s.flights :: FlightSound(now, server, ops, n, s.flights[c])
  }

  ghost predicate FlightSound(now: real, server: set<string>, ops: seq<Op>, n: nat, f: Flight) {
    f.listing.Some? && Run(now, server, ops).now - f.start < TTL ==> Held(now, server, ops, n, now, f.listing.value)
  }

  lemma {:induction false} ClockGoesOn(now: real, server: set<string>, ops: seq<Op>)
    ensures now <= Run(now, server, ops).now
  {
    if ops != [] {
      ClockGoesOn(now, server, ops[..|ops| - 1]);
    }
  }

  lemma FlightSoundLater(now: real, server: set<string>, ops: seq<Op>, op: Op, n: nat, f: Flight)
    requires FlightSound(now, server, ops, n, f)
    ensures FlightSound(now, server, ops + [op], n, f)
  {
    assert (ops + [op])[..|ops|] == ops;
    if f.listing.Some? && Run(now, server, ops).now - f.start < TTL {
      HeldLater(now, server, ops, op, n, now, f.listing.value);
    }
  }

  lemma SoundStep(now: real, server: set<string>, ops: seq<Op>, op: Op, n: nat)
    requires TTL <= now && n <= |ops| && Sound(now, server, ops, n)
    ensures Sound(now, server, ops + [op], n)
  {
    var s, t, all := Run(now, server, ops), Run(now, server, ops + [op]), ops + [op];
    assert all[..|ops|] == ops;
    assert t == Next(s, op);
    ClockGoesOn(now, server, ops);
    ClockGoesOn(now, server, all);
    if Hit(s) {
      HeldLater(now, server, ops, op, n, now, s.cache);
    }
    forall c | c in s.flights ensures FlightSound(now, server, all, n, s.flights[c]) {
      FlightSoundLater(now, server, ops, op, n, s.flights[c]);
    }
    HeldNow(now, server, ops, n, now);
    HeldLater(now, server, ops, op, n, now, s.server);
    hide Held, Run;
  }

  lemma {:induction false} SoundAfter(now: real, server: set<string>, ops: seq<Op>, more: seq<Op>)
    requires TTL <= now && NoneStale(Run(now, server, ops))
    ensures Sound(now, server, After(ops, more), |ops| + 1)
  {
    var all := After(ops, more);
    if more == [] {
      assert all == ops + [Invalidate] && all[..|ops|] == ops;
      ClockGoesOn(now, server, all);
      HeldNow(now, server, all, |ops| + 1, now);
    } else {
      var m := more[..|more| - 1];
      assert all == After(ops, m) + [more[|more| - 1]];
      hide Sound, NoneStale, Run;
      SoundAfter(now, server, ops, m);
      SoundStep(now, server, After(ops, m), more[|more| - 1], |ops| + 1);
    }
  }

  ghost predicate ListedSince(now: real, server: set<string>, ops: seq<Op>, n: nat, c: nat) {
    var s := Run(now, server, ops);
    c in s.flights && s.flights[c].listing.Some? ==> Held(now, server, ops, n, now, s.flights[c].listing.value)
  }

  lemma ListedStep(now: real, server: set<string>, ops: seq<Op>, op: Op, n: nat, c: nat)
    requires n <= |ops| && ListedSince(now, server, ops, n, c)
    ensures ListedSince(now, server, ops + [op], n, c)
  {
    var s := Run(now, server, ops);
    RunOn(now, server, ops, op);
    ClockGoesOn(now, server, ops);
    if c in s.flights && s.flights[c].listing.Some? {
      HeldLater(now, server, ops, op, n, now, s.flights[c].listing.value);
    }
    HeldNow(now, server, ops, n, now);
    HeldLater(now, server, ops, op, n, now, s.server);
    hide Run, Held;
  }

  // What a call begun after the invalidation reads off the server has been held since.
  lemma {:induction false} LaterListing(now: real, server: set<string>, ops: seq<Op>, more: seq<Op>, c: nat)
    requires c !in Run(now, server, ops).flights
    ensures ListedSince(now, server, After(ops, more), |ops| + 1, c)
    decreases more
  {
    if more == [] {
      assert After(ops, more) == ops + [Invalidate];
      RunOn(now, server, ops, Invalidate);
    } else {
      var m := more[..|more| - 1];
      assert After(ops, more) == After(ops, m) + [more[|more| - 1]];
      hide ListedSince, Run;
      LaterListing(now, server, ops, m, c);
      ListedStep(now, server, After(ops, m), more[|more| - 1], |ops| + 1, c);
    }
  }

  // The converse: landing at once, a stale refresh is answered from.
  lemma {:induction false} StaleIsAnswered(now: real, server: set<string>, ops: seq<Op>, c: nat, k: nat)
    requires TTL <= now
    requires c in Run(now, server, ops).flights && IsStale(Run(now, server, ops), Run(now, server, ops).flights[c])
    ensures !IsSince(now, server, ops, [Land(c)], Refresh(k))
  {
    var mid := ops + [Invalidate];
    RunOn(now, server, ops, Invalidate);
    RunOn(now, server, mid, Land(c));
    var s, more := Run(now, server, ops), [Land(c)];
    assert After(ops, more) == mid + [Land(c)];
    if Held(now, server, After(ops, more), |ops| + 1, now, s.flights[c].listing.value) {
      HeldOnly(now, server, ops, more, s.flights[c].listing.value);
    }
    hide Run, Held;
  }

  // Exactly when calls begun after the invalidation see the change as long as their own refresh does
  // not fail: iff no refresh under way at that moment has read a listing that differs from what the
  // server holds and is younger than the time to live. Refreshes that have read nothing yet do no
  // harm, nor do those that read the new state, nor those begun too long ago.
  lemma {:induction false} UnfailedReadsOwnWrites(now: real, server: set<string>, ops: seq<Op>)
    requires TTL <= now
    ensures LaterUnfailedSince(now, server, ops) <==> NoneStale(Run(now, server, ops))
  {
    var s := Run(now, server, ops);
    hide Run, IsSince;
    if NoneStale(s) {
      forall more: seq<Op>, op | IsLater(s, op) && !op.Fail? ensures IsSince(now, server, ops, more, op) {
        SoundAfter(now, server, ops, more);
        if op.Land? {
          LaterListing(now, server, ops, more, op.c);
        }
        SoundAnswers(now, server, ops, more, op);
      }
    } else {
      var c :| c in s.flights && IsStale(s, s.flights[c]);
      StaleIsAnswered(now, server, ops, c, 0);
      assert IsLater(s, Refresh(0));
    }
  }

  lemma SoundAnswers(now: real, server: set<string>, ops: seq<Op>, more: seq<Op>, op: Op)
    requires Sound(now, server, After(ops, more), |ops| + 1) && !op.Fail?
    requires op.Land? ==> ListedSince(now, server, After(ops, more), |ops| + 1, op.c)
    ensures IsSince(now, server, ops, more, op)
  {
    hide Run, Held, After;
  }

  // The run in which they do not: a refresh stores what it read before the change, over the
  // invalidation, and the new collection stays unseen until the time to live has passed.
  lemma LostInvalidation(now: real, name: string)
    requires TTL <= now
    ensures var s := Run(now, {}, [Refresh(0), List(0), Create(name), Invalidate, Land(0)]);
            name in s.server && Hit(s) && name !in s.cache
  {
    var ops := [Refresh(0), List(0), Create(name), Invalidate, Land(0)];
    var a := Run(now, {}, []);
    assert ops[..1] == [Refresh(0)] && ops[..1][..0] == [];
    var b := Run(now, {}, ops[..1]);
    assert b == Next(a, Refresh(0));
    assert ops[..2][..1] == ops[..1] && ops[..3][..2] == ops[..2] && ops[..4][..3] == ops[..3] && ops[..4] == ops[..|ops| - 1];
    var c := Run(now, {}, ops[..2]);
    assert c == Next(b, List(0));
    var d := Run(now, {}, ops[..3]);
    assert d == Next(c, Create(name));
    var e := Run(now, {}, ops[..4]);
    assert e == Next(d, Invalidate);
    assert Run(now, {}, ops) == Next(e, Land(0));
  }
}
