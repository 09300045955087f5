/**
 The session cache of apps/api/src/app/agents/operation_executor.py under concurrency: what
 callers do between two awaits is one step, and steps of any callers interleave.
 */
module McpSessions {
  import opened Basics
  import OperationExecutor

  type Url = string

  type Caller = nat

  type Session = OperationExecutor.Session

  // Where a caller awaits: at the lock, in a handshake under the lock, in its call under the session
  // given to it, in a handshake forced by a rejection (which takes no lock), or at the lock again
  // with its new session.
  datatype Phase =
    | Waiting(url: Url)
    | Handshaking(url: Url)
    | Calling(url: Url, id: string)
    | Forced(url: Url)
    | Storing(url: Url, id: string)

  datatype Sys = Sys(now: real, cache: map<Url, Session>, lock: Option<Caller>, phases: map<Caller, Phase>)

  datatype Op =
    | Arrive(c: Caller, to: Url)
    | Enter(c: Caller)
    | Complete(c: Caller, id: string)
    | Break(c: Caller)
    | Return(c: Caller)
    | Reject(c: Caller)
    | Renew(c: Caller, id: string)
    | Store(c: Caller)
    | Tick(dt: Span)

  predicate IsFresh(s: Sys, url: Url) { url in s.cache && s.cache[url].expires > s.now }

  predicate IsWaiting(s: Sys, c: Caller) { c in s.phases && s.phases[c].Waiting? }

  predicate InHandshake(s: Sys, c: Caller) { c in s.phases && s.phases[c].Handshaking? }

  predicate IsCalling(s: Sys, c: Caller) { c in s.phases && s.phases[c].Calling? }

  predicate IsForced(s: Sys, c: Caller) { c in s.phases && s.phases[c].Forced? }

  predicate IsStoring(s: Sys, c: Caller) { c in s.phases && s.phases[c].Storing? }

  // Whether the step can be taken; the caller's own code and the lock decide.
  predicate Enabled(s: Sys, op: Op) {
    match op
    case Arrive(c, _) => c !in s.phases
    case Enter(c) => IsWaiting(s, c) && s.lock == None
    case Complete(c, _) => InHandshake(s, c)
    case Break(c) => InHandshake(s, c) || IsForced(s, c)
    case Return(c) => IsCalling(s, c)
    case Reject(c) => IsCalling(s, c)
    case Renew(c, _) => IsForced(s, c)
    case Store(c) => IsStoring(s, c) && s.lock == None
    case Tick(_) => true
  }

  function Leave(s: Sys, c: Caller): Sys { s.(phases := s.phases - {c}) }

  // The caller goes on to its call.
  function Give(s: Sys, c: Caller, url: Url, id: string): Sys { s.(phases := s.phases[c := Calling(url, id)]) }

  function Put(s: Sys, url: Url, id: string, ttl: Span): Sys {
    s.(cache := s.cache[url := OperationExecutor.Session(id, s.now + ttl)])
  }

  function Next(s: Sys, op: Op, ttl: Span): Sys {
    if !Enabled(s, op) then s
    else
      match op
      case Arrive(c, url) =>
        if IsFresh(s, url) then Give(s, c, url, s.cache[url].id) else s.(phases := s.phases[c := Waiting(url)])
      case Enter(c) =>
        var url := s.phases[c].url;
        if IsFresh(s, url) then Give(s, c, url, s.cache[url].id)
        else s.(lock := Some(c), phases := s.phases[c := Handshaking(url)])
      case Complete(c, id) => Give(Put(s, s.phases[c].url, id, ttl), c, s.phases[c].url, id).(lock := None)
      case Break(c) => if s.phases[c].Handshaking? then Leave(s, c).(lock := None) else Leave(s, c)
      case Return(c) => Leave(s, c)
      case Reject(c) =>
        var url := s.phases[c].url;
        s.(cache := s.cache - {url}, phases := s.phases[c := Forced(url)])
      case Renew(c, id) => s.(phases := s.phases[c := Storing(s.phases[c].url, id)])
      case Store(c) => Leave(Put(s, s.phases[c].url, s.phases[c].id, ttl), c)
      case Tick(dt) => s.(now := s.now + dt)
  }

  // The session a step of `_mcp_initialize` returns to its caller, and for which provider.
  datatype Given = Given(url: Url, id: string)

  function Answer(s: Sys, op: Op): Option<Given> {
    if !Enabled(s, op) then None
    else
      match op
      case Arrive(_, url) => if IsFresh(s, url) then Some(Given(url, s.cache[url].id)) else None
      case Enter(c) =>
        var url := s.phases[c].url;
        if IsFresh(s, url) then Some(Given(url, s.cache[url].id)) else None
      case Complete(c, id) => Some(Given(s.phases[c].url, id))
      case _ => None
  }

  function Run(now: real, ops: seq<Op>, ttl: Span): Sys {
    if ops == [] then Sys(now, map[], None, map[])
    else Next(Run(now, ops[..|ops| - 1], ttl), ops[|ops| - 1], ttl)
  }

  // ---------------------------------------------------------------- one handshake at a time

  ghost predicate LockIsHandshake(s: Sys) {
    forall c: Caller :: InHandshake(s, c) <==> s.lock == Some(c)
  }

  lemma LockStep(s: Sys, op: Op, ttl: Span)
    requires LockIsHandshake(s)
    ensures LockIsHandshake(Next(s, op, ttl))
  {
    hide IsFresh;
    var t := Next(s, op, ttl);
    forall c: Caller ensures InHandshake(t, c) <==> t.lock == Some(c) {
      assert InHandshake(s, c) <==> s.lock == Some(c);
    }
  }

  lemma {:induction false} LockHolds(now: real, ops: seq<Op>, ttl: Span)
    ensures LockIsHandshake(Run(now, ops, ttl))
  {
    hide Next;
    if ops != [] {
      hide LockIsHandshake;
      LockHolds(now, ops[..|ops| - 1], ttl);
      LockStep(Run(now, ops[..|ops| - 1], ttl), ops[|ops| - 1], ttl);
    }
  }

  // However callers interleave, at most one handshake of `_mcp_initialize` is in flight.
  lemma OneHandshake(now: real, ops: seq<Op>, ttl: Span, c: Caller, d: Caller)
    requires InHandshake(Run(now, ops, ttl), c) && InHandshake(Run(now, ops, ttl), d)
    ensures c == d
  {
    LockHolds(now, ops, ttl);
    hide Run, InHandshake;
    assert Run(now, ops, ttl).lock == Some(c);
  }

  // ---------------------------------------------------------------- only unexpired sessions are given out

  // What a step puts into the cache.
  function Stored(s: Sys, op: Op): Option<Given> {
    if !Enabled(s, op) then None
    else
      match op
      case Complete(c, id) => Some(Given(s.phases[c].url, id))
      case Store(c) => Some(Given(s.phases[c].url, s.phases[c].id))
      case _ => None
  }

  datatype Grant = Grant(id: string, at: real)

  predicate Rejects(s: Sys, op: Op, url: Url) { op.Reject? && Enabled(s, op) && s.phases[op.c].url == url }

  // What a step makes of the latest grant.
  function GrantAfter(s: Sys, op: Op, url: Url, g: Option<Grant>): Option<Grant> {
    var stored := Stored(s, op);
    if stored.Some? && stored.value.url == url then Some(Grant(stored.value.id, s.now))
    else if Rejects(s, op, url) then None
    else g
  }

  // The last session stored for a provider and when, unless a rejection has dropped it since.
  function Latest(now: real, ops: seq<Op>, ttl: Span, url: Url): Option<Grant> {
    if ops == [] then None
    else GrantAfter(Run(now, ops[..|ops| - 1], ttl), ops[|ops| - 1], url, Latest(now, ops[..|ops| - 1], ttl, url))
  }

  predicate CacheIs(s: Sys, url: Url, g: Option<Grant>, ttl: Span) {
    if g.None? then url !in s.cache
    else url in s.cache && s.cache[url] == OperationExecutor.Session(g.value.id, g.value.at + ttl) && g.value.at <= s.now
  }

  lemma CacheStep(s: Sys, op: Op, ttl: Span, url: Url, g: Option<Grant>)
    requires CacheIs(s, url, g, ttl)
    ensures CacheIs(Next(s, op, ttl), url, GrantAfter(s, op, url, g), ttl)
  {
    hide Enabled, IsFresh;
  }

  lemma {:induction false} CacheIsLatest(now: real, ops: seq<Op>, ttl: Span, url: Url)
    ensures CacheIs(Run(now, ops, ttl), url, Latest(now, ops, ttl, url), ttl)
  {
    if ops != [] {
      hide Next, CacheIs, GrantAfter;
      CacheIsLatest(now, ops[..|ops| - 1], ttl, url);
      CacheStep(Run(now, ops[..|ops| - 1], ttl), ops[|ops| - 1], ttl, url, Latest(now, ops[..|ops| - 1], ttl, url));
    }
  }

  // A session given out is the last one stored for its provider, was not rejected since, and is
  // less than the time to live old; a handshake's own caller gets the session it stores.
  lemma GivenIsFresh(now: real, ops: seq<Op>, ttl: Span, op: Op)
    requires 0.0 < ttl && Answer(Run(now, ops, ttl), op).Some?
    ensures var s, g := Run(now, ops, ttl), Answer(Run(now, ops, ttl), op).value;
            var latest := Latest(now, ops + [op], ttl, g.url);
            latest.Some? && latest.value.id == g.id && latest.value.at <= s.now < latest.value.at + ttl
  {
    var url := Answer(Run(now, ops, ttl), op).value.url;
    CacheIsLatest(now, ops, ttl, url);
    assert (ops + [op])[..|ops|] == ops;
    hide Run;
  }

  // ---------------------------------------------------------------- one handshake serves everybody

  // Nobody is about to replace the provider's session.
  predicate Settled(s: Sys, url: Url) {
    forall c: Caller | c in s.phases :: s.phases[c].Waiting? || s.phases[c].Calling? || s.phases[c].url != url
  }

  function RunFrom(s: Sys, ops: seq<Op>, ttl: Span): Sys {
    if ops == [] then s else Next(RunFrom(s, ops[..|ops| - 1], ttl), ops[|ops| - 1], ttl)
  }

  predicate NoneRejected(s: Sys, ops: seq<Op>, ttl: Span, url: Url) {
    forall i | 0 <= i < |ops| :: !Rejects(RunFrom(s, ops[..i], ttl), ops[i], url)
  }

  lemma NoneRejectedStep(s: Sys, ops: seq<Op>, ttl: Span, url: Url)
    requires ops != [] && NoneRejected(s, ops, ttl, url)
    ensures var p := ops[..|ops| - 1];
            NoneRejected(s, p, ttl, url) && !Rejects(RunFrom(s, p, ttl), ops[|p|], url)
  {
    hide RunFrom, Rejects;
    var p := ops[..|ops| - 1];
    assert forall i | 0 <= i < |p| :: p[..i] == ops[..i] && p[i] == ops[i];
  }

  lemma ClockGoesOn(s: Sys, op: Op, ttl: Span)
    ensures s.now <= Next(s, op, ttl).now
  {
    hide Enabled, IsFresh;
  }

  // While its session lasts and nobody is rejected, nothing a caller does starts another handshake
  // with the provider or changes the session.
  lemma {:induction false} SessionServesAll(s: Sys, ops: seq<Op>, ttl: Span, url: Url)
    requires Settled(s, url) && url in s.cache
    requires RunFrom(s, ops, ttl).now < s.cache[url].expires
    requires NoneRejected(s, ops, ttl, url)
    ensures var t := RunFrom(s, ops, ttl); Settled(t, url) && url in t.cache && t.cache[url] == s.cache[url]
  {
    if ops != [] {
      var p, op := ops[..|ops| - 1], ops[|ops| - 1];
      NoneRejectedStep(s, ops, ttl, url);
      ClockGoesOn(RunFrom(s, p, ttl), op, ttl);
      hide NoneRejected, Settled, Rejects, Next;
      SessionServesAll(s, p, ttl, url);
      SettledStep(RunFrom(s, p, ttl), op, ttl, url);
    }
  }

  lemma SettledStep(s: Sys, op: Op, ttl: Span, url: Url)
    requires Settled(s, url) && IsFresh(s, url) && !Rejects(s, op, url)
    ensures var t := Next(s, op, ttl); Settled(t, url) && url in t.cache && t.cache[url] == s.cache[url]
  {
  }

  // So every caller that arrives, or gets the lock, in that time is given that same session.
  lemma {:induction false} EverybodyGetsIt(s: Sys, ops: seq<Op>, ttl: Span, url: Url, op: Op)
    requires Settled(s, url) && url in s.cache
    requires RunFrom(s, ops, ttl).now < s.cache[url].expires
    requires NoneRejected(s, ops, ttl, url)
    requires var t := RunFrom(s, ops, ttl);
             Enabled(t, op) && ((op.Arrive? && op.to == url) || (op.Enter? && t.phases[op.c].url == url))
    ensures Answer(RunFrom(s, ops, ttl), op) == Some(Given(url, s.cache[url].id))
  {
    SessionServesAll(s, ops, ttl, url);
    hide RunFrom, Settled;
  }

  // ---------------------------------------------------------------- what a rejection drops

  predicate GivesTo(s: Sys, op: Op, c: Caller) { Answer(s, op).Some? && op.c == c }

  // How many steps had been taken when the caller was last given a session.
  function GivenAt(now: real, ops: seq<Op>, ttl: Span, c: Caller): (n: nat)
    ensures n <= |ops|
  {
    if ops == [] then 0
    else if GivesTo(Run(now, ops[..|ops| - 1], ttl), ops[|ops| - 1], c) then |ops|
    else GivenAt(now, ops[..|ops| - 1], ttl, c)
  }

  // A caller that is given a session is given the provider's latest; one that is not keeps its own.
  lemma CallingStep(s: Sys, op: Op, ttl: Span, c: Caller, g: Option<Grant>)
    requires IsCalling(Next(s, op, ttl), c)
    requires CacheIs(s, Next(s, op, ttl).phases[c].url, g, ttl)
    ensures var ph := Next(s, op, ttl).phases[c];
            if GivesTo(s, op, c) then
              GrantAfter(s, op, ph.url, g).Some? && GrantAfter(s, op, ph.url, g).value.id == ph.id
            else c in s.phases && s.phases[c] == ph
  {
  }

  lemma {:induction false} GivenWasLatest(now: real, ops: seq<Op>, ttl: Span, c: Caller)
    requires IsCalling(Run(now, ops, ttl), c)
    ensures var ph, n := Run(now, ops, ttl).phases[c], GivenAt(now, ops, ttl, c);
            && Latest(now, ops[..n], ttl, ph.url).Some?
            && Latest(now, ops[..n], ttl, ph.url).value.id == ph.id
  {
    if ops != [] {
      hide Next, CacheIs, GrantAfter, GivesTo;
      var p, op := ops[..|ops| - 1], ops[|ops| - 1];
      var ph := Run(now, ops, ttl).phases[c];
      CacheIsLatest(now, p, ttl, ph.url);
      CallingStep(Run(now, p, ttl), op, ttl, c, Latest(now, p, ttl, ph.url));
      assert ops[..|ops|] == ops;
      if !GivesTo(Run(now, p, ttl), op, c) {
        GivenWasLatest(now, p, ttl, c);
        assert p[..GivenAt(now, p, ttl, c)] == ops[..GivenAt(now, p, ttl, c)];
      }
    }
  }

  predicate Stores(s: Sys, op: Op, url: Url) { Stored(s, op).Some? && Stored(s, op).value.url == url }

  // Step `k` stores another session, and no later step stores or drops one.
  predicate Replaces(now: real, ops: seq<Op>, ttl: Span, url: Url, id: string, k: nat)
    requires k < |ops|
  {
    && Stores(Run(now, ops[..k], ttl), ops[k], url) && Stored(Run(now, ops[..k], ttl), ops[k]).value.id != id
    && forall j | k < j < |ops| ::
         !Stores(Run(now, ops[..j], ttl), ops[j], url) && !Rejects(Run(now, ops[..j], ttl), ops[j], url)
  }

  predicate Replaced(now: real, ops: seq<Op>, ttl: Span, url: Url, id: string, from: nat) {
    exists k: nat :: from <= k < |ops| && Replaces(now, ops, ttl, url, id, k)
  }

  lemma ReplacesEarlier(now: real, ops: seq<Op>, ttl: Span, url: Url, id: string, k: nat)
    requires k < |ops| - 1
    ensures var p := ops[..|ops| - 1];
            var s, op := Run(now, p, ttl), ops[|p|];
            Replaces(now, ops, ttl, url, id, k) <==>
              Replaces(now, p, ttl, url, id, k) && !Stores(s, op, url) && !Rejects(s, op, url)
  {
    hide Run, Stores, Rejects;
    var p := ops[..|ops| - 1];
    assert forall j | 0 <= j < |p| :: p[..j] == ops[..j] && p[j] == ops[j];
  }

  lemma ReplacedStep(now: real, ops: seq<Op>, ttl: Span, url: Url, id: string, from: nat)
    requires from < |ops|
    ensures var p := ops[..|ops| - 1];
            var s, op := Run(now, p, ttl), ops[|p|];
            Replaced(now, ops, ttl, url, id, from) <==>
              if Stores(s, op, url) then Stored(s, op).value.id != id
              else !Rejects(s, op, url) && Replaced(now, p, ttl, url, id, from)
  {
    hide Run, Stores, Rejects, Stored, Replaces;
    var n := |ops| - 1;
    var p := ops[..n];
    forall k: nat | k < n
      ensures Replaces(now, ops, ttl, url, id, k) <==>
              Replaces(now, p, ttl, url, id, k)
              && !Stores(Run(now, p, ttl), ops[n], url) && !Rejects(Run(now, p, ttl), ops[n], url)
    {
      ReplacesEarlier(now, ops, ttl, url, id, k);
    }
    ReplacesLast(now, ops, ttl, url, id);
  }

  lemma ReplacesLast(now: real, ops: seq<Op>, ttl: Span, url: Url, id: string)
    requires ops != []
    ensures var p, n := ops[..|ops| - 1], |ops| - 1;
            Replaces(now, ops, ttl, url, id, n) <==>
              Stores(Run(now, p, ttl), ops[n], url) && Stored(Run(now, p, ttl), ops[n]).value.id != id
  {
    hide Run, Stores, Rejects, Stored;
  }

  lemma {:induction false} LatestIsOther(now: real, ops: seq<Op>, ttl: Span, url: Url, id: string, from: nat)
    requires from <= |ops| && Latest(now, ops[..from], ttl, url).Some?
    requires Latest(now, ops[..from], ttl, url).value.id == id
    ensures var g := Latest(now, ops, ttl, url);
            (g.Some? && g.value.id != id) <==> Replaced(now, ops, ttl, url, id, from)
    decreases |ops|
  {
    if from == |ops| {
      assert ops[..from] == ops;
    } else {
      hide Run, Stored, Rejects, Replaced;
      var p := ops[..|ops| - 1];
      assert p[..from] == ops[..from];
      LatestIsOther(now, p, ttl, url, id, from);
      ReplacedStep(now, ops, ttl, url, id, from);
    }
  }

  // A rejected caller drops whatever session is stored. It drops another than the one it was
  // rejected under exactly when, since it was given that one, another has been stored for the
  // provider and neither dropped nor stored over.
  lemma RejectDropsOther(now: real, ops: seq<Op>, ttl: Span, c: Caller)
    requires IsCalling(Run(now, ops, ttl), c)
    ensures var s := Run(now, ops, ttl);
            var url, id := s.phases[c].url, s.phases[c].id;
            && Next(s, Reject(c), ttl).cache == s.cache - {url}
            && (url in s.cache && s.cache[url].id != id
                <==> Replaced(now, ops, ttl, url, id, GivenAt(now, ops, ttl, c)))
  {
    var s := Run(now, ops, ttl);
    var ph := s.phases[c];
    hide Run, Latest, Replaced;
    CacheIsLatest(now, ops, ttl, ph.url);
    GivenWasLatest(now, ops, ttl, c);
    LatestIsOther(now, ops, ttl, ph.url, ph.id, GivenAt(now, ops, ttl, c));
  }

  lemma RunOn(now: real, ops: seq<Op>, op: Op, ttl: Span)
    ensures Run(now, ops + [op], ttl) == Next(Run(now, ops, ttl), op, ttl)
  {
    assert (ops + [op])[..|ops|] == ops;
  }

  const SHARED := [Arrive(0, "u")] + [Enter(0)] + [Complete(0, "a")] + [Arrive(1, "u")]
  const RENEWED := SHARED + [Reject(0)] + [Renew(0, "b")] + [Store(0)]

  lemma SharedState(now: real, ttl: Span)
    requires 0.0 < ttl
    ensures Run(now, SHARED, ttl) ==
            Sys(now, map["u" := OperationExecutor.Session("a", now + ttl)], None,
                map[0 := Calling("u", "a"), 1 := Calling("u", "a")])
  {
    var a, b := [Arrive(0, "u")], [Arrive(0, "u")] + [Enter(0)];
    assert [] + a == a;
    RunOn(now, [], Arrive(0, "u"), ttl);
    RunOn(now, a, Enter(0), ttl);
    RunOn(now, b, Complete(0, "a"), ttl);
    RunOn(now, b + [Complete(0, "a")], Arrive(1, "u"), ttl);
    hide Run;
  }

  // Two callers share a session the provider has ended. The first is rejected and stores a new one;
  // the second, rejected under the old one, drops the new one, which nobody has been refused.
  lemma NewSessionIsDropped(now: real, ttl: Span)
    requires 0.0 < ttl
    ensures var s := Run(now, RENEWED, ttl);
            && s.phases == map[1 := Calling("u", "a")]
            && IsFresh(s, "u") && s.cache["u"].id == "b" && "u" !in Next(s, Reject(1), ttl).cache
  {
    SharedState(now, ttl);
    RunOn(now, SHARED, Reject(0), ttl);
    RunOn(now, SHARED + [Reject(0)], Renew(0, "b"), ttl);
    RunOn(now, SHARED + [Reject(0)] + [Renew(0, "b")], Store(0), ttl);
    hide Run;
  }
}
