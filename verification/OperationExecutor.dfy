/**
 Remote tool calls of apps/api/src/app/agents/operation_executor.py: the retrying post,
 the session cache, and the rounds of posts of one call.
 */
module OperationExecutor {
  import opened Basics

  // ---------------------------------------------------------------- the other side

  // A call goes out under a session.
  datatype Kind = Initialize | CallTool(session: string)

  // What a post brings: a response (with the session header, if any), or an exception.
  datatype Answer = Response(status: int, session: string) | Failure(retryable: bool)

  // The provider, with the clock. Both its answers and the time they take are arbitrary.
  class Provider {
    const answers: nat -> Answer
    const took: nat -> Span
    var posts: seq<Kind>
    var sleeps: seq<int>
    var now: real

    constructor (answers: nat -> Answer, took: nat -> Span, now: real)
      ensures posts == [] && sleeps == [] && this.now == now && this.answers == answers
    {
      this.answers, this.took, this.now := answers, took, now;
      posts, sleeps := [], [];
    }

    method Post(kind: Kind) returns (a: Answer)
      modifies this
      ensures posts == old(posts) + [kind] && sleeps == old(sleeps) && a == answers(|old(posts)|) && now >= old(now)
    {
      a := answers(|posts|);
      now := now + took(|posts|);
      posts := posts + [kind];
    }

    method Sleep(ms: nat)
      modifies this
      ensures posts == old(posts) && sleeps == old(sleeps) + [ms] && now >= old(now)
    {
      now := now + ms as real / 1000.0;
      sleeps := sleeps + [ms];
    }
  }

  // ---------------------------------------------------------------- the retrying post

  predicate IsRetryableStatus(status: int) { status in {408, 409, 425, 429, 500, 502, 503, 504} }

  predicate Retries(a: Answer) {
    match a
    case Response(status, _) => IsRetryableStatus(status)
    case Failure(retryable) => retryable
  }

  function Pow2(n: nat): (p: nat)
    ensures p > 0
  {
    if n == 0 then 1 else 2 * Pow2(n - 1)
  }

  function Total(s: seq<int>): int { if s == [] then 0 else Total(s[..|s| - 1]) + s[|s| - 1] }

  // The answer, and the number of the attempt that brought it.
  datatype Posted = Posted(answer: Answer, attempt: nat)

  // Of the answers from position `start`, the first `n` are all that is asked for: every one but
  // the last is worth a retry, and the last is not, or no attempt is left.
  predicate IsLast(answers: nat -> Answer, start: nat, n: nat, maxAttempts: nat) {
    && 1 <= n <= maxAttempts
    && (forall i: nat | start <= i < start + n - 1 :: Retries(answers(i)))
    && (n == maxAttempts || !Retries(answers(start + n - 1)))
  }

  // No other number of posts is what the answers ask for.
  ghost predicate IsOnlyLast(answers: nat -> Answer, start: nat, n: nat, maxAttempts: nat) {
    IsLast(answers, start, n, maxAttempts) && forall m :: IsLast(answers, start, m, maxAttempts) ==> m == n
  }

  // A round of posts: as many as the answers ask for, or none when the round is left out.
  predicate Round(answers: nat -> Answer, start: nat, n: nat, maxAttempts: nat, wanted: bool) {
    if wanted then 1 <= n && IsLast(answers, start, n, maxAttempts) else n == 0
  }

  method PostWithRetry(p: Provider, kind: Kind, maxRetries: nat) returns (r: Posted)
    modifies p
    ensures 1 <= r.attempt && Round(p.answers, |old(p.posts)|, r.attempt, maxRetries + 1, true)
    ensures IsOnlyLast(p.answers, |old(p.posts)|, r.attempt, maxRetries + 1)
    ensures r.answer == p.answers(|old(p.posts)| + r.attempt - 1)
    ensures p.posts == old(p.posts) + Repeat(kind, r.attempt) && old(p.now) <= p.now
    ensures |p.sleeps| == |old(p.sleeps)| + r.attempt - 1
    ensures Total(p.sleeps) == Total(old(p.sleeps)) + 200 * (Pow2(r.attempt - 1) - 1)
  {
    var maxAttempts := maxRetries + 1;
    var attempt := 1;
    while true
      invariant 1 <= attempt <= maxAttempts && old(p.now) <= p.now
      invariant p.posts == old(p.posts) + Repeat(kind, attempt - 1)
      invariant forall i: nat | |old(p.posts)| <= i < |old(p.posts)| + attempt - 1 :: Retries(p.answers(i))
      invariant |p.sleeps| == |old(p.sleeps)| + attempt - 1
      invariant Total(p.sleeps) == Total(old(p.sleeps)) + 200 * (Pow2(attempt - 1) - 1)
      decreases maxAttempts - attempt
    {
      ghost var sleeps := p.sleeps;
      var a := p.Post(kind);
      if !Retries(a) || attempt == maxAttempts {
        LastIsUnique(p.answers, |old(p.posts)|, attempt, maxAttempts);
        return Posted(a, attempt);
      }
      var delay := 200 * Pow2(attempt - 1);
      p.Sleep(delay);
      assert p.sleeps[..|sleeps|] == sleeps;
      attempt := attempt + 1;
    }
  }

  // The number of posts is determined by the answers.
  lemma LastIsUnique(answers: nat -> Answer, start: nat, m: nat, maxAttempts: nat)
    requires IsLast(answers, start, m, maxAttempts)
    ensures IsOnlyLast(answers, start, m, maxAttempts)
  {
    hide Retries;
    forall n: nat | IsLast(answers, start, n, maxAttempts) ensures n == m {
      if m < n {
        assert false;
      }
      if n < m {
        assert false;
      }
    }
  }

  // ---------------------------------------------------------------- one remote call

  datatype Session = Session(id: string, expires: real)

  datatype Called = Done(response: Answer) | Failed

  // How many of the posts carry a call, or how many are handshakes.
  function Count(posts: seq<Kind>, calls: bool): nat {
    if posts == [] then 0 else Count(posts[..|posts| - 1], calls) + if posts[|posts| - 1].CallTool? == calls then 1 else 0
  }

  lemma {:induction false} CountRepeat(posts: seq<Kind>, kind: Kind, n: nat)
    ensures forall calls ::
              Count(posts + Repeat(kind, n), calls) == Count(posts, calls) + if kind.CallTool? == calls then n else 0
  {
    if n == 0 {
      assert posts + Repeat(kind, 0) == posts;
    } else {
      CountRepeat(posts, kind, n - 1);
      var s := posts + Repeat(kind, n);
      assert s[..|s| - 1] == posts + Repeat(kind, n - 1);
    }
  }

  predicate AsksForNewSession(a: Answer) { a.Response? && a.status in {400, 401, 403, 410} }

  // The session a handshake's answer opens.
  function SessionOf(a: Answer): Option<string> {
    if a.Response? && a.status < 400 && a.session != "" then Some(a.session) else None
  }

  // How many posts each of the four rounds of one call makes; a round left out makes none.
  datatype Rounds = Rounds(handshake: nat, call: nat, again: nat, callAgain: nat)

  // The calls of the second and the fourth round go out under the sessions `one` and `two`.
  function Sent(r: Rounds, one: string, two: string): seq<Kind> {
    Repeat(Initialize, r.handshake) + Repeat(CallTool(one), r.call)
    + Repeat(Initialize, r.again) + Repeat(CallTool(two), r.callAgain)
  }

  // The rounds that the provider's answers call for, from position `start`: a handshake unless a
  // session is cached, the call once there is a session, and both again when the provider asks.
  predicate IsCall(answers: nat -> Answer, start: nat, cached: bool, r: Rounds, maxAttempts: nat) {
    var a := start + r.handshake;
    var b := a + r.call;
    var c := b + r.again;
    && Round(answers, start, r.handshake, maxAttempts, !cached)
    && Round(answers, a, r.call, maxAttempts, cached || (a > 0 && SessionOf(answers(a - 1)).Some?))
    && Round(answers, b, r.again, maxAttempts, r.call > 0 && AsksForNewSession(answers(b - 1)))
    && Round(answers, c, r.callAgain, maxAttempts, r.again > 0 && SessionOf(answers(c - 1)).Some?)
  }

  // The answers leave no choice: no other rounds are a call's.
  ghost predicate IsOnlyCall(answers: nat -> Answer, start: nat, cached: bool, r: Rounds, maxAttempts: nat) {
    && IsCall(answers, start, cached, r, maxAttempts)
    && forall other :: IsCall(answers, start, cached, other, maxAttempts) ==> other == r
  }

  function Judged(a: Answer): Called { if a.Response? && a.status < 400 then Done(a) else Failed }

  // The answer the call stands or falls with, if it got that far.
  function Verdict(answers: nat -> Answer, start: nat, r: Rounds): Called {
    var n := start + r.handshake + r.call + r.again + r.callAgain;
    if n == 0 || r.call == 0 || (r.again > 0 && r.callAgain == 0) then Failed
    else Judged(answers(n - 1))
  }

  // Each round's posts come after those of the rounds before.
  lemma SentGrows(a: nat, b: nat, c: nat, d: nat, one: string, two: string)
    ensures Sent(Rounds(a, 0, 0, 0), one, two) == Repeat(Initialize, a)
    ensures Sent(Rounds(a, b, 0, 0), one, two) == Repeat(Initialize, a) + Repeat(CallTool(one), b)
    ensures Sent(Rounds(a, b, c, d), one, two) ==
            Repeat(Initialize, a) + Repeat(CallTool(one), b) + Repeat(Initialize, c) + Repeat(CallTool(two), d)
    ensures |Sent(Rounds(a, b, c, d), one, two)| == a + b + c + d
  {
    assert Repeat(Initialize, 0) == [] && Repeat(CallTool(one), 0) == [] && Repeat(CallTool(two), 0) == [];
    hide Repeat;
  }

  lemma SentIs(r: Rounds, one: string, two: string)
    ensures Sent(r, one, two) == Repeat(Initialize, r.handshake) + Repeat(CallTool(one), r.call)
                                 + Repeat(Initialize, r.again) + Repeat(CallTool(two), r.callAgain)
  {
    hide Repeat;
  }

  lemma SentFirst(was: seq<Kind>, a: nat, one: string, two: string)
    ensures var r := Rounds(a, 0, 0, 0);
            was + Repeat(Initialize, a) == was + Sent(r, one, two) && |was + Sent(r, one, two)| == |was| + a
  {
    SentGrows(a, 0, 0, 0, one, two);
    hide Sent, Repeat;
  }

  lemma SentCall(was: seq<Kind>, a: nat, b: nat, one: string, two: string)
    ensures was + Repeat(Initialize, a) + Repeat(CallTool(one), b) == was + Sent(Rounds(a, b, 0, 0), one, two)
    ensures |was + Sent(Rounds(a, b, 0, 0), one, two)| == |was| + a + b
  {
    SentGrows(a, b, 0, 0, one, two);
    hide Sent, Repeat;
  }

  lemma SentAgain(was: seq<Kind>, a: nat, b: nat, c: nat, d: nat, one: string, two: string)
    ensures was + Sent(Rounds(a, b, 0, 0), one, "") + Repeat(Initialize, c) + Repeat(CallTool(two), d)
            == was + Sent(Rounds(a, b, c, d), one, two)
  {
    SentGrows(a, b, 0, 0, one, "");
    SentGrows(a, b, c, d, one, two);
    hide Sent, Repeat;
  }

  predicate IsFresh(sessions: map<string, Session>, url: string, now: real) {
    url in sessions && sessions[url].expires > now
  }

  // The cache is the one before, but for the provider's session, opened at `t`.
  predicate IsStored(sessions: map<string, Session>, before: map<string, Session>, url: string, id: string, t: real, ttl: int)
  {
    sessions == before[url := Session(id, t + ttl as real)]
  }

  // What the others have made of the cache when a caller gets the lock, and the time it has waited.
  datatype Meanwhile = Meanwhile(sessions: map<string, Session>, time: Span)

  // The caller finds a session, at its first look or once it has the lock.
  predicate IsCached(sessions: map<string, Session>, url: string, now: real, m: Meanwhile) {
    IsFresh(sessions, url, now) || IsFresh(m.sessions, url, now + m.time)
  }

  lemma CachedIs(sessions: map<string, Session>, url: string, now: real, m: Meanwhile)
    ensures IsCached(sessions, url, now, m) <==> IsFresh(sessions, url, now) || IsFresh(m.sessions, url, now + m.time)
  {
  }

  class DirectOperationExecutor {
    const maxRetries: nat
    const ttl: int
    var sessions: map<string, Session>

    // From the two settings: retries are not negative, and a time to live of zero means the default.
    constructor (httpMaxRetries: int, sessionTtl: int)
      ensures maxRetries == Max(0, httpMaxRetries) && ttl == Max(30, if sessionTtl == 0 then 300 else sessionTtl)
      ensures sessions == map[]
    {
      maxRetries, ttl := Max(0, httpMaxRetries), Max(30, if sessionTtl == 0 then 300 else sessionTtl);
      sessions := map[];
    }

    method InitializeFresh(p: Provider) returns (id: Option<string>, ghost n: nat)
      modifies p
      ensures 1 <= n && Round(p.answers, |old(p.posts)|, n, maxRetries + 1, true) && old(p.now) <= p.now
      ensures p.posts == old(p.posts) + Repeat(Initialize, n)
      ensures id == SessionOf(p.answers(|old(p.posts)| + n - 1))
    {
      var r := PostWithRetry(p, Initialize, maxRetries);
      n := r.attempt;
      if r.answer.Failure? || r.answer.status >= 400 || r.answer.session == "" {
        return None, n;
      }
      return Some(r.answer.session), n;
    }

    // Awaiting the lock.
    method AwaitLock(p: Provider, m: Meanwhile)
      modifies this, p
      ensures sessions == m.sessions && p.now == old(p.now) + m.time && p.posts == old(p.posts)
    {
      sessions := m.sessions;
      p.now := p.now + m.time;
    }

    method McpInitialize(p: Provider, url: string, m: Meanwhile) returns (id: Option<string>, ghost n: nat)
      requires 0 < ttl
      modifies this, p
      ensures old(p.now) <= p.now && p.posts == old(p.posts) + Repeat(Initialize, n)
      ensures IsFresh(old(sessions), url, old(p.now)) ==>
                n == 0 && id == Some(old(sessions[url]).id) && sessions == old(sessions)
      ensures !IsFresh(old(sessions), url, old(p.now)) && IsFresh(m.sessions, url, old(p.now) + m.time) ==>
                n == 0 && id == Some(m.sessions[url].id) && sessions == m.sessions
      ensures !IsCached(old(sessions), url, old(p.now), m) ==>
                && 1 <= n && Round(p.answers, |old(p.posts)|, n, maxRetries + 1, true)
                && id == SessionOf(p.answers(|old(p.posts)| + n - 1))
                && sessions == (if id.None? then m.sessions
                                else m.sessions[url := Session(id.value, p.now + ttl as real)])
    {
      assert p.posts + Repeat(Initialize, 0) == p.posts;
      if url in sessions && sessions[url].expires > p.now {
        return Some(sessions[url].id), 0;
      }
      AwaitLock(p, m);
      if url in sessions && sessions[url].expires > p.now {
        return Some(sessions[url].id), 0;
      }
      id, n := InitializeFresh(p);
      if id.Some? {
        sessions := sessions[url := Session(id.value, p.now + ttl as real)];
      }
    }

    // The branch taken when the provider asks for a new session; None when it opens none. The session
    // opened is stored, its time counted from the handshake, and the call goes out under it.
    method CallAgain(p: Provider, url: string) returns (r: Option<Answer>, ghost j: nat, ghost d: nat, ghost two: string)
      requires 0 < ttl
      modifies this, p
      ensures Round(p.answers, |old(p.posts)|, j, maxRetries + 1, true)
      ensures 1 <= j && Round(p.answers, |old(p.posts)| + j, d, maxRetries + 1,
                              SessionOf(p.answers(|old(p.posts)| + j - 1)).Some?)
      ensures p.posts == old(p.posts) + Repeat(Initialize, j) + Repeat(CallTool(two), d) && old(p.now) <= p.now
      ensures r.Some? <==> d > 0
      ensures d > 0 ==> r == Some(p.answers(|old(p.posts)| + j + d - 1))
      ensures d > 0 ==> Some(two) == SessionOf(p.answers(|old(p.posts)| + j - 1))
      ensures d == 0 ==> sessions == old(sessions) - {url}
      ensures d > 0 ==> exists t :: IsStored(sessions, old(sessions), url, two, t, ttl) && old(p.now) <= t <= p.now
    {
      hide IsLast, SessionOf;
      two := "";
      var id: Option<string>;
      sessions := sessions - {url};
      id, j := InitializeFresh(p);
      if id.None? {
        d := 0;
        assert p.posts + Repeat(CallTool(two), 0) == p.posts;
        return None, j, d, two;
      }
      two := id.value;
      sessions := sessions[url := Session(id.value, p.now + ttl as real)];
      assert IsStored(sessions, old(sessions), url, two, p.now, ttl);
      var posted := PostWithRetry(p, CallTool(id.value), maxRetries);
      return Some(posted.answer), j, posted.attempt, two;
    }

    // What follows the first answer to the call.
    method Conclude(p: Provider, url: string, first: Answer, ghost was: seq<Kind>, ghost cached: bool,
                    ghost i: nat, ghost n: nat, ghost one: string)
      returns (r: Called, ghost rounds: Rounds, ghost two: string)
      requires 0 < ttl && 1 <= n
      requires p.posts == was + Sent(Rounds(i, n, 0, 0), one, "") && |p.posts| == |was| + i + n
      requires first == p.answers(|was| + i + n - 1)
      requires Round(p.answers, |was|, i, maxRetries + 1, !cached)
      requires Round(p.answers, |was| + i, n, maxRetries + 1,
                     cached || (|was| + i > 0 && SessionOf(p.answers(|was| + i - 1)).Some?))
      modifies this, p
      ensures IsOnlyCall(p.answers, |was|, cached, rounds, maxRetries + 1) && rounds.call == n && rounds.handshake == i
      ensures p.posts == was + Sent(rounds, one, two) && r == Verdict(p.answers, |was|, rounds) && old(p.now) <= p.now
      ensures rounds.again == 0 ==> sessions == old(sessions)
      ensures rounds.again > 0 && rounds.callAgain == 0 ==> sessions == old(sessions) - {url}
      ensures rounds.callAgain > 0 ==>
                && Some(two) == SessionOf(p.answers(|was| + i + n + rounds.again - 1))
                && exists t :: IsStored(sessions, old(sessions), url, two, t, ttl) && old(p.now) <= t <= p.now
    {
      hide *;
      var answer := first;
      if AsksForNewSession(first) {
        var again: Option<Answer>;
        ghost var j: nat, d: nat;
        again, j, d, two := CallAgain(p, url);
        SentAgain(was, i, n, j, d, one, two);
        rounds := Rounds(i, n, j, d);
        VerdictIs(p.answers, |was|, rounds);
        IsCallOf(p.answers, |was|, cached, rounds, maxRetries + 1);
        if again.None? {
          return Failed, rounds, two;
        }
        answer := again.value;
      } else {
        rounds, two := Rounds(i, n, 0, 0), "";
        VerdictIs(p.answers, |was|, rounds);
        LeftOut(p.answers, |was|);
        IsCallOf(p.answers, |was|, cached, rounds, maxRetries + 1);
      }
      JudgedIs(answer);
      if answer.Failure? || answer.status >= 400 {
        return Failed, rounds, two;
      }
      return Done(answer), rounds, two;
    }

    // The cache as the call finds it: at its first look, or once it has the lock.
    ghost function Found(now: real, url: string, m: Meanwhile): map<string, Session>
      reads this
    {
      if IsFresh(sessions, url, now) then sessions else m.sessions
    }

    // A call's posts are the only ones the answers call for, the first calls under the session found or
    // opened, those made again under the one opened for them; of the cache only the provider's entry
    // changes, which is dropped when a session is refused and set when one is opened.
    method InvokeRemoteMcp(p: Provider, url: string, m: Meanwhile)
      returns (r: Called, ghost rounds: Rounds, ghost one: string, ghost two: string)
      requires 0 < ttl
      modifies this, p
      ensures IsOnlyCall(p.answers, |old(p.posts)|, IsCached(old(sessions), url, old(p.now), m), rounds, maxRetries + 1)
      ensures p.posts == old(p.posts) + (Repeat(Initialize, rounds.handshake) + Repeat(CallTool(one), rounds.call)
                                         + Repeat(Initialize, rounds.again) + Repeat(CallTool(two), rounds.callAgain))
      ensures r == Verdict(p.answers, |old(p.posts)|, rounds)
      ensures rounds.call > 0 ==>
                if IsCached(old(sessions), url, old(p.now), m)
                then url in old(Found(p.now, url, m)) && one == old(Found(p.now, url, m))[url].id
                else Some(one) == SessionOf(p.answers(|old(p.posts)| + rounds.handshake - 1))
      ensures rounds.callAgain > 0 ==>
                Some(two) == SessionOf(p.answers(|old(p.posts)| + rounds.handshake + rounds.call + rounds.again - 1))
      ensures sessions - {url} == old(Found(p.now, url, m)) - {url}
      ensures rounds.again > 0 && rounds.callAgain == 0 ==> url !in sessions
      ensures (rounds.callAgain > 0 || (rounds.call > 0 && rounds.handshake > 0 && rounds.again == 0)) ==>
                && url in sessions && sessions[url].id == (if rounds.callAgain > 0 then two else one)
                && old(p.now) + ttl as real <= sessions[url].expires <= p.now + ttl as real
      ensures rounds.handshake == rounds.again == 0 || rounds.call == 0 ==> sessions == old(Found(p.now, url, m))
    {
      hide *;
      ghost var was, cached := p.posts, IsCached(sessions, url, p.now, m);
      CachedIs(sessions, url, p.now, m);
      FoundIs(p.now, url, m);
      var id: Option<string>;
      ghost var i: nat;
      id, i := McpInitialize(p, url, m);
      two := "";
      one := if id.Some? then id.value else "";
      SentFirst(was, i, one, two);
      LeftOut(p.answers, |was|);
      if id.None? {
        rounds := Rounds(i, 0, 0, 0);
        VerdictIs(p.answers, |was|, rounds);
        IsCallOf(p.answers, |was|, cached, rounds, maxRetries + 1);
        SentIs(rounds, one, two);
        return Failed, rounds, one, two;
      }
      ghost var left := sessions;
      var posted := PostWithRetry(p, CallTool(id.value), maxRetries);
      SentCall(was, i, posted.attempt, one, two);
      r, rounds, two := Conclude(p, url, posted.answer, was, cached, i, posted.attempt, one);
      StoredIs(sessions, left, url, two, ttl);
      SentIs(rounds, one, two);
    }

    lemma FoundIs(now: real, url: string, m: Meanwhile)
      ensures Found(now, url, m) == if IsFresh(sessions, url, now) then sessions else m.sessions
      ensures IsFresh(sessions, url, now) ==> url in sessions
      ensures forall later :: IsFresh(m.sessions, url, later) ==> url in m.sessions
    {
    }
  }

  lemma StoredIs(sessions: map<string, Session>, before: map<string, Session>, url: string, id: string, ttl: int)
    ensures forall t :: IsStored(sessions, before, url, id, t, ttl) ==>
              url in sessions && sessions[url] == Session(id, t + ttl as real) && sessions - {url} == before - {url}
  {
  }

  lemma JudgedIs(a: Answer)
    ensures Judged(a) == if a.Failure? || a.status >= 400 then Failed else Done(a)
  {
  }

  lemma LeftOut(answers: nat -> Answer, start: nat)
    ensures forall n: nat, most :: Round(answers, n, 0, most, false)
  {
  }

  lemma IsCallOf(answers: nat -> Answer, start: nat, cached: bool, r: Rounds, most: nat)
    requires Round(answers, start, r.handshake, most, !cached)
    requires var a := start + r.handshake;
             Round(answers, a, r.call, most, cached || (a > 0 && SessionOf(answers(a - 1)).Some?))
    requires var b := start + r.handshake + r.call;
             Round(answers, b, r.again, most, r.call > 0 && AsksForNewSession(answers(b - 1)))
    requires var c := start + r.handshake + r.call + r.again;
             Round(answers, c, r.callAgain, most, r.again > 0 && SessionOf(answers(c - 1)).Some?)
    ensures IsOnlyCall(answers, start, cached, r, most)
  {
    hide Round, SessionOf, AsksForNewSession;
    assert IsCall(answers, start, cached, r, most);
    hide IsCall;
    forall other | IsCall(answers, start, cached, other, most) ensures other == r {
      RoundsAreUnique(answers, start, cached, other, r, most);
    }
  }

  lemma VerdictIs(answers: nat -> Answer, start: nat, r: Rounds)
    ensures r.call == 0 ==> Verdict(answers, start, r) == Failed
    ensures r.again > 0 && r.callAgain == 0 ==> Verdict(answers, start, r) == Failed
    ensures r.call > 0 && r.again == r.callAgain == 0 ==>
              Verdict(answers, start, r) == Judged(answers(start + r.handshake + r.call - 1))
    ensures r.call > 0 && r.callAgain > 0 ==>
              Verdict(answers, start, r) == Judged(answers(start + r.handshake + r.call + r.again + r.callAgain - 1))
  {
  }

  // At most four rounds of posts in all, and two that carry the call, whatever the answers.
  lemma PostsAreBounded(answers: nat -> Answer, start: nat, cached: bool, r: Rounds, one: string, two: string,
                        maxRetries: nat, before: seq<Kind>)
    requires IsCall(answers, start, cached, r, maxRetries + 1)
    ensures var posts := Sent(r, one, two);
            && |posts| <= 4 * (maxRetries + 1)
            && Count(before + posts, true) <= Count(before, true) + 2 * (maxRetries + 1)
            && Count(before + posts, false) <= Count(before, false) + 2 * (maxRetries + 1)
  {
    var a := before + Repeat(Initialize, r.handshake);
    var b := a + Repeat(CallTool(one), r.call);
    var c := b + Repeat(Initialize, r.again);
    CountRepeat(before, Initialize, r.handshake);
    CountRepeat(a, CallTool(one), r.call);
    CountRepeat(b, Initialize, r.again);
    CountRepeat(c, CallTool(two), r.callAgain);
    hide Count, Repeat, Retries, SessionOf, AsksForNewSession;
    assert before + Sent(r, one, two) == c + Repeat(CallTool(two), r.callAgain);
  }

  // ---------------------------------------------------------------- what the answers mean

  // An answer after which the same post is made again.
  predicate IsPassing(a: Answer) {
    match a
    case Response(status, _) =>
      || status == 408 || status == 409 || status == 425 || status == 429
      || status == 500 || status == 502 || status == 503 || status == 504
    case Failure(retryable) => retryable
  }

  predicate RefusesSession(a: Answer) {
    a.Response? && (a.status == 400 || a.status == 401 || a.status == 403 || a.status == 410)
  }

  // Under a cached session, the first answer of any but the passing kind, if it comes in time, decides:
  // below 400 it is the result, a refusal of the session asks for a handshake, and any other ends the
  // call; if it does not come in time, the call has been made R + 1 times and fails.
  lemma AnswerDecides(answers: nat -> Answer, start: nat, n: nat, r: Rounds, maxRetries: nat)
    requires IsCall(answers, start, true, r, maxRetries + 1) && start <= n <= start + maxRetries
    requires forall i: nat | start <= i < n :: IsPassing(answers(i))
    requires n == start + maxRetries || !IsPassing(answers(n))
    ensures r.handshake == 0 && r.call == n - start + 1 && (r.again > 0 <==> RefusesSession(answers(n)))
    ensures r.again == 0 ==>
              Verdict(answers, start, r) ==
              if answers(n).Response? && answers(n).status < 400 then Done(answers(n)) else Failed
  {
    var k := n - start + 1;
    PassingRetries(answers);
    hide IsPassing, Retries, SessionOf;
    assert IsLast(answers, start, k, maxRetries + 1);
    LastIsUnique(answers, start, k, maxRetries + 1);
  }

  lemma PassingRetries(answers: nat -> Answer)
    ensures forall i: nat :: IsPassing(answers(i)) <==> Retries(answers(i))
  {
  }

  // A handshake opens a session iff its last answer is below 400 and carries an identifier, and then,
  // and only then, the call goes out; after a refusal it is made once more, and its answer is final.
  lemma HandshakeDecides(answers: nat -> Answer, start: nat, cached: bool, r: Rounds, maxRetries: nat)
    requires IsCall(answers, start, cached, r, maxRetries + 1)
    ensures var a := start + r.handshake;
            && (r.handshake == 0 <==> cached)
            && (r.call > 0 <==> cached || (a > 0 && match answers(a - 1)
                                                    case Response(status, id) => status < 400 && id != ""
                                                    case Failure(_) => false))
    ensures var b, c := start + r.handshake + r.call, start + r.handshake + r.call + r.again;
            && (r.again > 0 <==> r.call > 0 && RefusesSession(answers(b - 1)))
            && (r.callAgain > 0 <==> r.again > 0 && match answers(c - 1)
                                                   case Response(status, id) => status < 400 && id != ""
                                                   case Failure(_) => false)
    ensures var d, v := start + r.handshake + r.call + r.again + r.callAgain, Verdict(answers, start, r);
            v == if r.callAgain > 0 || (r.call > 0 && r.again == 0)
                 then if answers(d - 1).Response? && answers(d - 1).status < 400 then Done(answers(d - 1)) else Failed
                 else Failed
  {
    hide IsLast;
  }

  lemma RoundIsUnique(answers: nat -> Answer, start: nat, m: nat, n: nat, maxAttempts: nat, wanted: bool)
    requires Round(answers, start, m, maxAttempts, wanted) && Round(answers, start, n, maxAttempts, wanted)
    ensures m == n
  {
    if wanted {
      LastIsUnique(answers, start, m, maxAttempts);
    }
  }

  lemma RoundsAreUnique(answers: nat -> Answer, start: nat, cached: bool, r: Rounds, s: Rounds, maxAttempts: nat)
    requires IsCall(answers, start, cached, r, maxAttempts) && IsCall(answers, start, cached, s, maxAttempts)
    ensures r == s
  {
    hide Round, SessionOf, AsksForNewSession;
    var a := start + r.handshake;
    var b := a + r.call;
    var c := b + r.again;
    RoundIsUnique(answers, start, r.handshake, s.handshake, maxAttempts, !cached);
    RoundIsUnique(answers, a, r.call, s.call, maxAttempts, cached || (a > 0 && SessionOf(answers(a - 1)).Some?));
    RoundIsUnique(answers, b, r.again, s.again, maxAttempts, r.call > 0 && AsksForNewSession(answers(b - 1)));
    RoundIsUnique(answers, c, r.callAgain, s.callAgain, maxAttempts, r.again > 0 && SessionOf(answers(c - 1)).Some?);
  }
}
