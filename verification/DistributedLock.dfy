/**
 The Redis lease lock of apps/api/src/app/core/cache.py: the three Lua scripts as
 atomic steps on one key with an expiry, any number of clients, and a clock.
 */
module DistributedLock {
  import opened Basics

  type Id = string

  datatype Entry = Entry(owner: Id, expires: int)

  // ---------------------------------------------------------------- the scripts

  // What GET sees: a key past its expiry is gone.
  function Owner(now: int, slot: Option<Entry>): Option<Id> {
    match slot
    case Some(e) => if now < e.expires then Some(e.owner) else None
    case None => None
  }

  // EXPIRE with a time that is not positive deletes the key.
  function Expire(owner: Id, now: int, ttl: int): Option<Entry> {
    if ttl <= 0 then None else Some(Entry(owner, now + ttl))
  }

  datatype Reply = Reply(ok: bool, slot: Option<Entry>)

  function AcquireScript(now: int, slot: Option<Entry>, id: Id, ttl: int): Reply {
    if Owner(now, slot) == None then Reply(true, Expire(id, now, ttl)) else Reply(false, slot)
  }

  function ReleaseScript(now: int, slot: Option<Entry>, id: Id): Reply {
    if Owner(now, slot) == Some(id) then Reply(true, None) else Reply(false, slot)
  }

  function ExtendScript(now: int, slot: Option<Entry>, id: Id, ttl: int): Reply {
    if Owner(now, slot) == Some(id) then Reply(true, Expire(id, now, ttl)) else Reply(false, slot)
  }

  // ---------------------------------------------------------------- the step system

  // `flags` holds the clients whose `acquired` field is true.
  datatype Sys = Sys(now: int, slot: Option<Entry>, flags: set<Id>)

  // Acquire and Extend carry the time they ask for: `timeout`, and `timeout + additional_time`.
  datatype Op = Acquire(id: Id, ttl: int) | Release(id: Id) | Extend(id: Id, ttl: int) | Tick(dt: nat)

  // Whether the call gets as far as running its script.
  predicate Scripted(s: Sys, op: Op) {
    match op
    case Acquire(id, _) => id !in s.flags
    case Release(id) => id in s.flags
    case Extend(id, _) => id in s.flags
    case Tick(_) => false
  }

  function Script(s: Sys, op: Op): Reply {
    match op
    case Acquire(id, ttl) => AcquireScript(s.now, s.slot, id, ttl)
    case Release(id) => ReleaseScript(s.now, s.slot, id)
    case Extend(id, ttl) => ExtendScript(s.now, s.slot, id, ttl)
    case Tick(_) => Reply(false, s.slot)
  }

  // The value the call returns: without its script, acquire and release say True, extend False.
  predicate Answer(s: Sys, op: Op) {
    if Scripted(s, op) then Script(s, op).ok else op.Acquire? || op.Release?
  }

  function Next(s: Sys, op: Op): Sys {
    if op.Tick? then s.(now := s.now + op.dt)
    else if !Scripted(s, op) then s
    else
      var r := Script(s, op);
      match op
      case Acquire(id, _) => Sys(s.now, r.slot, if r.ok then s.flags + {id} else s.flags)
      case Release(id) => Sys(s.now, r.slot, if r.ok then s.flags - {id} else s.flags)
      case _ => s.(slot := r.slot)
  }

  function Run(s: Sys, ops: seq<Op>): Sys {
    if ops == [] then s else Next(Run(s, ops[..|ops| - 1]), ops[|ops| - 1])
  }

  function Start(now: int): Sys { Sys(now, None, {}) }

  // ---------------------------------------------------------------- the code

  function Slot(entries: map<string, Entry>, key: string): Option<Entry> {
    if key in entries then Some(entries[key]) else None
  }

  class Redis {
    var now: int
    var entries: map<string, Entry>

    constructor (start: int)
      ensures now == start && entries == map[]
    {
      now := start;
      entries := map[];
    }

    function Get(key: string): Option<Id>
      reads this
    {
      Owner(now, Slot(entries, key))
    }

    method Del(key: string)
      modifies `entries
      ensures entries == old(entries) - {key}
    {
      entries := entries - {key};
    }

    // SET and then EXPIRE, or EXPIRE on a key that is there, within one script.
    method SetWithExpiry(key: string, owner: Id, ttl: int)
      modifies `entries
      ensures entries == if ttl <= 0 then old(entries) - {key} else old(entries)[key := Entry(owner, now + ttl)]
    {
      if ttl <= 0 {
        entries := entries - {key};
      } else {
        entries := entries[key := Entry(owner, now + ttl)];
      }
    }
  }

  class DistributedLock {
    const redis: Redis
    const key: string
    const timeout: int
    const identifier: Id
    var acquired: bool

    constructor (redis: Redis, name: string, timeout: int, identifier: Id)
      ensures this.redis == redis && key == "lock:" + name && this.timeout == timeout
      ensures this.identifier == identifier && !acquired
    {
      this.redis, this.timeout, this.identifier := redis, timeout, identifier;
      key := "lock:" + name;
      acquired := false;
    }

    // This client's part of the step system.
    function State(): Sys
      reads this, redis
    {
      Sys(redis.now, Slot(redis.entries, key), if acquired then {identifier} else {})
    }

    function Others(): map<string, Entry>
      reads this, redis
    {
      redis.entries - {key}
    }

    method AcquireLock() returns (ok: bool)
      modifies `acquired, redis`entries
      ensures State() == Next(old(State()), Acquire(identifier, timeout))
      ensures ok == Answer(old(State()), Acquire(identifier, timeout)) && Others() == old(Others())
    {
      if acquired {
        return true;
      }
      var result := false;
      if redis.Get(key) == None {
        redis.SetWithExpiry(key, identifier, timeout);
        result := true;
      }
      acquired := result;
      return acquired;
    }

    method ReleaseLock() returns (ok: bool)
      modifies `acquired, redis`entries
      ensures State() == Next(old(State()), Release(identifier))
      ensures ok == Answer(old(State()), Release(identifier)) && Others() == old(Others())
    {
      if !acquired {
        return true;
      }
      var result := false;
      if redis.Get(key) == Some(identifier) {
        redis.Del(key);
        result := true;
      }
      acquired := !result;
      return result;
    }

    method ExtendLock(additionalTime: int) returns (ok: bool)
      modifies redis`entries
      ensures State() == Next(old(State()), Extend(identifier, timeout + additionalTime))
      ensures ok == Answer(old(State()), Extend(identifier, timeout + additionalTime)) && Others() == old(Others())
    {
      if !acquired {
        return false;
      }
      if redis.Get(key) == Some(identifier) {
        redis.SetWithExpiry(key, identifier, timeout + additionalTime);
        return true;
      }
      return false;
    }
  }

  // ---------------------------------------------------------------- what a client can know

  // One call as the caller sees it: when, what, whether its script ran, and the reply.
  datatype Event = Event(at: int, op: Op, scripted: bool, answer: bool)

  function EventOf(s: Sys, op: Op): Event { Event(s.now, op, Scripted(s, op), Answer(s, op)) }

  function History(s: Sys, ops: seq<Op>): (h: seq<Event>)
    ensures |h| == |ops|
  {
    if ops == [] then []
    else
      var n := |ops| - 1;
      History(s, ops[..n]) + [EventOf(Run(s, ops[..n]), ops[n])]
  }

  // The end of the lease as `id` computes it from its own scripted replies alone:
  // the time of the last successful acquire or extend plus the time asked for.
  function Deadline(h: seq<Event>, id: Id): Option<int> {
    if h == [] then None
    else
      var e := h[|h| - 1];
      if e.op.Tick? || e.op.id != id || !e.scripted || !e.answer then Deadline(h[..|h| - 1], id)
      else if e.op.Release? || e.op.ttl <= 0 then None
      else Some(e.at + e.op.ttl)
  }

  // By its own account, `id` holds the lease at `now`.
  predicate Holds(h: seq<Event>, now: int, id: Id) {
    match Deadline(h, id)
    case Some(d) => now < d
    case None => false
  }

  lemma RunStep(s: Sys, ops: seq<Op>, op: Op)
    ensures Run(s, ops + [op]) == Next(Run(s, ops), op)
    ensures History(s, ops + [op]) == History(s, ops) + [EventOf(Run(s, ops), op)]
  {
    assert (ops + [op])[..|ops|] == ops;
  }

  // Safety over every run: at every moment a client's own account of holding the lease is
  // true, and the server's: its key is present, names that client and expires at its deadline.
  lemma {:induction false} AccountsAreExact(t: int, ops: seq<Op>, id: Id)
    ensures var s, h := Run(Start(t), ops), History(Start(t), ops);
            && (Holds(h, s.now, id) <==> Owner(s.now, s.slot) == Some(id))
            && (Holds(h, s.now, id) ==> s.slot == Some(Entry(id, Deadline(h, id).value)) && id in s.flags)
  {
    if ops != [] {
      var n := |ops| - 1;
      AccountsAreExact(t, ops[..n], id);
      var h := History(Start(t), ops);
      assert h[..n] == History(Start(t), ops[..n]);
    }
  }

  // So no two clients hold the lease at once.
  lemma LeaseIsExclusive(t: int, ops: seq<Op>, a: Id, b: Id)
    requires a != b
    ensures var s, h := Run(Start(t), ops), History(Start(t), ops);
            !(Holds(h, s.now, a) && Holds(h, s.now, b))
  {
    AccountsAreExact(t, ops, a);
    AccountsAreExact(t, ops, b);
  }

  // While `a` holds the lease no scripted acquire succeeds, and no call of another client
  // changes the key.
  lemma HolderIsUndisturbed(t: int, ops: seq<Op>, a: Id, op: Op)
    requires var s, h := Run(Start(t), ops), History(Start(t), ops); Holds(h, s.now, a)
    ensures var s := Run(Start(t), ops);
            && (op.Acquire? && Scripted(s, op) ==> !Answer(s, op))
            && (!op.Tick? && op.id != a ==> Next(s, op).slot == s.slot)
  {
    AccountsAreExact(t, ops, a);
  }

  // The calls after which a lease of `a` still has a deadline.
  predicate Keeps(op: Op, a: Id) {
    op != Release(a) && (op.Extend? && op.id == a ==> 0 < op.ttl)
  }

  lemma KeepStep(s: Sys, h: seq<Event>, op: Op, a: Id)
    requires Deadline(h, a).Some? && a in s.flags && Keeps(op, a)
    ensures Deadline(h + [EventOf(s, op)], a).Some? && a in Next(s, op).flags
  {
    hide Script;
    assert (h + [EventOf(s, op)])[..|h|] == h;
  }

  lemma {:induction false} DeadlineLasts(t: int, ops: seq<Op>, more: seq<Op>, a: Id)
    requires Deadline(History(Start(t), ops), a).Some? && a in Run(Start(t), ops).flags
    requires forall i | 0 <= i < |more| :: Keeps(more[i], a)
    ensures Deadline(History(Start(t), ops + more), a).Some? && a in Run(Start(t), ops + more).flags
  {
    hide Next, History, Run, Deadline, Keeps;
    if more == [] {
      assert ops + more == ops;
    } else {
      var n := |more| - 1;
      DeadlineLasts(t, ops, more[..n], a);
      assert ops + more == (ops + more[..n]) + [more[n]];
      RunStep(Start(t), ops + more[..n], more[n]);
      KeepStep(Run(Start(t), ops + more[..n]), History(Start(t), ops + more[..n]), more[n], a);
    }
  }

  // A lease lasts: without a release, and with only positive extensions, the holder keeps
  // it through any calls of anybody for as long as its own deadline is ahead.
  lemma LeaseLasts(t: int, ops: seq<Op>, more: seq<Op>, a: Id)
    requires var s, h := Run(Start(t), ops), History(Start(t), ops); Holds(h, s.now, a)
    requires forall i | 0 <= i < |more| :: Keeps(more[i], a)
    ensures Deadline(History(Start(t), ops + more), a).Some?
    ensures var s, h := Run(Start(t), ops + more), History(Start(t), ops + more);
            s.now < Deadline(h, a).value ==> Owner(s.now, s.slot) == Some(a)
  {
    hide Keeps;
    AccountsAreExact(t, ops, a);
    DeadlineLasts(t, ops, more, a);
    AccountsAreExact(t, ops + more, a);
  }

  // ---------------------------------------------------------------- the `acquired` field

  // The field says only that some scripted acquire succeeded and no scripted release has
  // succeeded since.
  predicate Flagged(h: seq<Event>, id: Id) {
    h != [] &&
      var e := h[|h| - 1];
      if !e.op.Tick? && e.op.id == id && e.scripted && e.answer && !e.op.Extend? then e.op.Acquire?
      else Flagged(h[..|h| - 1], id)
  }

  lemma {:induction false} FlagMeaning(t: int, ops: seq<Op>, id: Id)
    ensures id in Run(Start(t), ops).flags <==> Flagged(History(Start(t), ops), id)
  {
    if ops != [] {
      var n := |ops| - 1;
      FlagMeaning(t, ops[..n], id);
      assert History(Start(t), ops)[..n] == History(Start(t), ops[..n]);
    }
  }

  // By all accounts the lock is free.
  ghost predicate NobodyHolds(h: seq<Event>, now: int) { forall id: Id :: !Holds(h, now, id) }

  lemma FreeIffNobodyHolds(t: int, ops: seq<Op>)
    ensures var s := Run(Start(t), ops);
            Owner(s.now, s.slot) == None <==> NobodyHolds(History(Start(t), ops), s.now)
  {
    var s, h := Run(Start(t), ops), History(Start(t), ops);
    hide Run, History, Holds;
    forall id: Id ensures Holds(h, s.now, id) <==> Owner(s.now, s.slot) == Some(id) {
      AccountsAreExact(t, ops, id);
    }
    if Owner(s.now, s.slot).Some? {
      assert Holds(h, s.now, Owner(s.now, s.slot).value);
    }
  }

  // What every call answers, after any calls of anybody: with the field clear, acquire says whether
  // nobody holds the lease, release says True and extend False; with the field set, acquire says
  // True, and release and extend say whether the caller holds the lease.
  lemma {:induction false} AnswersAreExact(t: int, ops: seq<Op>, id: Id, ttl: int)
    ensures var s, h := Run(Start(t), ops), History(Start(t), ops);
            if Flagged(h, id) then
              && Answer(s, Acquire(id, ttl))
              && (Answer(s, Release(id)) <==> Holds(h, s.now, id))
              && (Answer(s, Extend(id, ttl)) <==> Holds(h, s.now, id))
            else
              && (Answer(s, Acquire(id, ttl)) <==> NobodyHolds(h, s.now))
              && Answer(s, Release(id)) && !Answer(s, Extend(id, ttl))
  {
    FlagMeaning(t, ops, id);
    AccountsAreExact(t, ops, id);
    FreeIffNobodyHolds(t, ops);
    hide Run, History, Holds, Flagged;
  }

  // What a call does that answers True with its script run: an acquire or an extend for a positive
  // time leaves its caller the holder until that time has passed, and a release leaves no holder.
  lemma {:induction false} CallsTakeEffect(t: int, ops: seq<Op>, id: Id, ttl: int)
    requires 0 < ttl
    ensures var s, h := Run(Start(t), ops), History(Start(t), ops);
            var acquired := History(Start(t), ops + [Acquire(id, ttl)]);
            var extended := History(Start(t), ops + [Extend(id, ttl)]);
            && (!Flagged(h, id) && NobodyHolds(h, s.now) ==>
                  Deadline(acquired, id) == Some(s.now + ttl) && Holds(acquired, s.now, id) && Flagged(acquired, id))
            && (Flagged(h, id) && Holds(h, s.now, id) ==>
                  Deadline(extended, id) == Some(s.now + ttl) && Holds(extended, s.now, id))
            && (Flagged(h, id) && Holds(h, s.now, id) ==>
                  var released := History(Start(t), ops + [Release(id)]);
                  NobodyHolds(released, s.now) && !Flagged(released, id))
  {
    var s, h := Run(Start(t), ops), History(Start(t), ops);
    AnswersAreExact(t, ops, id, ttl);
    FlagMeaning(t, ops, id);
    RunStep(Start(t), ops, Acquire(id, ttl));
    RunStep(Start(t), ops, Extend(id, ttl));
    LastEvent(h, EventOf(s, Acquire(id, ttl)), id);
    LastEvent(h, EventOf(s, Extend(id, ttl)), id);
    if Flagged(h, id) && Holds(h, s.now, id) {
      ReleasedIsFree(t, ops, id);
    }
    hide Run, History, Answer, NobodyHolds;
  }

  lemma LastEvent(h: seq<Event>, e: Event, id: Id)
    ensures e.scripted && e.answer && !e.op.Tick? && e.op.id == id ==>
              Deadline(h + [e], id) == if e.op.Release? || e.op.ttl <= 0 then None else Some(e.at + e.op.ttl)
    ensures e.scripted && e.answer && !e.op.Tick? && e.op.id == id && !e.op.Extend? ==>
              (Flagged(h + [e], id) <==> e.op.Acquire?)
  {
    assert (h + [e])[..|h|] == h;
  }

  lemma {:induction false} ReleasedIsFree(t: int, ops: seq<Op>, id: Id)
    requires var s, h := Run(Start(t), ops), History(Start(t), ops); Flagged(h, id) && Holds(h, s.now, id)
    ensures var s, h := Run(Start(t), ops), History(Start(t), ops + [Release(id)]);
            NobodyHolds(h, s.now) && !Flagged(h, id)
  {
    var s, h := Run(Start(t), ops), History(Start(t), ops);
    FlagMeaning(t, ops, id);
    AccountsAreExact(t, ops, id);
    RunStep(Start(t), ops, Release(id));
    FreeIffNobodyHolds(t, ops + [Release(id)]);
    LastEvent(h, EventOf(s, Release(id)), id);
    hide Run, History, NobodyHolds, Holds, Flagged, Deadline;
  }

  // So once a holder has released it, whoever asks next for a positive time, with the field clear,
  // is given the lock.
  lemma {:induction false} ReleaseHandsOver(t: int, ops: seq<Op>, a: Id, b: Id, ttl: int)
    requires var s, h := Run(Start(t), ops), History(Start(t), ops); Flagged(h, a) && Holds(h, s.now, a)
    requires 0 < ttl && !Flagged(History(Start(t), ops + [Release(a)]), b)
    ensures var all := ops + [Release(a)];
            && Answer(Run(Start(t), ops), Release(a)) && Answer(Run(Start(t), all), Acquire(b, ttl))
            && Holds(History(Start(t), all + [Acquire(b, ttl)]), Run(Start(t), all).now, b)
  {
    var all := ops + [Release(a)];
    AnswersAreExact(t, ops, a, ttl);
    ReleasedIsFree(t, ops, a);
    RunStep(Start(t), ops, Release(a));
    assert Run(Start(t), all).now == Run(Start(t), ops).now;
    AnswersAreExact(t, all, b, ttl);
    CallsTakeEffect(t, all, b, ttl);
    hide Run, History, NobodyHolds, Holds, Flagged, Deadline;
  }

  // Exactly when acquire answers True without the caller holding the lease afterwards: the
  // field is set but the caller's own deadline is missing or past, or the field is clear,
  // the lock is free and the time asked for is not positive.
  lemma AcquireAnswersWithoutLease(t: int, ops: seq<Op>, id: Id, ttl: int)
    ensures var s, h := Run(Start(t), ops), History(Start(t), ops);
            var s' := Next(s, Acquire(id, ttl));
            Answer(s, Acquire(id, ttl)) && Owner(s'.now, s'.slot) != Some(id) <==>
              if id in s.flags then !Holds(h, s.now, id) else Owner(s.now, s.slot) == None && ttl <= 0
  {
    AccountsAreExact(t, ops, id);
  }

  // The run in question: a lease expires, another client takes the lock, the late release
  // is refused and leaves the field set, and the next acquire answers True.
  lemma LateReleaseThenAcquire(a: Id, b: Id)
    requires a != b
    ensures var ops := [Acquire(a, 30), Tick(30), Acquire(b, 30), Release(a)];
            var s := Run(Start(0), ops);
            && !History(Start(0), ops)[3].answer && a in s.flags
            && Answer(s, Acquire(a, 30)) && Owner(s.now, s.slot) == Some(b)
  {
    hide History;
    var s0 := Start(0);
    RunStep(s0, [], Acquire(a, 30));
    RunStep(s0, [Acquire(a, 30)], Tick(30));
    RunStep(s0, [Acquire(a, 30), Tick(30)], Acquire(b, 30));
    RunStep(s0, [Acquire(a, 30), Tick(30), Acquire(b, 30)], Release(a));
    assert [] + [Acquire(a, 30)] == [Acquire(a, 30)];
    assert [Acquire(a, 30)] + [Tick(30)] == [Acquire(a, 30), Tick(30)];
    assert [Acquire(a, 30), Tick(30)] + [Acquire(b, 30)] == [Acquire(a, 30), Tick(30), Acquire(b, 30)];
    assert [Acquire(a, 30), Tick(30), Acquire(b, 30)] + [Release(a)]
        == [Acquire(a, 30), Tick(30), Acquire(b, 30), Release(a)];
  }
}
