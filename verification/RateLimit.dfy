/**
 The fixed-window rate limiter of apps/api/src/app/api/deps.py: two counters with an
 expiry per client, against a specification over the history of requests alone.
 */
module RateLimit {
  import opened Basics

  // The counter keys; `client` stands for the prefix and the user or address.
  datatype Key = Minute(client: string, index: int) | Hour(client: string, index: int)

  datatype Counter = Counter(count: int, expires: Option<real>)

  // Limited is the 429 answer with its Retry-After.
  datatype Verdict = Admitted | Limited(retryAfter: int)

  const MINUTE := 60
  const HOUR := 3600

  function Index(at: Span, width: int): int
    requires width > 0
  {
    at.Floor / width
  }

  function RetryAfter(at: Span, width: int): int
    requires width > 0
  {
    width - at.Floor % width
  }

  // ---------------------------------------------------------------- the store and the check

  predicate Alive(counters: map<Key, Counter>, key: Key, at: real) {
    key in counters && (counters[key].expires.None? || at < counters[key].expires.value)
  }

  function Live(counters: map<Key, Counter>, key: Key, at: real): int {
    if Alive(counters, key, at) then counters[key].count else 0
  }

  function Increased(counters: map<Key, Counter>, key: Key, at: real): map<Key, Counter> {
    counters[key := Counter(Live(counters, key, at) + 1, if Alive(counters, key, at) then counters[key].expires else None)]
  }

  function Expiring(counters: map<Key, Counter>, key: Key, at: real, ttl: int): map<Key, Counter> {
    if Alive(counters, key, at) then counters[key := counters[key].(expires := Some(at + ttl as real))] else counters
  }

  class Redis {
    var counters: map<Key, Counter>

    constructor ()
      ensures counters == map[]
    {
      counters := map[];
    }

    method Incr(key: Key, at: real) returns (n: int)
      modifies this
      ensures n == Live(old(counters), key, at) + 1 && counters == Increased(old(counters), key, at)
    {
      if key in counters && (counters[key].expires.None? || at < counters[key].expires.value) {
        n := counters[key].count + 1;
        counters := counters[key := counters[key].(count := n)];
      } else {
        n := 1;
        counters := counters[key := Counter(1, None)];
      }
    }

    method Expire(key: Key, at: real, ttl: int)
      modifies this
      ensures counters == Expiring(old(counters), key, at, ttl)
    {
      if Alive(counters, key, at) {
        counters := counters[key := counters[key].(expires := Some(at + ttl as real))];
      }
    }
  }

  // INCR, and EXPIRE on the first count.
  function Counted(counters: map<Key, Counter>, key: Key, at: real, ttl: int): map<Key, Counter> {
    var c := Increased(counters, key, at);
    if Live(counters, key, at) == 0 then Expiring(c, key, at, ttl) else c
  }

  datatype Outcome = Outcome(counters: map<Key, Counter>, verdict: Verdict)

  function Checked(counters: map<Key, Counter>, client: string, rpm: int, rph: int, at: Span): Outcome {
    var minute, hour := Key.Minute(client, Index(at, MINUTE)), Key.Hour(client, Index(at, HOUR));
    var c := Counted(counters, minute, at, MINUTE);
    if Live(counters, minute, at) + 1 > rpm then Outcome(c, Limited(RetryAfter(at, MINUTE)))
    else
      Outcome(Counted(c, hour, at, HOUR),
              if Live(c, hour, at) + 1 > rph then Limited(RetryAfter(at, HOUR)) else Admitted)
  }

  method Check(redis: Redis, client: string, rpm: int, rph: int, at: Span) returns (v: Verdict)
    modifies redis
    ensures Outcome(redis.counters, v) == Checked(old(redis.counters), client, rpm, rph, at)
  {
    hide Increased, Expiring, Live;
    var now := at.Floor;
    var minuteKey, hourKey := Key.Minute(client, now / MINUTE), Key.Hour(client, now / HOUR);
    var minuteCount := redis.Incr(minuteKey, at);
    if minuteCount == 1 {
      redis.Expire(minuteKey, at, MINUTE);
    }
    if minuteCount > rpm {
      return Limited(MINUTE - now % MINUTE);
    }
    var hourCount := redis.Incr(hourKey, at);
    if hourCount == 1 {
      redis.Expire(hourKey, at, HOUR);
    }
    if hourCount > rph {
      return Limited(HOUR - now % HOUR);
    }
    return Admitted;
  }

  // ---------------------------------------------------------------- the specification: the past requests alone

  datatype Request = Request(client: string, at: Span)

  // Requests of one client in one minute window.
  function MinuteSeen(rs: seq<Request>, client: string, m: int): nat {
    if rs == [] then 0
    else
      var r := rs[|rs| - 1];
      MinuteSeen(rs[..|rs| - 1], client, m) + if r.client == client && Index(r.at, MINUTE) == m then 1 else 0
  }

  // Whether `r`, after the requests `rs`, is within the minute's quota.
  predicate MinutePasses(rs: seq<Request>, r: Request, rpm: int) {
    MinuteSeen(rs, r.client, Index(r.at, MINUTE)) < rpm
  }

  // Requests of one client in one hour window that were within their minute's quota.
  function HourSeen(rs: seq<Request>, client: string, h: int, rpm: int): nat {
    if rs == [] then 0
    else
      var t, r := rs[..|rs| - 1], rs[|rs| - 1];
      HourSeen(t, client, h, rpm)
      + if r.client == client && Index(r.at, HOUR) == h && MinutePasses(t, r, rpm) then 1 else 0
  }

  function Due(rs: seq<Request>, r: Request, rpm: int, rph: int): Verdict {
    if !MinutePasses(rs, r, rpm) then Limited(RetryAfter(r.at, MINUTE))
    else if HourSeen(rs, r.client, Index(r.at, HOUR), rpm) >= rph then Limited(RetryAfter(r.at, HOUR))
    else Admitted
  }

  // ---------------------------------------------------------------- every run

  function Run(rs: seq<Request>, rpm: int, rph: int): map<Key, Counter> {
    if rs == [] then map[]
    else
      var r := rs[|rs| - 1];
      Checked(Run(rs[..|rs| - 1], rpm, rph), r.client, rpm, rph, r.at).counters
  }

  // The counter of a window that is not over holds its count and outlives the window.
  predicate Holds(counters: map<Key, Counter>, key: Key, count: nat, width: int) {
    if count == 0 then key !in counters
    else key in counters && counters[key].count == count
         && counters[key].expires.Some? && ((key.index + 1) * width) as real <= counters[key].expires.value
  }

  lemma WindowIsCurrent(at: Span, width: int)
    requires width > 0
    ensures (Index(at, width) * width) as real <= at < ((Index(at, width) + 1) * width) as real
    ensures ((Index(at, width) + 1) * width) as real <= at + width as real
  {
    var n := at.Floor;
    assert n == width * (n / width) + n % width;
  }

  // One request on the counter of its own window.
  lemma CountedHolds(counters: map<Key, Counter>, key: Key, count: nat, width: int, at: Span)
    requires width > 0 && Holds(counters, key, count, width) && key.index == Index(at, width)
    ensures Live(counters, key, at) == count
    ensures Holds(Counted(counters, key, at, width), key, count + 1, width)
    ensures forall k | k != key :: k in counters <==> k in Counted(counters, key, at, width)
    ensures forall k | k != key && k in counters :: Counted(counters, key, at, width)[k] == counters[k]
  {
    WindowIsCurrent(at, width);
  }

  ghost predicate MinutesHold(counters: map<Key, Counter>, rs: seq<Request>) {
    forall client, m :: Holds(counters, Key.Minute(client, m), MinuteSeen(rs, client, m), MINUTE)
  }

  ghost predicate HoursHold(counters: map<Key, Counter>, rs: seq<Request>, rpm: int) {
    forall client, h :: Holds(counters, Key.Hour(client, h), HourSeen(rs, client, h, rpm), HOUR)
  }

  lemma SeenStep(rs: seq<Request>, r: Request, client: string, i: int, rpm: int)
    ensures MinuteSeen(rs + [r], client, i) ==
            MinuteSeen(rs, client, i) + if r.client == client && Index(r.at, MINUTE) == i then 1 else 0
    ensures HourSeen(rs + [r], client, i, rpm) ==
            HourSeen(rs, client, i, rpm)
            + if r.client == client && Index(r.at, HOUR) == i && MinutePasses(rs, r, rpm) then 1 else 0
  {
    assert (rs + [r])[..|rs|] == rs;
  }

  lemma MinuteStep(counters: map<Key, Counter>, rs: seq<Request>, r: Request, rpm: int)
    requires MinutesHold(counters, rs) && HoursHold(counters, rs, rpm)
    ensures var key := Key.Minute(r.client, Index(r.at, MINUTE));
            var c := Counted(counters, key, r.at, MINUTE);
            && Live(counters, key, r.at) == MinuteSeen(rs, r.client, key.index)
            && MinutesHold(c, rs + [r]) && HoursHold(c, rs, rpm)
  {
    var key := Key.Minute(r.client, Index(r.at, MINUTE));
    var n := MinuteSeen(rs, r.client, key.index);
    assert Holds(counters, key, n, MINUTE);
    CountedHolds(counters, key, n, MINUTE, r.at);
    var c := Counted(counters, key, r.at, MINUTE);
    hide MinuteSeen, HourSeen, Counted, Live;
    forall client, m ensures Holds(c, Key.Minute(client, m), MinuteSeen(rs + [r], client, m), MINUTE) {
      SeenStep(rs, r, client, m, rpm);
      assert Holds(counters, Key.Minute(client, m), MinuteSeen(rs, client, m), MINUTE);
    }
    forall client, h ensures Holds(c, Key.Hour(client, h), HourSeen(rs, client, h, rpm), HOUR) {
      assert Holds(counters, Key.Hour(client, h), HourSeen(rs, client, h, rpm), HOUR);
    }
  }

  lemma HourStep(counters: map<Key, Counter>, rs: seq<Request>, r: Request, rpm: int)
    requires MinutesHold(counters, rs + [r]) && HoursHold(counters, rs, rpm) && MinutePasses(rs, r, rpm)
    ensures var key := Key.Hour(r.client, Index(r.at, HOUR));
            var c := Counted(counters, key, r.at, HOUR);
            && Live(counters, key, r.at) == HourSeen(rs, r.client, key.index, rpm)
            && MinutesHold(c, rs + [r]) && HoursHold(c, rs + [r], rpm)
  {
    var key := Key.Hour(r.client, Index(r.at, HOUR));
    var n := HourSeen(rs, r.client, key.index, rpm);
    assert Holds(counters, key, n, HOUR);
    CountedHolds(counters, key, n, HOUR, r.at);
    var c := Counted(counters, key, r.at, HOUR);
    hide MinuteSeen, HourSeen, Counted, Live, MinutePasses;
    forall client, h ensures Holds(c, Key.Hour(client, h), HourSeen(rs + [r], client, h, rpm), HOUR) {
      SeenStep(rs, r, client, h, rpm);
      assert Holds(counters, Key.Hour(client, h), HourSeen(rs, client, h, rpm), HOUR);
    }
    forall client, m ensures Holds(c, Key.Minute(client, m), MinuteSeen(rs + [r], client, m), MINUTE) {
      assert Holds(counters, Key.Minute(client, m), MinuteSeen(rs + [r], client, m), MINUTE);
    }
  }

  lemma CheckedStep(counters: map<Key, Counter>, rs: seq<Request>, r: Request, rpm: int, rph: int)
    requires MinutesHold(counters, rs) && HoursHold(counters, rs, rpm)
    ensures var o := Checked(counters, r.client, rpm, rph, r.at);
            o.verdict == Due(rs, r, rpm, rph) && MinutesHold(o.counters, rs + [r]) && HoursHold(o.counters, rs + [r], rpm)
  {
    var c := Counted(counters, Key.Minute(r.client, Index(r.at, MINUTE)), r.at, MINUTE);
    MinuteStep(counters, rs, r, rpm);
    hide MinutesHold, MinuteSeen, HourSeen, Counted, Live, Holds;
    if MinutePasses(rs, r, rpm) {
      HourStep(c, rs, r, rpm);
    } else {
      forall client, h ensures HourSeen(rs + [r], client, h, rpm) == HourSeen(rs, client, h, rpm) {
        SeenStep(rs, r, client, h, rpm);
      }
    }
  }

  lemma {:induction false} RunHolds(rs: seq<Request>, rpm: int, rph: int)
    ensures MinutesHold(Run(rs, rpm, rph), rs) && HoursHold(Run(rs, rpm, rph), rs, rpm)
  {
    if rs != [] {
      hide MinutesHold, HoursHold, Checked, Due;
      var t, r := rs[..|rs| - 1], rs[|rs| - 1];
      RunHolds(t, rpm, rph);
      CheckedStep(Run(t, rpm, rph), t, r, rpm, rph);
      assert rs == t + [r];
    }
  }

  // After any requests of any clients, the counters with their expiries give the verdict that the
  // history gives: let through iff fewer than rpm of the client's earlier requests were made in the
  // same minute window, and fewer than rph of those in the same hour window passed their minute.
  lemma VerdictIsDue(rs: seq<Request>, r: Request, rpm: int, rph: int)
    ensures Checked(Run(rs, rpm, rph), r.client, rpm, rph, r.at).verdict == Due(rs, r, rpm, rph)
  {
    RunHolds(rs, rpm, rph);
    CheckedStep(Run(rs, rpm, rph), rs, r, rpm, rph);
  }

  // The expiry never takes a counter away while its window lasts.
  lemma CounterOutlivesWindow(rs: seq<Request>, rpm: int, rph: int, client: string, at: Span)
    ensures Live(Run(rs, rpm, rph), Key.Minute(client, Index(at, MINUTE)), at) == MinuteSeen(rs, client, Index(at, MINUTE))
    ensures Live(Run(rs, rpm, rph), Key.Hour(client, Index(at, HOUR)), at) == HourSeen(rs, client, Index(at, HOUR), rpm)
  {
    RunHolds(rs, rpm, rph);
    hide Run, MinuteSeen, HourSeen;
    var c := Run(rs, rpm, rph);
    var m, h := Index(at, MINUTE), Index(at, HOUR);
    assert Holds(c, Key.Minute(client, m), MinuteSeen(rs, client, m), MINUTE);
    assert Holds(c, Key.Hour(client, h), HourSeen(rs, client, h, rpm), HOUR);
    CountedHolds(c, Key.Minute(client, m), MinuteSeen(rs, client, m), MINUTE, at);
    CountedHolds(c, Key.Hour(client, h), HourSeen(rs, client, h, rpm), HOUR, at);
  }

  // ---------------------------------------------------------------- the same by counting

  // The earlier requests of the client in the same minute of the clock as a time.
  function InMinute(rs: seq<Request>, client: string, at: Span): set<int> {
    set i | 0 <= i < |rs| && rs[i].client == client && rs[i].at.Floor / 60 == at.Floor / 60
  }

  // Those in the same hour before which their own minute had room.
  function InHour(rs: seq<Request>, client: string, at: Span, rpm: int): set<int> {
    set i | 0 <= i < |rs| && rs[i].client == client && rs[i].at.Floor / 3600 == at.Floor / 3600
            && |InMinute(rs[..i], client, rs[i].at)| < rpm
  }

  lemma InMinuteStep(rs: seq<Request>, r: Request, client: string, at: Span)
    ensures InMinute(rs + [r], client, at) ==
            InMinute(rs, client, at) + (if r.client == client && r.at.Floor / 60 == at.Floor / 60 then {|rs|} else {})
    ensures |rs| !in InMinute(rs, client, at)
  {
  }

  lemma {:induction false} MinuteSeenCounts(rs: seq<Request>, client: string, at: Span)
    ensures MinuteSeen(rs, client, Index(at, MINUTE)) == |InMinute(rs, client, at)|
    decreases |rs|
  {
    if rs != [] {
      var t, r := rs[..|rs| - 1], rs[|rs| - 1];
      assert rs == t + [r];
      MinuteSeenCounts(t, client, at);
      InMinuteStep(t, r, client, at);
      hide InMinute;
    }
  }

  lemma InHourStep(rs: seq<Request>, r: Request, client: string, at: Span, rpm: int)
    ensures var more := r.client == client && r.at.Floor / 3600 == at.Floor / 3600 && |InMinute(rs, client, r.at)| < rpm;
            InHour(rs + [r], client, at, rpm) == InHour(rs, client, at, rpm) + (if more then {|rs|} else {})
    ensures |rs| !in InHour(rs, client, at, rpm)
  {
    hide InMinute;
    assert (rs + [r])[..|rs|] == rs;
    assert forall i | 0 <= i < |rs| :: (rs + [r])[..i] == rs[..i];
  }

  lemma {:induction false} HourSeenCounts(rs: seq<Request>, client: string, at: Span, rpm: int)
    ensures HourSeen(rs, client, Index(at, HOUR), rpm) == |InHour(rs, client, at, rpm)|
    decreases |rs|
  {
    if rs != [] {
      var t, r := rs[..|rs| - 1], rs[|rs| - 1];
      assert rs == t + [r];
      HourSeenCounts(t, client, at, rpm);
      InHourStep(t, r, client, at, rpm);
      MinuteSeenCounts(t, client, r.at);
      hide InMinute, InHour, MinuteSeen;
    }
  }

  // A request is let through iff fewer than rpm earlier ones of its client were made in its minute, and fewer
  // than rph of those in its hour found room in theirs; a full minute is told before a full hour.
  lemma LetThroughIff(rs: seq<Request>, r: Request, rpm: int, rph: int)
    ensures var minute, hour := |InMinute(rs, r.client, r.at)|, |InHour(rs, r.client, r.at, rpm)|;
            var v := Checked(Run(rs, rpm, rph), r.client, rpm, rph, r.at).verdict;
            && (v == Admitted <==> minute < rpm && hour < rph)
            && (minute >= rpm ==> v == Limited(60 - r.at.Floor % 60))
            && (minute < rpm && hour >= rph ==> v == Limited(3600 - r.at.Floor % 3600))
  {
    VerdictIsDue(rs, r, rpm, rph);
    MinuteSeenCounts(rs, r.client, r.at);
    HourSeenCounts(rs, r.client, r.at, rpm);
    hide Checked, Run, MinuteSeen, HourSeen, InMinute, InHour;
  }

  // ---------------------------------------------------------------- how many are let through

  predicate LetThrough(rs: seq<Request>, r: Request, rpm: int, rph: int) {
    Checked(Run(rs, rpm, rph), r.client, rpm, rph, r.at).verdict == Admitted
  }

  // Requests of a client let through from one time until before another.
  function AdmittedIn(rs: seq<Request>, client: string, from: real, until: real, rpm: int, rph: int): nat {
    if rs == [] then 0
    else
      var t, r := rs[..|rs| - 1], rs[|rs| - 1];
      AdmittedIn(t, client, from, until, rpm, rph)
      + if r.client == client && from <= r.at < until && LetThrough(t, r, rpm, rph) then 1 else 0
  }

  function Quota(n: int): nat { if n < 0 then 0 else n }

  lemma {:induction false} MinuteBound(rs: seq<Request>, client: string, m: int, rpm: int, rph: int)
    ensures AdmittedIn(rs, client, (m * MINUTE) as real, ((m + 1) * MINUTE) as real, rpm, rph)
            <= Min(MinuteSeen(rs, client, m), Quota(rpm))
  {
    if rs != [] {
      hide Run, Checked;
      var t, r := rs[..|rs| - 1], rs[|rs| - 1];
      MinuteBound(t, client, m, rpm, rph);
      VerdictIsDue(t, r, rpm, rph);
    }
  }

  lemma {:induction false} HourBound(rs: seq<Request>, client: string, h: int, rpm: int, rph: int)
    ensures AdmittedIn(rs, client, (h * HOUR) as real, ((h + 1) * HOUR) as real, rpm, rph)
            <= Min(HourSeen(rs, client, h, rpm), Quota(rph))
  {
    if rs != [] {
      hide Run, Checked, MinutePasses;
      var t, r := rs[..|rs| - 1], rs[|rs| - 1];
      HourBound(t, client, h, rpm, rph);
      VerdictIsDue(t, r, rpm, rph);
    }
  }

  lemma {:induction false} AdmittedSplits(rs: seq<Request>, client: string, a: real, b: real, c: real, d: real,
                                          rpm: int, rph: int)
    requires a <= c && d <= b
    ensures forall e :: AdmittedIn(rs, client, c, d, rpm, rph)
                        <= AdmittedIn(rs, client, a, e, rpm, rph) + AdmittedIn(rs, client, e, b, rpm, rph)
  {
    if rs != [] {
      hide LetThrough;
      AdmittedSplits(rs[..|rs| - 1], client, a, b, c, d, rpm, rph);
    }
  }

  // A minute window lets at most rpm through, an hour window at most rph, and any sixty seconds,
  // wherever they start, at most twice rpm.
  lemma Bounds(rs: seq<Request>, client: string, i: int, from: Span, rpm: int, rph: int)
    ensures AdmittedIn(rs, client, (i * MINUTE) as real, ((i + 1) * MINUTE) as real, rpm, rph) <= Quota(rpm)
    ensures AdmittedIn(rs, client, (i * HOUR) as real, ((i + 1) * HOUR) as real, rpm, rph) <= Quota(rph)
    ensures AdmittedIn(rs, client, from, from + 60.0, rpm, rph) <= 2 * Quota(rpm)
  {
    hide AdmittedIn, MinuteSeen, HourSeen;
    MinuteBound(rs, client, i, rpm, rph);
    HourBound(rs, client, i, rpm, rph);
    var m := Index(from, MINUTE);
    WindowIsCurrent(from, MINUTE);
    MinuteBound(rs, client, m, rpm, rph);
    MinuteBound(rs, client, m + 1, rpm, rph);
    var a, e, b := (m * MINUTE) as real, ((m + 1) * MINUTE) as real, ((m + 2) * MINUTE) as real;
    AdmittedSplits(rs, client, a, b, from, from + 60.0, rpm, rph);
    assert AdmittedIn(rs, client, from, from + 60.0, rpm, rph)
        <= AdmittedIn(rs, client, a, e, rpm, rph) + AdmittedIn(rs, client, e, b, rpm, rph);
  }

  // Retry-After is at least one second, at most the window, and lands exactly on the next window's start.
  lemma RetryLandsOnNextWindow(at: Span, width: int)
    requires width == MINUTE || width == HOUR
    ensures 1 <= RetryAfter(at, width) <= width
    ensures at.Floor + RetryAfter(at, width) == (Index(at, width) + 1) * width
    ensures Index((at.Floor + RetryAfter(at, width)) as real, width) == Index(at, width) + 1
  {
    if width == MINUTE {
      assert at.Floor + RetryAfter(at, 60) == (at.Floor / 60 + 1) * 60;
    } else {
      assert at.Floor + RetryAfter(at, 3600) == (at.Floor / 3600 + 1) * 3600;
    }
  }

  // Coming back when told to, nothing else having been asked for since. After a refusal by the hour
  // the request is let through, unless nothing ever is; after one by the minute it is let through
  // exactly when the hour that has then begun, or the hour still running, has room.
  lemma RetrySucceeds(rs: seq<Request>, r: Request, rpm: int, rph: int)
    requires forall i | 0 <= i < |rs| :: rs[i].at <= r.at
    requires Checked(Run(rs, rpm, rph), r.client, rpm, rph, r.at).verdict.Limited?
    ensures var wait := Checked(Run(rs, rpm, rph), r.client, rpm, rph, r.at).verdict.retryAfter;
            var again := Request(r.client, (r.at.Floor + wait) as real);
            LetThrough(rs + [r], again, rpm, rph) <==>
              if MinutePasses(rs, r, rpm) || Index(again.at, HOUR) != Index(r.at, HOUR) then 0 < rpm && 0 < rph
              else 0 < rpm && HourSeen(rs, r.client, Index(r.at, HOUR), rpm) < rph
  {
    VerdictIsDue(rs, r, rpm, rph);
    hide Checked, Run, MinutePasses, MinuteSeen, HourSeen;
    if MinutePasses(rs, r, rpm) {
      RetryAfterHour(rs, r, rpm, rph);
    } else {
      RetryAfterMinute(rs, r, rpm, rph);
    }
  }

  lemma RetryAfterHour(rs: seq<Request>, r: Request, rpm: int, rph: int)
    requires MinutePasses(rs, r, rpm) && forall i | 0 <= i < |rs| :: rs[i].at <= r.at
    ensures var again := Request(r.client, (r.at.Floor + RetryAfter(r.at, HOUR)) as real);
            LetThrough(rs + [r], again, rpm, rph) <==> 0 < rpm && 0 < rph
  {
    var again := Request(r.client, (r.at.Floor + RetryAfter(r.at, HOUR)) as real);
    RetryLandsOnNextWindow(r.at, HOUR);
    NextHourIsNextMinute(r.at);
    NoneAhead(rs + [r], r.client, r.at, Index(again.at, MINUTE), Index(again.at, HOUR), rpm);
    VerdictIsDue(rs + [r], again, rpm, rph);
    hide Checked, Run;
  }

  lemma RetryAfterMinute(rs: seq<Request>, r: Request, rpm: int, rph: int)
    requires !MinutePasses(rs, r, rpm) && forall i | 0 <= i < |rs| :: rs[i].at <= r.at
    ensures var again := Request(r.client, (r.at.Floor + RetryAfter(r.at, MINUTE)) as real);
            LetThrough(rs + [r], again, rpm, rph) <==>
              0 < rpm && if Index(again.at, HOUR) != Index(r.at, HOUR) then 0 < rph
                         else HourSeen(rs, r.client, Index(r.at, HOUR), rpm) < rph
  {
    var again := Request(r.client, (r.at.Floor + RetryAfter(r.at, MINUTE)) as real);
    var h := Index(again.at, HOUR);
    RetryLandsOnNextWindow(r.at, MINUTE);
    NoneAhead(rs + [r], r.client, r.at, Index(again.at, MINUTE), Index(r.at, HOUR) + 1, rpm);
    if h != Index(r.at, HOUR) {
      LaterIndex(r.at, again.at, HOUR);
      NoneAhead(rs + [r], r.client, r.at, Index(again.at, MINUTE), h, rpm);
    }
    SeenStep(rs, r, r.client, h, rpm);
    VerdictIsDue(rs + [r], again, rpm, rph);
    hide Checked, Run, HourSeen, MinuteSeen;
    assert Due(rs + [r], again, rpm, rph).Admitted? <==>
           MinuteSeen(rs + [r], r.client, Index(again.at, MINUTE)) < rpm && HourSeen(rs + [r], r.client, h, rpm) < rph;
  }

  lemma LaterIndex(from: Span, to: Span, width: int)
    requires from <= to && (width == MINUTE || width == HOUR)
    ensures Index(from, width) <= Index(to, width)
  {
    assert from.Floor / 60 <= to.Floor / 60 && from.Floor / 3600 <= to.Floor / 3600;
  }

  lemma NextHourIsNextMinute(at: Span)
    ensures Index(at, MINUTE) < Index((at.Floor + RetryAfter(at, HOUR)) as real, MINUTE)
  {
    var n, q := at.Floor, at.Floor / 3600;
    RetryLandsOnNextWindow(at, HOUR);
    BelowMinute(n, 60 * q + 60);
    assert ((n + RetryAfter(at, HOUR)) as real).Floor == 60 * (60 * q + 60);
  }

  lemma BelowMinute(n: int, m: int)
    requires n < 60 * m
    ensures n / 60 < m && 60 * m / 60 == m
  {
  }

  // Nothing is counted in windows that none of the requests has reached.
  lemma {:induction false} NoneAhead(rs: seq<Request>, client: string, at: Span, m: int, h: int, rpm: int)
    requires (forall i | 0 <= i < |rs| :: rs[i].at <= at) && Index(at, MINUTE) < m && Index(at, HOUR) < h
    ensures MinuteSeen(rs, client, m) == 0 && HourSeen(rs, client, h, rpm) == 0
  {
    if rs != [] {
      hide MinutePasses;
      NoneAhead(rs[..|rs| - 1], client, at, m, h, rpm);
      LaterIndex(rs[|rs| - 1].at, at, MINUTE);
      LaterIndex(rs[|rs| - 1].at, at, HOUR);
    }
  }
}
