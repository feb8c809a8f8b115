/** The per-address limiter of sign-in requests, and why its sweep loses nothing.

    Bucket levels are counted in billionths of a request, so that a rate in
    requests per second times a time in nanoseconds is exact. */
module RateLimiter {
  import opened Domain

  /** A token bucket; `last` is when its level was last settled, `lastSeen` when its address last asked. */
  datatype Bucket = Bucket(level: int, last: Time, lastSeen: Time)

  datatype Settings = Settings(rate: int, burst: int, maxIdle: int) {
    function Full(): int { burst * SECOND }

    predicate Positive() { rate >= 1 && burst >= 1 && maxIdle > 0 }
  }

  datatype Request = Request(ip: string, at: Time)

  type Buckets = map<string, Bucket>

  // ---- one bucket ----

  function Level(p: Settings, b: Bucket, now: Time): int {
    var filled := b.level + p.rate * (if now < b.last then 0 else now - b.last);
    if filled > p.Full() then p.Full() else filled
  }

  /** A denied request leaves the level where it was. */
  function Taken(p: Settings, b: Bucket, now: Time): (Bucket, bool) {
    var left := Level(p, b, now) - SECOND;
    if 1 <= p.burst && left >= 0 then (b.(level := left, last := now), true) else (b, false)
  }

  function Fresh(p: Settings): Bucket {
    Bucket(p.Full(), 0, 0)
  }

  /** The limiter that never forgets an address. */
  function Plain(p: Settings, m: Buckets, r: Request): (Buckets, bool) {
    var b := (if r.ip in m then m[r.ip] else Fresh(p)).(lastSeen := r.at);
    var (b', ok) := Taken(p, b, r.at);
    (m[r.ip := b'], ok)
  }

  // ---- the limiter ----

  function Swept(p: Settings, m: Buckets, now: Time): Buckets {
    map ip | ip in m && now - m[ip].lastSeen < p.maxIdle :: m[ip]
  }

  class LoginRateLimiter {
    var buckets: Buckets
    var lastSweep: Time
    const settings: Settings

    constructor (rps: int, burst: int)
      ensures buckets == map[] && lastSweep == 0
      ensures settings == Settings(if rps < 1 then 10 else rps, if burst < 1 then 5 else burst, 10 * MINUTE)
    {
      var rate, b := rps, burst;
      if rate < 1 {
        rate := 10;
      }
      if b < 1 {
        b := 5;
      }
      buckets, lastSweep, settings := map[], 0, Settings(rate, b, 10 * MINUTE);
    }

    function State(): Limiter
      reads this
    {
      Limiter(buckets, lastSweep)
    }

    method Allow(ip: string, now: Time) returns (ok: bool)
      modifies this
      ensures (State(), ok) == Allowed(settings, old(State()), Request(ip, now))
    {
      Sweep(now);
      ghost var swept := buckets;
      if ip !in buckets {
        buckets := buckets[ip := Fresh(settings)];
      }
      var b := buckets[ip].(lastSeen := now);
      var (b', allowed) := Taken(settings, b, now);
      buckets := buckets[ip := b'];
      assert buckets == swept[ip := b'];
      return allowed;
    }

    method Sweep(now: Time)
      modifies this
      ensures State() == AfterSweep(settings, old(State()), now)
      ensures now - old(lastSweep) < settings.maxIdle ==> unchanged(this)
      ensures now - old(lastSweep) >= settings.maxIdle ==>
                && lastSweep == now
                && (forall ip :: ip in buckets <==> ip in old(buckets) && now - old(buckets)[ip].lastSeen < settings.maxIdle)
                && (forall ip | ip in buckets :: buckets[ip] == old(buckets)[ip])
    {
      if now - lastSweep < settings.maxIdle {
        return;
      }
      lastSweep := now;
      var before := buckets;
      var left := buckets.Keys;
      while left != {}
        invariant left <= before.Keys && lastSweep == now
        invariant buckets == map ip | ip in before && (ip in left || now - before[ip].lastSeen < settings.maxIdle) :: before[ip]
      {
        var ip :| ip in left;
        if now - buckets[ip].lastSeen >= settings.maxIdle {
          buckets := buckets - {ip};
        }
        left := left - {ip};
      }
    }
  }

  datatype Limiter = Limiter(buckets: Buckets, lastSweep: Time)

  function AfterSweep(p: Settings, s: Limiter, now: Time): Limiter {
    if now - s.lastSweep < p.maxIdle then s else Limiter(Swept(p, s.buckets, now), now)
  }

  function Allowed(p: Settings, s: Limiter, r: Request): (Limiter, bool) {
    var s' := AfterSweep(p, s, r.at);
    var (m, ok) := Plain(p, s'.buckets, r);
    (Limiter(m, s'.lastSweep), ok)
  }

  // ---- runs ----

  function After(p: Settings, rs: seq<Request>): Limiter {
    if rs == [] then Limiter(map[], 0) else Allowed(p, After(p, rs[..|rs| - 1]), rs[|rs| - 1]).0
  }

  function PlainAfter(p: Settings, rs: seq<Request>): Buckets {
    if rs == [] then map[] else Plain(p, PlainAfter(p, rs[..|rs| - 1]), rs[|rs| - 1]).0
  }

  predicate Answer(p: Settings, rs: seq<Request>, r: Request) {
    Allowed(p, After(p, rs), r).1
  }

  predicate PlainAnswer(p: Settings, rs: seq<Request>, r: Request) {
    Plain(p, PlainAfter(p, rs), r).1
  }

  predicate Ordered(rs: seq<Request>) {
    forall i, j | 0 <= i <= j < |rs| :: rs[i].at <= rs[j].at
  }

  /** The limiter answers every request of every sequence as if it never forgot an address. */
  ghost predicate Lossless(p: Settings) {
    forall rs: seq<Request>, r: Request | Ordered(rs + [r]) :: Answer(p, rs, r) == PlainAnswer(p, rs, r)
  }

  // ---- enough time to refill: nothing is lost ----

  lemma LongerMeansFuller(rate: int, a: int, b: int)
    requires rate >= 1 && a <= b
    ensures rate * a <= rate * b
  {
  }

  predicate Sound(b: Bucket, clock: Time) {
    b.level >= 0 && b.last <= b.lastSeen <= clock
  }

  predicate AllSound(all: Buckets, clock: Time) {
    forall ip | ip in all :: Sound(all[ip], clock)
  }

  predicate IsFull(p: Settings, b: Bucket, clock: Time) {
    b.last <= clock && Level(p, b, clock) == p.Full()
  }

  /** A forgotten bucket is one that is full again. */
  predicate Matches(p: Settings, swept: Buckets, all: Buckets, clock: Time) {
    && (forall ip | ip in swept :: ip in all && swept[ip] == all[ip])
    && (forall ip | ip in all && ip !in swept :: IsFull(p, all[ip], clock))
  }

  lemma SweepKeepsMatching(p: Settings, s: Limiter, all: Buckets, clock: Time, now: Time)
    requires p.Positive() && p.Full() <= p.rate * p.maxIdle && clock <= now
    requires Matches(p, s.buckets, all, clock) && AllSound(all, clock)
    ensures Matches(p, AfterSweep(p, s, now).buckets, all, now)
  {
    var swept := AfterSweep(p, s, now).buckets;
    forall ip | ip in all && ip !in swept ensures IsFull(p, all[ip], now) {
      if ip in s.buckets {
        LongerMeansFuller(p.rate, p.maxIdle, now - all[ip].last);
      } else {
        LongerMeansFuller(p.rate, clock - all[ip].last, now - all[ip].last);
      }
    }
  }

  lemma AskingKeepsMatching(p: Settings, swept: Buckets, all: Buckets, r: Request, clock: Time)
    requires p.Positive() && clock <= r.at
    requires Matches(p, swept, all, r.at) && AllSound(all, clock)
    ensures Plain(p, swept, r).1 == Plain(p, all, r).1
    ensures Matches(p, Plain(p, swept, r).0, Plain(p, all, r).0, r.at)
    ensures AllSound(Plain(p, all, r).0, r.at)
  {
  }

  lemma {:induction false} RunsMatch(p: Settings, rs: seq<Request>, now: Time)
    requires p.Positive() && p.Full() <= p.rate * p.maxIdle
    requires Ordered(rs) && (rs != [] ==> rs[|rs| - 1].at <= now)
    ensures Matches(p, After(p, rs).buckets, PlainAfter(p, rs), now) && AllSound(PlainAfter(p, rs), now)
  {
    if rs != [] {
      var before, r := rs[..|rs| - 1], rs[|rs| - 1];
      RunsMatch(p, before, r.at);
      SweepKeepsMatching(p, After(p, before), PlainAfter(p, before), r.at, r.at);
      AskingKeepsMatching(p, AfterSweep(p, After(p, before), r.at).buckets, PlainAfter(p, before), r, r.at);
      MatchingLasts(p, After(p, rs).buckets, PlainAfter(p, rs), r.at, now);
    }
  }

  lemma MatchingLasts(p: Settings, swept: Buckets, all: Buckets, clock: Time, now: Time)
    requires p.Positive() && clock <= now && Matches(p, swept, all, clock)
    ensures Matches(p, swept, all, now)
  {
    forall ip | ip in all && ip !in swept ensures IsFull(p, all[ip], now) {
      LongerMeansFuller(p.rate, clock - all[ip].last, now - all[ip].last);
    }
  }

  // ---- not enough time to refill: something is lost ----

  function Calls(ip: string, at: Time, n: nat): (rs: seq<Request>)
    ensures |rs| == n && forall i | 0 <= i < n :: rs[i] == Request(ip, at)
  {
    if n == 0 then [] else Calls(ip, at, n - 1) + [Request(ip, at)]
  }

  lemma OneRequestMore(p: Settings, rs: seq<Request>, r: Request)
    ensures After(p, rs + [r]) == Allowed(p, After(p, rs), r).0
    ensures PlainAfter(p, rs + [r]) == Plain(p, PlainAfter(p, rs), r).0
  {
    assert (rs + [r])[..|rs + [r]| - 1] == rs;
  }

  /** A bucket emptied by `n` calls at one moment. */
  function Drained(p: Settings, at: Time, n: nat): Bucket {
    Bucket(p.Full() - n * SECOND, at, at)
  }

  lemma DrainFurther(p: Settings, ip: string, at: Time, n: nat)
    requires 1 <= n < p.burst && p.Positive()
    ensures var m := map[ip := Drained(p, at, n)];
            && Plain(p, m, Request(ip, at)) == (map[ip := Drained(p, at, n + 1)], true)
            && Allowed(p, Limiter(m, at), Request(ip, at)) == (Limiter(map[ip := Drained(p, at, n + 1)], at), true)
  {
    var b := Drained(p, at, n);
    assert p.rate * (at - b.last) == 0;
    assert map[ip := b][ip := Drained(p, at, n + 1)] == map[ip := Drained(p, at, n + 1)];
  }

  /** The first call of an address whose bucket is missing or has just been forgotten. */
  lemma DrainAfresh(p: Settings, s: Limiter, ip: string, at: Time)
    requires p.Positive() && at - s.lastSweep >= p.maxIdle && at >= 0
    requires forall k | k in s.buckets :: at - s.buckets[k].lastSeen >= p.maxIdle
    ensures Allowed(p, s, Request(ip, at)) == (Limiter(map[ip := Drained(p, at, 1)], at), true)
    ensures Plain(p, map[], Request(ip, at)) == (map[ip := Drained(p, at, 1)], true)
  {
    assert Swept(p, s.buckets, at) == map[];
    LongerMeansFuller(p.rate, 0, at);
  }

  lemma {:induction false} FirstCalls(p: Settings, ip: string, n: nat)
    requires p.Positive() && 1 <= n <= p.burst
    ensures var rs := Calls(ip, p.maxIdle, n);
            && After(p, rs) == Limiter(map[ip := Drained(p, p.maxIdle, n)], p.maxIdle)
            && PlainAfter(p, rs) == map[ip := Drained(p, p.maxIdle, n)]
  {
    OneRequestMore(p, Calls(ip, p.maxIdle, n - 1), Request(ip, p.maxIdle));
    if n == 1 {
      DrainAfresh(p, Limiter(map[], 0), ip, p.maxIdle);
    } else {
      FirstCalls(p, ip, n - 1);
      DrainFurther(p, ip, p.maxIdle, n - 1);
    }
  }

  function TwoRounds(p: Settings, ip: string, n: nat): seq<Request>
    requires p.Positive()
  {
    Calls(ip, p.maxIdle, p.burst) + Calls(ip, 2 * p.maxIdle, n)
  }

  lemma SecondRound(p: Settings, ip: string, n: nat)
    requires p.Positive()
    ensures TwoRounds(p, ip, n + 1) == TwoRounds(p, ip, n) + [Request(ip, 2 * p.maxIdle)]
    ensures TwoRounds(p, ip, 0) == Calls(ip, p.maxIdle, p.burst)
  {
  }

  lemma SweptSecondRoundStarts(p: Settings, ip: string)
    requires p.Positive()
    ensures Allowed(p, After(p, TwoRounds(p, ip, 0)), Request(ip, 2 * p.maxIdle))
            == (Limiter(map[ip := Drained(p, 2 * p.maxIdle, 1)], 2 * p.maxIdle), true)
  {
    SecondRound(p, ip, 0);
    FirstCalls(p, ip, p.burst);
    DrainAfresh(p, Limiter(map[ip := Drained(p, p.maxIdle, p.burst)], p.maxIdle), ip, 2 * p.maxIdle);
  }

  /** After one idle period the sweeping limiter starts the address afresh. */
  lemma {:induction false} SweptSecondRound(p: Settings, ip: string, n: nat)
    requires p.Positive() && 1 <= n <= p.burst
    ensures Allowed(p, After(p, TwoRounds(p, ip, n - 1)), Request(ip, 2 * p.maxIdle))
            == (Limiter(map[ip := Drained(p, 2 * p.maxIdle, n)], 2 * p.maxIdle), true)
  {
    if n == 1 {
      SweptSecondRoundStarts(p, ip);
    } else {
      SweptSecondRound(p, ip, n - 1);
      SecondRound(p, ip, n - 2);
      OneRequestMore(p, TwoRounds(p, ip, n - 2), Request(ip, 2 * p.maxIdle));
      DrainFurther(p, ip, 2 * p.maxIdle, n - 1);
    }
  }

  predicate Below(p: Settings, m: Buckets, ip: string, at: Time, bound: int) {
    ip in m && m[ip].last <= at && Level(p, m[ip], at) < bound
  }

  lemma AskingStaysBelow(p: Settings, m: Buckets, ip: string, at: Time, bound: int)
    requires p.Positive() && Below(p, m, ip, at, bound) && bound >= 2 * SECOND
    ensures Below(p, Plain(p, m, Request(ip, at)).0, ip, at, bound - SECOND)
  {
    assert p.rate * (at - at) == 0;
  }

  /** The limiter that forgets nothing still remembers what the first round took. */
  lemma {:induction false} PlainSecondRound(p: Settings, ip: string, n: nat)
    requires p.Positive() && n < p.burst && p.rate * p.maxIdle < p.Full()
    ensures Below(p, PlainAfter(p, TwoRounds(p, ip, n)), ip, 2 * p.maxIdle, p.Full() - n * SECOND)
  {
    if n == 0 {
      SecondRound(p, ip, 0);
      FirstCalls(p, ip, p.burst);
    } else {
      PlainSecondRound(p, ip, n - 1);
      SecondRound(p, ip, n - 1);
      OneRequestMore(p, TwoRounds(p, ip, n - 1), Request(ip, 2 * p.maxIdle));
      AskingStaysBelow(p, PlainAfter(p, TwoRounds(p, ip, n - 1)), ip, 2 * p.maxIdle, p.Full() - (n - 1) * SECOND);
    }
  }

  /** Sweeping is lossless exactly when a drained bucket refills within the idle time. */
  lemma SweepingIsLossless(p: Settings)
    requires p.Positive()
    ensures Lossless(p) <==> p.burst * SECOND <= p.rate * p.maxIdle
  {
    if p.Full() <= p.rate * p.maxIdle {
      forall rs: seq<Request>, r: Request | Ordered(rs + [r]) ensures Answer(p, rs, r) == PlainAnswer(p, rs, r) {
        RunIsLossless(p, rs, r);
      }
    } else {
      ShortIdleTimeLoses(p);
    }
  }

  lemma TwoRoundsAreOrdered(p: Settings, ip: string, n: nat)
    requires p.Positive()
    ensures Ordered(TwoRounds(p, ip, n) + [Request(ip, 2 * p.maxIdle)])
  {
    SecondRound(p, ip, n);
  }

  lemma BelowOneIsDenied(p: Settings, m: Buckets, r: Request)
    requires Below(p, m, r.ip, r.at, SECOND)
    ensures !Plain(p, m, r).1
  {
  }

  lemma SecondRoundsDiffer(p: Settings, rs: seq<Request>, r: Request)
    requires p.Positive() && p.rate * p.maxIdle < p.Full()
    requires rs == TwoRounds(p, "", p.burst - 1) && r == Request("", 2 * p.maxIdle)
    ensures Answer(p, rs, r) && !PlainAnswer(p, rs, r)
  {
    SweptSecondRound(p, "", p.burst);
    PlainSecondRound(p, "", p.burst - 1);
    BelowOneIsDenied(p, PlainAfter(p, rs), r);
  }

  lemma ShortIdleTimeLoses(p: Settings)
    requires p.Positive() && p.rate * p.maxIdle < p.Full()
    ensures !Lossless(p)
  {
    var rs, r := TwoRounds(p, "", p.burst - 1), Request("", 2 * p.maxIdle);
    TwoRoundsAreOrdered(p, "", p.burst - 1);
    SecondRoundsDiffer(p, rs, r);
  }

  lemma RunIsLossless(p: Settings, rs: seq<Request>, r: Request)
    requires p.Positive() && p.Full() <= p.rate * p.maxIdle && Ordered(rs + [r])
    ensures Answer(p, rs, r) == PlainAnswer(p, rs, r)
  {
    forall i, j | 0 <= i <= j < |rs| ensures rs[i].at <= rs[j].at {
      assert (rs + [r])[i] == rs[i] && (rs + [r])[j] == rs[j];
    }
    if rs != [] {
      assert (rs + [r])[|rs| - 1] == rs[|rs| - 1] && (rs + [r])[|rs|] == r;
    }
    RunsMatch(p, rs, r.at);
    SweepKeepsMatching(p, After(p, rs), PlainAfter(p, rs), r.at, r.at);
    AskingKeepsMatching(p, AfterSweep(p, After(p, rs), r.at).buckets, PlainAfter(p, rs), r, r.at);
  }

  /** The limiter as deployed, with a burst equal to the rate, loses nothing. */
  lemma DeployedLimiterIsLossless(rps: int)
    requires rps >= 1
    ensures Lossless(Settings(rps, rps, 10 * MINUTE))
  {
    SweepingIsLossless(Settings(rps, rps, 10 * MINUTE));
    LongerMeansFuller(rps, SECOND, 10 * MINUTE);
  }

  // ---- memory is bounded ----

  predicate Recent(p: Settings, s: Limiter) {
    forall ip | ip in s.buckets :: s.lastSweep - s.buckets[ip].lastSeen < p.maxIdle
  }

  /** After a call at `t` every bucket left belongs to an address seen less than two idle times ago. */
  lemma {:induction false} OldBucketsAreGone(p: Settings, rs: seq<Request>)
    requires p.maxIdle > 0 && Ordered(rs) && rs != [] && rs[0].at >= 0
    ensures var s, t := After(p, rs), rs[|rs| - 1].at;
            Recent(p, s) && 0 <= t - s.lastSweep < p.maxIdle
            && forall ip | ip in s.buckets :: t - s.buckets[ip].lastSeen < 2 * p.maxIdle
  {
    var before := rs[..|rs| - 1];
    if before != [] {
      OldBucketsAreGone(p, before);
    }
  }
}
