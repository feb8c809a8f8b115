/** How many requests of one address the limiter admits: exactly as many as its burst and the refill since then allow. */
module RequestBudget {
  import opened Domain
  import opened RateLimiter

  /** The limiter that forgets nothing admits request `i`. */
  predicate Admitted(p: Settings, rs: seq<Request>, i: nat)
    requires i < |rs|
  {
    PlainAnswer(p, rs[..i], rs[i])
  }

  /** How many requests of the address have been admitted from request `i` to before request `n`. */
  function Admissions(p: Settings, rs: seq<Request>, ip: string, i: nat, n: nat): nat
    requires n <= |rs|
    decreases n
  {
    if n <= i then 0
    else Admissions(p, rs, ip, i, n - 1) + if rs[n - 1].ip == ip && Admitted(p, rs, n - 1) then 1 else 0
  }

  predicate Counts(p: Settings, rs: seq<Request>, ip: string, i: nat)
    requires i < |rs|
  {
    rs[i].ip == ip && Admitted(p, rs, i)
  }

  /** How much refills from time zero to `t`. */
  function Refill(p: Settings, t: Time): int {
    p.rate * t
  }

  /** What burst and refill leave at time `t` of the budget that began to be used with request `i`, in billionths of a request. */
  function Left(p: Settings, rs: seq<Request>, ip: string, i: nat, n: nat, t: Time): int
    requires i < |rs| && n <= |rs|
  {
    p.Full() + Refill(p, t) - Refill(p, rs[i].at) - Admissions(p, rs, ip, i, n) * SECOND
  }

  /** `level` is the least that any admitted request of the address leaves at time `last`. */
  predicate IsLeast(p: Settings, rs: seq<Request>, ip: string, n: nat, level: int, last: Time)
    requires n <= |rs|
  {
    && (forall i: nat | i < n && Counts(p, rs, ip, i) :: level <= Left(p, rs, ip, i, n, last))
    && (exists i: nat :: i < n && Counts(p, rs, ip, i) && level == Left(p, rs, ip, i, n, last))
  }

  /** A bucket holds the least that any admitted request of its address leaves; an address without one has not asked. */
  predicate Tells(p: Settings, rs: seq<Request>, ip: string, n: nat)
    requires n <= |rs|
  {
    var m := PlainAfter(p, rs[..n]);
    if ip in m then IsLeast(p, rs, ip, n, m[ip].level, m[ip].last) && n > 0 && m[ip].last <= rs[n - 1].at
    else forall i: nat | i < n :: !Counts(p, rs, ip, i)
  }

  lemma RefillIs(p: Settings, a: Time, b: Time)
    ensures p.rate * (b - a) == Refill(p, b) - Refill(p, a)
    ensures p.rate >= 0 && a <= b ==> Refill(p, a) <= Refill(p, b)
  {
    if p.rate >= 0 && a <= b {
      assert p.rate * (b - a) >= 0;
    }
  }

  lemma LeftAfter(p: Settings, rs: seq<Request>, ip: string, i: nat, n: nat, t: Time)
    requires i <= n < |rs|
    ensures Left(p, rs, ip, i, n + 1, t) == Left(p, rs, ip, i, n, t) - if Counts(p, rs, ip, n) then SECOND else 0
    ensures i == n ==> Left(p, rs, ip, i, n, rs[n].at) == p.Full()
  {
  }

  // ---- one request ----

  /** A request that is not this address's, or not admitted, leaves everything as it was. */
  lemma QuietStep(p: Settings, rs: seq<Request>, ip: string, n: nat, level: int, last: Time)
    requires n < |rs| && !Counts(p, rs, ip, n) && IsLeast(p, rs, ip, n, level, last)
    ensures IsLeast(p, rs, ip, n + 1, level, last)
  {
    forall i: nat | i < n + 1 && Counts(p, rs, ip, i) ensures level <= Left(p, rs, ip, i, n + 1, last) {
      LeftAfter(p, rs, ip, i, n, last);
    }
    var i: nat :| i < n && Counts(p, rs, ip, i) && level == Left(p, rs, ip, i, n, last);
    LeftAfter(p, rs, ip, i, n, last);
  }

  /** An admitted request takes one from the refilled bucket. */
  lemma AdmittedStep(p: Settings, rs: seq<Request>, ip: string, n: nat, level: int, last: Time, gain: int)
    requires n < |rs| && Counts(p, rs, ip, n) && IsLeast(p, rs, ip, n, level, last) && gain == Refill(p, rs[n].at) - Refill(p, last)
    ensures IsLeast(p, rs, ip, n + 1, (if level + gain > p.Full() then p.Full() else level + gain) - SECOND, rs[n].at)
  {
    var at, level' := rs[n].at, (if level + gain > p.Full() then p.Full() else level + gain) - SECOND;
    LeftAfter(p, rs, ip, n, n, at);
    forall i: nat | i < n + 1 && Counts(p, rs, ip, i) ensures level' <= Left(p, rs, ip, i, n + 1, at) {
      LeftAfter(p, rs, ip, i, n, at);
    }
    var i: nat :| i < n && Counts(p, rs, ip, i) && level == Left(p, rs, ip, i, n, last);
    LeftAfter(p, rs, ip, i, n, at);
    assert level' == Left(p, rs, ip, if level + gain > p.Full() then n else i, n + 1, at);
  }

  lemma FirstStep(p: Settings, rs: seq<Request>, ip: string, n: nat)
    requires n < |rs| && Counts(p, rs, ip, n) && forall i: nat | i < n :: !Counts(p, rs, ip, i)
    ensures IsLeast(p, rs, ip, n + 1, p.Full() - SECOND, rs[n].at)
  {
    LeftAfter(p, rs, ip, n, n, rs[n].at);
  }

  /** The next request is admitted if and only if each admitted request before it leaves enough for one. */
  lemma EnoughLeft(p: Settings, rs: seq<Request>, ip: string, n: nat, level: int, last: Time, at: Time, gain: int)
    requires n <= |rs| && IsLeast(p, rs, ip, n, level, last) && gain == Refill(p, at) - Refill(p, last)
    ensures level + gain >= SECOND <==> forall i: nat | i < n && Counts(p, rs, ip, i) :: Left(p, rs, ip, i, n, at) >= SECOND
  {
    forall i: nat | i < n ensures Left(p, rs, ip, i, n, at) == Left(p, rs, ip, i, n, last) + gain {
    }
  }

  // ---- runs ----

  lemma AnswerFromTells(p: Settings, rs: seq<Request>, n: nat)
    requires p.Positive() && n < |rs| && Ordered(rs) && Tells(p, rs, rs[n].ip, n)
    ensures Admitted(p, rs, n) <==>
              forall i: nat | i < n && Counts(p, rs, rs[n].ip, i) :: Left(p, rs, rs[n].ip, i, n, rs[n].at) >= SECOND
  {
    var ip, at, m := rs[n].ip, rs[n].at, PlainAfter(p, rs[..n]);
    assert p.Full() >= SECOND;
    if ip in m {
      RefillIs(p, m[ip].last, at);
      EnoughLeft(p, rs, ip, n, m[ip].level, m[ip].last, at, Refill(p, at) - Refill(p, m[ip].last));
    } else {
      FreshIsFull(p, at);
    }
  }

  lemma FreshIsFull(p: Settings, at: Time)
    requires p.Positive()
    ensures Level(p, Fresh(p).(lastSeen := at), at) == p.Full()
  {
    RefillIs(p, 0, at);
  }

  /** What one request does to the bucket of an address. */
  lemma BucketAfter(p: Settings, rs: seq<Request>, ip: string, n: nat)
    requires p.Positive() && n < |rs|
    ensures var m, m', at := PlainAfter(p, rs[..n]), PlainAfter(p, rs[..n + 1]), rs[n].at;
            && (rs[n].ip != ip ==> (ip in m' <==> ip in m) && (ip in m ==> m'[ip] == m[ip]))
            && (rs[n].ip == ip ==>
                  && ip in m'
                  && var b := (if ip in m then m[ip] else Fresh(p)).(lastSeen := at);
                     if Admitted(p, rs, n) then m'[ip].level == Level(p, b, at) - SECOND && m'[ip].last == at
                     else m'[ip].level == b.level && m'[ip].last == b.last)
  {
    assert rs[..n + 1][..n] == rs[..n];
  }

  lemma TellsOn(p: Settings, rs: seq<Request>, ip: string, n: nat)
    requires p.Positive() && n < |rs| && Ordered(rs) && Tells(p, rs, ip, n)
    ensures Tells(p, rs, ip, n + 1)
  {
    var m, at := PlainAfter(p, rs[..n]), rs[n].at;
    BucketAfter(p, rs, ip, n);
    if Counts(p, rs, ip, n) {
      if ip in m {
        RefillIs(p, m[ip].last, at);
        AdmittedStep(p, rs, ip, n, m[ip].level, m[ip].last, Refill(p, at) - Refill(p, m[ip].last));
      } else {
        FirstStep(p, rs, ip, n);
        FreshIsFull(p, at);
      }
    } else if ip in m {
      QuietStep(p, rs, ip, n, m[ip].level, m[ip].last);
    } else if rs[n].ip == ip {
      AnswerFromTells(p, rs, n);
    }
  }

  lemma {:induction false} BucketsTell(p: Settings, rs: seq<Request>, ip: string, n: nat)
    requires p.Positive() && Ordered(rs) && n <= |rs|
    ensures Tells(p, rs, ip, n)
    decreases n
  {
    if n > 0 {
      BucketsTell(p, rs, ip, n - 1);
      TellsOn(p, rs, ip, n - 1);
    }
  }

  lemma EnoughInRequests(p: Settings, rs: seq<Request>, ip: string, i: nat, n: nat, at: Time)
    requires i < |rs| && n <= |rs|
    ensures Left(p, rs, ip, i, n, at) >= SECOND <==>
              (Admissions(p, rs, ip, i, n) + 1) * SECOND <= p.burst * SECOND + p.rate * (at - rs[i].at)
  {
    RefillIs(p, rs[i].at, at);
  }

  /** The admitted requests from `i` on leave room for one more at time `at`: burst and refill since then allow it. */
  predicate LeavesRoom(p: Settings, rs: seq<Request>, ip: string, i: nat, n: nat, at: Time)
    requires i < |rs| && n <= |rs|
  {
    (Admissions(p, rs, ip, i, n) + 1) * SECOND <= p.burst * SECOND + p.rate * (at - rs[i].at)
  }

  /** With requests in the order of the clock, one is admitted if and only if, counted from any earlier admitted request of its
      address, no more requests will have been admitted, this one among them, than the burst plus the rate times the time since. */
  lemma WhichRequestsAreAdmitted(p: Settings, rs: seq<Request>, n: nat)
    requires p.Positive() && Ordered(rs) && n < |rs|
    ensures Admitted(p, rs, n) <==>
              forall i: nat | i < n && Counts(p, rs, rs[n].ip, i) :: LeavesRoom(p, rs, rs[n].ip, i, n, rs[n].at)
  {
    var ip, at := rs[n].ip, rs[n].at;
    BucketsTell(p, rs, ip, n);
    AnswerFromTells(p, rs, n);
    if Admitted(p, rs, n) {
      forall i: nat | i < n && Counts(p, rs, ip, i) ensures LeavesRoom(p, rs, ip, i, n, at) {
        EnoughInRequests(p, rs, ip, i, n, at);
      }
    } else {
      var i: nat :| i < n && Counts(p, rs, ip, i) && Left(p, rs, ip, i, n, at) < SECOND;
      EnoughInRequests(p, rs, ip, i, n, at);
    }
  }

  // ---- the limiter as it is ----

  /** When sweeping is lossless, as deployed, the limiter's own answers are those. */
  lemma TheLimiterAdmits(p: Settings, rs: seq<Request>, n: nat)
    requires p.Positive() && p.burst * SECOND <= p.rate * p.maxIdle && Ordered(rs) && n < |rs|
    ensures Answer(p, rs[..n], rs[n]) <==> Admitted(p, rs, n)
  {
    SweepingIsLossless(p);
    assert rs[..n] + [rs[n]] == rs[..n + 1];
    assert Ordered(rs[..n] + [rs[n]]);
  }
}
