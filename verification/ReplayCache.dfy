/** The cache that lets a client assertion be used once. */
module ReplayCache {
  import opened Domain

  datatype Use = Use(clientId: string, jti: string, exp: Time, at: Time)

  /** A jti is remembered per client, under one composed key. */
  function Key(clientId: string, jti: string): string {
    clientId + "|" + jti
  }

  function UseKey(u: Use): string {
    Key(u.clientId, u.jti)
  }

  function Evicted(seen: map<string, Time>, now: Time): map<string, Time> {
    map k | k in seen && seen[k] >= now :: seen[k]
  }

  class MemAssertionCache {
    var seen: map<string, Time>

    constructor ()
      ensures seen == map[]
    {
      seen := map[];
    }

    method CheckAndStore(clientId: string, jti: string, exp: Time, now: Time) returns (isNew: bool)
      modifies this
      ensures isNew <==> Key(clientId, jti) !in Evicted(old(seen), now)
      ensures seen == if isNew then Evicted(old(seen), now)[Key(clientId, jti) := exp] else Evicted(old(seen), now)
    {
      var before := seen;
      var left := seen.Keys;
      while left != {}
        invariant left <= before.Keys
        invariant seen == map k | k in before && (k in left || before[k] >= now) :: before[k]
      {
        var k :| k in left;
        if seen[k] < now {
          seen := seen - {k};
        }
        left := left - {k};
      }
      var key := clientId + "|" + jti;
      if key in seen {
        return false;
      }
      seen := seen[key := exp];
      return true;
    }

    /** The cache is asked last: an assertion that fails any other rule burns nothing. */
    method Verify(p: Expected, claims: Option<Claims>, now: Time) returns (accepted: bool)
      modifies this
      ensures (accepted, seen) == Verified(old(seen), Presentation(p, claims, now))
    {
      if p.issuer == "" || p.subject == "" || claims.None? {
        return false;
      }
      var c := claims.value;
      if c.exp.Some? && !(now < c.exp.value + p.skew) {
        return false;
      }
      if c.issuer != p.issuer || c.subject != p.subject || c.audience == [] {
        return false;
      }
      var matches := AnyAudienceMatch(p, c.audience);
      if !matches || c.exp.None? || c.jti == "" {
        return false;
      }
      accepted := CheckAndStore(p.issuer, c.jti, c.exp.value, now);
    }
  }

  /** The claims of an assertion whose signature and algorithm have been found good. */
  datatype Claims = Claims(issuer: string, subject: string, audience: seq<string>, jti: string, exp: Option<Time>)

  /** What the verifier is asked to expect; `same` compares two audience values up to URL equivalence. */
  datatype Expected = Expected(issuer: string, subject: string, audience: seq<string>, same: (string, string) -> bool, skew: int)

  /** With no audience configured any will do. */
  predicate AudienceOk(p: Expected, audience: seq<string>) {
    p.audience == [] || exists t, a :: t in audience && a in p.audience && p.same(t, a)
  }

  method AnyAudienceMatch(p: Expected, audience: seq<string>) returns (ok: bool)
    ensures ok <==> AudienceOk(p, audience)
  {
    if p.audience == [] {
      return true;
    }
    for i := 0 to |audience|
      invariant forall t, a | t in audience[..i] && a in p.audience :: !p.same(t, a)
    {
      for j := 0 to |p.audience|
        invariant forall a | a in p.audience[..j] :: !p.same(audience[i], a)
      {
        if p.same(audience[i], p.audience[j]) {
          assert audience[i] in audience && p.audience[j] in p.audience;
          return true;
        }
      }
      assert p.audience[..|p.audience|] == p.audience;
    }
    assert audience[..|audience|] == audience;
    return false;
  }

  /** Every rule but the last: the time check allows the configured clock skew. */
  predicate Admissible(p: Expected, claims: Option<Claims>, now: Time) {
    && p.issuer != "" && p.subject != "" && claims.Some?
    && claims.value.issuer == p.issuer && claims.value.subject == p.subject
    && claims.value.audience != [] && AudienceOk(p, claims.value.audience)
    && claims.value.exp.Some? && now < claims.value.exp.value + p.skew && claims.value.jti != ""
  }

  function UseOf(p: Expected, c: Claims, now: Time): Use
    requires c.exp.Some?
  {
    Use(p.issuer, c.jti, c.exp.value, now)
  }

  function Checked(seen: map<string, Time>, u: Use): (bool, map<string, Time>) {
    var kept := Evicted(seen, u.at);
    if UseKey(u) in kept then (false, kept) else (true, kept[UseKey(u) := u.exp])
  }

  /** An assertion put before the verifier. */
  datatype Presentation = Presentation(p: Expected, claims: Option<Claims>, at: Time)

  function Verified(seen: map<string, Time>, x: Presentation): (bool, map<string, Time>) {
    if Admissible(x.p, x.claims, x.at) then Checked(seen, UseOf(x.p, x.claims.value, x.at)) else (false, seen)
  }

  // ---- runs ----

  function SeenAfter(us: seq<Use>): map<string, Time> {
    if us == [] then map[] else Checked(SeenAfter(us[..|us| - 1]), us[|us| - 1]).1
  }

  predicate Accepted(us: seq<Use>, i: nat)
    requires i < |us|
  {
    Checked(SeenAfter(us[..i]), us[i]).0
  }

  predicate Ordered(us: seq<Use>) {
    forall i, j | 0 <= i <= j < |us| :: us[i].at <= us[j].at
  }

  /** The full history remembers an earlier accepted use of the same key that has not expired yet. */
  predicate Remembered(us: seq<Use>, i: nat, key: string, now: Time)
    requires i <= |us|
  {
    exists j: nat :: j < i && UseKey(us[j]) == key && us[j].exp >= now && Accepted(us, j)
  }

  /** The cache is what an unlimited memory of the accepted uses would keep, less what has expired; `taken[j]` says
      whether use j was accepted. */
  predicate KeepsHistory(us: seq<Use>, taken: seq<bool>, seen: map<string, Time>, clock: Time)
    requires |taken| <= |us|
  {
    && (forall k | k in seen :: exists j: nat :: j < |taken| && taken[j] && UseKey(us[j]) == k && us[j].exp == seen[k])
    && (forall j: nat | j < |taken| && taken[j] && us[j].exp >= clock ::
          UseKey(us[j]) in seen && seen[UseKey(us[j])] == us[j].exp)
  }

  lemma OneUseMore(us: seq<Use>, taken: seq<bool>, seen: map<string, Time>, clock: Time)
    requires |taken| < |us| && clock <= us[|taken|].at
    requires KeepsHistory(us, taken, seen, clock)
    ensures var (ok, seen') := Checked(seen, us[|taken|]);
            KeepsHistory(us, taken + [ok], seen', us[|taken|].at)
  {
    var u := us[|taken|];
    var (ok, seen') := Checked(seen, u);
    var taken' := taken + [ok];
    forall k | k in seen' ensures exists j: nat :: j < |taken'| && taken'[j] && UseKey(us[j]) == k && us[j].exp == seen'[k] {
      if ok && k == UseKey(u) {
        assert taken'[|taken|];
      } else {
        var j: nat :| j < |taken| && taken[j] && UseKey(us[j]) == k && us[j].exp == seen[k];
        assert taken'[j];
      }
    }
  }

  lemma HistoryLasts(us: seq<Use>, taken: seq<bool>, seen: map<string, Time>, clock: Time, clock': Time)
    requires |taken| <= |us| && clock <= clock' && KeepsHistory(us, taken, seen, clock)
    ensures KeepsHistory(us, taken, seen, clock')
  {
  }

  function Verdicts(us: seq<Use>, n: nat): (taken: seq<bool>)
    requires n <= |us|
    ensures |taken| == n
  {
    if n == 0 then [] else Verdicts(us, n - 1) + [Accepted(us, n - 1)]
  }

  lemma {:induction false} VerdictAt(us: seq<Use>, n: nat, i: nat)
    requires i < n <= |us|
    ensures Verdicts(us, n)[i] == Accepted(us, i)
  {
    if i < n - 1 {
      VerdictAt(us, n - 1, i);
    }
  }

  lemma OneVerdictMore(us: seq<Use>, n: nat)
    requires n < |us|
    ensures Verdicts(us, n + 1) == Verdicts(us, n) + [Checked(SeenAfter(us[..n]), us[n]).0]
    ensures SeenAfter(us[..n + 1]) == Checked(SeenAfter(us[..n]), us[n]).1
  {
    assert us[..n + 1][..n] == us[..n];
  }

  /** The cache met by use `n` keeps the history of the uses before it. */
  ghost predicate HistoryAt(us: seq<Use>, n: nat) {
    n < |us| && KeepsHistory(us, Verdicts(us, n), SeenAfter(us[..n]), us[n].at)
  }

  lemma HistoryGoesOn(us: seq<Use>, n: nat)
    requires n + 1 < |us| && us[n].at <= us[n + 1].at && HistoryAt(us, n)
    ensures HistoryAt(us, n + 1)
  {
    var taken, seen, u := Verdicts(us, n), SeenAfter(us[..n]), us[n];
    var (ok, seen') := Checked(seen, u);
    OneUseMore(us, taken, seen, u.at);
    HistoryLasts(us, taken + [ok], seen', u.at, us[n + 1].at);
    OneVerdictMore(us, n);
  }

  lemma NothingToKeepAtFirst(us: seq<Use>)
    requires us != []
    ensures HistoryAt(us, 0)
  {
    assert us[..0] == [];
  }

  lemma {:induction false} HistoryIsKept(us: seq<Use>, n: nat)
    requires n < |us| && Ordered(us)
    ensures HistoryAt(us, n)
  {
    if n > 0 {
      HistoryIsKept(us, n - 1);
      HistoryGoesOn(us, n - 1);
    } else {
      NothingToKeepAtFirst(us);
    }
  }

  /** With a clock that never goes back, a use is refused exactly when an earlier accepted use of the same key recorded an
      expiry that has not passed: eviction forgets nothing that the full history would still hold against it. */
  lemma RefusedExactlyWhenRemembered(us: seq<Use>, i: nat)
    requires i < |us| && Ordered(us)
    ensures !Accepted(us, i) <==> Remembered(us, i, UseKey(us[i]), us[i].at)
  {
    HistoryIsKept(us, i);
    var key, seen, taken := UseKey(us[i]), SeenAfter(us[..i]), Verdicts(us, i);
    if !Accepted(us, i) {
      var j: nat :| j < i && taken[j] && UseKey(us[j]) == key && us[j].exp == seen[key];
      VerdictAt(us, i, j);
    } else {
      forall j: nat | j < i && us[j].exp >= us[i].at && Accepted(us, j) ensures UseKey(us[j]) != key {
        VerdictAt(us, i, j);
      }
    }
  }

  // ---- which pairs share a key ----

  /** `a` starts where `b` starts and goes on past a separator that belongs to the other pair's id. */
  predicate Overlaps(a: Use, b: Use) {
    && |a.clientId| < |b.clientId| && a.clientId + "|" <= b.clientId
    && a.jti == b.clientId[|a.clientId| + 1..] + "|" + b.jti
  }

  lemma SharedKey(a: Use, b: Use)
    requires |a.clientId| <= |b.clientId|
    ensures UseKey(a) == UseKey(b) <==> (a.clientId == b.clientId && a.jti == b.jti) || Overlaps(a, b)
  {
    var n := |a.clientId|;
    assert UseKey(a)[..n] == a.clientId && UseKey(a)[n] == '|' && UseKey(a)[n + 1..] == a.jti;
    assert UseKey(b)[..|b.clientId|] == b.clientId && UseKey(b)[|b.clientId|..] == "|" + b.jti;
    if n == |b.clientId| {
      assert UseKey(b)[n + 1..] == b.jti && UseKey(b)[..n] == b.clientId;
    } else {
      assert UseKey(b)[..n + 1] == b.clientId[..n + 1];
      assert UseKey(b)[n + 1..] == b.clientId[n + 1..] + "|" + b.jti;
      assert UseKey(a)[..n + 1] == a.clientId + "|";
      if Overlaps(a, b) {
        assert b.clientId[..n + 1] == a.clientId + "|";
        assert UseKey(a) == UseKey(a)[..n + 1] + UseKey(a)[n + 1..];
        assert UseKey(b) == UseKey(b)[..n + 1] + UseKey(b)[n + 1..];
      }
    }
  }

  /** Keys tell pairs apart when no client id contains the separator. */
  lemma KeysTellPairsApart(a: Use, b: Use)
    requires '|' !in a.clientId && '|' !in b.clientId
    ensures UseKey(a) == UseKey(b) <==> a.clientId == b.clientId && a.jti == b.jti
  {
    if |a.clientId| <= |b.clientId| {
      SharedKey(a, b);
      if Overlaps(a, b) {
        OverlapNeedsSeparator(a, b);
      }
    } else {
      SharedKey(b, a);
      if Overlaps(b, a) {
        OverlapNeedsSeparator(b, a);
      }
    }
  }

  lemma OverlapNeedsSeparator(a: Use, b: Use)
    requires Overlaps(a, b)
    ensures '|' in b.clientId
  {
    assert b.clientId[|a.clientId|] == (a.clientId + "|")[|a.clientId|];
  }

  /** With a separator in an id, a first use of one client can be refused for another client's. */
  lemma SeparatorInIdCollides(now: Time)
    ensures var us := [Use("a", "b|c", now, now), Use("a|b", "c", now, now)];
            Ordered(us) && !Accepted(us, 1)
  {
    var us := [Use("a", "b|c", now, now), Use("a|b", "c", now, now)];
    SharedKey(us[0], us[1]);
    assert us[..1] == [us[0]] && us[..0] == [];
    assert Accepted(us, 0);
    RefusedExactlyWhenRemembered(us, 1);
  }

  /** The property in the client's terms: for ids without the separator a use is refused exactly when the same client used
      the same jti before, was accepted, and that assertion has not expired. */
  lemma OneUseUntilExpiry(us: seq<Use>, i: nat)
    requires i < |us| && Ordered(us)
    requires forall k | 0 <= k < |us| :: '|' !in us[k].clientId
    ensures !Accepted(us, i) <==>
              exists j: nat :: j < i && us[j].clientId == us[i].clientId && us[j].jti == us[i].jti && us[j].exp >= us[i].at && Accepted(us, j)
  {
    RefusedExactlyWhenRemembered(us, i);
    forall j: nat | j < i ensures UseKey(us[j]) == UseKey(us[i]) <==> us[j].clientId == us[i].clientId && us[j].jti == us[i].jti {
      KeysTellPairsApart(us[j], us[i]);
    }
  }

  // ---- how often one assertion is accepted ----

  /** Uses that have passed the time check, in the order of the clock. */
  predicate InTime(us: seq<Use>, skew: int) {
    Ordered(us) && forall i | 0 <= i < |us| :: us[i].at < us[i].exp + skew
  }

  /** All uses of the key of use `i` present the same assertion, as far as its expiry tells. */
  predicate OneAssertion(us: seq<Use>, i: nat)
    requires i < |us|
  {
    forall j | 0 <= j < |us| && UseKey(us[j]) == UseKey(us[i]) :: us[j].exp == us[i].exp
  }

  predicate AcceptedBefore(us: seq<Use>, i: nat)
    requires i < |us|
  {
    exists j: nat :: j < i && UseKey(us[j]) == UseKey(us[i]) && Accepted(us, j)
  }

  /** An assertion is accepted once up to its expiry, and every time it is presented after that, until the skew is used up. */
  lemma AcceptedOnceUntilExpiry(us: seq<Use>, i: nat, skew: int)
    requires i < |us| && InTime(us, skew) && OneAssertion(us, i)
    ensures Accepted(us, i) <==> us[i].at > us[i].exp || !AcceptedBefore(us, i)
  {
    RefusedExactlyWhenRemembered(us, i);
  }

  ghost predicate AcceptedTwice(us: seq<Use>, i: nat, skew: int) {
    i < |us| && InTime(us, skew) && OneAssertion(us, i) && Accepted(us, i) && AcceptedBefore(us, i)
  }

  /** Some assertion can be accepted twice if and only if the skew leaves a tick of the clock strictly between the expiry and
      the end of the allowance. */
  lemma SkewAllowsASecondUse(skew: int)
    ensures (exists us: seq<Use>, i: nat :: AcceptedTwice(us, i, skew)) <==> skew >= 2
  {
    forall us: seq<Use>, i: nat | AcceptedTwice(us, i, skew) ensures skew >= 2 {
      AcceptedOnceUntilExpiry(us, i, skew);
    }
    if skew >= 2 {
      var us := [Use("client", "jti", 0, 0), Use("client", "jti", 0, 1)];
      RefusedExactlyWhenRemembered(us, 0);
      AcceptedOnceUntilExpiry(us, 1, skew);
      assert Accepted(us, 0);
      assert AcceptedTwice(us, 1, skew);
    }
  }

  // ---- what the verifier answers, presentation after presentation ----

  function SeenBy(xs: seq<Presentation>): map<string, Time> {
    if xs == [] then map[] else Verified(SeenBy(xs[..|xs| - 1]), xs[|xs| - 1]).1
  }

  /** The verifier's answer to presentation `i`. */
  predicate Accepts(xs: seq<Presentation>, i: nat)
    requires i < |xs|
  {
    Verified(SeenBy(xs[..i]), xs[i]).0
  }

  /** The assertion names the issuer and the subject that are expected and an accepted audience, has a jti, and its expiry is not
      yet further back than the skew. */
  predicate Good(x: Presentation) {
    && x.p.issuer != "" && x.p.subject != "" && x.claims.Some?
    && x.claims.value.issuer == x.p.issuer && x.claims.value.subject == x.p.subject
    && x.claims.value.audience != []
    && (x.p.audience == [] || exists t, a :: t in x.claims.value.audience && a in x.p.audience && x.p.same(t, a))
    && x.claims.value.jti != "" && x.claims.value.exp.Some? && x.at < x.claims.value.exp.value + x.p.skew
  }

  /** The uses among the presentations that reach the cache. */
  function Uses(xs: seq<Presentation>): seq<Use> {
    if xs == [] then []
    else
      var x := xs[|xs| - 1];
      Uses(xs[..|xs| - 1]) + if Admissible(x.p, x.claims, x.at) then [UseOf(x.p, x.claims.value, x.at)] else []
  }

  lemma {:induction false} UsesAreSeen(xs: seq<Presentation>)
    ensures SeenAfter(Uses(xs)) == SeenBy(xs)
    decreases |xs|
  {
    if xs != [] {
      UsesAreSeen(xs[..|xs| - 1]);
      var x := xs[|xs| - 1];
      if Admissible(x.p, x.claims, x.at) {
        assert Uses(xs)[..|Uses(xs)| - 1] == Uses(xs[..|xs| - 1]);
      } else {
        assert Uses(xs) == Uses(xs[..|xs| - 1]);
      }
    }
  }

  lemma {:induction false} UsesGrow(xs: seq<Presentation>, n: nat, m: nat)
    requires n <= m <= |xs|
    ensures Uses(xs[..n]) <= Uses(xs[..m])
    decreases m
  {
    if n < m {
      UsesGrow(xs, n, m - 1);
      assert xs[..m][..m - 1] == xs[..m - 1];
    }
  }

  /** Presentation `i`, when good, is the use at this place of the sequence of uses. */
  lemma PlaceOf(xs: seq<Presentation>, i: nat) returns (k: nat)
    requires i < |xs| && Good(xs[i])
    ensures k == |Uses(xs[..i])| < |Uses(xs)|
    ensures Uses(xs)[k] == Use(xs[i].p.issuer, xs[i].claims.value.jti, xs[i].claims.value.exp.value, xs[i].at)
    ensures Accepted(Uses(xs), k) <==> Accepts(xs, i)
  {
    k := |Uses(xs[..i])|;
    assert xs[..i + 1][..i] == xs[..i];
    UsesGrow(xs, i, |xs|);
    UsesGrow(xs, i + 1, |xs|);
    assert xs[..|xs|] == xs;
    UsesAreSeen(xs[..i]);
    assert Uses(xs)[..k] == Uses(xs[..i]);
  }

  /** Every use is that of a good presentation. */
  lemma {:induction false} PresentationAt(xs: seq<Presentation>, k: nat) returns (i: nat)
    requires k < |Uses(xs)|
    ensures i < |xs| && Good(xs[i]) && |Uses(xs[..i])| == k
    ensures Uses(xs)[k] == Use(xs[i].p.issuer, xs[i].claims.value.jti, xs[i].claims.value.exp.value, xs[i].at)
    decreases |xs|
  {
    var before := xs[..|xs| - 1];
    if k < |Uses(before)| {
      i := PresentationAt(before, k);
      assert before[..i] == xs[..i];
    } else {
      i := |xs| - 1;
    }
  }

  predicate InOrder(xs: seq<Presentation>) {
    forall i, j | 0 <= i <= j < |xs| :: xs[i].at <= xs[j].at
  }

  lemma UsesAreInOrder(xs: seq<Presentation>)
    requires InOrder(xs)
    ensures Ordered(Uses(xs))
  {
    forall a, b | 0 <= a <= b < |Uses(xs)| ensures Uses(xs)[a].at <= Uses(xs)[b].at {
      var i := PresentationAt(xs, a);
      var j := PresentationAt(xs, b);
      if j < i {
        UsesGrow(xs, j, i);
      }
    }
  }

  /** The uses that reach the cache have passed the time check. */
  lemma UsesAreInTime(xs: seq<Presentation>, skew: int)
    requires InOrder(xs) && forall i | 0 <= i < |xs| :: xs[i].p.skew == skew
    ensures InTime(Uses(xs), skew)
  {
    UsesAreInOrder(xs);
    forall k | 0 <= k < |Uses(xs)| ensures Uses(xs)[k].at < Uses(xs)[k].exp + skew {
      var i := PresentationAt(xs, k);
    }
  }

  /** Presentation `j` was accepted for the same key and has not expired at `now`. */
  predicate StandsAgainst(xs: seq<Presentation>, j: nat, x: Presentation)
    requires x.claims.Some?
  {
    && j < |xs| && Accepts(xs, j) && xs[j].claims.Some? && xs[j].claims.value.exp.Some?
    && Key(xs[j].p.issuer, xs[j].claims.value.jti) == Key(x.p.issuer, x.claims.value.jti) && xs[j].claims.value.exp.value >= x.at
  }

  /** With a clock that never goes back, the verifier accepts a presentation if and only if it is good and no earlier accepted
      one for the same key has not yet expired. */
  lemma WhatIsAccepted(xs: seq<Presentation>, i: nat)
    requires i < |xs| && InOrder(xs)
    ensures Accepts(xs, i) <==> Good(xs[i]) && !exists j: nat :: j < i && StandsAgainst(xs, j, xs[i])
  {
    if Good(xs[i]) {
      var us := Uses(xs);
      var k := PlaceOf(xs, i);
      UsesAreInOrder(xs);
      RefusedExactlyWhenRemembered(us, k);
      if !Accepts(xs, i) {
        var l: nat :| l < k && UseKey(us[l]) == UseKey(us[k]) && us[l].exp >= us[k].at && Accepted(us, l);
        var j := PresentationAt(xs, l);
        var again := PlaceOf(xs, j);
        if i <= j {
          UsesGrow(xs, i, j);
        }
        assert StandsAgainst(xs, j, xs[i]);
      }
      if j: nat :| j < i && StandsAgainst(xs, j, xs[i]) {
        OnlyGoodOnesAreAccepted(xs, j);
        var l := PlaceOf(xs, j);
        EarlierComesFirst(xs, j, i);
        assert Remembered(us, k, UseKey(us[k]), us[k].at);
      }
    } else if Accepts(xs, i) {
      OnlyGoodOnesAreAccepted(xs, i);
    }
  }

  lemma EarlierComesFirst(xs: seq<Presentation>, j: nat, i: nat)
    requires j < i < |xs| && Good(xs[j])
    ensures |Uses(xs[..j])| < |Uses(xs[..i])|
  {
    assert xs[..j + 1][..j] == xs[..j];
    UsesGrow(xs, j + 1, i);
  }

  /** Whatever is accepted names the expected issuer and subject and an accepted audience, carries a jti, and is presented before
      its expiry plus the skew. */
  lemma OnlyGoodOnesAreAccepted(xs: seq<Presentation>, i: nat)
    requires i < |xs| && Accepts(xs, i)
    ensures Good(xs[i])
  {
  }

  /** One assertion, presented again and again to a verifier that expects it, is accepted up to its expiry at most once, and
      after it every time until the skew is used up. */
  lemma OneAssertionIsAcceptedOnce(xs: seq<Presentation>, i: nat)
    requires i < |xs| && InOrder(xs) && Good(xs[i])
    requires forall j | 0 <= j < |xs| :: xs[j].p == xs[i].p && xs[j].claims == xs[i].claims
    ensures Accepts(xs, i) <==>
              xs[i].at > xs[i].claims.value.exp.value || !exists j: nat {:trigger Accepts(xs, j)} :: j < i && Accepts(xs, j)
  {
    WhatIsAccepted(xs, i);
    forall j: nat {:trigger Accepts(xs, j)} | j < i ensures StandsAgainst(xs, j, xs[i]) <==>
                                                             Accepts(xs, j) && xs[i].claims.value.exp.value >= xs[i].at
    {
    }
  }

  /** One assertion, accepted twice by a verifier with the given skew. */
  ghost predicate TwiceAccepted(xs: seq<Presentation>, i: nat, j: nat, skew: int) {
    && j < i < |xs| && InOrder(xs) && xs[i].p.skew == skew
    && (forall k | 0 <= k < |xs| :: xs[k].p == xs[i].p && xs[k].claims == xs[i].claims)
    && Accepts(xs, i) && Accepts(xs, j)
  }

  /** The verifier can be made to accept one assertion twice if and only if the skew is at least two ticks. */
  lemma WhichSkewsAllowReplay(skew: int)
    ensures (exists xs: seq<Presentation>, i: nat, j: nat :: TwiceAccepted(xs, i, j, skew)) <==> skew >= 2
  {
    forall xs: seq<Presentation>, i: nat, j: nat | TwiceAccepted(xs, i, j, skew) ensures skew >= 2 {
      OnlyGoodOnesAreAccepted(xs, i);
      OneAssertionIsAcceptedOnce(xs, i);
    }
    if skew >= 2 {
      var p := Expected("client", "client", [], (t, a) => false, skew);
      var claims := Some(Claims("client", "client", ["here"], "jti", Some(0)));
      var xs := [Presentation(p, claims, 0), Presentation(p, claims, 1)];
      WhatIsAccepted(xs, 0);
      OneAssertionIsAcceptedOnce(xs, 1);
      assert TwiceAccepted(xs, 1, 0, skew);
    }
  }
}
