/** Rotations running step by step beside the issuers of tokens. */
module KeyRotation {
  import opened Domain
  import opened SigningKeys

  /** A rotation in flight holds the key it read; once its own key `next` is stored it goes on to retire that one. */
  datatype Rotation = Read(previous: Option<SigningKey>) | Retiring(doomed: SigningKey, next: string)

  /** An issuer either goes on to sign with the key it got or found none and goes on to make one. */
  datatype Issuer = Bootstrapping | Signing(key: SigningKey)

  datatype State = State(
    keys: Keys,
    rotations: map<Id, Rotation>,
    issuers: map<Id, Issuer>,
    // history: the key active at the start and the newest one; for each key that a rotation stored the key which that
    // rotation had read; the stored keys whose rotation retired what it read, and those whose rotation failed to
    first: string,
    latest: string,
    replaced: map<string, string>,
    ended: set<string>,
    failed: set<string>,
    bootstrapped: nat,
    signed: set<(string, string)>)

  /** Any active key may be the one a read returns; a write may fail and then changes nothing. */
  datatype Action =
    | StartRotation(r: Id, found: Option<string>)
    | StoreNext(r: Id, next: SigningKey, ok: bool)
    | RetirePrevious(r: Id, at: Time, ok: bool)
    | StartIssuing(i: Id, found: Option<string>)
    | Bootstrap(i: Id, key: SigningKey, ok: bool)
    | Sign(i: Id)

  predicate Finds(keys: Keys, found: Option<string>) {
    match found
    case Some(kid) => IsActive(keys, kid)
    case None => ActiveKids(keys) == {}
  }

  predicate NewActive(keys: Keys, k: SigningKey) {
    k.kid !in keys && k.isActive
  }

  /** With `serial`, a rotation starts only when none is in flight. */
  predicate Enabled(s: State, a: Action, serial: bool) {
    match a
    case StartRotation(r, found) => r !in s.rotations && (serial ==> s.rotations == map[]) && Finds(s.keys, found)
    case StoreNext(r, next, _) => r in s.rotations && s.rotations[r].Read? && NewActive(s.keys, next)
    case RetirePrevious(r, _, _) => r in s.rotations && s.rotations[r].Retiring?
    case StartIssuing(i, found) => i !in s.issuers && Finds(s.keys, found)
    case Bootstrap(i, key, _) => i in s.issuers && s.issuers[i].Bootstrapping? && NewActive(s.keys, key)
    case Sign(i) => i in s.issuers && s.issuers[i].Signing?
  }

  function Next(s: State, a: Action, serial: bool): State
    requires Enabled(s, a, serial)
  {
    match a
    case StartRotation(r, found) =>
      s.(rotations := s.rotations[r := Read(if found.Some? then Some(s.keys[found.value]) else None)])
    case StoreNext(r, next, ok) =>
      if !ok then s.(rotations := s.rotations - {r})
      else
        var previous := s.rotations[r].previous;
        s.(keys := s.keys[next.kid := next], latest := next.kid,
           rotations := if previous.Some? then s.rotations[r := Retiring(previous.value, next.kid)] else s.rotations - {r},
           replaced := if previous.Some? then s.replaced[next.kid := previous.value.kid] else s.replaced)
    case RetirePrevious(r, at, ok) =>
      var Retiring(doomed, next) := s.rotations[r];
      if !ok then s.(rotations := s.rotations - {r}, failed := s.failed + {next})
      else
        s.(keys := s.keys[doomed.kid := doomed.Retired(at)], rotations := s.rotations - {r}, ended := s.ended + {next})
    case StartIssuing(i, found) =>
      s.(issuers := s.issuers[i := if found.Some? then Signing(s.keys[found.value]) else Bootstrapping])
    case Bootstrap(i, key, ok) =>
      if !ok then s.(issuers := s.issuers - {i})
      else s.(keys := s.keys[key.kid := key], latest := key.kid, issuers := s.issuers[i := Signing(key)], bootstrapped := s.bootstrapped + 1)
    case Sign(i) =>
      s.(signed := s.signed + {(s.issuers[i].key.kid, s.issuers[i].key.publicKey)}, issuers := s.issuers - {i})
  }

  /** One active key and nobody at work. */
  predicate Init(s: State) {
    && (forall kid | kid in s.keys :: s.keys[kid].kid == kid)
    && ActiveKids(s.keys) == {s.first} && s.latest == s.first
    && s.rotations == map[] && s.issuers == map[]
    && s.replaced == map[] && s.ended == {} && s.failed == {} && s.bootstrapped == 0 && s.signed == {}
  }

  /** States joined by steps, from any starting state. */
  ghost predicate Stretch(ss: seq<State>, acts: seq<Action>, serial: bool) {
    && |ss| == |acts| + 1
    && forall i | 0 <= i < |acts| :: Enabled(ss[i], acts[i], serial) && ss[i + 1] == Next(ss[i], acts[i], serial)
  }

  ghost predicate Run(ss: seq<State>, acts: seq<Action>, serial: bool) {
    Stretch(ss, acts, serial) && Init(ss[0])
  }

  function Last(ss: seq<State>): State
    requires |ss| > 0
  {
    ss[|ss| - 1]
  }

  lemma OneMore(ss: seq<State>, acts: seq<Action>, a: Action, serial: bool) returns (ss': seq<State>, acts': seq<Action>)
    requires Stretch(ss, acts, serial) && Enabled(Last(ss), a, serial)
    ensures Stretch(ss', acts', serial) && ss <= ss' && Last(ss') == Next(Last(ss), a, serial)
  {
    ss', acts' := ss + [Next(Last(ss), a, serial)], acts + [a];
  }

  // ---- what every step keeps ----

  /** The stored record behind a snapshot: the flags may have moved on, the key has not. */
  predicate StillStored(keys: Keys, k: SigningKey) {
    k.kid in keys && keys[k.kid].publicKey == k.publicKey
  }

  predicate Safe(s: State) {
    && (forall kid | kid in s.keys :: s.keys[kid].kid == kid)
    && IsActive(s.keys, s.latest)
    && s.bootstrapped == 0
    && s.signed <= Published(s.keys)
    && (forall r | r in s.rotations :: RotationSafe(s.keys, s.rotations[r], s.latest))
    && (forall i | i in s.issuers :: s.issuers[i].Signing? && StillStored(s.keys, s.issuers[i].key))
  }

  /** The key a rotation is about to retire is never the newest one. */
  predicate RotationSafe(keys: Keys, r: Rotation, latest: string) {
    match r
    case Read(previous) => previous.Some? && StillStored(keys, previous.value)
    case Retiring(doomed, _) => StillStored(keys, doomed) && doomed.kid != latest
  }

  lemma StoringPublishesMore(keys: Keys, k: SigningKey)
    requires k.kid in keys ==> keys[k.kid].publicKey == k.publicKey
    ensures Published(keys[k.kid := k]) == Published(keys) + {(k.kid, k.publicKey)}
  {
    var more := keys[k.kid := k];
    assert forall kid | kid in more :: (kid, more[kid].publicKey) in Published(keys) + {(k.kid, k.publicKey)};
    forall p | p in Published(keys) + {(k.kid, k.publicKey)} ensures p in Published(more) {
      assert p.0 in more && more[p.0].publicKey == p.1;
    }
  }

  lemma StoreNextIsSafe(s: State, r: Id, next: SigningKey, serial: bool)
    requires Safe(s) && Enabled(s, StoreNext(r, next, true), serial)
    ensures Safe(Next(s, StoreNext(r, next, true), serial))
  {
    StoringPublishesMore(s.keys, next);
  }

  lemma RetireIsSafe(s: State, r: Id, at: Time, serial: bool)
    requires Safe(s) && Enabled(s, RetirePrevious(r, at, true), serial)
    ensures Safe(Next(s, RetirePrevious(r, at, true), serial))
  {
    assert RotationSafe(s.keys, s.rotations[r], s.latest);
    StoringPublishesMore(s.keys, s.rotations[r].doomed.Retired(at));
  }

  lemma StepIsSafe(s: State, a: Action, serial: bool)
    requires Safe(s) && Enabled(s, a, serial)
    ensures Safe(Next(s, a, serial))
  {
    assert s.latest in ActiveKids(s.keys);
    match a
    case StoreNext(r, next, ok) =>
      if ok {
        StoreNextIsSafe(s, r, next, serial);
      }
    case RetirePrevious(r, at, ok) =>
      if ok {
        RetireIsSafe(s, r, at, serial);
      }
    case Sign(i) =>
      assert s.issuers[i].key.kid in s.keys;
    case _ =>
  }

  lemma {:induction false} RunIsSafe(ss: seq<State>, acts: seq<Action>, serial: bool, n: nat)
    requires Run(ss, acts, serial) && n < |ss|
    ensures Safe(ss[n])
  {
    if n == 0 {
      assert ss[0].latest in ActiveKids(ss[0].keys);
    } else {
      RunIsSafe(ss, acts, serial, n - 1);
      StepIsSafe(ss[n - 1], acts[n - 1], serial);
    }
  }

  /** In every interleaving of any number of rotations and issuers, whichever writes fail: some key is active, no issuer
      makes a key of its own, and every key that ever signed a token is still published. */
  lemma SomeKeyIsAlwaysActive(ss: seq<State>, acts: seq<Action>, serial: bool, n: nat)
    requires Run(ss, acts, serial) && n < |ss|
    ensures ActiveKids(ss[n].keys) != {}
    ensures ss[n].bootstrapped == 0 && (forall i | i in ss[n].issuers :: !ss[n].issuers[i].Bootstrapping?)
    ensures ss[n].signed <= Published(ss[n].keys)
  {
    RunIsSafe(ss, acts, serial, n);
    assert ss[n].latest in ActiveKids(ss[n].keys);
  }

  // ---- how many keys are active ----

  /** The new keys of the rotations between their two writes. */
  function Pending(rotations: map<Id, Rotation>): set<string> {
    set r | r in rotations && rotations[r].Retiring? :: rotations[r].next
  }

  /** The keys that have been retired. */
  function Superseded(replaced: map<string, string>, ended: set<string>): set<string> {
    set n | n in ended && n in replaced :: replaced[n]
  }

  /** A rotation is about one of the keys that were ever active, and its own key is on record. */
  predicate RotationOnRecord(r: Rotation, first: string, replaced: map<string, string>) {
    match r
    case Read(previous) => previous.Some? && (previous.value.kid == first || previous.value.kid in replaced)
    case Retiring(doomed, next) =>
      next in replaced && replaced[next] == doomed.kid && (doomed.kid == first || doomed.kid in replaced)
  }

  ghost predicate RecordsFit(s: State) {
    && s.first in s.keys && s.first !in s.replaced && s.replaced.Keys <= s.keys.Keys
    && Superseded(s.replaced, s.ended) <= {s.first} + s.replaced.Keys
    && (forall r | r in s.rotations :: RotationOnRecord(s.rotations[r], s.first, s.replaced))
    && (forall r, q | r in s.rotations && q in s.rotations && s.rotations[r].Retiring? && s.rotations[q].Retiring?
                      && s.rotations[r].next == s.rotations[q].next :: r == q)
  }

  /** Every key a rotation stored is accounted for, and the active keys are those stored and not retired. */
  ghost predicate Balanced(s: State) {
    && RecordsFit(s)
    && s.replaced.Keys == s.ended + s.failed + Pending(s.rotations)
    && s.ended !! s.failed && s.ended !! Pending(s.rotations) && s.failed !! Pending(s.rotations)
    && ActiveKids(s.keys) == {s.first} + s.replaced.Keys - Superseded(s.replaced, s.ended)
  }

  lemma PendingGains(rotations: map<Id, Rotation>, r: Id, x: Rotation)
    requires r in rotations ==> rotations[r].Read?
    ensures Pending(rotations[r := x]) == Pending(rotations) + if x.Retiring? then {x.next} else {}
  {
    var more := rotations[r := x];
    assert x.Retiring? ==> more[r].next == x.next;
    forall n | n in Pending(rotations) ensures n in Pending(more) {
      var q :| q in rotations && rotations[q].Retiring? && rotations[q].next == n;
      assert more[q].next == n;
    }
  }

  lemma PendingLoses(rotations: map<Id, Rotation>, r: Id)
    requires r in rotations
    requires forall p, q | p in rotations && q in rotations && rotations[p].Retiring? && rotations[q].Retiring?
                           && rotations[p].next == rotations[q].next :: p == q
    ensures Pending(rotations - {r}) == Pending(rotations) - if rotations[r].Retiring? then {rotations[r].next} else {}
  {
    var fewer := rotations - {r};
    forall n | n in Pending(rotations) && !(rotations[r].Retiring? && n == rotations[r].next) ensures n in Pending(fewer) {
      var q :| q in rotations && rotations[q].Retiring? && rotations[q].next == n;
      assert q in fewer && fewer[q].next == n;
    }
  }

  lemma ActivatingAdds(keys: Keys, k: SigningKey)
    requires NewActive(keys, k)
    ensures ActiveKids(keys[k.kid := k]) == ActiveKids(keys) + {k.kid} && k.kid !in ActiveKids(keys)
  {
  }

  lemma RetiringRemoves(keys: Keys, k: SigningKey, at: Time)
    ensures ActiveKids(keys[k.kid := k.Retired(at)]) == ActiveKids(keys) - {k.kid}
  {
  }

  lemma StartBalances(s: State, r: Id, found: Option<string>, serial: bool)
    requires Safe(s) && Balanced(s) && Enabled(s, StartRotation(r, found), serial)
    ensures Balanced(Next(s, StartRotation(r, found), serial))
  {
    assert s.latest in ActiveKids(s.keys);
    assert found.value in ActiveKids(s.keys);
    PendingGains(s.rotations, r, Read(Some(s.keys[found.value])));
  }

  lemma StoreBalances(s: State, r: Id, next: SigningKey, serial: bool)
    requires Safe(s) && Balanced(s) && Enabled(s, StoreNext(r, next, true), serial)
    ensures Balanced(Next(s, StoreNext(r, next, true), serial))
  {
    var s' := Next(s, StoreNext(r, next, true), serial);
    assert RotationOnRecord(s.rotations[r], s.first, s.replaced);
    ActivatingAdds(s.keys, next);
    PendingGains(s.rotations, r, s'.rotations[r]);
    assert Superseded(s'.replaced, s'.ended) == Superseded(s.replaced, s.ended);
    RecordsGrow(s, r, next, serial);
  }

  lemma RecordsGrow(s: State, r: Id, next: SigningKey, serial: bool)
    requires Safe(s) && Balanced(s) && Enabled(s, StoreNext(r, next, true), serial)
    ensures RecordsFit(Next(s, StoreNext(r, next, true), serial))
  {
    var s' := Next(s, StoreNext(r, next, true), serial);
    assert RotationOnRecord(s.rotations[r], s.first, s.replaced);
    assert Superseded(s'.replaced, s'.ended) == Superseded(s.replaced, s.ended);
    forall q | q in s'.rotations ensures RotationOnRecord(s'.rotations[q], s'.first, s'.replaced) {
      assert RotationOnRecord(s.rotations[q], s.first, s.replaced);
    }
  }

  lemma FailedStoreBalances(s: State, r: Id, next: SigningKey, serial: bool)
    requires Balanced(s) && Enabled(s, StoreNext(r, next, false), serial)
    ensures Balanced(Next(s, StoreNext(r, next, false), serial))
  {
    PendingLoses(s.rotations, r);
  }

  lemma RetireBalances(s: State, r: Id, at: Time, ok: bool, serial: bool)
    requires Safe(s) && Balanced(s) && Enabled(s, RetirePrevious(r, at, ok), serial)
    ensures Balanced(Next(s, RetirePrevious(r, at, ok), serial))
  {
    var s', n := Next(s, RetirePrevious(r, at, ok), serial), s.rotations[r].next;
    assert RotationOnRecord(s.rotations[r], s.first, s.replaced);
    PendingLoses(s.rotations, r);
    if ok {
      RetiringRemoves(s.keys, s.rotations[r].doomed, at);
      assert Superseded(s'.replaced, s'.ended) == Superseded(s.replaced, s.ended) + {s.rotations[r].doomed.kid};
    }
  }

  lemma StepBalances(s: State, a: Action, serial: bool)
    requires Safe(s) && Balanced(s) && Enabled(s, a, serial)
    ensures Balanced(Next(s, a, serial))
  {
    match a
    case StartRotation(r, found) => StartBalances(s, r, found, serial);
    case StoreNext(r, next, ok) =>
      if ok {
        StoreBalances(s, r, next, serial);
      } else {
        FailedStoreBalances(s, r, next, serial);
      }
    case RetirePrevious(r, at, ok) => RetireBalances(s, r, at, ok, serial);
    case Bootstrap(_, _, _) => assert false;
    case _ =>
  }

  lemma {:induction false} RunBalances(ss: seq<State>, acts: seq<Action>, serial: bool, n: nat)
    requires Run(ss, acts, serial) && n < |ss|
    ensures Balanced(ss[n])
  {
    if n == 0 {
      assert ss[0].first in ActiveKids(ss[0].keys);
    } else {
      RunBalances(ss, acts, serial, n - 1);
      RunIsSafe(ss, acts, serial, n - 1);
      StepBalances(ss[n - 1], acts[n - 1], serial);
    }
  }

  /** No two of the stored keys `d` replaced the same key. */
  predicate AllDiffer(replaced: map<string, string>, d: set<string>) {
    forall a, b | a in d && b in d && a in replaced && b in replaced && a != b :: replaced[a] != replaced[b]
  }

  /** As many keys are retired as retirements went through, unless two of them retired the same key. */
  lemma {:induction false} RetiredKeysAreCounted(replaced: map<string, string>, d: set<string>)
    requires d <= replaced.Keys
    ensures |Superseded(replaced, d)| <= |d|
    ensures |Superseded(replaced, d)| == |d| <==> AllDiffer(replaced, d)
    decreases d
  {
    if d != {} {
      var n :| n in d;
      var rest := d - {n};
      RetiredKeysAreCounted(replaced, rest);
      assert Superseded(replaced, d) == Superseded(replaced, rest) + {replaced[n]};
      if replaced[n] in Superseded(replaced, rest) {
        var m :| m in rest && replaced[m] == replaced[n];
        assert !AllDiffer(replaced, d);
      } else {
        assert AllDiffer(replaced, d) <==> AllDiffer(replaced, rest);
      }
    }
  }

  /** In every interleaving the active keys number one, plus one for each retirement that failed, plus one for each rotation
      between its two writes, plus one for each retirement that hit a key retired before. */
  lemma ActiveKeysAreBalanced(ss: seq<State>, acts: seq<Action>, serial: bool, n: nat)
    requires Run(ss, acts, serial) && n < |ss|
    ensures var s := ss[n];
            && |Superseded(s.replaced, s.ended)| <= |s.ended|
            && |ActiveKids(s.keys)| == 1 + |s.failed| + |Pending(s.rotations)| + (|s.ended| - |Superseded(s.replaced, s.ended)|)
  {
    RunBalances(ss, acts, serial, n);
    var s := ss[n];
    RetiredKeysAreCounted(s.replaced, s.ended);
    var all := {s.first} + s.replaced.Keys;
    assert |all| == 1 + |s.replaced.Keys|;
    assert |s.ended + s.failed + Pending(s.rotations)| == |s.ended| + |s.failed| + |Pending(s.rotations)|;
    assert |all - Superseded(s.replaced, s.ended)| == |all| - |Superseded(s.replaced, s.ended)|;
  }

  /** While no rotation is in flight exactly one key is active if and only if no retirement has failed and no two rotations
      that stored a key had read the same one. Rotations may overlap as long as each reads a key of its own. */
  lemma OneKeyIsLeftExactly(ss: seq<State>, acts: seq<Action>, serial: bool, n: nat)
    requires Run(ss, acts, serial) && n < |ss| && ss[n].rotations == map[]
    ensures |ActiveKids(ss[n].keys)| == 1 <==> ss[n].failed == {} && AllDiffer(ss[n].replaced, ss[n].replaced.Keys)
  {
    RunBalances(ss, acts, serial, n);
    ActiveKeysAreBalanced(ss, acts, serial, n);
    RetiredKeysAreCounted(ss[n].replaced, ss[n].ended);
    assert Pending(ss[n].rotations) == {};
    assert ss[n].failed == {} ==> ss[n].replaced.Keys == ss[n].ended;
  }

  // ---- one rotation at a time ----

  /** The key a rotation is about is active. */
  predicate Holds(keys: Keys, r: Rotation) {
    match r
    case Read(previous) => previous.None? || IsActive(keys, previous.value.kid)
    case Retiring(doomed, _) => IsActive(keys, doomed.kid)
  }

  ghost predicate InTurn(s: State) {
    && (forall r, q | r in s.rotations && q in s.rotations :: r == q)
    && (forall r | r in s.rotations :: Holds(s.keys, s.rotations[r]))
    && AllDiffer(s.replaced, s.ended)
  }

  lemma RetireInTurn(s: State, r: Id, at: Time)
    requires Balanced(s) && InTurn(s) && Enabled(s, RetirePrevious(r, at, true), true)
    ensures InTurn(Next(s, RetirePrevious(r, at, true), true))
  {
    var doomed := s.rotations[r].doomed;
    assert RotationOnRecord(s.rotations[r], s.first, s.replaced) && doomed.kid in ActiveKids(s.keys);
    forall n | n in s.ended && n in s.replaced ensures s.replaced[n] != doomed.kid {
      assert s.replaced[n] in Superseded(s.replaced, s.ended);
    }
  }

  lemma StepInTurn(s: State, a: Action)
    requires Safe(s) && Balanced(s) && InTurn(s) && Enabled(s, a, true)
    ensures InTurn(Next(s, a, true))
  {
    match a
    case RetirePrevious(r, at, ok) =>
      if ok {
        RetireInTurn(s, r, at);
      }
    case StoreNext(r, next, ok) =>
      assert forall n | n in s.ended :: n in s.replaced && n != next.kid;
    case _ =>
  }

  lemma {:induction false} RunInTurn(ss: seq<State>, acts: seq<Action>, n: nat)
    requires Run(ss, acts, true) && n < |ss|
    ensures InTurn(ss[n])
  {
    if n > 0 {
      RunInTurn(ss, acts, n - 1);
      RunIsSafe(ss, acts, true, n - 1);
      RunBalances(ss, acts, true, n - 1);
      StepInTurn(ss[n - 1], acts[n - 1]);
    }
  }

  lemma OneAtATime(s: State)
    requires forall r, q | r in s.rotations && q in s.rotations :: r == q
    ensures |Pending(s.rotations)| == if exists r :: r in s.rotations && s.rotations[r].Retiring? then 1 else 0
  {
    if r :| r in s.rotations && s.rotations[r].Retiring? {
      assert Pending(s.rotations) == {s.rotations[r].next};
    } else {
      assert Pending(s.rotations) == {};
    }
  }

  /** With one rotation at a time the number of active keys is one, plus one for each retirement that failed, plus one while
      a rotation is between its two writes. So while no retirement has failed exactly one key is active between rotations. */
  lemma ActiveKeysAreCounted(ss: seq<State>, acts: seq<Action>, n: nat)
    requires Run(ss, acts, true) && n < |ss|
    ensures var between := exists r :: r in ss[n].rotations && ss[n].rotations[r].Retiring?;
            |ActiveKids(ss[n].keys)| == 1 + |ss[n].failed| + if between then 1 else 0
  {
    ActiveKeysAreBalanced(ss, acts, true, n);
    RunInTurn(ss, acts, n);
    RunBalances(ss, acts, true, n);
    RetiredKeysAreCounted(ss[n].replaced, ss[n].ended);
    OneAtATime(ss[n]);
  }

  // ---- two runs in which rotations overlap ----

  /** One active key and nobody at work. */
  function OnlyKey(k: SigningKey): State {
    State(map[k.kid := k], map[], map[], k.kid, k.kid, map[], {}, {}, 0, {})
  }

  lemma Reads(ss: seq<State>, acts: seq<Action>, r: Id, k: SigningKey) returns (ss': seq<State>, acts': seq<Action>)
    requires Stretch(ss, acts, false) && r !in Last(ss).rotations && IsActive(Last(ss).keys, k.kid) && Last(ss).keys[k.kid] == k
    ensures Stretch(ss', acts', false) && ss <= ss' && Last(ss').keys == Last(ss).keys && Last(ss').failed == Last(ss).failed
    ensures Last(ss').rotations == Last(ss).rotations[r := Read(Some(k))]
  {
    ss', acts' := OneMore(ss, acts, StartRotation(r, Some(k.kid)), false);
  }

  lemma Stores(ss: seq<State>, acts: seq<Action>, r: Id, k: SigningKey, next: SigningKey)
    returns (ss': seq<State>, acts': seq<Action>)
    requires Stretch(ss, acts, false) && r in Last(ss).rotations && Last(ss).rotations[r] == Read(Some(k))
    requires NewActive(Last(ss).keys, next)
    ensures Stretch(ss', acts', false) && ss <= ss' && Last(ss').keys == Last(ss).keys[next.kid := next]
    ensures Last(ss').rotations == Last(ss).rotations[r := Retiring(k, next.kid)] && Last(ss').failed == Last(ss).failed
  {
    ss', acts' := OneMore(ss, acts, StoreNext(r, next, true), false);
  }

  lemma Retires(ss: seq<State>, acts: seq<Action>, r: Id, at: Time) returns (ss': seq<State>, acts': seq<Action>)
    requires Stretch(ss, acts, false) && r in Last(ss).rotations && Last(ss).rotations[r].Retiring?
    ensures Stretch(ss', acts', false) && ss <= ss' && Last(ss').failed == Last(ss).failed
    ensures var k := Last(ss).rotations[r].doomed; Last(ss').keys == Last(ss).keys[k.kid := k.Retired(at)]
    ensures Last(ss').rotations == Last(ss).rotations - {r}
  {
    ss', acts' := OneMore(ss, acts, RetirePrevious(r, at, true), false);
  }

  /** When two rotations in flight have read the same key and every write succeeds, the first to finish retires it, the
      second retires it again, and both new keys take its place, whatever else is going on. */
  lemma OverlapLeavesOneTooMany(ss: seq<State>, acts: seq<Action>, r: Id, q: Id, k: SigningKey, a: SigningKey, b: SigningKey, at: Time)
    returns (ss': seq<State>, acts': seq<Action>)
    requires Stretch(ss, acts, false) && r in Last(ss).rotations && q in Last(ss).rotations && r != q
    requires Last(ss).rotations[r] == Last(ss).rotations[q] == Read(Some(k)) && IsActive(Last(ss).keys, k.kid)
    requires NewActive(Last(ss).keys, a) && NewActive(Last(ss).keys, b) && a.kid != b.kid
    ensures Stretch(ss', acts', false) && ss <= ss' && Last(ss').rotations == Last(ss).rotations - {r, q}
    ensures ActiveKids(Last(ss').keys) == ActiveKids(Last(ss).keys) - {k.kid} + {a.kid, b.kid} && Last(ss').failed == Last(ss).failed
  {
    var s := Last(ss);
    ss', acts' := Stores(ss, acts, r, k, a);
    ss', acts' := Stores(ss', acts', q, k, b);
    ss', acts' := Retires(ss', acts', r, at);
    ss', acts' := Retires(ss', acts', q, at);
    ActivatingAdds(s.keys, a);
    ActivatingAdds(s.keys[a.kid := a], b);
    RetiringRemoves(s.keys[a.kid := a][b.kid := b], k, at);
    RetiringRemoves(s.keys[a.kid := a][b.kid := b][k.kid := k.Retired(at)], k, at);
  }

  /** A run from the start that gets there: every write succeeds, and in the end two keys are active. */
  lemma SharedReadLeavesTwo(k: SigningKey, a: SigningKey, b: SigningKey, at: Time) returns (ss: seq<State>, acts: seq<Action>)
    requires k.isActive && a.isActive && b.isActive && a.kid != b.kid && k.kid !in {a.kid, b.kid}
    ensures Run(ss, acts, false) && ss[0] == OnlyKey(k) && Last(ss).rotations == map[] && Last(ss).failed == {}
    ensures ActiveKids(Last(ss).keys) == {a.kid, b.kid}
  {
    assert ActiveKids(OnlyKey(k).keys) == {k.kid};
    ss, acts := Reads([OnlyKey(k)], [], 1, k);
    ss, acts := Reads(ss, acts, 2, k);
    ss, acts := OverlapLeavesOneTooMany(ss, acts, 1, 2, k, a, b, at);
    assert ss[0] == OnlyKey(k);
  }

  /** The second rotation starts between the writes of the first and reads its key. */
  lemma OverlapWithoutSharing(k: SigningKey, a: SigningKey, b: SigningKey) returns (ss: seq<State>, acts: seq<Action>)
    requires k.isActive && a.isActive && b.isActive && a.kid != b.kid && k.kid !in {a.kid, b.kid}
    ensures Run(ss, acts, false) && ss[0] == OnlyKey(k)
    ensures Last(ss).rotations == map[1 := Retiring(k, a.kid)][2 := Retiring(a, b.kid)]
    ensures Last(ss).keys == map[k.kid := k][a.kid := a][b.kid := b]
  {
    assert ActiveKids(OnlyKey(k).keys) == {k.kid};
    ss, acts := Reads([OnlyKey(k)], [], 1, k);
    ss, acts := Stores(ss, acts, 1, k, a);
    ss, acts := Reads(ss, acts, 2, a);
    ss, acts := Stores(ss, acts, 2, a, b);
    assert ss[0] == OnlyKey(k);
  }

  /** Overlapping alone does no harm: here two rotations are between their writes at one time and one key is left. */
  lemma OverlapCanLeaveOne(k: SigningKey, a: SigningKey, b: SigningKey, at: Time)
    returns (ss: seq<State>, acts: seq<Action>, between: nat)
    requires k.isActive && a.isActive && b.isActive && a.kid != b.kid && k.kid !in {a.kid, b.kid}
    ensures Run(ss, acts, false) && ss[0] == OnlyKey(k) && Last(ss).rotations == map[] && ActiveKids(Last(ss).keys) == {b.kid}
    ensures between < |ss| && Pending(ss[between].rotations) == {a.kid, b.kid}
  {
    var ss1, acts1 := OverlapWithoutSharing(k, a, b);
    between := |ss1| - 1;
    PendingGains(map[], 1, Retiring(k, a.kid));
    PendingGains(map[1 := Retiring(k, a.kid)], 2, Retiring(a, b.kid));
    var ss2, acts2 := Retires(ss1, acts1, 1, at);
    ss, acts := Retires(ss2, acts2, 2, at);
    assert ss[between] == ss1[between] && ss[0] == ss1[0];
  }

  // ---- the manager's rotation ----

  /** The state after a rotation on its own. */
  function AfterRotation(s: State, previous: Option<SigningKey>, next: SigningKey, now: Time, faults: Faults): State {
    if faults.read || faults.store then s
    else
      var grown := s.(keys := Rotated(s.keys, previous, next, now, faults), latest := next.kid);
      if previous.None? then grown
      else if faults.retire then grown.(replaced := s.replaced[next.kid := previous.value.kid], failed := s.failed + {next.kid})
      else grown.(replaced := s.replaced[next.kid := previous.value.kid], ended := s.ended + {next.kid})
  }

  /** The manager's rotation, run on its own, is a stretch of such a run with the same effect on the keys, whichever of its
      store calls fail. */
  lemma RotateIsARun(s: State, r: Id, previous: Option<SigningKey>, next: SigningKey, now: Time, faults: Faults)
    returns (ss: seq<State>, acts: seq<Action>)
    requires s.rotations == map[] && NewActive(s.keys, next)
    requires (forall kid | kid in s.keys :: s.keys[kid].kid == kid)
    requires previous.Some? ==> IsActive(s.keys, previous.value.kid) && previous.value == s.keys[previous.value.kid]
    requires !faults.read ==> (previous.None? <==> ActiveKids(s.keys) == {})
    ensures Stretch(ss, acts, true) && ss[0] == s && Last(ss) == AfterRotation(s, previous, next, now, faults)
    ensures Last(ss).keys == Rotated(s.keys, previous, next, now, faults)
  {
    ss, acts := [s], [];
    if !faults.read {
      ss, acts := OneMore(ss, acts, StartRotation(r, if previous.Some? then Some(previous.value.kid) else None), true);
      ss, acts := OneMore(ss, acts, StoreNext(r, next, !faults.store), true);
      assert s.rotations[r := Read(previous)] - {r} == map[];
      if !faults.store && previous.Some? {
        ss, acts := OneMore(ss, acts, RetirePrevious(r, now, !faults.retire), true);
        assert s.rotations[r := Read(previous)][r := Retiring(previous.value, next.kid)] - {r} == map[];
      }
    }
  }
}
