/** When a revocation is final: exactly which requests in flight can still extend a revoked chain. */
module ProtocolFinality {
  import opened Domain
  import opened StoreSpec
  import opened Protocol
  import opened ProtocolRevocation
  import opened ProtocolSteps
  import opened ProtocolSerial

  // ---- which requests can still store a child ----

  predicate Unconsumed(s: State, id: Id) {
    id in s.db.tokens && s.db.tokens[id].consumedAt.None?
  }

  /** Nothing but its own next steps stands between the refresh and the child of the token it holds. */
  predicate MayExtend(s: State, pr: Proc) {
    && pr.Refreshing? && Rotates(pr.refresh, pr.existing)
    && match pr.phase
       case Walking => true
       case Won => ScopeOk(pr.refresh, pr.existing)
       case Checked => ScopeOk(pr.refresh, pr.existing) && Unconsumed(s, pr.existing.id)
       case Looked =>
         ScopeOk(pr.refresh, pr.existing) && Unconsumed(s, pr.existing.id) && RefreshOk(pr.refresh, pr.existing, s.now)
       case Reused => false
  }

  /** Some request in flight on the session may still extend a token it holds. */
  predicate SomeoneMayExtend(s: State, sid: Id) {
    exists p :: p in s.procs && s.procs[p].Refreshing? && s.procs[p].existing.session == Some(sid) && MayExtend(s, s.procs[p])
  }

  predicate AllRevoked(s: State, sid: Id) {
    forall id | id in s.db.tokens && s.db.tokens[id].session == Some(sid) :: s.db.tokens[id].revokedAt.Some?
  }

  // ---- if nobody may, nobody ever will ----

  /** The tokens `d` are revoked, all their children are among `known`, and no request in flight may extend one of them. */
  ghost predicate Settled(s: State, d: set<Id>, known: set<Id>) {
    && (forall id | id in d :: id in s.db.tokens && s.db.tokens[id].revokedAt.Some?)
    && (forall c {:trigger s.db.tokens[c].parent} | c in s.db.tokens && s.db.tokens[c].parent.Some? && s.db.tokens[c].parent.value in d :: c in known)
    && (forall p {:trigger s.procs[p]} | p in s.procs && s.procs[p].Refreshing? && s.procs[p].existing.id in d :: !MayExtend(s, s.procs[p]))
  }

  lemma SettledAfterEnvironment(s: State, e: EnvironmentStep, d: set<Id>, known: set<Id>)
    requires Settled(s, d, known) && EnvironmentEnabled(s, e)
    ensures Settled(EnvironmentEffect(s, e), d, known)
  {
  }

  lemma SettledAfterAuthorize(cfg: Config, s: State, p: nat, a: AuthorizeStep, d: set<Id>, known: set<Id>)
    requires Settled(s, d, known) && AuthorizeEnabled(cfg, s, p, a)
    ensures Settled(AuthorizeEffect(cfg, s, p, a), d, known)
  {
  }

  lemma SettledAfterExchange(cfg: Config, s: State, p: nat, x: ExchangeStep, d: set<Id>, known: set<Id>)
    requires Settled(s, d, known) && ExchangeEnabled(cfg, s, p, x)
    ensures Settled(ExchangeEffect(cfg, s, p, x), d, known)
  {
  }

  lemma StillMayNot(cfg: Config, s: State, p: nat, r: RefreshStep, d: set<Id>, known: set<Id>, q: nat)
    requires IdsFit(s.db.tokens) && Settled(s, d, known) && RefreshEnabled(cfg, s, p, r) && !r.StoreChild?
    requires var s' := RefreshEffect(cfg, s, p, r); q in s'.procs && s'.procs[q].Refreshing? && s'.procs[q].existing.id in d
    ensures !MayExtend(RefreshEffect(cfg, s, p, r), RefreshEffect(cfg, s, p, r).procs[q])
  {
    if q == p && r.LookupToken? {
      assert s.db.tokens[r.id].revokedAt.Some?;
    } else {
      assert !MayExtend(s, s.procs[q]);
    }
  }

  lemma SettledAfterRefresh(cfg: Config, s: State, p: nat, r: RefreshStep, d: set<Id>, known: set<Id>)
    requires IdsFit(s.db.tokens) && Settled(s, d, known) && RefreshEnabled(cfg, s, p, r) && !r.StoreChild?
    ensures Settled(RefreshEffect(cfg, s, p, r), d, known)
  {
    var s' := RefreshEffect(cfg, s, p, r);
    forall q {:trigger s'.procs[q]} | q in s'.procs && s'.procs[q].Refreshing? && s'.procs[q].existing.id in d
      ensures !MayExtend(s', s'.procs[q])
    {
      StillMayNot(cfg, s, p, r, d, known, q);
    }
  }

  lemma SettledAfterChild(cfg: Config, s: State, p: nat, id: Id, hash: string, d: set<Id>, known: set<Id>)
    requires Settled(s, d, known) && RefreshEnabled(cfg, s, p, StoreChild(id, hash))
    ensures Settled(RefreshEffect(cfg, s, p, StoreChild(id, hash)), d, known)
  {
    assert MayExtend(s, s.procs[p]);
  }

  lemma SettledAfterStep(cfg: Config, s: State, a: Action, d: set<Id>, known: set<Id>)
    requires IdsFit(s.db.tokens) && Settled(s, d, known) && Enabled(cfg, s, a)
    ensures Settled(Next(cfg, s, a), d, known)
  {
    match a
    case Environment(e) => SettledAfterEnvironment(s, e, d, known);
    case Authorize(p, b) => SettledAfterAuthorize(cfg, s, p, b, d, known);
    case Exchange(p, x) => SettledAfterExchange(cfg, s, p, x, d, known);
    case Refresh(p, r) =>
      if r.StoreChild? {
        SettledAfterChild(cfg, s, p, r.id, r.hash, d, known);
      } else {
        SettledAfterRefresh(cfg, s, p, r, d, known);
      }
  }

  lemma {:induction false} SettledForGood(cfg: Config, ss: seq<State>, acts: seq<Action>, i: nat, j: nat, d: set<Id>, known: set<Id>)
    requires Run(cfg, ss, acts) && i <= j < |ss| && Settled(ss[i], d, known)
    ensures Settled(ss[j], d, known)
    decreases j
  {
    if i < j {
      SettledForGood(cfg, ss, acts, i, j - 1, d, known);
      RunIdsFit(cfg, ss, acts, j - 1);
      assert StepAt(cfg, ss, acts, j - 1);
      SettledAfterStep(cfg, ss[j - 1], acts[j - 1], d, known);
    }
  }

  // ---- if somebody may, some continuation does ----

  lemma RunOn(cfg: Config, ss: seq<State>, acts: seq<Action>, a: Action) returns (ss': seq<State>, acts': seq<Action>)
    requires Run(cfg, ss, acts) && Enabled(cfg, Last(ss), a)
    ensures Run(cfg, ss', acts') && ss <= ss' && acts <= acts' && Last(ss') == Next(cfg, Last(ss), a)
  {
    ss', acts' := ss + [Next(cfg, Last(ss), a)], acts + [a];
    forall i | 0 <= i < |acts'| ensures StepAt(cfg, ss', acts', i) {
      if i < |acts| {
        assert StepAt(cfg, ss, acts, i);
      }
    }
  }

  /** Process `p` is still at the refresh it was at, and no token was stored meanwhile. */
  ghost predicate SameRefresh(s: State, s': State, p: nat)
    requires p in s.procs && s.procs[p].Refreshing?
  {
    && p in s'.procs && s'.procs[p].Refreshing? && s'.db.tokens.Keys == s.db.tokens.Keys
    && s'.procs[p].refresh == s.procs[p].refresh && s'.procs[p].existing == s.procs[p].existing
  }

  lemma {:induction false} WalksOn(cfg: Config, ss: seq<State>, acts: seq<Action>, p: nat)
    returns (ss': seq<State>, acts': seq<Action>)
    requires Run(cfg, ss, acts) && RefreshAt(Last(ss), p, Walking) && Last(ss).procs[p].hops <= MAX_HOPS
    ensures Run(cfg, ss', acts') && ss <= ss' && acts <= acts'
    ensures SameRefresh(Last(ss), Last(ss'), p) && RefreshAt(Last(ss'), p, Walking) && WalkDone(Last(ss').db.tokens, Last(ss').procs[p])
    decreases MAX_HOPS - Last(ss).procs[p].hops
  {
    if WalkDone(Last(ss).db.tokens, Last(ss).procs[p]) {
      ss', acts' := ss, acts;
    } else {
      var mid, midActs := RunOn(cfg, ss, acts, Refresh(p, Hop));
      ss', acts' := WalksOn(cfg, mid, midActs, p);
    }
  }

  /** A refresh that may extend its token gets as far as its walk. */
  lemma ReachesTheWalk(cfg: Config, ss: seq<State>, acts: seq<Action>, p: nat) returns (ss': seq<State>, acts': seq<Action>)
    requires Run(cfg, ss, acts) && p in Last(ss).procs && MayExtend(Last(ss), Last(ss).procs[p])
    requires Last(ss).procs[p].phase != Walking
    ensures Run(cfg, ss', acts') && ss <= ss' && acts <= acts'
    ensures SameRefresh(Last(ss), Last(ss'), p) && RefreshAt(Last(ss'), p, Walking) && Last(ss').procs[p].hops == 0
  {
    ss', acts' := ss, acts;
    if Last(ss').procs[p].phase == Looked {
      ss', acts' := RunOn(cfg, ss', acts', Refresh(p, CheckToken));
    }
    if Last(ss').procs[p].phase == Checked {
      ss', acts' := RunOn(cfg, ss', acts', Refresh(p, TakeToken));
    }
    ss', acts' := RunOn(cfg, ss', acts', Refresh(p, ChooseScope));
  }

  lemma {:induction false} IdsAreBounded(ids: set<Id>) returns (n: Id)
    ensures forall i | i in ids :: i < n
    decreases |ids|
  {
    n := 0;
    if ids != {} {
      var i :| i in ids;
      var m := IdsAreBounded(ids - {i});
      n := if m <= i then i + 1 else m;
      forall j | j in ids ensures j < n {
        assert j == i || j in ids - {i};
      }
    }
  }

  lemma {:induction false} HashesAreBounded(m: Tokens, ids: set<Id>) returns (n: nat)
    requires ids <= m.Keys
    ensures forall i | i in ids :: |m[i].hash| < n
    decreases |ids|
  {
    n := 0;
    if ids != {} {
      var i :| i in ids;
      var k := HashesAreBounded(m, ids - {i});
      n := if k <= |m[i].hash| then |m[i].hash| + 1 else k;
      forall j | j in ids ensures |m[j].hash| < n {
        assert j == i || j in ids - {i};
      }
    }
  }

  /** There is always an id and a hash nobody has used. */
  lemma SomethingFresh(m: Tokens) returns (id: Id, hash: string)
    ensures FreshToken(m, id, hash)
  {
    id := IdsAreBounded(m.Keys);
    var n := HashesAreBounded(m, m.Keys);
    hash := seq(n, _ => 'x');
  }

  lemma ExtendsAfterAll(cfg: Config, ss: seq<State>, acts: seq<Action>, p: nat) returns (ss': seq<State>, acts': seq<Action>, child: Id)
    requires Run(cfg, ss, acts) && p in Last(ss).procs && MayExtend(Last(ss), Last(ss).procs[p])
    requires Last(ss).procs[p].phase == Walking ==> Last(ss).procs[p].hops <= MAX_HOPS
    ensures Run(cfg, ss', acts') && ss <= ss' && acts <= acts'
    ensures child in Last(ss').db.tokens && child !in Last(ss).db.tokens
    ensures Last(ss').db.tokens[child].parent == Some(Last(ss).procs[p].existing.id)
    ensures Last(ss').db.tokens[child].revokedAt.None? && Last(ss').db.tokens[child].session == Last(ss).procs[p].existing.session
  {
    ss', acts' := ss, acts;
    if Last(ss).procs[p].phase != Walking {
      ss', acts' := ReachesTheWalk(cfg, ss, acts, p);
    }
    ss', acts' := WalksOn(cfg, ss', acts', p);
    var id, hash := SomethingFresh(Last(ss').db.tokens);
    child := id;
    ss', acts' := RunOn(cfg, ss', acts', Refresh(p, StoreChild(id, hash)));
  }

  // ---- the exact condition ----

  /** Some continuation of the run stores a new child of one of the tokens `d`. */
  ghost predicate Extensible(cfg: Config, ss: seq<State>, acts: seq<Action>, d: set<Id>)
    requires |ss| > 0
  {
    exists ss': seq<State>, acts': seq<Action>, c: Id :: ExtendsBy(cfg, ss, acts, d, ss', acts', c)
  }

  ghost predicate ExtendsBy(cfg: Config, ss: seq<State>, acts: seq<Action>, d: set<Id>, ss': seq<State>, acts': seq<Action>, c: Id)
    requires |ss| > 0
  {
    && Run(cfg, ss', acts') && ss <= ss' && acts <= acts'
    && c in Last(ss').db.tokens && c !in Last(ss).db.tokens
    && Last(ss').db.tokens[c].parent.Some? && Last(ss').db.tokens[c].parent.value in d
  }

  /** In a reachable state in which every token under a session is revoked, some continuation extends one of these tokens if
      and only if some request in flight on the session has won its token and will rotate it, or has yet to win it but finds
      it unconsumed, was shown it before the revocation, and will pass every check it still has to make. */
  lemma RevocationIsFinalExactly(cfg: Config, ss: seq<State>, acts: seq<Action>, sid: Id)
    requires Run(cfg, ss, acts) && AllRevoked(Last(ss), sid)
    ensures Extensible(cfg, ss, acts, TokensUnder(Last(ss).db.tokens, sid)) <==> SomeoneMayExtend(Last(ss), sid)
  {
    var s, d := Last(ss), TokensUnder(Last(ss).db.tokens, sid);
    if SomeoneMayExtend(s, sid) {
      var p :| p in s.procs && s.procs[p].Refreshing? && s.procs[p].existing.session == Some(sid) && MayExtend(s, s.procs[p]);
      SnapshotSessions(cfg, ss, acts, |ss| - 1, p);
      HopsAreBounded(cfg, ss, acts, p);
      var ss', acts', c := ExtendsAfterAll(cfg, ss, acts, p);
      assert ExtendsBy(cfg, ss, acts, d, ss', acts', c);
    } else {
      NobodyHoldsOne(cfg, ss, acts, sid);
      forall ss': seq<State>, acts': seq<Action>, c: Id ensures !ExtendsBy(cfg, ss, acts, d, ss', acts', c) {
        if Run(cfg, ss', acts') && ss <= ss' {
          SettledForGood(cfg, ss', acts', |ss| - 1, |ss'| - 1, d, s.db.tokens.Keys);
        }
      }
    }
  }

  lemma HopsAreBounded(cfg: Config, ss: seq<State>, acts: seq<Action>, p: nat)
    requires Run(cfg, ss, acts) && p in Last(ss).procs && Last(ss).procs[p].Refreshing?
    ensures Last(ss).procs[p].phase == Walking ==> Last(ss).procs[p].hops <= MAX_HOPS
  {
    RefreshInRunFits(cfg, ss, acts, |ss| - 1, p);
  }

  lemma NobodyHoldsOne(cfg: Config, ss: seq<State>, acts: seq<Action>, sid: Id)
    requires Run(cfg, ss, acts) && AllRevoked(Last(ss), sid) && !SomeoneMayExtend(Last(ss), sid)
    ensures Settled(Last(ss), TokensUnder(Last(ss).db.tokens, sid), Last(ss).db.tokens.Keys)
  {
    var s := Last(ss);
    forall p {:trigger s.procs[p]} | p in s.procs && s.procs[p].Refreshing? && s.procs[p].existing.id in TokensUnder(s.db.tokens, sid)
      ensures !MayExtend(s, s.procs[p])
    {
      SnapshotSessions(cfg, ss, acts, |ss| - 1, p);
    }
  }
}
