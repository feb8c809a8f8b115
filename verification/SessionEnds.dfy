/** What ending a session ends: it is not resolved again, and exactly which authorize requests in flight can still get a code
    for it. */
module SessionEnds {
  import opened Domain
  import opened StoreSpec
  import opened Protocol
  import opened ProtocolSteps
  import opened ProtocolSerial
  import ProtocolFinality
  import Authorize = AuthorizeHandler

  // ---- it is not resolved again ----

  /** The session a request may rely on is the cookie's stored one, unrevoked and not past its expiry. */
  lemma WhichSessionIsResolved(sessions: Sessions, env: Authorize.Surroundings)
    ensures Authorize.Resolved(sessions, env) ==
              if !env.faults.lookup && env.cookie.Some? && env.cookie.value in sessions
                 && sessions[env.cookie.value].revokedAt.None? && env.now <= sessions[env.cookie.value].expiresAt
              then Some(sessions[env.cookie.value]) else None
  {
  }

  /** Once a session has ended no cookie that names it is resolved, at whatever time and after whatever else has happened. */
  lemma EndedSessionsAreNotResolved(cfg: Config, ss: seq<State>, acts: seq<Action>, before: Sessions, id: Id, at: Time, k: nat, j: nat,
                                    env: Authorize.Surroundings)
    requires Run(cfg, ss, acts) && k <= j < |ss| && SessionEnded(before, ss[k].db.sessions, id, at)
    requires env.cookie == Some(id)
    ensures Authorize.Resolved(ss[k].db.sessions, env) == Authorize.Resolved(ss[j].db.sessions, env) == None
  {
    RunGrows(cfg, ss, acts, k, j);
    assert SessionLater(ss[k].db.sessions[id], ss[j].db.sessions[id]);
    WhichSessionIsResolved(ss[k].db.sessions, env);
    WhichSessionIsResolved(ss[j].db.sessions, env);
  }

  // ---- and gets no code ----

  /** Nothing but its own next steps stands between the request and a code for the session it was shown. */
  predicate MayMint(s: State, pr: Proc) {
    pr.Authorizing? && (pr.authorizePhase == SessionLooked ==> pr.sess.revokedAt.None? && s.now <= pr.sess.expiresAt)
  }

  predicate SomeoneMayMint(s: State, sid: Id) {
    exists p :: p in s.procs && s.procs[p].Authorizing? && s.procs[p].sess.id == sid && MayMint(s, s.procs[p])
  }

  /** The session is revoked, its codes are among `known`, and no request in flight may mint one. */
  predicate Closed(s: State, sid: Id, known: set<Id>) {
    && sid in s.db.sessions && s.db.sessions[sid].revokedAt.Some?
    && (forall c | c in s.db.codes && s.db.codes[c].session == Some(sid) :: c in known)
    && (forall p | p in s.procs && s.procs[p].Authorizing? && s.procs[p].sess.id == sid :: !MayMint(s, s.procs[p]))
  }

  lemma ClosedAfterEnvironment(s: State, e: EnvironmentStep, sid: Id, known: set<Id>)
    requires Closed(s, sid, known) && EnvironmentEnabled(s, e)
    ensures Closed(EnvironmentEffect(s, e), sid, known)
  {
    var s' := EnvironmentEffect(s, e);
    assert s'.db.codes == s.db.codes;
    forall p | p in s'.procs && s'.procs[p].Authorizing? && s'.procs[p].sess.id == sid ensures !MayMint(s', s'.procs[p]) {
      assert !MayMint(s, s.procs[p]);
    }
  }

  lemma ClosedAfterAuthorize(cfg: Config, s: State, p: nat, a: AuthorizeStep, sid: Id, known: set<Id>)
    requires Closed(s, sid, known) && AuthorizeEnabled(cfg, s, p, a)
    requires forall id {:trigger s.db.sessions[id]} | id in s.db.sessions :: s.db.sessions[id].id == id
    ensures Closed(AuthorizeEffect(cfg, s, p, a), sid, known)
  {
    var s' := AuthorizeEffect(cfg, s, p, a);
    assert p in s.procs && s.procs[p].Authorizing? && s.procs[p].sess.id == sid ==> !MayMint(s, s.procs[p]);
    forall q | q in s'.procs && s'.procs[q].Authorizing? && s'.procs[q].sess.id == sid ensures !MayMint(s', s'.procs[q]) {
      if q != p {
        assert !MayMint(s, s.procs[q]);
      }
    }
  }

  lemma ClosedAfterExchange(cfg: Config, s: State, p: nat, x: ExchangeStep, sid: Id, known: set<Id>)
    requires Closed(s, sid, known) && ExchangeEnabled(cfg, s, p, x)
    ensures Closed(ExchangeEffect(cfg, s, p, x), sid, known)
  {
    var s' := ExchangeEffect(cfg, s, p, x);
    forall q | q in s'.procs && s'.procs[q].Authorizing? && s'.procs[q].sess.id == sid ensures !MayMint(s', s'.procs[q]) {
      assert !MayMint(s, s.procs[q]);
    }
  }

  lemma ClosedAfterRefresh(cfg: Config, s: State, p: nat, r: RefreshStep, sid: Id, known: set<Id>)
    requires Closed(s, sid, known) && RefreshEnabled(cfg, s, p, r)
    ensures Closed(RefreshEffect(cfg, s, p, r), sid, known)
  {
    var s' := RefreshEffect(cfg, s, p, r);
    assert s'.db.codes == s.db.codes && s'.db.sessions == s.db.sessions;
    forall q | q in s'.procs && s'.procs[q].Authorizing? && s'.procs[q].sess.id == sid ensures !MayMint(s', s'.procs[q]) {
      assert !MayMint(s, s.procs[q]);
    }
  }

  lemma {:induction false} ClosedForGood(cfg: Config, ss: seq<State>, acts: seq<Action>, k: nat, j: nat, sid: Id, known: set<Id>)
    requires Run(cfg, ss, acts) && k <= j < |ss| && Closed(ss[k], sid, known)
    ensures Closed(ss[j], sid, known)
    decreases j
  {
    if k < j {
      ClosedForGood(cfg, ss, acts, k, j - 1, sid, known);
      SessionIdsFit(cfg, ss, acts, j - 1);
      assert StepAt(cfg, ss, acts, j - 1);
      match acts[j - 1]
      case Environment(e) => ClosedAfterEnvironment(ss[j - 1], e, sid, known);
      case Authorize(p, a) => ClosedAfterAuthorize(cfg, ss[j - 1], p, a, sid, known);
      case Exchange(p, x) => ClosedAfterExchange(cfg, ss[j - 1], p, x, sid, known);
      case Refresh(p, r) => ClosedAfterRefresh(cfg, ss[j - 1], p, r, sid, known);
    }
  }

  lemma SessionIdsFit(cfg: Config, ss: seq<State>, acts: seq<Action>, i: nat)
    requires Run(cfg, ss, acts) && i < |ss|
    ensures forall id {:trigger ss[i].db.sessions[id]} | id in ss[i].db.sessions :: ss[i].db.sessions[id].id == id
  {
    RunKeeps(cfg, ss, acts, i);
  }

  lemma {:induction false} CodeHashesAreBounded(m: Codes, ids: set<Id>) returns (n: nat)
    requires ids <= m.Keys
    ensures forall i | i in ids :: |m[i].hash| < n
    decreases |ids|
  {
    n := 0;
    if ids != {} {
      var i :| i in ids;
      var k := CodeHashesAreBounded(m, ids - {i});
      n := if k <= |m[i].hash| then |m[i].hash| + 1 else k;
      forall j | j in ids ensures |m[j].hash| < n {
        assert j == i || j in ids - {i};
      }
    }
  }

  lemma SomeCodeIsFresh(m: Codes) returns (id: Id, hash: string)
    ensures FreshCode(m, id, hash)
  {
    id := ProtocolFinality.IdsAreBounded(m.Keys);
    var n := CodeHashesAreBounded(m, m.Keys);
    hash := seq(n, _ => 'x');
  }

  /** A request that may mint, left to run, stores a code for the session it was shown. */
  lemma MintsAfterAll(cfg: Config, ss: seq<State>, acts: seq<Action>, p: nat) returns (ss': seq<State>, acts': seq<Action>, c: Id)
    requires Run(cfg, ss, acts) && p in Last(ss).procs && MayMint(Last(ss), Last(ss).procs[p])
    ensures Run(cfg, ss', acts') && ss <= ss' && acts <= acts'
    ensures c in Last(ss').db.codes && c !in Last(ss).db.codes && Last(ss').db.codes[c].session == Some(Last(ss).procs[p].sess.id)
  {
    ss', acts' := ss, acts;
    if Last(ss').procs[p].authorizePhase == SessionLooked {
      ss', acts' := ProtocolFinality.RunOn(cfg, ss', acts', Authorize(p, CheckSession));
    }
    if Last(ss').procs[p].authorizePhase == SessionChecked {
      ss', acts' := ProtocolFinality.RunOn(cfg, ss', acts', Authorize(p, ReadMintClock));
    }
    var id, hash := SomeCodeIsFresh(Last(ss').db.codes);
    c := id;
    ss', acts' := ProtocolFinality.RunOn(cfg, ss', acts', Authorize(p, StoreCode(id, hash)));
  }

  ghost predicate MintsBy(cfg: Config, ss: seq<State>, acts: seq<Action>, sid: Id, ss': seq<State>, acts': seq<Action>, c: Id)
    requires |ss| > 0
  {
    && Run(cfg, ss', acts') && ss <= ss' && acts <= acts'
    && c in Last(ss').db.codes && c !in Last(ss).db.codes && Last(ss').db.codes[c].session == Some(sid)
  }

  /** Some continuation of the run stores a new code for the session. */
  ghost predicate CanStillGetCodes(cfg: Config, ss: seq<State>, acts: seq<Action>, sid: Id)
    requires |ss| > 0
  {
    exists ss': seq<State>, acts': seq<Action>, c: Id :: MintsBy(cfg, ss, acts, sid, ss', acts', c)
  }

  /** In a reachable state in which a session is revoked, some continuation stores a code for it if and only if some authorize
      request in flight has checked the session already, or was shown it before the revocation and finds it unexpired. */
  lemma EndingIsFinalExactly(cfg: Config, ss: seq<State>, acts: seq<Action>, sid: Id)
    requires Run(cfg, ss, acts) && sid in Last(ss).db.sessions && Last(ss).db.sessions[sid].revokedAt.Some?
    ensures CanStillGetCodes(cfg, ss, acts, sid) <==> SomeoneMayMint(Last(ss), sid)
  {
    var s := Last(ss);
    if SomeoneMayMint(s, sid) {
      var p :| p in s.procs && s.procs[p].Authorizing? && s.procs[p].sess.id == sid && MayMint(s, s.procs[p]);
      var ss', acts', c := MintsAfterAll(cfg, ss, acts, p);
      assert MintsBy(cfg, ss, acts, sid, ss', acts', c);
    } else {
      assert Closed(s, sid, s.db.codes.Keys);
      forall ss': seq<State>, acts': seq<Action>, c: Id ensures !MintsBy(cfg, ss, acts, sid, ss', acts', c) {
        if Run(cfg, ss', acts') && ss <= ss' {
          ClosedForGood(cfg, ss', acts', |ss| - 1, |ss'| - 1, sid, s.db.codes.Keys);
        }
      }
    }
  }

  /** So once a session has ended with nobody in flight, as every handler run to completion ends it, no code stored later
      carries it, whatever interleaving follows. */
  lemma NoCodeAfterTheEnd(cfg: Config, ss: seq<State>, acts: seq<Action>, before: Sessions, sid: Id, at: Time, k: nat, j: nat, c: Id)
    requires Run(cfg, ss, acts) && k <= j < |ss| && ss[k].procs == map[] && SessionEnded(before, ss[k].db.sessions, sid, at)
    requires c in ss[j].db.codes && ss[j].db.codes[c].session == Some(sid)
    ensures c in ss[k].db.codes
  {
    ClosedForGood(cfg, ss, acts, k, j, sid, ss[k].db.codes.Keys);
  }
}
