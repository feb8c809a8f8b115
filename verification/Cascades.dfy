/** Ending sessions together with the refresh tokens issued under them. */
module Cascades {
  import opened Domain
  import opened StoreSpec
  import opened Protocol
  import opened ProtocolRevocation
  import opened ProtocolSerial
  import opened MemoryStores

  // ---- what a cascade reaches ----

  /** The two stores after the sessions `ids` and everything under them have been ended. */
  function Ended(sessions: Sessions, tokens: Tokens, ids: set<Id>, at: Time): (Sessions, Tokens) {
    (RevokeSessions(sessions, ids, at), RevokeTokensOf(tokens, ids, at))
  }

  lemma RevokingInTurn(m: Tokens, a: set<Id>, b: set<Id>, at: Time)
    ensures RevokeTokensOf(RevokeTokensOf(m, a, at), b, at) == RevokeTokensOf(m, a + b, at)
  {
    var l, r := RevokeTokensOf(RevokeTokensOf(m, a, at), b, at), RevokeTokensOf(m, a + b, at);
    forall id | id in m ensures l[id] == r[id] {
    }
  }

  /** A bulk cascade ends exactly the targeted sessions and exactly the unrevoked tokens under them, stamps both with the
      time of the cascade, and changes nothing else in any record: not the kept session, not other users' sessions, not
      any other token. */
  lemma CascadeIsExact(sessions: Sessions, tokens: Tokens, user: string, keep: Id, at: Time)
    ensures var ids := Targets(sessions, user, keep, at);
            var (sessions', tokens') := Ended(sessions, tokens, ids, at);
            && sessions'.Keys == sessions.Keys && tokens'.Keys == tokens.Keys
            && (forall id | id in sessions ::
                  sessions'[id] == if sessions[id].userId == user && id != keep && sessions[id].revokedAt.None? && at < sessions[id].expiresAt
                                   then sessions[id].(revokedAt := Some(at)) else sessions[id])
            && (forall id | id in sessions :: id in ids <==> sessions'[id] != sessions[id])
            && (forall id | id in sessions && (id == keep || sessions[id].userId != user) :: sessions'[id] == sessions[id])
            && TokensEnded(tokens, tokens', ids, at)
            && (forall id | id in tokens && tokens[id].session == Some(keep) :: tokens'[id] == tokens[id])
  {
  }

  /** After a cascade at `at`, a session of the user other than the kept one is usable at a time `t` from then on if and
      only if it was not revoked before and both `at` and `t` are the very instant at which it expires. */
  lemma WhichSessionsSurvive(sessions: Sessions, user: string, keep: Id, at: Time, id: Id, t: Time)
    requires id in sessions && sessions[id].userId == user && id != keep && at <= t
    ensures var after := RevokeSessions(sessions, Targets(sessions, user, keep, at), at);
            SessionUsable(after[id], t) <==> sessions[id].revokedAt.None? && at == t == sessions[id].expiresAt
  {
  }

  /** A refresh token is left unrevoked by a cascade if and only if it was unrevoked and its session was not among those the
      cascade ended: because it is kept or another user's, but also because it had already expired or been revoked. */
  lemma WhichTokensSurvive(sessions: Sessions, tokens: Tokens, user: string, keep: Id, at: Time, id: Id)
    requires id in tokens && tokens[id].session.Some? && tokens[id].session.value in sessions
    ensures var sid := tokens[id].session.value;
            RevokeTokensOf(tokens, Targets(sessions, user, keep, at), at)[id].revokedAt.None? <==>
              && tokens[id].revokedAt.None?
              && (sid == keep || sessions[sid].userId != user || sessions[sid].revokedAt.Some? || sessions[sid].expiresAt <= at)
  {
  }

  /** So ending all of a user's sessions does not end all of the user's refresh tokens: the root of a chain under a session
      that has expired by then is good for its client until it expires itself. */
  lemma TokenOfExpiredSessionSurvives(sessions: Sessions, tokens: Tokens, user: string, keep: Id, client: Client, c: Code,
                                      minted: Time, id: Id, hash: string, at: Time, t: Time)
    requires id in tokens && tokens[id] == NewRoot(client, c, minted, id, hash)
    requires c.session.Some? && c.session.value in sessions && sessions[c.session.value].expiresAt <= at
    ensures var after := RevokeTokensOf(tokens, Targets(sessions, user, keep, at), at);
            RefreshOk(RefreshRequest(client, hash, ""), after[id], t) <==> t <= tokens[id].expiresAt && t <= tokens[id].absoluteExpiresAt
  {
  }

  // ---- the handlers ----

  lemma OneSessionMore(m: Tokens, done: set<Id>, id: Id, stuck: set<Id>, at: Time)
    ensures var ended := RevokeTokensOf(m, done - stuck, at);
            RevokeTokensOf(m, done + {id} - stuck, at) == if id in stuck then ended else RevokeTokensOf(ended, {id}, at)
  {
    if id in stuck {
      assert done + {id} - stuck == done - stuck;
    } else {
      RevokingInTurn(m, done - stuck, {id}, at);
      assert done + {id} - stuck == (done - stuck) + {id};
    }
  }

  /** The tokens under the sessions `ids`, one session after the other; under those of `stuck` the call fails. */
  method EndTokensInTurn(tokens: RefreshTokenStore, ids: seq<Id>, now: Time, stuck: set<Id>)
    requires tokens.Valid()
    modifies tokens`tokens
    ensures tokens.Valid() && (old(Indexed(tokens.tokens, tokens.byHash)) ==> Indexed(tokens.tokens, tokens.byHash))
    ensures tokens.tokens == RevokeTokensOf(old(tokens.tokens), (set id | id in ids) - stuck, now)
  {
    ghost var before := tokens.tokens;
    ghost var done: set<Id> := {};
    assert before == RevokeTokensOf(before, done - stuck, now);
    for i := 0 to |ids|
      invariant tokens.Valid() && (old(Indexed(tokens.tokens, tokens.byHash)) ==> Indexed(tokens.tokens, tokens.byHash))
      invariant done == set k | 0 <= k < i :: ids[k]
      invariant tokens.tokens == RevokeTokensOf(before, done - stuck, now)
    {
      OneSessionMore(before, done, ids[i], stuck, now);
      if ids[i] !in stuck {
        tokens.RevokeBySessionID(ids[i], now);
      }
      done := done + {ids[i]};
    }
    assert done == set id | id in ids;
  }

  lemma DistinctCount(ids: seq<Id>, s: set<Id>)
    requires forall i, j | 0 <= i < j < |ids| :: ids[i] != ids[j]
    requires forall id :: id in ids <==> id in s
    ensures |ids| == |s|
    decreases |ids|
  {
    if ids != [] {
      var last := ids[|ids| - 1];
      DistinctCount(ids[..|ids| - 1], s - {last});
    } else {
      assert s == {};
    }
  }

  /** Ends the user's active sessions but one, then the tokens under each of them. Password reset, password change, sign out
      everywhere, an admin's password set and user deletion all end sessions this way. A password reset and an admin's
      password set carry on when a call fails: then no session is ended, or the tokens under the sessions `stuck` stay. */
  method EndUserSessions(sessions: SessionStore, tokens: RefreshTokenStore, user: string, keep: Id, now: Time,
                         fails: bool, stuck: set<Id>)
    returns (count: nat)
    requires tokens.Valid()
    modifies sessions, tokens`tokens
    ensures tokens.Valid() && (old(Indexed(tokens.tokens, tokens.byHash)) ==> Indexed(tokens.tokens, tokens.byHash))
    ensures var ids := if fails then {} else Targets(old(sessions.sessions), user, keep, now);
            && sessions.sessions == RevokeSessions(old(sessions.sessions), ids, now)
            && tokens.tokens == RevokeTokensOf(old(tokens.tokens), ids - stuck, now)
            && count == |ids|
  {
    var ids: seq<Id> := [];
    if fails {
      assert sessions.sessions == RevokeSessions(sessions.sessions, {}, now);
    } else {
      ids := sessions.RevokeByUserIDExcept(user, keep, now);
    }
    EndTokensInTurn(tokens, ids, now, stuck);
    DistinctCount(ids, if fails then {} else Targets(old(sessions.sessions), user, keep, now));
    assert (set id | id in ids) == if fails then {} else Targets(old(sessions.sessions), user, keep, now);
    return |ids|;
  }

  datatype Outcome = NoSuchSession | CurrentSession | SessionEnded

  /** The account page ends one other session of the signed-in user; a session of someone else looks like a missing one. */
  method EndOwnSession(sessions: SessionStore, tokens: RefreshTokenStore, current: Session, target: Id, now: Time)
    returns (outcome: Outcome)
    requires tokens.Valid()
    requires forall id {:trigger sessions.sessions[id].id} | id in sessions.sessions :: sessions.sessions[id].id == id
    modifies sessions, tokens`tokens
    ensures tokens.Valid() && (old(Indexed(tokens.tokens, tokens.byHash)) ==> Indexed(tokens.tokens, tokens.byHash))
    ensures outcome == if target !in old(sessions.sessions) || old(sessions.sessions)[target].userId != current.userId then NoSuchSession
                       else if target == current.id then CurrentSession else SessionEnded
    ensures sessions.sessions == if outcome.SessionEnded? then RevokeSession(old(sessions.sessions), target, now) else old(sessions.sessions)
    ensures tokens.tokens == if outcome.SessionEnded? then RevokeTokensOf(old(tokens.tokens), {target}, now) else old(tokens.tokens)
    ensures outcome.SessionEnded? ==>
              && StoreSpec.SessionEnded(old(sessions.sessions), sessions.sessions, target, now)
              && TokensEnded(old(tokens.tokens), tokens.tokens, {target}, now)
  {
    var found := sessions.Find(target);
    if found.None? || found.value.userId != current.userId {
      return NoSuchSession;
    }
    if found.value.id == current.id {
      return CurrentSession;
    }
    var _ := sessions.Revoke(found.value.id, now);
    tokens.RevokeBySessionID(found.value.id, now);
    return SessionEnded;
  }

  /** Sign out: the cookie's session and the tokens under it, also when the session was revoked before. */
  method TerminateSession(sessions: SessionStore, tokens: RefreshTokenStore, cookie: Option<Id>, now: Time)
    requires tokens.Valid()
    requires forall id {:trigger sessions.sessions[id].id} | id in sessions.sessions :: sessions.sessions[id].id == id
    modifies sessions, tokens`tokens
    ensures tokens.Valid() && (old(Indexed(tokens.tokens, tokens.byHash)) ==> Indexed(tokens.tokens, tokens.byHash))
    ensures cookie.Some? && cookie.value in old(sessions.sessions) ==>
              && sessions.sessions == RevokeSession(old(sessions.sessions), cookie.value, now)
              && tokens.tokens == if cookie.value != NIL_ID then RevokeTokensOf(old(tokens.tokens), {cookie.value}, now) else old(tokens.tokens)
    ensures cookie.Some? && cookie.value in old(sessions.sessions) ==>
              && StoreSpec.SessionEnded(old(sessions.sessions), sessions.sessions, cookie.value, now)
              && TokensEnded(old(tokens.tokens), tokens.tokens, {cookie.value} - {NIL_ID}, now)
    ensures cookie.None? || cookie.value !in old(sessions.sessions) ==>
              sessions.sessions == old(sessions.sessions) && tokens.tokens == old(tokens.tokens)
  {
    if cookie.Some? {
      var found := sessions.Find(cookie.value);
      if found.Some? {
        if found.value.revokedAt.None? {
          var _ := sessions.Revoke(found.value.id, now);
        }
        if found.value.id != NIL_ID {
          tokens.RevokeBySessionID(found.value.id, now);
        }
      }
    }
  }

  /** An admin ends any session by id. */
  method EndAnySession(sessions: SessionStore, tokens: RefreshTokenStore, id: Id, now: Time) returns (found: bool)
    requires tokens.Valid()
    modifies sessions, tokens`tokens
    ensures tokens.Valid() && (old(Indexed(tokens.tokens, tokens.byHash)) ==> Indexed(tokens.tokens, tokens.byHash))
    ensures found <==> id in old(sessions.sessions)
    ensures sessions.sessions == RevokeSession(old(sessions.sessions), id, now)
    ensures found ==>
              && StoreSpec.SessionEnded(old(sessions.sessions), sessions.sessions, id, now)
              && TokensEnded(old(tokens.tokens), tokens.tokens, {id}, now)
    ensures tokens.tokens == if found then RevokeTokensOf(old(tokens.tokens), {id}, now) else old(tokens.tokens)
  {
    var err := sessions.Revoke(id, now);
    if err.Some? {
      return false;
    }
    tokens.RevokeBySessionID(id, now);
    return true;
  }

  /** The revocation endpoint: an own token takes every token of its session with it; a foreign or unknown one changes nothing. */
  method RevokePresented(tokens: RefreshTokenStore, sha: string -> string, raw: string, client: Client, now: Time)
    requires tokens.Valid()
    modifies tokens`tokens
    ensures tokens.Valid() && (old(Indexed(tokens.tokens, tokens.byHash)) ==> Indexed(tokens.tokens, tokens.byHash))
    ensures var found := Lookup(old(tokens.tokens), tokens.byHash, sha(raw));
            tokens.tokens == if found.Some? && found.value.clientId == client.clientId
                             then PunishTokens(old(tokens.tokens), found.value, now) else old(tokens.tokens)
    ensures var m, byHash := old(tokens.tokens), tokens.byHash;
            if sha(raw) in byHash && m[byHash[sha(raw)]].clientId == client.clientId then
              var t := m[byHash[sha(raw)]];
              if t.session.Some? then TokensEnded(m, tokens.tokens, {t.session.value}, now)
              else tokens.tokens == if t.revokedAt.None? then m[t.id := t.(revokedAt := Some(now))] else m
            else tokens.tokens == m
  {
    var found := tokens.FindByHash(sha(raw));
    if found.None? || found.value.clientId != client.clientId {
      return;
    }
    if found.value.session.Some? {
      tokens.RevokeBySessionID(found.value.session.value, now);
    } else {
      var _ := tokens.Revoke(found.value.id, now);
    }
  }

  // ---- a cascade is a stretch of a serial run ----

  lemma {:induction false} EndTokensOneByOne(cfg: Config, ss: seq<State>, acts: seq<Action>, ids: set<Id>)
    returns (ss': seq<State>, acts': seq<Action>)
    requires Stretch(cfg, ss, acts) && Last(ss).procs == map[]
    ensures Stretch(cfg, ss', acts') && ss'[0] == ss[0] && Last(ss').procs == map[] && Last(ss').now == Last(ss).now
    ensures Last(ss').db.tokens == RevokeTokensOf(Last(ss).db.tokens, ids, Last(ss).now)
    ensures Last(ss').db == Last(ss).db.(tokens := Last(ss').db.tokens, revokedStep := Last(ss').db.revokedStep)
    decreases ids
  {
    if ids == {} {
      assert RevokeTokensOf(Last(ss).db.tokens, ids, Last(ss).now) == Last(ss).db.tokens;
      ss', acts' := ss, acts;
    } else {
      var sid :| sid in ids;
      var s := Last(ss);
      ss', acts' := OneMore(cfg, ss, acts, Environment(EndTokens(sid, s.now)));
      RevokingInTurn(s.db.tokens, {sid}, ids - {sid}, s.now);
      assert {sid} + (ids - {sid}) == ids;
      ss', acts' := EndTokensOneByOne(cfg, ss', acts', ids - {sid});
    }
  }

  /** Ending a user's sessions is a stretch of a serial run with the same effect, so everything proved of runs covers it. */
  lemma CascadeIsARun(cfg: Config, s: State, user: string, keep: Id) returns (ss: seq<State>, acts: seq<Action>)
    requires s.procs == map[]
    ensures Stretch(cfg, ss, acts) && ss[0] == s && Last(ss).procs == map[] && Last(ss).now == s.now
    ensures (Last(ss).db.sessions, Last(ss).db.tokens) ==
            Ended(s.db.sessions, s.db.tokens, Targets(s.db.sessions, user, keep, s.now), s.now)
    ensures Last(ss).db.codes == s.db.codes
    ensures Last(ss).db.redemptions == s.db.redemptions && Last(ss).db.refreshes == s.db.refreshes
  {
    ss, acts := OneMore(cfg, [s], [], Environment(EndSessions(user, keep, s.now)));
    ss, acts := EndTokensOneByOne(cfg, ss, acts, Targets(s.db.sessions, user, keep, s.now));
  }

  /** What a cascade ends stays ended. When the tokens under the sessions `ids` have been revoked and nobody is in flight,
      then, whatever interleaving follows, each of them keeps its record, is never renewed, and gets no child. */
  lemma EndedTokensStayEnded(cfg: Config, ss: seq<State>, acts: seq<Action>, k: nat, j: nat, m: Tokens, ids: set<Id>, at: Time, id: Id)
    requires Run(cfg, ss, acts) && k <= j < |ss| && ss[k].procs == map[]
    requires ss[k].db.tokens == RevokeTokensOf(m, ids, at)
    requires id in ss[k].db.tokens && ss[k].db.tokens[id].session.Some? && ss[k].db.tokens[id].session.value in ids
    ensures id in ss[j].db.tokens && ss[j].db.tokens[id] == ss[k].db.tokens[id] && ss[j].db.tokens[id].revokedAt.Some?
    ensures |ss[k].db.refreshes| <= |ss[j].db.refreshes|
    ensures forall e {:trigger ss[j].db.refreshes[e].token} | |ss[k].db.refreshes| <= e < |ss[j].db.refreshes| ::
              ss[j].db.refreshes[e].token != id
    ensures forall c {:trigger ss[j].db.tokens[c].parent} | c in ss[j].db.tokens && ss[j].db.tokens[c].parent == Some(id) ::
              c in ss[k].db.tokens
  {
    var sid := ss[k].db.tokens[id].session.value;
    var d := TokensUnder(ss[k].db.tokens, sid);
    RevokedSessionIsDead(cfg, ss, acts, k, sid);
    DeadStaysDead(cfg, ss, acts, k, j, d);
    assert id in d;
  }
}
