/** Password reset links: their store and the two handlers that use it. */
module PasswordReset {
  import opened Domain
  import opened StoreSpec
  import opened LoginTracker
  import opened LoginDiscipline
  import opened MemoryStores
  import Cascades

  datatype ResetToken = ResetToken(
    id: Id,
    userId: string,
    hash: string,
    createdAt: Time,
    expiresAt: Time,
    consumedAt: Option<Time>)

  type Resets = map<Id, ResetToken>

  /** How long expired tokens stay in the store. */
  const RETENTION: int := 24 * HOUR

  // ---- what each store call does ----

  predicate Consumable(m: Resets, id: Id, now: Time) {
    id in m && m[id].consumedAt.None? && now < m[id].expiresAt
  }

  function Consumed(m: Resets, id: Id, now: Time): Resets {
    if Consumable(m, id, now) then m[id := m[id].(consumedAt := Some(now))] else m
  }

  function Invalidated(m: Resets, user: string, now: Time): Resets {
    map id | id in m :: if m[id].userId == user && m[id].consumedAt.None? then m[id].(consumedAt := Some(now)) else m[id]
  }

  function Purged(m: Resets, before: Time): Resets {
    map id | id in m && !(m[id].expiresAt < before) :: m[id]
  }

  /** Ids and hashes name one token each. */
  predicate Distinct(m: Resets) {
    && (forall id | id in m :: m[id].id == id)
    && (forall i, j | i in m && j in m && m[i].hash == m[j].hash :: i == j)
  }

  /** The token a link stands for, while it can still be used. */
  function Usable(m: Resets, hash: string, now: Time): (t: Option<ResetToken>)
    requires Distinct(m)
    ensures t.Some? ==> t.value.id in m && m[t.value.id] == t.value && t.value.hash == hash && Consumable(m, t.value.id, now)
    ensures t.None? ==> forall id | id in m && m[id].hash == hash :: !Consumable(m, id, now)
    ensures t.Some? <==> exists id :: id in m && m[id].hash == hash && m[id].consumedAt.None? && now < m[id].expiresAt
  {
    if exists id :: id in m && m[id].hash == hash && Consumable(m, id, now) then
      var id :| id in m && m[id].hash == hash && Consumable(m, id, now);
      Some(m[id])
    else None
  }

  datatype ResetError = NilToken | NoHash | Duplicate

  class PasswordResetStore {
    var tokens: Resets

    constructor ()
      ensures tokens == map[] && Distinct(tokens)
    {
      tokens := map[];
    }

    method Create(t: Option<ResetToken>) returns (err: Option<ResetError>)
      modifies this
      ensures err == if t.None? then Some(NilToken) else if t.value.hash == "" then Some(NoHash)
                     else if exists id :: id in old(tokens) && old(tokens)[id].hash == t.value.hash then Some(Duplicate) else None
      ensures tokens == if err.None? then old(tokens)[t.value.id := t.value] else old(tokens)
      ensures old(Distinct(tokens)) ==> Distinct(tokens)
    {
      if t.None? {
        return Some(NilToken);
      }
      if t.value.hash == "" {
        return Some(NoHash);
      }
      var left := tokens.Keys;
      while left != {}
        invariant left <= tokens.Keys
        invariant forall id | id in tokens && id !in left :: tokens[id].hash != t.value.hash
      {
        var id :| id in left;
        if tokens[id].hash == t.value.hash {
          return Some(Duplicate);
        }
        left := left - {id};
      }
      tokens := tokens[t.value.id := t.value];
      return None;
    }

    method FindByHash(hash: string) returns (t: Option<ResetToken>)
      ensures t.Some? ==> t.value.hash == hash && exists id :: id in tokens && tokens[id] == t.value
      ensures t.None? ==> forall id | id in tokens :: tokens[id].hash != hash
    {
      var left := tokens.Keys;
      while left != {}
        invariant left <= tokens.Keys
        invariant forall id | id in tokens && id !in left :: tokens[id].hash != hash
      {
        var id :| id in left;
        if tokens[id].hash == hash {
          return Some(tokens[id]);
        }
        left := left - {id};
      }
      return None;
    }

    /** The compare-and-set: true for the one call that finds the token unconsumed and unexpired. */
    method Consume(id: Id, now: Time) returns (won: bool)
      modifies this
      ensures won <==> Consumable(old(tokens), id, now)
      ensures tokens == Consumed(old(tokens), id, now)
      ensures won <==> id in old(tokens) && old(tokens)[id].consumedAt.None? && now < old(tokens)[id].expiresAt
      ensures tokens == if won then old(tokens)[id := old(tokens)[id].(consumedAt := Some(now))] else old(tokens)
    {
      if id !in tokens || tokens[id].consumedAt.Some? || !(now < tokens[id].expiresAt) {
        return false;
      }
      tokens := tokens[id := tokens[id].(consumedAt := Some(now))];
      return true;
    }

    method InvalidateForUser(user: string, now: Time)
      modifies this
      ensures tokens == Invalidated(old(tokens), user, now)
      ensures tokens.Keys == old(tokens).Keys && forall id | id in tokens ::
                tokens[id] == if old(tokens)[id].userId == user && old(tokens)[id].consumedAt.None?
                              then old(tokens)[id].(consumedAt := Some(now)) else old(tokens)[id]
    {
      ghost var before := tokens;
      ghost var goal := Invalidated(before, user, now);
      var left := tokens.Keys;
      while left != {}
        invariant left <= tokens.Keys == before.Keys
        invariant forall id | id in before :: tokens[id] == if id in left then before[id] else goal[id]
      {
        var id :| id in left;
        if tokens[id].userId == user && tokens[id].consumedAt.None? {
          tokens := tokens[id := tokens[id].(consumedAt := Some(now))];
        }
        left := left - {id};
      }
    }

    method DeleteExpired(before: Time) returns (n: nat)
      modifies this
      ensures tokens == Purged(old(tokens), before)
      ensures forall id :: id in tokens <==> id in old(tokens) && old(tokens)[id].expiresAt >= before
      ensures forall id | id in tokens :: tokens[id] == old(tokens)[id]
      ensures n == |old(tokens)| - |tokens|
    {
      ghost var all := tokens;
      n := 0;
      var left := tokens.Keys;
      while left != {}
        invariant left <= tokens.Keys <= all.Keys
        invariant tokens == map id | id in all && (id in left || !(all[id].expiresAt < before)) :: all[id]
        invariant n + |tokens.Keys| == |all.Keys|
      {
        var id :| id in left;
        if tokens[id].expiresAt < before {
          assert (tokens - {id}).Keys == tokens.Keys - {id};
          tokens := tokens - {id};
          n := n + 1;
        }
        left := left - {id};
      }
      assert tokens == Purged(all, before);
      KeysCount(all);
      KeysCount(tokens);
    }
  }

  lemma KeysCount(m: Resets)
    ensures |m| == |m.Keys|
  {
  }

  // ---- asking for a link ----

  datatype Account = Account(id: string, email: string)

  /** Which of the calls on the way to a new link fails, if one does. */
  datatype Outage = AllWell | TokenFails | InvalidateFails | CreateFails

  function AfterAsking(m: Resets, t: ResetToken, outage: Outage): Resets {
    if outage.TokenFails? || outage.InvalidateFails? then m
    else
      var cleared := Invalidated(m, t.userId, t.createdAt);
      if outage.CreateFails? || (exists id :: id in cleared && cleared[id].hash == t.hash) then cleared else cleared[t.id := t]
  }

  /** What one handler, run to completion, can do to the store: a request for a link, with the token it issues if it gets so
      far; a use of a link, with the link it spends if it gets so far; an administrator's clearing of a user's links. */
  datatype Handled =
    | Forgotten(issue: Option<ResetToken>, outage: Outage, purgeFails: bool, at: Time)
    | Used(link: Option<Id>, clears: bool, at: Time)
    | Cleared(user: string, at: Time)

  /** What housekeeping leaves. */
  function Kept(m: Resets, purgeFails: bool, at: Time): Resets {
    if purgeFails then m else Purged(m, at - RETENTION)
  }

  function AfterHandler(m: Resets, h: Handled): Resets {
    match h
    case Forgotten(issue, outage, purgeFails, at) =>
      if issue.None? then Kept(m, purgeFails, at) else AfterAsking(Kept(m, purgeFails, at), issue.value, outage)
    case Used(link, clears, at) =>
      if link.None? || link.value !in m then m
      else
        var spent := Consumed(m, link.value, at);
        if clears then Invalidated(spent, m[link.value].userId, at) else spent
    case Cleared(user, at) => Invalidated(m, user, at)
  }

  /** Only the newest link works. */
  method Issue(resets: PasswordResetStore, t: ResetToken, outage: Outage) returns (mailed: bool)
    requires Distinct(resets.tokens) && t.hash != "" && t.consumedAt.None?
    modifies resets
    ensures Distinct(resets.tokens) && resets.tokens == AfterAsking(old(resets.tokens), t, outage)
    ensures mailed <==> outage.AllWell? && forall k | k in old(resets.tokens) :: old(resets.tokens)[k].hash != t.hash
    ensures mailed ==> t.id in resets.tokens && resets.tokens[t.id] == t
  {
    if outage.TokenFails? {
      return false;
    }
    if outage.InvalidateFails? {
      return false;
    }
    ghost var kept := resets.tokens;
    resets.InvalidateForUser(t.userId, t.createdAt);
    assert forall k | k in kept :: resets.tokens[k].hash == kept[k].hash;
    if outage.CreateFails? {
      return false;
    }
    var err := resets.Create(Some(t));
    return err.None?;
  }

  /** To the tracker every request is a failed try, and one it knows to be locked stops there. */
  method Throttle(tracker: PersistentTracker, l: Try) returns (throttled: bool)
    requires l.verdict == Wrong
    modifies tracker
    ensures throttled <==> !Validated(old(tracker.rows), tracker.limits, l)
    ensures tracker.rows == AfterTry(old(tracker.rows), tracker.limits, l)
  {
    var locked, _ := tracker.IsLockedOut(l.key, l.at, l.lookup);
    if locked {
      return true;
    }
    var _ := tracker.RecordFailure(l.key, l.at, l.record);
    return false;
  }

  function Request(account: Account, now: Time, lookup: Database, record: Database): Try {
    Try("pwreset:" + account.id, now, Wrong, lookup, record)
  }

  /** The token a request goes on to issue: none without an account and an address, none past the throttle. */
  function Issued(rows: Table, lim: Limits, account: Option<Account>, id: Id, hash: string, lifetime: int, now: Time,
                  lookup: Database, record: Database): Option<ResetToken>
  {
    if account.None? || account.value.email == "" || !Validated(rows, lim, Request(account.value, now, lookup, record)) then None
    else Some(ResetToken(id, account.value.id, hash, now, now + lifetime, None))
  }

  method Housekeep(resets: PasswordResetStore, now: Time, fails: bool)
    requires Distinct(resets.tokens)
    modifies resets
    ensures Distinct(resets.tokens) && resets.tokens == Kept(old(resets.tokens), fails, now)
    ensures forall k :: k in resets.tokens <==> k in old(resets.tokens) && (fails || old(resets.tokens)[k].expiresAt >= now - RETENTION)
    ensures forall k | k in resets.tokens :: resets.tokens[k] == old(resets.tokens)[k]
  {
    if !fails {
      var _ := resets.DeleteExpired(now - RETENTION);
    }
  }

  /** Housekeeping comes first, whoever is asking; nobody without an account and an address gets further. Failing
      housekeeping and a failing tracker stop nobody. */
  method Forgot(resets: PasswordResetStore, tracker: PersistentTracker, account: Option<Account>, id: Id, hash: string,
                lifetime: int, now: Time, purgeFails: bool, lookup: Database, record: Database, outage: Outage)
    returns (mailed: bool)
    requires Distinct(resets.tokens) && hash != ""
    modifies resets, tracker
    ensures Distinct(resets.tokens)
    ensures var issue := Issued(old(tracker.rows), tracker.limits, account, id, hash, lifetime, now, lookup, record);
            && resets.tokens == AfterHandler(old(resets.tokens), Forgotten(issue, outage, purgeFails, now))
            && (mailed <==>
                  && issue.Some? && outage.AllWell?
                  && forall k | k in old(resets.tokens) && (purgeFails || old(resets.tokens)[k].expiresAt >= now - RETENTION) ::
                       old(resets.tokens)[k].hash != hash)
            && (mailed ==> id in resets.tokens && resets.tokens[id] == issue.value)
    ensures tracker.rows == if account.None? || account.value.email == "" then old(tracker.rows)
                            else AfterTry(old(tracker.rows), tracker.limits, Request(account.value, now, lookup, record))
  {
    Housekeep(resets, now, purgeFails);
    if account.None? || account.value.email == "" {
      return false;
    }
    var throttled := Throttle(tracker, Request(account.value, now, lookup, record));
    if throttled {
      return false;
    }
    mailed := Issue(resets, ResetToken(id, account.value.id, hash, now, now + lifetime, None), outage);
  }

  // ---- using a link ----

  datatype Reply = Invalid | Rejected | Failed | Changed

  /** Which calls on the way fail; the tokens under the sessions `stuck` cannot be revoked. */
  datatype ResetFaults = ResetFaults(lookup: bool, consume: bool, password: bool, invalidate: bool, sessions: bool, stuck: set<Id>)

  /** Reads a usable token the way both handlers do. */
  method Find(resets: PasswordResetStore, sha: string -> string, raw: string, now: Time, fails: bool) returns (t: Option<ResetToken>)
    requires Distinct(resets.tokens)
    ensures t == if raw == "" || fails then None else Usable(resets.tokens, sha(raw), now)
  {
    if raw == "" || fails {
      return None;
    }
    t := resets.FindByHash(sha(raw));
    if t.Some? && (t.value.consumedAt.Some? || !(now < t.value.expiresAt)) {
      return None;
    }
  }

  /** Everything the user had ends with the old password; a call that fails is logged and the next one made. */
  method CleanUp(resets: PasswordResetStore, sessions: SessionStore, refresh: RefreshTokenStore, user: string, now: Time,
                 faults: ResetFaults)
    requires Distinct(resets.tokens) && refresh.Valid()
    modifies resets, sessions, refresh`tokens
    ensures Distinct(resets.tokens) && refresh.Valid()
    ensures resets.tokens == if faults.invalidate then old(resets.tokens) else Invalidated(old(resets.tokens), user, now)
    ensures var ids := if faults.sessions then {} else Targets(old(sessions.sessions), user, NIL_ID, now);
            && sessions.sessions == RevokeSessions(old(sessions.sessions), ids, now)
            && refresh.tokens == RevokeTokensOf(old(refresh.tokens), ids - faults.stuck, now)
  {
    if !faults.invalidate {
      resets.InvalidateForUser(user, now);
    }
    var _ := Cascades.EndUserSessions(sessions, refresh, user, NIL_ID, now, faults.sessions, faults.stuck);
  }

  /** Spends the link first, then sets the password, then ends everything the user had. A failure up to the new password
      ends the request; a failure after it is logged, and the rest of the cleaning up is still done. */
  method Reset(resets: PasswordResetStore, sessions: SessionStore, refresh: RefreshTokenStore, sha: string -> string, raw: string,
               password: string, confirm: string, weak: string -> bool, now: Time, faults: ResetFaults)
    returns (reply: Reply, changed: Option<string>)
    requires Distinct(resets.tokens) && refresh.Valid()
    modifies resets, sessions, refresh`tokens
    ensures Distinct(resets.tokens) && refresh.Valid()
    ensures var t := if raw == "" || faults.lookup then None else Usable(old(resets.tokens), sha(raw), now);
            var good := password != "" && password == confirm && !weak(password);
            var spends := t.Some? && good && !faults.consume;
            && reply == (if t.None? then Invalid else if !good then Rejected
                         else if faults.consume || faults.password then Failed else Changed)
            && changed == (if reply.Changed? then Some(t.value.userId) else None)
            && resets.tokens == AfterHandler(old(resets.tokens), Used(if spends then Some(t.value.id) else None,
                                                                      reply.Changed? && !faults.invalidate, now))
            && var ids := if reply.Changed? && !faults.sessions then Targets(old(sessions.sessions), t.value.userId, NIL_ID, now) else {};
               && sessions.sessions == RevokeSessions(old(sessions.sessions), ids, now)
               && refresh.tokens == RevokeTokensOf(old(refresh.tokens), ids - faults.stuck, now)
  {
    assert sessions.sessions == RevokeSessions(sessions.sessions, {}, now);
    assert refresh.tokens == RevokeTokensOf(refresh.tokens, {}, now);
    var first := Find(resets, sha, raw, now, faults.lookup);
    if first.None? {
      return Invalid, None;
    }
    if password == "" || confirm == "" || password != confirm || weak(password) {
      return Rejected, None;
    }
    var t := Find(resets, sha, raw, now, faults.lookup);
    if t.None? {
      return Invalid, None;
    }
    if faults.consume {
      return Failed, None;
    }
    var won := resets.Consume(t.value.id, now);
    if !won {
      return Invalid, None;
    }
    if faults.password {
      return Failed, None;
    }
    CleanUp(resets, sessions, refresh, t.value.userId, now, faults);
    return Changed, Some(t.value.userId);
  }

  // ---- only the newest link works ----

  /** A request for a link removes what expired more than a day ago, unless that fails; and if it issues a token, uses up every
      other usable one of the user, leaving all other users' as they are. Nothing of either happens beyond the first failing call. */
  lemma WhatForgettingDoes(m: Resets, t: ResetToken, outage: Outage, purgeFails: bool, at: Time)
    requires t.id !in m && forall id | id in m :: m[id].hash != t.hash
    ensures var after := AfterHandler(m, Forgotten(Some(t), outage, purgeFails, at));
            && (t.id in after <==> outage.AllWell?) && (t.id in after ==> after[t.id] == t)
            && (forall id | id != t.id :: id in after <==> id in m && (purgeFails || m[id].expiresAt >= at - 24 * 3600 * 1_000_000_000))
            && (forall id | id in after && id != t.id ::
                  after[id] == if (outage.AllWell? || outage.CreateFails?) && m[id].userId == t.userId && m[id].consumedAt.None?
                               then m[id].(consumedAt := Some(t.createdAt)) else m[id])
  {
  }

  /** A request without a token to issue does the housekeeping alone. */
  lemma WhatRefusalsDo(m: Resets, outage: Outage, purgeFails: bool, at: Time)
    ensures var after := AfterHandler(m, Forgotten(None, outage, purgeFails, at));
            && (forall id :: id in after <==> id in m && (purgeFails || m[id].expiresAt >= at - 24 * 3600 * 1_000_000_000))
            && (forall id | id in after :: after[id] == m[id])
  {
  }

  /** A use of a link uses up that link alone, or with it every other usable one of its user. */
  lemma WhatUsingDoes(m: Resets, id: Id, clears: bool, at: Time)
    requires id in m && m[id].consumedAt.None? && at < m[id].expiresAt
    ensures var after := AfterHandler(m, Used(Some(id), clears, at));
            && after.Keys == m.Keys
            && forall k | k in m ::
                 after[k] == if k == id || (clears && m[k].userId == m[id].userId && m[k].consumedAt.None?)
                             then m[k].(consumedAt := Some(at)) else m[k]
  {
  }

  /** Who gets a token: an account with an address that is not known to be locked; the token is the account's, unused, and good for
      the lifetime from now. */
  lemma WhoIsIssuedALink(rows: Table, lim: Limits, account: Option<Account>, id: Id, hash: string, lifetime: int, now: Time,
                         lookup: Database, record: Database)
    ensures var issue := Issued(rows, lim, account, id, hash, lifetime, now, lookup, record);
            if account.Some? && account.value.email != ""
               && !(var key := "pwreset:" + account.value.id;
                    lookup.readable && key in rows && rows[key].lockedAt.Some? && now - rows[key].lockedAt.value < lim.lockout)
            then issue == Some(ResetToken(id, account.value.id, hash, now, now + lifetime, None))
            else issue == None
  {
  }

  function AfterHandlers(m: Resets, hs: seq<Handled>): Resets {
    if hs == [] then m else AfterHandler(AfterHandlers(m, hs[..|hs| - 1]), hs[|hs| - 1])
  }

  predicate OneLivePerUser(m: Resets) {
    forall i, j | i in m && j in m && m[i].consumedAt.None? && m[j].consumedAt.None? && m[i].userId == m[j].userId :: i == j
  }

  lemma AskingLeavesOne(m: Resets, t: ResetToken, outage: Outage)
    requires OneLivePerUser(m)
    ensures OneLivePerUser(AfterAsking(m, t, outage))
  {
  }

  lemma FewerStayOne(m: Resets, m': Resets)
    requires OneLivePerUser(m)
    requires forall i | i in m' && m'[i].consumedAt.None? :: i in m && m[i] == m'[i]
    ensures OneLivePerUser(m')
  {
  }

  lemma HandlerLeavesOne(m: Resets, h: Handled)
    requires OneLivePerUser(m)
    ensures OneLivePerUser(AfterHandler(m, h))
  {
    match h
    case Forgotten(issue, outage, purgeFails, at) =>
      FewerStayOne(m, Kept(m, purgeFails, at));
      if issue.Some? {
        AskingLeavesOne(Kept(m, purgeFails, at), issue.value, outage);
      }
    case _ =>
      FewerStayOne(m, AfterHandler(m, h));
  }

  /** Handlers run one after the other leave each user at most one unconsumed token, whichever calls fail on the way. */
  lemma {:induction false} OnlyTheNewestLinkWorks(m: Resets, hs: seq<Handled>)
    requires OneLivePerUser(m)
    ensures OneLivePerUser(AfterHandlers(m, hs))
  {
    if hs != [] {
      OnlyTheNewestLinkWorks(m, hs[..|hs| - 1]);
      HandlerLeavesOne(AfterHandlers(m, hs[..|hs| - 1]), hs[|hs| - 1]);
    }
  }

  // ---- housekeeping is invisible ----

  datatype Op =
    | Purge(at: Time)
    | Add(t: ResetToken, at: Time)
    | Look(hash: string, at: Time)
    | Use(id: Id, at: Time)
    | Clear(user: string, at: Time)

  function AfterOp(m: Resets, op: Op): Resets {
    match op
    case Purge(at) => Purged(m, at - RETENTION)
    case Add(t, _) => m[t.id := t]
    case Look(_, _) => m
    case Use(id, at) => Consumed(m, id, at)
    case Clear(user, at) => Invalidated(m, user, at)
  }

  function AfterOps(ops: seq<Op>, purging: bool): Resets {
    if ops == [] then map[]
    else
      var before, op := AfterOps(ops[..|ops| - 1], purging), ops[|ops| - 1];
      if op.Purge? && !purging then before else AfterOp(before, op)
  }

  /** The operations come in the order of the clock, and every added token brings a new id and a new hash. */
  predicate Orderly(ops: seq<Op>) {
    && (forall i, j | 0 <= i <= j < |ops| :: ops[i].at <= ops[j].at)
    && (forall i, j | 0 <= i < j < |ops| && ops[i].Add? && ops[j].Add? :: ops[i].t.id != ops[j].t.id && ops[i].t.hash != ops[j].t.hash)
  }

  /** Every stored token was added by one of the operations. */
  predicate AllAdded(m: Resets, ops: seq<Op>) {
    forall id | id in m :: exists i :: 0 <= i < |ops| && ops[i].Add? && ops[i].t.id == id == m[id].id && ops[i].t.hash == m[id].hash
  }

  /** A token that only the store without housekeeping still has expired before the clock. */
  predicate OnlyExpiredGone(purged: Resets, all: Resets, clock: Time) {
    && (forall id | id in purged :: id in all && all[id] == purged[id])
    && (forall id | id in all && id !in purged :: all[id].expiresAt <= clock)
  }

  lemma {:induction false} StoresOfOps(ops: seq<Op>, purging: bool)
    requires Orderly(ops)
    ensures AllAdded(AfterOps(ops, purging), ops) && Distinct(AfterOps(ops, purging))
  {
    if ops != [] {
      var before, op := ops[..|ops| - 1], ops[|ops| - 1];
      StoresOfOps(before, purging);
      var m := AfterOps(before, purging);
      assert AllAdded(m, ops) by {
        forall id | id in m ensures exists i :: 0 <= i < |ops| && ops[i].Add? && ops[i].t.id == id == m[id].id && ops[i].t.hash == m[id].hash {
          var i :| 0 <= i < |before| && before[i].Add? && before[i].t.id == id == m[id].id && before[i].t.hash == m[id].hash;
          assert ops[i] == before[i];
        }
      }
      assert op.Add? ==> forall id | id in m :: id != op.t.id && m[id].hash != op.t.hash;
    }
  }

  lemma {:induction false} HousekeepingOnlyDropsExpired(ops: seq<Op>, clock: Time)
    requires Orderly(ops) && (ops != [] ==> ops[|ops| - 1].at <= clock)
    ensures OnlyExpiredGone(AfterOps(ops, true), AfterOps(ops, false), clock)
  {
    if ops != [] {
      HousekeepingOnlyDropsExpired(ops[..|ops| - 1], ops[|ops| - 1].at);
    }
  }

  /** With a clock that never goes back, deleting what expired more than the retention time ago changes no later answer:
      neither which token a link stands for nor who gets to consume it. */
  lemma HousekeepingIsInvisible(ops: seq<Op>, hash: string, id: Id, now: Time)
    requires Orderly(ops) && (ops != [] ==> ops[|ops| - 1].at <= now)
    ensures Distinct(AfterOps(ops, true)) && Distinct(AfterOps(ops, false))
    ensures Usable(AfterOps(ops, true), hash, now) == Usable(AfterOps(ops, false), hash, now)
    ensures Consumable(AfterOps(ops, true), id, now) <==> Consumable(AfterOps(ops, false), id, now)
  {
    StoresOfOps(ops, true);
    StoresOfOps(ops, false);
    HousekeepingOnlyDropsExpired(ops, now);
  }
}
