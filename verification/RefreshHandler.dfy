/** The refresh grant as one handler over the token store, and why it is one of the protocol's interleavings. */
module RefreshHandler {
  import opened Domain
  import opened StoreSpec
  import opened Protocol
  import opened ProtocolInvariant
  import opened ProtocolProcs
  import opened ProtocolSteps
  import opened ProtocolSerial
  import opened MemoryStores

  datatype UserLookup = UserFound | UserMissing | UserLookupFailed

  /** What the handler gets from the clock, the user store, the token issuer, the random source and the token store. */
  datatype Surroundings = Surroundings(now: Time, user: UserLookup, issued: bool, newId: Id, newHash: string, faults: Faults)

  datatype Answer =
    | Refused(error: string)
    | Tokens(scope: string, authTime: Time, child: Option<Id>)

  datatype Form = Form(refreshToken: string, clientId: string, scope: string)

  // ---- specification ----

  /** The answer and the token store once token `t` has been consumed. */
  function RenewWon(m: Domain.Tokens, t: Token, r: RefreshRequest, env: Surroundings): (Answer, Domain.Tokens)
    requires t.id in m
  {
    if env.user.UserMissing? then (Refused("invalid_grant"), m)
    else if env.user.UserLookupFailed? then (Refused("server_error"), m)
    else if !ScopeOk(r, t) then (Refused("invalid_scope"), m)
    else if !env.issued then (Refused("server_error"), m)
    else
      var authTime := m[Up(m, t.id, MAX_HOPS)].createdAt;
      if !Rotates(r, t) then (Tokens(NewScope(r, t), authTime, None), m)
      else if env.newHash == "" || env.faults.store then (Refused("server_error"), m)
      else
        (Tokens(NewScope(r, t), authTime, Some(env.newId)),
         m[env.newId := NewChild(r.client, t, NewScope(r, t), env.now, env.newId, env.newHash)])
  }

  /** The answer and the token store after the request has passed its form checks. */
  function Renew(cfg: Config, m: Domain.Tokens, found: Option<Token>, r: RefreshRequest, env: Surroundings): (Answer, Domain.Tokens) {
    if found.None? || !RefreshOk(r, found.value, env.now) || found.value.id !in m then (Refused("invalid_grant"), m)
    else
      var t := found.value;
      if env.faults.consume then (Refused("server_error"), m)
      else if m[t.id].consumedAt.Some? then
        (Refused("invalid_grant"), if cfg.detectReuse && !env.faults.revoke then PunishTokens(m, t, env.now) else m)
      else
        RenewWon(ConsumeToken(m, t.id, env.now), t, r, env)
  }

  function Respond(cfg: Config, sha: string -> string, m: Domain.Tokens, byHash: map<string, Id>, form: Form,
                   client: Option<Client>, env: Surroundings): (Answer, Domain.Tokens) {
    if form.refreshToken == "" || form.clientId == "" then (Refused("invalid_request"), m)
    else if client.None? then (Refused("invalid_client"), m)
    else if client.value.clientId != form.clientId then (Refused("invalid_grant"), m)
    else
      var hash := sha(form.refreshToken);
      Renew(cfg, m, if env.faults.lookup then None else Lookup(m, byHash, hash), RefreshRequest(client.value, hash, form.scope), env)
  }

  // ---- the handler ----

  /** Follows parent links back to the chain's root, at most `MAX_HOPS` of them. */
  method ChainRootCreatedAt(store: RefreshTokenStore, start: Token) returns (created: Time)
    requires start.id in store.tokens && TokenLater(start, store.tokens[start.id])
    ensures created == store.tokens[Up(store.tokens, start.id, MAX_HOPS)].createdAt
  {
    var cur := start;
    ghost var at := start.id;
    for i := 0 to MAX_HOPS
      invariant at in store.tokens && TokenLater(cur, store.tokens[at])
      invariant at == Up(store.tokens, start.id, i)
    {
      if cur.parent.None? {
        WalkEnds(store.tokens, start.id, i, MAX_HOPS);
        return cur.createdAt;
      }
      var parent := store.FindByID(cur.parent.value);
      if parent.None? {
        WalkEnds(store.tokens, start.id, i, MAX_HOPS);
        return cur.createdAt;
      }
      UpOneMore(store.tokens, start.id, i);
      cur := parent.value;
      at := Up(store.tokens, start.id, i + 1);
    }
    return cur.createdAt;
  }

  /** A revocation that fails is logged and changes nothing. */
  method HandleReuse(store: RefreshTokenStore, used: Token, now: Time, fails: bool)
    requires store.Valid()
    modifies store`tokens
    ensures store.Valid() && (old(Indexed(store.tokens, store.byHash)) ==> Indexed(store.tokens, store.byHash))
    ensures store.tokens == if fails then old(store.tokens) else PunishTokens(old(store.tokens), used, now)
  {
    if fails {
      return;
    }
    if used.session.Some? {
      store.RevokeBySessionID(used.session.value, now);
    } else {
      var _ := store.Revoke(used.id, now);
    }
  }

  /** What is left to do once the compare-and-set is won. */
  method AnswerWinner(store: RefreshTokenStore, r: RefreshRequest, existing: Token, env: Surroundings) returns (answer: Answer)
    requires store.Valid() && existing.id in store.tokens && TokenLater(existing, store.tokens[existing.id])
    modifies store
    ensures store.Valid()
    ensures old(Indexed(store.tokens, store.byHash)) && FreshToken(old(store.tokens), env.newId, env.newHash) ==>
              Indexed(store.tokens, store.byHash)
    ensures (answer, store.tokens) == RenewWon(old(store.tokens), existing, r, env)
  {
    if env.user.UserMissing? {
      return Refused("invalid_grant");
    }
    if env.user.UserLookupFailed? {
      return Refused("server_error");
    }
    var granted := Words.Fields(existing.scope);
    var scope := existing.scope;
    if r.scopeParam != "" {
      var requested := Words.Fields(r.scopeParam);
      var within := Words.CheckSubset(requested, granted);
      if !within {
        return Refused("invalid_scope");
      }
      scope := Words.Join(requested);
      granted := requested;
    }
    var authTime := ChainRootCreatedAt(store, existing);
    if !env.issued {
      return Refused("server_error");
    }
    if r.client.allowRefreshTokens && OFFLINE_ACCESS in granted {
      var expiresAt: Time;
      if r.client.refreshExpiration == Absolute {
        expiresAt := env.now + r.client.AbsoluteLifetime();
      } else {
        expiresAt := env.now + r.client.RefreshLifetime();
        if expiresAt > existing.absoluteExpiresAt {
          expiresAt := existing.absoluteExpiresAt;
        }
      }
      var rt := Token(env.newId, env.newHash, r.client.clientId, existing.userId, existing.session, Some(existing.id),
                      scope, expiresAt, existing.absoluteExpiresAt, None, None, env.now);
      if env.faults.store {
        return Refused("server_error");
      }
      var failed := store.Store(Some(rt));
      if failed.Some? {
        return Refused("server_error");
      }
      return Tokens(scope, authTime, Some(env.newId));
    }
    return Tokens(scope, authTime, None);
  }

  /** The whole grant: every check in order, the compare-and-set before anything is minted, rotation last. */
  method Handle(cfg: Config, sha: string -> string, store: RefreshTokenStore, form: Form, client: Option<Client>, env: Surroundings)
    returns (answer: Answer)
    requires store.Valid()
    modifies store
    ensures store.Valid()
    ensures old(Indexed(store.tokens, store.byHash)) && FreshToken(old(store.tokens), env.newId, env.newHash) ==>
              Indexed(store.tokens, store.byHash)
    ensures (answer, store.tokens) ==
            Respond(cfg, sha, old(store.tokens), old(store.byHash), form, client, env)
  {
    if form.refreshToken == "" || form.clientId == "" {
      return Refused("invalid_request");
    }
    if client.None? {
      return Refused("invalid_client");
    }
    if client.value.clientId != form.clientId {
      return Refused("invalid_grant");
    }
    var r := RefreshRequest(client.value, sha(form.refreshToken), form.scope);
    if env.faults.lookup {
      return Refused("invalid_grant");
    }
    var found := store.FindByHash(r.hash);
    if found.None? {
      return Refused("invalid_grant");
    }
    var existing := found.value;
    if existing.clientId != client.value.clientId || existing.revokedAt.Some? {
      return Refused("invalid_grant");
    }
    if env.now > existing.absoluteExpiresAt || existing.expiresAt < env.now {
      return Refused("invalid_grant");
    }
    if env.faults.consume {
      return Refused("server_error");
    }
    var won, err := store.MarkConsumed(existing.id, env.now);
    if err.Some? {
      return Refused("server_error");
    }
    if !won {
      if cfg.detectReuse {
        HandleReuse(store, existing, env.now, env.faults.revoke);
      }
      return Refused("invalid_grant");
    }
    answer := AnswerWinner(store, r, existing, env);
  }

  // ---- the handler is an interleaving ----

  /** The walk of the refresh in flight, hop by hop to its end. */
  lemma {:induction false} WalkRuns(cfg: Config, ss: seq<State>, acts: seq<Action>, p: nat)
    returns (ss': seq<State>, acts': seq<Action>)
    requires Stretch(cfg, ss, acts) && RefreshAt(Last(ss), p, Walking) && Last(ss).procs.Keys == {p}
    requires var pr := Last(ss).procs[p];
             && pr.hops <= MAX_HOPS && pr.cur.id in Last(ss).db.tokens
             && TokenLater(pr.cur, Last(ss).db.tokens[pr.cur.id])
    requires forall id {:trigger Last(ss).db.tokens[id].id} | id in Last(ss).db.tokens :: Last(ss).db.tokens[id].id == id
    ensures Stretch(cfg, ss', acts') && ss'[0] == ss[0] && RefreshAt(Last(ss'), p, Walking)
    ensures Last(ss').db == Last(ss).db && Last(ss').now == Last(ss).now && Last(ss').procs.Keys == {p}
    ensures var pr, pr' := Last(ss).procs[p], Last(ss').procs[p];
            && WalkDone(Last(ss').db.tokens, pr')
            && pr' == pr.(cur := pr'.cur, hops := pr'.hops)
            && Up(Last(ss).db.tokens, pr.cur.id, MAX_HOPS - pr.hops) in Last(ss).db.tokens
            && pr'.cur.createdAt == Last(ss).db.tokens[Up(Last(ss).db.tokens, pr.cur.id, MAX_HOPS - pr.hops)].createdAt
    decreases MAX_HOPS - Last(ss).procs[p].hops
  {
    var s := Last(ss);
    if WalkDone(s.db.tokens, s.procs[p]) {
      return ss, acts;
    }
    ss', acts' := OneMore(cfg, ss, acts, Refresh(p, Hop));
    ss', acts' := WalkRuns(cfg, ss', acts', p);
  }

  /** The handler's answer is the answer on record. */
  ghost predicate OnRecord(before: Db, after: Db, id: Id, r: RefreshRequest, now: Time, answer: Answer) {
    match answer
    case Refused(_) => after.refreshes == before.refreshes
    case Tokens(scope, authTime, child) =>
      after.refreshes == before.refreshes + [Renewal(id, r, now, authTime, scope, child)]
  }

  /** Only the token store and the history of refreshes may differ, and the handler is done. */
  ghost predicate Done(s: State, s': State) {
    && s'.procs == map[] && s'.now == s.now
    && s'.db.sessions == s.db.sessions && s'.db.codes == s.db.codes && s'.db.redemptions == s.db.redemptions
  }

  lemma ChildRuns(cfg: Config, ss: seq<State>, acts: seq<Action>, p: nat, env: Surroundings)
    returns (ss': seq<State>, acts': seq<Action>)
    requires Stretch(cfg, ss, acts) && RefreshAt(Last(ss), p, Walking) && Last(ss).procs.Keys == {p}
    requires WalkDone(Last(ss).db.tokens, Last(ss).procs[p]) && Rotates(Last(ss).procs[p].refresh, Last(ss).procs[p].existing)
    requires FreshToken(Last(ss).db.tokens, env.newId, env.newHash)
    ensures Stretch(cfg, ss', acts') && ss'[0] == ss[0] && Done(Last(ss), Last(ss'))
    ensures Last(ss').db == ChildDb(Last(ss), Last(ss).procs[p], env.newId, env.newHash)
  {
    ss', acts' := OneMore(cfg, ss, acts, Refresh(p, StoreChild(env.newId, env.newHash)));
    assert Last(ss').procs == map[];
  }

  lemma ChildlessRuns(cfg: Config, ss: seq<State>, acts: seq<Action>, p: nat)
    returns (ss': seq<State>, acts': seq<Action>)
    requires Stretch(cfg, ss, acts) && RefreshAt(Last(ss), p, Walking) && Last(ss).procs.Keys == {p}
    requires WalkDone(Last(ss).db.tokens, Last(ss).procs[p]) && !Rotates(Last(ss).procs[p].refresh, Last(ss).procs[p].existing)
    ensures Stretch(cfg, ss', acts') && ss'[0] == ss[0] && Done(Last(ss), Last(ss'))
    ensures var s, pr := Last(ss), Last(ss).procs[p];
            Last(ss').db == WithRenewal(s.db, Renewal(pr.existing.id, pr.refresh, pr.at, pr.cur.createdAt, pr.scope, None))
  {
    ss', acts' := OneMore(cfg, ss, acts, Refresh(p, AnswerRefresh));
    assert Last(ss').procs == map[];
  }

  /** The answer, and the child if there is one, once the walk is done. */
  lemma AnswerRuns(cfg: Config, ss: seq<State>, acts: seq<Action>, p: nat, env: Surroundings)
    returns (ss': seq<State>, acts': seq<Action>)
    requires Stretch(cfg, ss, acts) && RefreshAt(Last(ss), p, Walking) && Last(ss).procs.Keys == {p}
    requires WalkDone(Last(ss).db.tokens, Last(ss).procs[p])
    requires FreshToken(Last(ss).db.tokens, env.newId, env.newHash)
    ensures Stretch(cfg, ss', acts') && ss'[0] == ss[0] && Done(Last(ss), Last(ss'))
    ensures var s, pr, m := Last(ss), Last(ss).procs[p], Last(ss).db.tokens;
            if !Rotates(pr.refresh, pr.existing) then
              && Last(ss').db.tokens == m
              && OnRecord(s.db, Last(ss').db, pr.existing.id, pr.refresh, pr.at, Tokens(pr.scope, pr.cur.createdAt, None))
            else if env.newHash == "" || env.faults.store then
              Last(ss').db.tokens == m && OnRecord(s.db, Last(ss').db, pr.existing.id, pr.refresh, pr.at, Refused(""))
            else
              && Last(ss').db.tokens == m[env.newId := NewChild(pr.refresh.client, pr.existing, pr.scope, pr.at, env.newId, env.newHash)]
              && OnRecord(s.db, Last(ss').db, pr.existing.id, pr.refresh, pr.at, Tokens(pr.scope, pr.cur.createdAt, Some(env.newId)))
  {
    var pr := Last(ss).procs[p];
    if !Rotates(pr.refresh, pr.existing) {
      ss', acts' := ChildlessRuns(cfg, ss, acts, p);
    } else if env.newHash == "" || env.faults.store {
      ss', acts' := StopRuns(cfg, ss, acts, p);
    } else {
      ss', acts' := ChildRuns(cfg, ss, acts, p, env);
    }
  }

  /** From the won compare-and-set to the end of the walk. */
  lemma ScopeAndWalkRun(cfg: Config, ss: seq<State>, acts: seq<Action>, p: nat)
    returns (ss': seq<State>, acts': seq<Action>)
    requires Stretch(cfg, ss, acts) && RefreshAt(Last(ss), p, Won) && Last(ss).procs.Keys == {p}
    requires var s, t := Last(ss), Last(ss).procs[p].existing;
             && t.id in s.db.tokens && TokenLater(t, s.db.tokens[t.id]) && ScopeOk(s.procs[p].refresh, t)
    requires IdsFit(Last(ss).db.tokens)
    ensures Stretch(cfg, ss', acts') && ss'[0] == ss[0] && RefreshAt(Last(ss'), p, Walking)
    ensures Last(ss').db == Last(ss).db && Last(ss').now == Last(ss).now && Last(ss').procs.Keys == {p}
    ensures var pr, pr', m := Last(ss).procs[p], Last(ss').procs[p], Last(ss).db.tokens;
            && WalkDone(m, pr') && pr'.refresh == pr.refresh && pr'.existing == pr.existing && pr'.at == pr.at
            && pr'.scope == NewScope(pr.refresh, pr.existing)
            && pr'.cur.createdAt == m[Up(m, pr.existing.id, MAX_HOPS)].createdAt
  {
    ss', acts' := OneMore(cfg, ss, acts, Refresh(p, ChooseScope));
    ss', acts' := WalkRuns(cfg, ss', acts', p);
  }

  /** From the won compare-and-set to the answer. */
  lemma WinnerRuns(cfg: Config, ss: seq<State>, acts: seq<Action>, p: nat, env: Surroundings)
    returns (ss': seq<State>, acts': seq<Action>)
    requires Stretch(cfg, ss, acts) && RefreshAt(Last(ss), p, Won) && Last(ss).procs.Keys == {p}
    requires var s, t := Last(ss), Last(ss).procs[p].existing;
             && t.id in s.db.tokens && TokenLater(t, s.db.tokens[t.id]) && s.procs[p].at == env.now
             && FreshToken(s.db.tokens, env.newId, env.newHash)
    requires IdsFit(Last(ss).db.tokens)
    ensures Stretch(cfg, ss', acts') && ss'[0] == ss[0] && Done(Last(ss), Last(ss'))
    ensures var s, pr := Last(ss), Last(ss).procs[p];
            var (answer, tokens) := RenewWon(s.db.tokens, pr.existing, pr.refresh, env);
            Last(ss').db.tokens == tokens && OnRecord(s.db, Last(ss').db, pr.existing.id, pr.refresh, env.now, answer)
  {
    var pr := Last(ss).procs[p];
    if !env.user.UserFound? || !ScopeOk(pr.refresh, pr.existing) || !env.issued {
      ss', acts' := StopRuns(cfg, ss, acts, p);
    } else {
      ss', acts' := ScopeAndWalkRun(cfg, ss, acts, p);
      ss', acts' := AnswerRuns(cfg, ss', acts', p, env);
    }
  }

  /** From the lookup to the end of a request that does not win its token. */
  lemma LoserRuns(cfg: Config, s: State, p: nat, t: Token, r: RefreshRequest, env: Surroundings)
    returns (ss: seq<State>, acts: seq<Action>)
    requires s.procs == map[] && env.now == s.now
    requires IsTokenFor(s.db.tokens, r.hash, t.id) && s.db.tokens[t.id] == t
    requires !RefreshOk(r, t, env.now) || t.consumedAt.Some? || env.faults.consume
    ensures Stretch(cfg, ss, acts) && ss[0] == s && Done(s, Last(ss)) && Last(ss).db.refreshes == s.db.refreshes
    ensures Last(ss).db.tokens == Renew(cfg, s.db.tokens, Some(t), r, env).1
    ensures Renew(cfg, s.db.tokens, Some(t), r, env).0.Refused?
  {
    ss, acts := OneMore(cfg, [s], [], Refresh(p, LookupToken(r, t.id)));
    if !RefreshOk(r, t, env.now) {
      ss, acts := StopRuns(cfg, ss, acts, p);
      return;
    }
    ss, acts := OneMore(cfg, ss, acts, Refresh(p, CheckToken));
    if env.faults.consume || !cfg.detectReuse || env.faults.revoke {
      ss, acts := StopRuns(cfg, ss, acts, p);
      return;
    }
    ss, acts := OneMore(cfg, ss, acts, Refresh(p, LoseToken));
    ss, acts := OneMore(cfg, ss, acts, Refresh(p, PunishReuse));
  }

  /** From the lookup to the won compare-and-set. */
  lemma TakeRuns(cfg: Config, s: State, p: nat, t: Token, r: RefreshRequest)
    returns (ss: seq<State>, acts: seq<Action>)
    requires s.procs == map[] && IsTokenFor(s.db.tokens, r.hash, t.id) && s.db.tokens[t.id] == t
    requires RefreshOk(r, t, s.now) && t.consumedAt.None?
    ensures Stretch(cfg, ss, acts) && ss[0] == s && RefreshAt(Last(ss), p, Won) && Last(ss).procs.Keys == {p}
    ensures Last(ss).now == s.now && Last(ss).db == s.db.(tokens := ConsumeToken(s.db.tokens, t.id, s.now))
    ensures var pr := Last(ss).procs[p]; pr.existing == t && pr.refresh == r && pr.at == s.now
  {
    ss, acts := OneMore(cfg, [s], [], Refresh(p, LookupToken(r, t.id)));
    ss, acts := OneMore(cfg, ss, acts, Refresh(p, CheckToken));
    ss, acts := OneMore(cfg, ss, acts, Refresh(p, TakeToken));
  }

  lemma FoundRuns(cfg: Config, s: State, p: nat, t: Token, r: RefreshRequest, env: Surroundings)
    returns (ss: seq<State>, acts: seq<Action>)
    requires IdsFit(s.db.tokens) && s.procs == map[] && env.now == s.now && FreshToken(s.db.tokens, env.newId, env.newHash)
    requires IsTokenFor(s.db.tokens, r.hash, t.id) && s.db.tokens[t.id] == t
    requires RefreshOk(r, t, s.now) && t.consumedAt.None? && !env.faults.consume
    ensures Stretch(cfg, ss, acts) && ss[0] == s && Done(s, Last(ss))
    ensures var (answer, tokens) := Renew(cfg, s.db.tokens, Some(t), r, env);
            Last(ss).db.tokens == tokens && OnRecord(s.db, Last(ss).db, t.id, r, env.now, answer)
  {
    ss, acts := TakeRuns(cfg, s, p, t, r);
    ss, acts := WinnerRuns(cfg, ss, acts, p, env);
  }

  /** The handler's effect and answer are those of a stretch of a serial run: whatever is proved of every run of the
      protocol therefore holds of a server that answers refresh requests with this handler. */
  lemma HandlerIsARun(cfg: Config, s: State, p: nat, found: Option<Token>, r: RefreshRequest, env: Surroundings)
    returns (ss: seq<State>, acts: seq<Action>)
    requires Inv(cfg, s) && s.procs == map[] && env.now == s.now && FreshToken(s.db.tokens, env.newId, env.newHash)
    requires found == if env.faults.lookup then None else Scan(s.db.tokens, r.hash)
    ensures Stretch(cfg, ss, acts) && ss[0] == s && Done(s, Last(ss))
    ensures var (answer, tokens) := Renew(cfg, s.db.tokens, found, r, env);
            && Last(ss).db.tokens == tokens
            && OnRecord(s.db, Last(ss).db, if found.Some? then found.value.id else 0, r, env.now, answer)
  {
    TokenIdsFit(cfg, s);
    if found.None? {
      ss, acts := [s], [];
    } else {
      var t := found.value;
      ScanFinds(s.db.tokens, r.hash);
      if !RefreshOk(r, t, env.now) || t.consumedAt.Some? || env.faults.consume {
        ss, acts := LoserRuns(cfg, s, p, t, r, env);
      } else {
        ss, acts := FoundRuns(cfg, s, p, t, r, env);
      }
    }
  }
}
