/** What a refresh answers and stores, told from the form, the stored token and the calls that fail. */
module RefreshAnswers {
  import opened Domain
  import opened RefreshHandler
  import Words

  type TokenMap = map<Id, Token>

  /** Tokens sit under their own id, and what the index names is stored. */
  predicate Sound(m: TokenMap, byHash: map<string, Id>) {
    && (forall id {:trigger m[id].id} | id in m :: m[id].id == id)
    && (forall h {:trigger byHash[h]} | h in byHash :: byHash[h] in m)
  }

  /** The request itself: a complete form and its authenticated client. */
  predicate Asked(form: Form, client: Option<Client>) {
    form.refreshToken != "" && form.clientId != "" && client.Some? && client.value.clientId == form.clientId
  }

  predicate IsFound(sha: string -> string, byHash: map<string, Id>, form: Form, env: Surroundings) {
    !env.faults.lookup && sha(form.refreshToken) in byHash
  }

  /** The token is this client's, not revoked and within both of its expiries. */
  predicate Suits(t: Token, form: Form, now: Time) {
    t.clientId == form.clientId && t.revokedAt.None? && now <= t.absoluteExpiresAt && now <= t.expiresAt
  }

  /** The words asked for, or all of the token's when none are. */
  function Wanted(t: Token, form: Form): seq<string> {
    if form.scope == "" then Words.Fields(t.scope) else Words.Fields(form.scope)
  }

  predicate StaysWithin(t: Token, form: Form) {
    forall w | w in Wanted(t, form) :: w in Words.Fields(t.scope)
  }

  predicate Goes(t: Token, form: Form, client: Client) {
    client.allowRefreshTokens && "offline_access" in Wanted(t, form)
  }

  /** The new token, if there is to be one, can be stored. */
  predicate Stores(t: Token, form: Form, client: Client, env: Surroundings) {
    Goes(t, form, client) ==> env.newHash != "" && !env.faults.store
  }

  /** A refresh is answered with tokens if and only if the form is complete, the client authenticated and the same, the token
      found, its own, unrevoked, unexpired and unused, no call fails, the user still exists, the scope asked for stays within
      the token's, the tokens are issued, and the next refresh token, where one is due, can be stored. The answer then carries
      the words asked for and the creation time of the ancestor a thousand links up. */
  lemma WhichRefreshesSucceed(cfg: Config, sha: string -> string, m: TokenMap, byHash: map<string, Id>, form: Form,
                              client: Option<Client>, env: Surroundings)
    requires Sound(m, byHash)
    ensures var answer := Respond(cfg, sha, m, byHash, form, client, env).0;
            answer.Tokens? <==>
              && Asked(form, client) && IsFound(sha, byHash, form, env)
              && var t := m[byHash[sha(form.refreshToken)]];
                 && Suits(t, form, env.now) && t.consumedAt.None? && !env.faults.consume
                 && env.user == UserFound && StaysWithin(t, form) && env.issued && Stores(t, form, client.value, env)
    ensures var answer := Respond(cfg, sha, m, byHash, form, client, env).0;
            answer.Tokens? ==>
              var t := m[byHash[sha(form.refreshToken)]];
              && Words.Fields(answer.scope) == Wanted(t, form) && (form.scope == "" ==> answer.scope == t.scope)
              && answer.child == (if Goes(t, form, client.value) then Some(env.newId) else None)
              && answer.authTime == m[ProtocolInvariant.Up(m, t.id, 1000)].createdAt
  {
    if Asked(form, client) && IsFound(sha, byHash, form, env) {
      var t := m[byHash[sha(form.refreshToken)]];
      Words.FieldsOfJoin(Words.Fields(form.scope));
      UseChangesNoCreation(m, t.id, env.now, t.id, 1000);
    }
  }

  lemma {:induction false} UseChangesNoCreation(m: TokenMap, used: Id, at: Time, id: Id, hops: nat)
    requires used in m && id in m
    ensures var m' := m[used := m[used].(consumedAt := Some(at))];
            && ProtocolInvariant.Up(m', id, hops) == ProtocolInvariant.Up(m, id, hops)
            && m'[ProtocolInvariant.Up(m', id, hops)].createdAt == m[ProtocolInvariant.Up(m, id, hops)].createdAt
    decreases hops
  {
    if hops > 0 && m[id].parent.Some? && m[id].parent.value in m {
      UseChangesNoCreation(m, used, at, m[id].parent.value, hops - 1);
    }
  }

  /** The token is good and unused, and the compare-and-set is won. */
  predicate Wins(sha: string -> string, m: TokenMap, byHash: map<string, Id>, form: Form, client: Option<Client>, env: Surroundings)
    requires Sound(m, byHash)
  {
    && Asked(form, client) && IsFound(sha, byHash, form, env) && !env.faults.consume
    && var t := m[byHash[sha(form.refreshToken)]]; Suits(t, form, env.now) && t.consumedAt.None?
  }

  /** Which error every other request gets. A user that is gone is told apart from one that cannot be looked up. */
  lemma WhichErrorsRefreshesGet(cfg: Config, sha: string -> string, m: TokenMap, byHash: map<string, Id>, form: Form,
                                client: Option<Client>, env: Surroundings)
    requires Sound(m, byHash)
    ensures var answer := Respond(cfg, sha, m, byHash, form, client, env).0;
            && (answer == Refused("invalid_request") <==> form.refreshToken == "" || form.clientId == "")
            && (answer == Refused("invalid_client") <==> form.refreshToken != "" && form.clientId != "" && client.None?)
            && (answer == Refused("invalid_scope") <==>
                  && Wins(sha, m, byHash, form, client, env) && env.user == UserFound
                  && !StaysWithin(m[byHash[sha(form.refreshToken)]], form))
            && (answer == Refused("server_error") <==>
                  && Asked(form, client) && IsFound(sha, byHash, form, env)
                  && var t := m[byHash[sha(form.refreshToken)]];
                     && Suits(t, form, env.now)
                     && (|| env.faults.consume
                         || (t.consumedAt.None? && env.user == UserLookupFailed)
                         || (t.consumedAt.None? && env.user == UserFound && StaysWithin(t, form)
                             && !(env.issued && Stores(t, form, client.value, env)))))
            && (answer.Refused? ==>
                  answer.error in {"invalid_request", "invalid_client", "invalid_grant", "invalid_scope", "server_error"})
  {
  }

  /** The next token of a chain: the old one's user, session and ceiling, and in sliding mode an expiry cut off there. */
  function NextToken(client: Client, t: Token, scope: string, now: Time, id: Id, hash: string): Token {
    var sliding := now + client.RefreshLifetime();
    Token(id, hash, client.clientId, t.userId, t.session, Some(t.id), scope,
          if client.refreshExpiration == Absolute then now + client.AbsoluteLifetime()
          else if sliding < t.absoluteExpiresAt then sliding else t.absoluteExpiresAt,
          t.absoluteExpiresAt, None, None, now)
  }

  lemma ChildIsNext(client: Client, t: Token, scope: string, now: Time, id: Id, hash: string)
    ensures Protocol.NewChild(client, t, scope, now, id, hash) == NextToken(client, t, scope, now, id, hash)
  {
  }

  lemma WhatIsAdded(m: TokenMap, t: Token, r: RefreshRequest, env: Surroundings)
    requires t.id in m
    ensures var (answer, m') := RenewWon(m, t, r, env);
            m' == if answer.Tokens? && answer.child.Some?
                  then m[env.newId := NextToken(r.client, t, answer.scope, env.now, env.newId, env.newHash)] else m
  {
    ChildIsNext(r.client, t, Protocol.NewScope(r, t), env.now, env.newId, env.newHash);
  }

  lemma WinnersGoOn(cfg: Config, sha: string -> string, m: TokenMap, byHash: map<string, Id>, form: Form,
                    client: Option<Client>, env: Surroundings)
    requires Sound(m, byHash) && Wins(sha, m, byHash, form, client, env)
    ensures var t := m[byHash[sha(form.refreshToken)]];
            && t.id in m
            && Respond(cfg, sha, m, byHash, form, client, env)
               == RenewWon(m[t.id := t.(consumedAt := Some(env.now))], t,
                           RefreshRequest(client.value, sha(form.refreshToken), form.scope), env)
  {
  }

  /** The request that wins the compare-and-set uses the token up, whatever goes wrong after that, and adds at most one token,
      the next in the chain. */
  lemma WhatWinnersStore(cfg: Config, sha: string -> string, m: TokenMap, byHash: map<string, Id>, form: Form,
                         client: Option<Client>, env: Surroundings)
    requires Sound(m, byHash) && Wins(sha, m, byHash, form, client, env)
    ensures var (answer, m') := Respond(cfg, sha, m, byHash, form, client, env);
            var t := m[byHash[sha(form.refreshToken)]];
            var used := m[t.id := t.(consumedAt := Some(env.now))];
            m' == if answer.Tokens? && answer.child.Some?
                  then used[env.newId := NextToken(client.value, t, answer.scope, env.now, env.newId, env.newHash)] else used
  {
    var t := m[byHash[sha(form.refreshToken)]];
    WinnersGoOn(cfg, sha, m, byHash, form, client, env);
    WhatIsAdded(m[t.id := t.(consumedAt := Some(env.now))], t, RefreshRequest(client.value, sha(form.refreshToken), form.scope), env);
  }

  /** A good token that has been used before is reuse: with detection on, and unless the call fails, every unrevoked token of
      its session is revoked, or the token alone if it has none. */
  predicate Reuses(sha: string -> string, m: TokenMap, byHash: map<string, Id>, form: Form, client: Option<Client>, env: Surroundings)
    requires Sound(m, byHash)
  {
    && Asked(form, client) && IsFound(sha, byHash, form, env) && !env.faults.consume
    && var t := m[byHash[sha(form.refreshToken)]]; Suits(t, form, env.now) && t.consumedAt.Some?
  }

  lemma WhatLosersStore(cfg: Config, sha: string -> string, m: TokenMap, byHash: map<string, Id>, form: Form,
                        client: Option<Client>, env: Surroundings)
    requires Sound(m, byHash) && !Wins(sha, m, byHash, form, client, env)
    ensures var m' := Respond(cfg, sha, m, byHash, form, client, env).1;
            if Reuses(sha, m, byHash, form, client, env) && cfg.detectReuse && !env.faults.revoke then
              var t := m[byHash[sha(form.refreshToken)]];
              && m'.Keys == m.Keys
              && forall id | id in m ::
                   m'[id] == if m[id].revokedAt.None? && (if t.session.Some? then m[id].session == t.session else id == t.id)
                             then m[id].(revokedAt := Some(env.now)) else m[id]
            else m' == m
  {
  }
}
