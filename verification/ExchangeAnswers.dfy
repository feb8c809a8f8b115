/** What a code exchange answers and stores, told from the form, the stored code and the calls that fail. */
module ExchangeAnswers {
  import opened Domain
  import opened ExchangeHandler
  import Words

  /** Codes sit under their own id, and what the index names is stored. */
  predicate Sound(codes: Codes, byHash: map<string, Id>) {
    && (forall id {:trigger codes[id].id} | id in codes :: codes[id].id == id)
    && (forall h {:trigger byHash[h]} | h in byHash :: byHash[h] in codes)
  }

  /** The request itself: a complete form and its authenticated client. */
  predicate Asked(form: Form, client: Option<Client>) {
    form.clientId != "" && form.code != "" && form.redirectUri != "" && client.Some? && client.value.clientId == form.clientId
  }

  /** The code is this client's for this redirect URI and has not expired. */
  predicate Suits(c: Code, form: Form, now: Time) {
    now <= c.expiresAt && c.clientId == form.clientId && c.redirectUri == form.redirectUri
  }

  /** The verifier is the one the code was asked for with. */
  predicate Proves(cfg: Config, c: Code, form: Form) {
    c.challenge.Some? ==>
      && c.challengeMethod == Some("S256") && c.challenge.value != ""
      && 43 <= |form.verifier| <= 128 && cfg.s256(form.verifier) == c.challenge.value
  }

  predicate StartsChain(c: Code, client: Client) {
    client.allowRefreshTokens && "offline_access" in Words.Fields(c.scope)
  }

  /** Everything after the compare-and-set that can still go wrong goes right. */
  predicate Finishes(c: Code, client: Client, env: Surroundings) {
    env.userFound && env.issued && (StartsChain(c, client) ==> env.newHash != "" && !env.faults.store)
  }

  predicate IsFound(sha: string -> string, byHash: map<string, Id>, form: Form, env: Surroundings) {
    !env.faults.lookup && sha(form.code) in byHash
  }

  /** An exchange is answered with tokens if and only if the form is complete, the client authenticated and the same, the code
      found, its own, unexpired and unused, the verifier right if the code has a challenge, no call fails, the user is found and
      the tokens are issued. The answer then carries the code's scope and, as auth time, the code's creation. */
  lemma WhichExchangesSucceed(cfg: Config, sha: string -> string, st: Stores, byHash: map<string, Id>, form: Form,
                              client: Option<Client>, env: Surroundings)
    requires Sound(st.codes, byHash)
    ensures var answer := Respond(cfg, sha, st, byHash, form, client, env).0;
            answer.Tokens? <==>
              && Asked(form, client) && IsFound(sha, byHash, form, env)
              && var c := st.codes[byHash[sha(form.code)]];
                 && Suits(c, form, env.now) && Proves(cfg, c, form) && c.consumedAt.None?
                 && !env.faults.consume && Finishes(c, client.value, env)
    ensures var answer := Respond(cfg, sha, st, byHash, form, client, env).0;
            answer.Tokens? ==>
              var c := st.codes[byHash[sha(form.code)]];
              && answer.scope == c.scope && answer.authTime == c.createdAt
              && answer.root == if StartsChain(c, client.value) then Some(env.newId) else None
  {
  }

  /** Which error every other request gets: a code with a challenge and no method gets no answer at all. */
  lemma WhichErrorsExchangesGet(cfg: Config, sha: string -> string, st: Stores, byHash: map<string, Id>, form: Form,
                                client: Option<Client>, env: Surroundings)
    requires Sound(st.codes, byHash)
    ensures var answer := Respond(cfg, sha, st, byHash, form, client, env).0;
            && (answer == Refused("invalid_request") <==> form.clientId == "" || form.code == "" || form.redirectUri == "")
            && (answer == Refused("invalid_client") <==>
                  && form.clientId != "" && form.code != "" && form.redirectUri != ""
                  && (client.None? || client.value.clientId != form.clientId))
            && (answer == Crashed <==>
                  && Asked(form, client) && IsFound(sha, byHash, form, env)
                  && var c := st.codes[byHash[sha(form.code)]];
                     Suits(c, form, env.now) && c.challenge.Some? && c.challengeMethod.None?)
            && (answer == Refused("server_error") <==>
                  && Asked(form, client) && IsFound(sha, byHash, form, env)
                  && var c := st.codes[byHash[sha(form.code)]];
                     && Suits(c, form, env.now) && Proves(cfg, c, form)
                     && (env.faults.consume || (c.consumedAt.None? && !Finishes(c, client.value, env))))
            && (answer.Refused? ==> answer.error in {"invalid_request", "invalid_client", "invalid_grant", "server_error"})
  {
  }

  /** The code is used up exactly by the request that finds it good and unused, whatever goes wrong after that. */
  lemma WhatExchangesDoToCodes(cfg: Config, sha: string -> string, st: Stores, byHash: map<string, Id>, form: Form,
                               client: Option<Client>, env: Surroundings)
    requires Sound(st.codes, byHash)
    ensures var after := Respond(cfg, sha, st, byHash, form, client, env).1.codes;
            if Asked(form, client) && IsFound(sha, byHash, form, env) && Suits(st.codes[byHash[sha(form.code)]], form, env.now)
               && Proves(cfg, st.codes[byHash[sha(form.code)]], form) && st.codes[byHash[sha(form.code)]].consumedAt.None?
               && !env.faults.consume
            then
              var id := byHash[sha(form.code)];
              && after.Keys == st.codes.Keys && after[id] == st.codes[id].(consumedAt := Some(env.now))
              && forall k | k in st.codes && k != id :: after[k] == st.codes[k]
            else after == st.codes
  {
  }

  /** A token is stored exactly when the answer names one: the root of a chain, with the code's user, session and scope and the
      client's lifetimes counted from now. */
  lemma WhatExchangesStore(cfg: Config, sha: string -> string, st: Stores, byHash: map<string, Id>, form: Form,
                           client: Option<Client>, env: Surroundings)
    requires Sound(st.codes, byHash)
    ensures var (answer, st') := Respond(cfg, sha, st, byHash, form, client, env);
            if answer.Tokens? && answer.root.Some? then
              var c, life := st.codes[byHash[sha(form.code)]], client.value.AbsoluteLifetime();
              && answer.root == Some(env.newId)
              && st'.tokens == st.tokens[env.newId := Token(
                   env.newId, env.newHash, form.clientId, c.userId, c.session, None, c.scope,
                   env.now + (if client.value.refreshExpiration == Absolute then life else client.value.RefreshLifetime()),
                   env.now + life, None, None, env.now)]
            else st'.tokens == st.tokens
  {
  }

  /** A lifetime is the client's setting in seconds, or thirty days if the setting is not positive. */
  lemma LifetimesFollowTheSettings(client: Client)
    ensures client.RefreshLifetime() == (if client.refreshLifetimeSeconds > 0 then client.refreshLifetimeSeconds else 30 * 24 * 3600) * 1_000_000_000
    ensures client.AbsoluteLifetime()
            == (if client.refreshAbsoluteLifetimeSeconds > 0 then client.refreshAbsoluteLifetimeSeconds else 30 * 24 * 3600) * 1_000_000_000
  {
  }
}
