/** What an authorize request is answered, told from the form, the client, the session, the configuration and the calls that
    fail. */
module AuthorizeAnswers {
  import opened Domain
  import opened AuthorizeHandler
  import Words

  /** What the client registered and the server's settings allow, whoever is signed in. */
  predicate Allowed(cfg: Config, form: Form, client: Client) {
    && form.redirectUri in client.redirectUris && form.responseType == "code"
    && form.scope != "" && (forall w | w in Words.Fields(form.scope) :: w in client.allowedScopes)
    && (client.requirePkce || cfg.requirePkce ==> form.challenge != "" && form.challengeMethod == "S256")
    && form.maxAge != Malformed
  }

  /** The cookie names a stored session that is neither revoked nor past its expiry. */
  predicate HasSession(sessions: Sessions, env: Surroundings) {
    && !env.faults.lookup && env.cookie.Some? && env.cookie.value in sessions
    && sessions[env.cookie.value].revokedAt.None? && env.now <= sessions[env.cookie.value].expiresAt
  }

  /** The session is young enough for the request; one that asks for an age of nothing never is. */
  predicate YoungEnough(sess: Session, form: Form, now: Time) {
    form.maxAge.Seconds? ==> form.maxAge.n != 0 && now - sess.createdAt <= form.maxAge.n * 1_000_000_000
  }

  predicate CountsAsSignedIn(sessions: Sessions, form: Form, env: Surroundings) {
    && HasSession(sessions, env) && YoungEnough(sessions[env.cookie.value], form, env.now) && form.prompt != "login"
  }

  /** A code is stored if and only if the form names a known client, the request is allowed, the user counts as signed in and is
      found, and the code can be stored. */
  lemma WhichRequestsMint(cfg: Config, sessions: Sessions, form: Form, client: Option<Client>, env: Surroundings)
    ensures Mints(cfg, sessions, form, client, env) <==>
              && form.clientId != "" && client.Some? && Allowed(cfg, form, client.value)
              && CountsAsSignedIn(sessions, form, env) && env.userFound && env.newHash != "" && !env.faults.store
    ensures SignedIn(sessions, form, env) <==> CountsAsSignedIn(sessions, form, env)
    ensures Mints(cfg, sessions, form, client, env) ==> Resolved(sessions, env) == Some(sessions[env.cookie.value])
  {
  }

  /** The code of such a request: its redirect URI, scope, nonce, challenge and method as far as they were given, the client, and
      the user of the session; a method without a challenge is dropped. */
  lemma WhatIsMinted(cfg: Config, sessions: Sessions, form: Form, client: Client, env: Surroundings)
    requires HasSession(sessions, env)
    ensures var sess := sessions[env.cookie.value];
            Protocol.NewCode(cfg, RequestOf(form, client), sess, env.now, env.newId, env.newHash)
            == Code(env.newId, env.newHash, client.clientId, sess.userId, Some(sess.id), form.redirectUri,
                    if form.challenge == "" then None else Some(form.challenge),
                    if form.challenge == "" || form.challengeMethod == "" then None else Some(form.challengeMethod),
                    form.scope, if form.nonce == "" then None else Some(form.nonce), env.now + cfg.authCodeLifetime, None, env.now)
  {
  }

  // ---- proof key for code exchange ----

  /** Leaving out challenge and method, a request that would get a code still gets one if and only if neither the client nor the
      server requires them. */
  lemma LeavingTheChallengeOut(cfg: Config, sessions: Sessions, form: Form, client: Client, env: Surroundings)
    requires Mints(cfg, sessions, form, Some(client), env)
    ensures Mints(cfg, sessions, form.(challenge := "", challengeMethod := ""), Some(client), env)
            <==> !client.requirePkce && !cfg.requirePkce
  {
    WhichRequestsMint(cfg, sessions, form, Some(client), env);
    WhichRequestsMint(cfg, sessions, form.(challenge := "", challengeMethod := ""), Some(client), env);
  }
}
