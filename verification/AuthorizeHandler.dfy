/** The authorize endpoint as one handler: which requests mint a code, and why minting is one of the protocol's
    interleavings. */
module AuthorizeHandler {
  import opened Domain
  import opened StoreSpec
  import opened Protocol
  import opened ProtocolSerial
  import opened MemoryStores

  datatype MaxAge = Omitted | Malformed | Seconds(n: nat)

  datatype Form = Form(
    clientId: string, redirectUri: string, responseType: string, scope: string, nonce: string,
    challenge: string, challengeMethod: string, prompt: string, maxAge: MaxAge)

  /** What the handler gets from the cookie, the clock, the user store, the random source, the URL library and the stores. */
  datatype Surroundings = Surroundings(
    cookie: Option<Id>, now: Time, userFound: bool, newId: Id, newHash: string, redirectParses: bool, faults: Faults)

  /** An error page of the server's own, an error sent to the redirect URI, a detour to the login page, or a code. */
  datatype Answer =
    | PageError(error: string)
    | RedirectError(error: string)
    | Login
    | Minted(code: Id)

  function RequestOf(form: Form, client: Client): AuthorizeRequest {
    AuthorizeRequest(client, form.redirectUri, form.scope, form.nonce, form.challenge, form.challengeMethod)
  }

  // ---- what the endpoint promises ----

  /** The session the request may rely on: the cookie's, if it is found, not revoked and not expired. */
  function Resolved(sessions: Sessions, env: Surroundings): Option<Session> {
    if !env.faults.lookup && env.cookie.Some? && env.cookie.value in sessions && SessionUsable(sessions[env.cookie.value], env.now)
    then Some(sessions[env.cookie.value]) else None
  }

  /** A session too old for an explicit max_age; a max_age of zero rejects every session. */
  predicate TooOld(sess: Session, maxAge: MaxAge, now: Time) {
    maxAge.Seconds? && (maxAge.n == 0 || now - sess.createdAt > maxAge.n * SECOND)
  }

  /** The protocol checks before any session is looked at. */
  predicate RequestOk(cfg: Config, form: Form, client: Client) {
    form.responseType == "code" && AuthorizeOk(cfg, RequestOf(form, client)) && !form.maxAge.Malformed?
  }

  /** The user counts as signed in for this request. */
  predicate SignedIn(sessions: Sessions, form: Form, env: Surroundings) {
    Resolved(sessions, env).Some? && !TooOld(Resolved(sessions, env).value, form.maxAge, env.now) && form.prompt != "login"
  }

  /** Everything a stored code takes. */
  predicate Mints(cfg: Config, sessions: Sessions, form: Form, client: Option<Client>, env: Surroundings) {
    && form.clientId != "" && client.Some? && RequestOk(cfg, form, client.value)
    && SignedIn(sessions, form, env) && env.userFound && env.newHash != "" && !env.faults.store
  }

  // ---- the handler ----

  method ScopeLoop(scope: string, allowed: seq<string>) returns (ok: bool)
    ensures ok <==> ScopesAllowed(scope, allowed)
    ensures ok <==> scope != "" && forall w | w in Words.Fields(scope) :: w in allowed
  {
    if scope == "" {
      return false;
    }
    ok := Words.CheckSubset(Words.Fields(scope), allowed);
  }

  /** The single place that decides whether a session is usable. */
  method Resolve(store: SessionStore, cookie: Option<Id>, now: Time, fails: bool) returns (r: Option<Session>)
    ensures r == if !fails && cookie.Some? && cookie.value in store.sessions
                    && store.sessions[cookie.value].revokedAt.None? && now <= store.sessions[cookie.value].expiresAt
                 then Some(store.sessions[cookie.value]) else None
  {
    if cookie.None? || fails {
      return None;
    }
    var sess := store.Find(cookie.value);
    if sess.None? {
      return None;
    }
    if sess.value.revokedAt.Some? || now > sess.value.expiresAt {
      return None;
    }
    return sess;
  }

  method MintCode(cfg: Config, codes: AuthorizationCodeStore, client: Client, sess: Session, form: Form, env: Surroundings)
    returns (failed: bool)
    requires codes.Valid()
    modifies codes
    ensures codes.Valid()
    ensures failed <==> env.newHash == "" || env.faults.store
    ensures codes.codes == if failed then old(codes.codes) else
              old(codes.codes)[env.newId := NewCode(cfg, RequestOf(form, client), sess, env.now, env.newId, env.newHash)]
    ensures old(CodesIndexed(codes.codes, codes.byHash)) && FreshCode(old(codes.codes), env.newId, env.newHash) ==>
              CodesIndexed(codes.codes, codes.byHash)
  {
    var challenge: Option<string> := if form.challenge == "" then None else Some(form.challenge);
    var m: Option<string> := if form.challengeMethod == "" then None else Some(form.challengeMethod);
    if form.challenge == "" {
      challenge, m := None, None;
    }
    var nonce: Option<string> := if form.nonce == "" then None else Some(form.nonce);
    var c := Code(env.newId, env.newHash, client.clientId, sess.userId, Some(sess.id), form.redirectUri, challenge, m,
                  form.scope, nonce, env.now + cfg.authCodeLifetime, None, env.now);
    if env.faults.store {
      return true;
    }
    var err := codes.Store(Some(c));
    return err.Some?;
  }

  /** A code is stored exactly for an admissible request of a signed-in, known user, and handed out if the redirect URI
      also parses. A client or redirect URI that is not registered is never redirected to, and a request for no prompt never
      leads to the login page. */
  method Handle(cfg: Config, sessions: SessionStore, codes: AuthorizationCodeStore, form: Form, client: Option<Client>,
                env: Surroundings)
    returns (answer: Answer)
    requires codes.Valid()
    modifies codes
    ensures codes.Valid()
    ensures codes.codes ==
              if Mints(cfg, sessions.sessions, form, client, env) then
                old(codes.codes)[env.newId := NewCode(cfg, RequestOf(form, client.value),
                                                      Resolved(sessions.sessions, env).value, env.now, env.newId, env.newHash)]
              else old(codes.codes)
    ensures old(CodesIndexed(codes.codes, codes.byHash)) && FreshCode(old(codes.codes), env.newId, env.newHash) ==>
              CodesIndexed(codes.codes, codes.byHash)
    ensures answer ==
              if form.clientId == "" || client.None? || form.redirectUri !in client.value.redirectUris then PageError("invalid_request")
              else if form.responseType != "code" then RedirectError("unsupported_grant_type")
              else if form.scope == "" || (exists w :: w in Words.Fields(form.scope) && w !in client.value.allowedScopes) then
                RedirectError("invalid_scope")
              else if (client.value.requirePkce || cfg.requirePkce) && (form.challenge == "" || form.challengeMethod != "S256") then
                RedirectError("invalid_request")
              else if form.maxAge.Malformed? then RedirectError("invalid_request")
              else if !SignedIn(sessions.sessions, form, env) then
                if form.prompt == "none" then RedirectError("login_required") else Login
              else if !env.userFound || env.newHash == "" || env.faults.store || !env.redirectParses then RedirectError("server_error")
              else Minted(env.newId)
    ensures answer.Minted? <==> Mints(cfg, sessions.sessions, form, client, env) && env.redirectParses
    ensures answer.Minted? ==> answer.code == env.newId
    ensures answer.PageError? <==>
              form.clientId == "" || client.None? || form.redirectUri !in client.value.redirectUris
    ensures answer.Login? <==>
              && form.clientId != "" && client.Some? && RequestOk(cfg, form, client.value)
              && !SignedIn(sessions.sessions, form, env) && form.prompt != "none"
  {
    if form.clientId == "" || client.None? {
      return PageError("invalid_request");
    }
    if form.redirectUri !in client.value.redirectUris {
      return PageError("invalid_request");
    }
    if form.responseType != "code" {
      return RedirectError("unsupported_grant_type");
    }
    var allowed := ScopeLoop(form.scope, client.value.allowedScopes);
    if !allowed {
      return RedirectError("invalid_scope");
    }
    if client.value.requirePkce || cfg.requirePkce {
      if form.challenge == "" || form.challengeMethod != PKCE_METHOD {
        return RedirectError("invalid_request");
      }
    }
    if form.maxAge.Malformed? {
      return RedirectError("invalid_request");
    }
    var sess := Resolve(sessions, env.cookie, env.now, env.faults.lookup);
    if sess.Some? && form.maxAge.Seconds? && (form.maxAge.n == 0 || env.now - sess.value.createdAt > form.maxAge.n * SECOND) {
      if form.prompt == "none" {
        return RedirectError("login_required");
      }
      sess := None;
    }
    if form.prompt == "none" {
      if sess.None? || sess.value.revokedAt.Some? || env.now > sess.value.expiresAt {
        return RedirectError("login_required");
      }
    } else if form.prompt == "login" {
      sess := None;
    }
    if sess.None? {
      return Login;
    }
    if !env.userFound {
      return RedirectError("server_error");
    }
    var failed := MintCode(cfg, codes, client.value, sess.value, form, env);
    if failed {
      return RedirectError("server_error");
    }
    if !env.redirectParses {
      return RedirectError("server_error");
    }
    return Minted(env.newId);
  }

  // ---- the handler is an interleaving ----

  /** Minting a code is a stretch of a serial run that records the request behind the code. */
  lemma MintingIsARun(cfg: Config, s: State, p: nat, form: Form, client: Client, env: Surroundings)
    returns (ss: seq<State>, acts: seq<Action>)
    requires s.procs == map[] && env.now == s.now && FreshCode(s.db.codes, env.newId, env.newHash)
    requires RequestOk(cfg, form, client) && SignedIn(s.db.sessions, form, env)
    ensures Stretch(cfg, ss, acts) && ss[0] == s && Last(ss).procs == map[] && Last(ss).now == s.now
    ensures var r := RequestOf(form, client);
            Last(ss).db == WithCode(s.db, NewCode(cfg, r, Resolved(s.db.sessions, env).value, env.now, env.newId, env.newHash), r)
  {
    ss, acts := OneMore(cfg, [s], [], Authorize(p, LookupSession(RequestOf(form, client), env.cookie.value)));
    ss, acts := OneMore(cfg, ss, acts, Authorize(p, CheckSession));
    ss, acts := OneMore(cfg, ss, acts, Authorize(p, ReadMintClock));
    ss, acts := OneMore(cfg, ss, acts, Authorize(p, StoreCode(env.newId, env.newHash)));
  }
}
