/** The authorization code grant as one handler over the code and token stores, and why it is one of the protocol's
    interleavings. */
module ExchangeHandler {
  import opened Domain
  import opened StoreSpec
  import opened Protocol
  import opened ProtocolInvariant
  import opened ProtocolProcs
  import opened ProtocolSerial
  import opened MemoryStores

  /** What the handler gets from the clock, the user store, the token issuer, the random source and the stores. */
  datatype Surroundings = Surroundings(now: Time, userFound: bool, issued: bool, newId: Id, newHash: string, faults: Faults)

  /** `Crashed` is the missing answer for a code that carries a challenge but no method. */
  datatype Answer =
    | Refused(error: string)
    | Crashed
    | Tokens(scope: string, authTime: Time, root: Option<Id>)

  datatype Form = Form(clientId: string, code: string, redirectUri: string, verifier: string)

  datatype Stores = Stores(codes: Codes, tokens: Domain.Tokens)

  // ---- specification ----

  /** The answer and the stores once the code has been consumed. */
  function RedeemWon(st: Stores, c: Code, r: CodeRequest, env: Surroundings): (Answer, Stores) {
    if !env.userFound || !env.issued then (Refused("server_error"), st)
    else if !IssuesRoot(r, c) then (Tokens(c.scope, c.createdAt, None), st)
    else if env.newHash == "" || env.faults.store then (Refused("server_error"), st)
    else
      (Tokens(c.scope, c.createdAt, Some(env.newId)),
       st.(tokens := st.tokens[env.newId := NewRoot(r.client, c, env.now, env.newId, env.newHash)]))
  }

  /** The answer and the stores after the request has passed its form checks. */
  function Redeem(cfg: Config, st: Stores, found: Option<Code>, r: CodeRequest, env: Surroundings): (Answer, Stores) {
    if found.None? || env.now > found.value.expiresAt || found.value.clientId != r.client.clientId
       || found.value.redirectUri != r.redirectUri || found.value.id !in st.codes then (Refused("invalid_grant"), st)
    else
      var c := found.value;
      if c.challenge.Some? && c.challengeMethod.None? then (Crashed, st)
      else if !PkceOk(cfg, r, c) then (Refused("invalid_grant"), st)
      else if env.faults.consume then (Refused("server_error"), st)
      else if st.codes[c.id].consumedAt.Some? then (Refused("invalid_grant"), st)
      else RedeemWon(st.(codes := ConsumeCode(st.codes, c.id, env.now)), c, r, env)
  }

  function Respond(cfg: Config, sha: string -> string, st: Stores, byHash: map<string, Id>, form: Form, client: Option<Client>,
                   env: Surroundings): (Answer, Stores)
  {
    if form.clientId == "" || form.code == "" || form.redirectUri == "" then (Refused("invalid_request"), st)
    else if client.None? || client.value.clientId != form.clientId then (Refused("invalid_client"), st)
    else
      var hash := sha(form.code);
      Redeem(cfg, st, if env.faults.lookup then None else CodeUnder(st.codes, byHash, hash),
             CodeRequest(client.value, hash, form.redirectUri, form.verifier), env)
  }

  // ---- the handler ----

  /** The PKCE comparison for the one supported method. */
  method VerifyS256(cfg: Config, m: string, verifier: string, challenge: string) returns (ok: bool)
    ensures ok <==> VerifierOk(cfg, verifier, challenge, m)
    ensures ok <==> m == "S256" && challenge != "" && 43 <= |verifier| <= 128 && cfg.s256(verifier) == challenge
  {
    if m != PKCE_METHOD {
      return false;
    }
    if challenge == "" {
      return false;
    }
    if |verifier| < 43 || |verifier| > 128 {
      return false;
    }
    return cfg.s256(verifier) == challenge;
  }

  /** What is left to do once the compare-and-set is won. */
  method AnswerWinner(tokens: RefreshTokenStore, c: Code, r: CodeRequest, env: Surroundings) returns (answer: Answer)
    requires tokens.Valid()
    modifies tokens
    ensures tokens.Valid()
    ensures old(Indexed(tokens.tokens, tokens.byHash)) && FreshToken(old(tokens.tokens), env.newId, env.newHash) ==>
              Indexed(tokens.tokens, tokens.byHash)
    ensures forall codes :: (answer, Stores(codes, tokens.tokens)) == RedeemWon(Stores(codes, old(tokens.tokens)), c, r, env)
  {
    if !env.userFound || !env.issued {
      return Refused("server_error");
    }
    var scopes := Words.Fields(c.scope);
    if r.client.allowRefreshTokens && OFFLINE_ACCESS in scopes {
      var expiresAt: Time;
      if r.client.refreshExpiration == Absolute {
        expiresAt := env.now + r.client.AbsoluteLifetime();
      } else {
        expiresAt := env.now + r.client.RefreshLifetime();
      }
      var rt := Token(env.newId, env.newHash, r.client.clientId, c.userId, c.session, None, c.scope,
                      expiresAt, env.now + r.client.AbsoluteLifetime(), None, None, env.now);
      if env.faults.store {
        return Refused("server_error");
      }
      var failed := tokens.Store(Some(rt));
      if failed.Some? {
        return Refused("server_error");
      }
      return Tokens(c.scope, c.createdAt, Some(env.newId));
    }
    return Tokens(c.scope, c.createdAt, None);
  }

  /** The whole grant: the code is consumed before anything is minted. */
  method Handle(cfg: Config, sha: string -> string, codes: AuthorizationCodeStore, tokens: RefreshTokenStore,
                form: Form, client: Option<Client>, env: Surroundings)
    returns (answer: Answer)
    requires codes.Valid() && tokens.Valid()
    modifies codes, tokens
    ensures codes.Valid() && tokens.Valid()
    ensures old(CodesIndexed(codes.codes, codes.byHash)) ==> CodesIndexed(codes.codes, codes.byHash)
    ensures old(Indexed(tokens.tokens, tokens.byHash)) && FreshToken(old(tokens.tokens), env.newId, env.newHash) ==>
              Indexed(tokens.tokens, tokens.byHash)
    ensures (answer, Stores(codes.codes, tokens.tokens)) ==
            Respond(cfg, sha, Stores(old(codes.codes), old(tokens.tokens)), old(codes.byHash), form, client, env)
  {
    if form.clientId == "" || form.code == "" || form.redirectUri == "" {
      return Refused("invalid_request");
    }
    if client.None? || client.value.clientId != form.clientId {
      return Refused("invalid_client");
    }
    var r := CodeRequest(client.value, sha(form.code), form.redirectUri, form.verifier);
    if env.faults.lookup {
      return Refused("invalid_grant");
    }
    var found := codes.FindByHash(r.hash);
    if found.None? {
      return Refused("invalid_grant");
    }
    var c := found.value;
    if env.now > c.expiresAt || c.clientId != client.value.clientId || c.redirectUri != form.redirectUri {
      return Refused("invalid_grant");
    }
    if c.challenge.Some? {
      if c.challengeMethod.None? {
        return Crashed;
      }
      var ok := VerifyS256(cfg, c.challengeMethod.value, form.verifier, c.challenge.value);
      if !ok {
        return Refused("invalid_grant");
      }
    }
    if env.faults.consume {
      return Refused("server_error");
    }
    var won, err := codes.MarkConsumed(c.id, env.now);
    if err.Some? {
      return Refused("server_error");
    }
    if !won {
      return Refused("invalid_grant");
    }
    answer := AnswerWinner(tokens, c, r, env);
  }

  // ---- the handler is an interleaving ----

  /** The handler's answer is the answer on record. */
  ghost predicate OnRecord(before: Db, after: Db, code: Id, r: CodeRequest, answer: Answer) {
    match answer
    case Refused(_) => after.redemptions == before.redemptions && after.origin == before.origin
    case Crashed => after.redemptions == before.redemptions && after.origin == before.origin
    case Tokens(scope, authTime, root) =>
      && after.redemptions == before.redemptions + [Redemption(code, r, scope, authTime, root)]
      && after.origin == (if root.Some? then before.origin[root.value := code] else before.origin)
  }

  ghost predicate Done(s: State, s': State) {
    s'.procs == map[] && s'.now == s.now && s'.db.sessions == s.db.sessions && s'.db.refreshes == s.db.refreshes
  }

  lemma FoundCodesAreStored(cfg: Config, s: State, hash: string)
    requires Inv(cfg, s)
    ensures var found := ScanCodes(s.db.codes, hash);
            found.Some? ==> found.value.id in s.db.codes && s.db.codes[found.value.id] == found.value && found.value.hash == hash
  {
    if ScanCodes(s.db.codes, hash).Some? {
      var id :| IsCodeFor(s.db.codes, hash, id) && ScanCodes(s.db.codes, hash).value == s.db.codes[id];
      assert CodeFits(cfg, s.db.codes[id], id, s.db.minted, s.db.sessions);
    }
  }

  lemma TakeRuns(cfg: Config, s: State, p: nat, c: Code, r: CodeRequest) returns (ss: seq<State>, acts: seq<Action>)
    requires s.procs == map[] && c.id in s.db.codes && s.db.codes[c.id] == c && c.hash == r.hash
    requires ExchangeOk(cfg, r, c, s.now) && c.consumedAt.None?
    ensures Stretch(cfg, ss, acts) && ss[0] == s && ExchangeAt(Last(ss), p, CodeWon) && Last(ss).procs.Keys == {p}
    ensures Last(ss).now == s.now && Last(ss).db == s.db.(codes := ConsumeCode(s.db.codes, c.id, s.now))
    ensures Last(ss).procs[p].code == c && Last(ss).procs[p].exchange == r
  {
    ss, acts := OneMore(cfg, [s], [], Exchange(p, LookupCode(r, c.id)));
    ss, acts := OneMore(cfg, ss, acts, Exchange(p, CheckCode));
    ss, acts := OneMore(cfg, ss, acts, Exchange(p, TakeCode));
  }

  lemma RootRuns(cfg: Config, ss: seq<State>, acts: seq<Action>, p: nat, env: Surroundings)
    returns (ss': seq<State>, acts': seq<Action>)
    requires Stretch(cfg, ss, acts) && ExchangeAt(Last(ss), p, CodeWon) && Last(ss).procs.Keys == {p}
    requires FreshToken(Last(ss).db.tokens, env.newId, env.newHash)
    requires IssuesRoot(Last(ss).procs[p].exchange, Last(ss).procs[p].code)
    ensures Stretch(cfg, ss', acts') && ss'[0] == ss[0] && Last(ss').procs == map[] && Last(ss').now == Last(ss).now
    ensures var s, s', pr := Last(ss), Last(ss'), Last(ss).procs[p];
            && s'.db.tokens == s.db.tokens[env.newId := NewRoot(pr.exchange.client, pr.code, s.now, env.newId, env.newHash)]
            && s'.db.redemptions == s.db.redemptions + [Redemption(pr.code.id, pr.exchange, pr.code.scope, pr.code.createdAt, Some(env.newId))]
            && s'.db.origin == s.db.origin[env.newId := pr.code.id]
            && s'.db.codes == s.db.codes && s'.db.sessions == s.db.sessions && s'.db.refreshes == s.db.refreshes
  {
    ss', acts' := OneMore(cfg, ss, acts, Exchange(p, ReadRootClock));
    ss', acts' := OneMore(cfg, ss', acts', Exchange(p, StoreRoot(env.newId, env.newHash)));
  }

  lemma WinnerRuns(cfg: Config, ss: seq<State>, acts: seq<Action>, p: nat, env: Surroundings)
    returns (ss': seq<State>, acts': seq<Action>)
    requires Stretch(cfg, ss, acts) && ExchangeAt(Last(ss), p, CodeWon) && Last(ss).procs.Keys == {p}
    requires Last(ss).now == env.now && FreshToken(Last(ss).db.tokens, env.newId, env.newHash)
    ensures Stretch(cfg, ss', acts') && ss'[0] == ss[0] && Done(Last(ss), Last(ss'))
    ensures var s, pr := Last(ss), Last(ss).procs[p];
            var (answer, st) := RedeemWon(Stores(s.db.codes, s.db.tokens), pr.code, pr.exchange, env);
            && Stores(Last(ss').db.codes, Last(ss').db.tokens) == st
            && OnRecord(s.db, Last(ss').db, pr.code.id, pr.exchange, answer)
  {
    var pr := Last(ss).procs[p];
    if !env.userFound || !env.issued || (IssuesRoot(pr.exchange, pr.code) && (env.newHash == "" || env.faults.store)) {
      ss', acts' := StopRuns(cfg, ss, acts, p);
    } else if !IssuesRoot(pr.exchange, pr.code) {
      ss', acts' := OneMore(cfg, ss, acts, Exchange(p, AnswerExchange));
    } else {
      ss', acts' := RootRuns(cfg, ss, acts, p, env);
    }
  }

  lemma FoundRuns(cfg: Config, s: State, p: nat, c: Code, r: CodeRequest, env: Surroundings)
    returns (ss: seq<State>, acts: seq<Action>)
    requires s.procs == map[] && env.now == s.now && FreshToken(s.db.tokens, env.newId, env.newHash)
    requires c.id in s.db.codes && s.db.codes[c.id] == c && c.hash == r.hash
    requires ExchangeOk(cfg, r, c, s.now) && c.consumedAt.None?
    ensures Stretch(cfg, ss, acts) && ss[0] == s && Done(s, Last(ss))
    ensures var (answer, st) := RedeemWon(Stores(ConsumeCode(s.db.codes, c.id, s.now), s.db.tokens), c, r, env);
            Stores(Last(ss).db.codes, Last(ss).db.tokens) == st && OnRecord(s.db, Last(ss).db, c.id, r, answer)
  {
    ss, acts := TakeRuns(cfg, s, p, c, r);
    ss, acts := WinnerRuns(cfg, ss, acts, p, env);
  }

  /** The handler's effect and answer are those of a stretch of a serial run. */
  lemma HandlerIsARun(cfg: Config, s: State, p: nat, found: Option<Code>, r: CodeRequest, env: Surroundings)
    returns (ss: seq<State>, acts: seq<Action>)
    requires Inv(cfg, s) && s.procs == map[] && env.now == s.now && FreshToken(s.db.tokens, env.newId, env.newHash)
    requires found == if env.faults.lookup then None else ScanCodes(s.db.codes, r.hash)
    ensures Stretch(cfg, ss, acts) && ss[0] == s && Done(s, Last(ss))
    ensures var (answer, st) := Redeem(cfg, Stores(s.db.codes, s.db.tokens), found, r, env);
            && Stores(Last(ss).db.codes, Last(ss).db.tokens) == st
            && OnRecord(s.db, Last(ss).db, if found.Some? then found.value.id else 0, r, answer)
  {
    FoundCodesAreStored(cfg, s, r.hash);
    if found.None? || !ExchangeOk(cfg, r, found.value, s.now) || found.value.consumedAt.Some? || env.faults.consume {
      ss, acts := [s], [];
    } else {
      ss, acts := FoundRuns(cfg, s, p, found.value, r, env);
    }
  }

  /** A code that carries a challenge but no method. */
  predicate Methodless(c: Code) {
    c.challenge.Some? && c.challengeMethod.None?
  }

  /** The answer goes missing exactly when a stored, unexpired code without a method is presented by its own client with its
      own redirect URI, whether or not it was used before and whatever the verifier. */
  lemma CrashIsExact(cfg: Config, st: Stores, found: Option<Code>, r: CodeRequest, env: Surroundings)
    ensures Redeem(cfg, st, found, r, env).0 == Crashed <==>
              && found.Some? && env.now <= found.value.expiresAt && found.value.id in st.codes
              && found.value.clientId == r.client.clientId && found.value.redirectUri == r.redirectUri
              && Methodless(found.value)
  {
  }

  /** Such a code is never redeemed, whoever presents it and with whatever verifier. */
  lemma ChallengeWithoutMethodIsUseless(cfg: Config, st: Stores, c: Code, r: CodeRequest, env: Surroundings)
    requires Methodless(c)
    ensures !Redeem(cfg, st, Some(c), r, env).0.Tokens? && Redeem(cfg, st, Some(c), r, env).1 == st
  {
  }
}
