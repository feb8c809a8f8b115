/** The token life-cycle as an interleaving of atomic steps.

    Authorize, code-exchange and refresh handlers run as processes. Every store
    call is one step, a process keeps the record it looked up as a snapshot that
    may have gone stale, and any number of processes may be in flight. A process
    may stop at any point, which covers every error response, failed write and
    crash. Sessions and tokens may be revoked between any two steps, and the
    client record a request carries is arbitrary, so client settings may change
    between any two requests. The clock never goes back. */
module Protocol {
  import opened Domain
  import opened StoreSpec
  import Words

  /** The refresh grant follows at most this many parent links. */
  const MAX_HOPS: nat := 1000

  const PKCE_METHOD: string := "S256"

  // ---- processes ----

  datatype RefreshPhase = Looked | Checked | Won | Walking | Reused

  datatype ExchangePhase = CodeLooked | CodeChecked | CodeWon | CodeMinting

  datatype AuthorizePhase = SessionLooked | SessionChecked | SessionMinting

  /** A handler between two of its store calls. */
  datatype Proc =
    | Refreshing(
        phase: RefreshPhase, refresh: RefreshRequest, existing: Token, lookedUp: nat,
        at: Time, scope: string, cur: Token, hops: nat)
    | Exchanging(exchangePhase: ExchangePhase, exchange: CodeRequest, code: Code, at: Time)
    | Authorizing(authorizePhase: AuthorizePhase, authorize: AuthorizeRequest, sess: Session, at: Time)

  // ---- history ----

  /** How a refresh token came to be: the client record it was minted for, and the
      step numbers of the lookup that led to it and of the write that stored it. */
  datatype Birth = Birth(client: Client, lookedUp: nat, stored: nat)

  /** A code exchange answered with tokens. */
  datatype Redemption = Redemption(code: Id, request: CodeRequest, scope: string, authTime: Time, root: Option<Id>)

  /** A refresh answered with tokens; `at` is the clock reading of its expiry checks. */
  datatype Renewal = Renewal(token: Id, request: RefreshRequest, at: Time, authTime: Time, scope: string, child: Option<Id>)

  /** The three stores, and beside them the history that no handler reads:
      the request behind each code, the code behind each chain root, the birth of
      each token, the step that revoked it, and every answer that carried tokens. */
  datatype Db = Db(
    sessions: Sessions,
    codes: Codes,
    tokens: Tokens,
    minted: map<Id, AuthorizeRequest>,
    origin: map<Id, Id>,
    birth: map<Id, Birth>,
    revokedStep: map<Id, nat>,
    redemptions: seq<Redemption>,
    refreshes: seq<Renewal>)

  datatype State = State(now: Time, step: nat, db: Db, procs: map<nat, Proc>)

  /** Things that happen without a token or authorize request in flight. */
  datatype EnvironmentStep =
    | Tick(now: Time)
    | NewSession(session: Session)
    | EndSession(id: Id, at: Time)
    | EndSessions(user: string, keep: Id, at: Time)
    | EndToken(id: Id, at: Time)
    | EndTokens(sid: Id, at: Time)
    | Stop(p: nat)

  datatype AuthorizeStep =
    | LookupSession(authorize: AuthorizeRequest, id: Id)
    | CheckSession
    | ReadMintClock
    | StoreCode(id: Id, hash: string)

  datatype ExchangeStep =
    | LookupCode(exchange: CodeRequest, id: Id)
    | CheckCode
    | TakeCode
    | ReadRootClock
    | StoreRoot(id: Id, hash: string)
    | AnswerExchange

  datatype RefreshStep =
    | LookupToken(refresh: RefreshRequest, id: Id)
    | CheckToken
    | TakeToken
    | LoseToken
    | PunishReuse
    | ChooseScope
    | Hop
    | StoreChild(id: Id, hash: string)
    | AnswerRefresh

  /** A step of the environment or of process `p`. */
  datatype Action =
    | Environment(e: EnvironmentStep)
    | Authorize(p: nat, a: AuthorizeStep)
    | Exchange(p: nat, x: ExchangeStep)
    | Refresh(p: nat, r: RefreshStep)

  // ---- decisions the handlers make ----

  predicate ScopesAllowed(scope: string, allowed: seq<string>) {
    scope != "" && Words.Subset(Words.Fields(scope), allowed)
  }

  predicate PkceRequired(cfg: Config, client: Client) {
    client.requirePkce || cfg.requirePkce
  }

  /** The checks of the authorize endpoint that do not concern the session. */
  predicate AuthorizeOk(cfg: Config, r: AuthorizeRequest) {
    && r.redirectUri in r.client.redirectUris
    && ScopesAllowed(r.scope, r.client.allowedScopes)
    && (PkceRequired(cfg, r.client) ==> r.challenge != "" && r.challengeMethod == PKCE_METHOD)
  }

  predicate SessionUsable(sess: Session, now: Time) {
    sess.revokedAt.None? && now <= sess.expiresAt
  }

  predicate VerifierOk(cfg: Config, verifier: string, challenge: string, m: string) {
    && m == PKCE_METHOD && challenge != "" && 43 <= |verifier| <= 128
    && cfg.s256(verifier) == challenge
  }

  /** A code with a challenge but no method makes the handler fail without an answer. */
  predicate PkceOk(cfg: Config, r: CodeRequest, c: Code) {
    c.challenge.Some? ==> c.challengeMethod.Some? && VerifierOk(cfg, r.verifier, c.challenge.value, c.challengeMethod.value)
  }

  predicate ExchangeOk(cfg: Config, r: CodeRequest, c: Code, now: Time) {
    now <= c.expiresAt && c.clientId == r.client.clientId && c.redirectUri == r.redirectUri && PkceOk(cfg, r, c)
  }

  predicate RefreshOk(r: RefreshRequest, t: Token, now: Time) {
    t.clientId == r.client.clientId && t.revokedAt.None? && now <= t.absoluteExpiresAt && now <= t.expiresAt
  }

  function OptionalString(s: string): Option<string> {
    if s == "" then None else Some(s)
  }

  function NewCode(cfg: Config, r: AuthorizeRequest, sess: Session, at: Time, id: Id, hash: string): Code {
    Code(id, hash, r.client.clientId, sess.userId, Some(sess.id), r.redirectUri,
         OptionalString(r.challenge), if r.challenge == "" then None else OptionalString(r.challengeMethod),
         r.scope, OptionalString(r.nonce), at + cfg.authCodeLifetime, None, at)
  }

  function NewRoot(client: Client, c: Code, at: Time, id: Id, hash: string): Token {
    Token(id, hash, client.clientId, c.userId, c.session, None, c.scope,
          at + (if client.refreshExpiration == Absolute then client.AbsoluteLifetime() else client.RefreshLifetime()),
          at + client.AbsoluteLifetime(), None, None, at)
  }

  function ChildExpiry(client: Client, at: Time, ceiling: Time): Time {
    if client.refreshExpiration == Absolute then at + client.AbsoluteLifetime()
    else if at + client.RefreshLifetime() > ceiling then ceiling
    else at + client.RefreshLifetime()
  }

  function NewChild(client: Client, parent: Token, scope: string, at: Time, id: Id, hash: string): Token {
    Token(id, hash, client.clientId, parent.userId, parent.session, Some(parent.id), scope,
          ChildExpiry(client, at, parent.absoluteExpiresAt), parent.absoluteExpiresAt, None, None, at)
  }

  predicate ScopeOk(r: RefreshRequest, t: Token) {
    r.scopeParam == "" || Words.Subset(Words.Fields(r.scopeParam), Words.Fields(t.scope))
  }

  /** The words a refresh keeps. */
  function Granted(r: RefreshRequest, t: Token): seq<string> {
    if r.scopeParam == "" then Words.Fields(t.scope) else Words.Fields(r.scopeParam)
  }

  /** The scope string a refresh answers and stores. */
  function NewScope(r: RefreshRequest, t: Token): string {
    if r.scopeParam == "" then t.scope else Words.Join(Words.Fields(r.scopeParam))
  }

  predicate Rotates(r: RefreshRequest, t: Token) {
    r.client.allowRefreshTokens && OFFLINE_ACCESS in Granted(r, t)
  }

  predicate IssuesRoot(r: CodeRequest, c: Code) {
    r.client.allowRefreshTokens && OFFLINE_ACCESS in Words.Fields(c.scope)
  }

  predicate WalkDone(m: Tokens, pr: Proc)
    requires pr.Refreshing?
  {
    pr.cur.parent.None? || pr.hops == MAX_HOPS || pr.cur.parent.value !in m
  }

  predicate RefreshAt(s: State, p: nat, phase: RefreshPhase) {
    p in s.procs && s.procs[p].Refreshing? && s.procs[p].phase == phase
  }

  predicate ExchangeAt(s: State, p: nat, phase: ExchangePhase) {
    p in s.procs && s.procs[p].Exchanging? && s.procs[p].exchangePhase == phase
  }

  predicate AuthorizeAt(s: State, p: nat, phase: AuthorizePhase) {
    p in s.procs && s.procs[p].Authorizing? && s.procs[p].authorizePhase == phase
  }

  // ---- steps ----

  predicate EnvironmentEnabled(s: State, e: EnvironmentStep) {
    match e
    case Tick(now) => s.now <= now
    case NewSession(sess) => sess.id !in s.db.sessions && sess.revokedAt.None? && sess.createdAt <= s.now
    case EndSession(_, at) => at <= s.now
    case EndSessions(_, _, at) => at <= s.now
    case EndToken(_, at) => at <= s.now
    case EndTokens(_, at) => at <= s.now
    case Stop(p) => p in s.procs
  }

  predicate AuthorizeEnabled(cfg: Config, s: State, p: nat, a: AuthorizeStep) {
    match a
    case LookupSession(r, id) => p !in s.procs && id in s.db.sessions && AuthorizeOk(cfg, r)
    case CheckSession => AuthorizeAt(s, p, SessionLooked) && SessionUsable(s.procs[p].sess, s.now)
    case ReadMintClock => AuthorizeAt(s, p, SessionChecked)
    case StoreCode(id, hash) => AuthorizeAt(s, p, SessionMinting) && FreshCode(s.db.codes, id, hash)
  }

  predicate ExchangeEnabled(cfg: Config, s: State, p: nat, x: ExchangeStep) {
    match x
    case LookupCode(r, id) => p !in s.procs && id in s.db.codes && s.db.codes[id].hash == r.hash
    case CheckCode => ExchangeAt(s, p, CodeLooked) && ExchangeOk(cfg, s.procs[p].exchange, s.procs[p].code, s.now)
    case TakeCode =>
      && ExchangeAt(s, p, CodeChecked) && s.procs[p].code.id in s.db.codes
      && s.db.codes[s.procs[p].code.id].consumedAt.None?
    case ReadRootClock => ExchangeAt(s, p, CodeWon) && IssuesRoot(s.procs[p].exchange, s.procs[p].code)
    case StoreRoot(id, hash) => ExchangeAt(s, p, CodeMinting) && FreshToken(s.db.tokens, id, hash)
    case AnswerExchange => ExchangeAt(s, p, CodeWon) && !IssuesRoot(s.procs[p].exchange, s.procs[p].code)
  }

  predicate RefreshEnabled(cfg: Config, s: State, p: nat, r: RefreshStep) {
    match r
    case LookupToken(req, id) => p !in s.procs && IsTokenFor(s.db.tokens, req.hash, id)
    case CheckToken => RefreshAt(s, p, Looked) && RefreshOk(s.procs[p].refresh, s.procs[p].existing, s.now)
    case TakeToken =>
      && RefreshAt(s, p, Checked) && s.procs[p].existing.id in s.db.tokens
      && s.db.tokens[s.procs[p].existing.id].consumedAt.None?
    case LoseToken =>
      && RefreshAt(s, p, Checked) && s.procs[p].existing.id in s.db.tokens
      && s.db.tokens[s.procs[p].existing.id].consumedAt.Some? && cfg.detectReuse
    case PunishReuse => RefreshAt(s, p, Reused)
    case ChooseScope => RefreshAt(s, p, Won) && ScopeOk(s.procs[p].refresh, s.procs[p].existing)
    case Hop => RefreshAt(s, p, Walking) && !WalkDone(s.db.tokens, s.procs[p])
    case StoreChild(id, hash) =>
      && RefreshAt(s, p, Walking) && WalkDone(s.db.tokens, s.procs[p])
      && Rotates(s.procs[p].refresh, s.procs[p].existing) && FreshToken(s.db.tokens, id, hash)
    case AnswerRefresh =>
      && RefreshAt(s, p, Walking) && WalkDone(s.db.tokens, s.procs[p])
      && !Rotates(s.procs[p].refresh, s.procs[p].existing)
  }

  /** The ids that `after` shows revoked and `before` does not. */
  function NewlyRevoked(before: Tokens, after: Tokens): set<Id> {
    set id | id in before && id in after && before[id].revokedAt.None? && after[id].revokedAt.Some?
  }

  /** A revoking write to the token store, with the step that revoked each token noted. */
  function WithTokens(db: Db, after: Tokens, step: nat): Db {
    db.(tokens := after,
        revokedStep := map id | id in db.revokedStep.Keys + NewlyRevoked(db.tokens, after) ::
          if id in db.revokedStep then db.revokedStep[id] else step)
  }

  function PunishTokens(m: Tokens, used: Token, at: Time): Tokens {
    if used.session.Some? then RevokeTokensOf(m, {used.session.value}, at) else RevokeToken(m, used.id, at)
  }

  /** Process `p` goes on as `pr`, and the step is counted. */
  function SetProc(s: State, p: nat, pr: Proc, db: Db): State {
    State(s.now, s.step + 1, db, s.procs[p := pr])
  }

  /** Process `p` is over, and the step is counted. */
  function EndProc(s: State, p: nat, db: Db): State {
    State(s.now, s.step + 1, db, s.procs - {p})
  }

  function SetDb(s: State, db: Db): State {
    State(s.now, s.step + 1, db, s.procs)
  }

  function WithCode(db: Db, c: Code, r: AuthorizeRequest): Db {
    db.(codes := db.codes[c.id := c], minted := db.minted[c.id := r])
  }

  function WithRoot(db: Db, t: Token, code: Id, b: Birth): Db {
    db.(tokens := db.tokens[t.id := t], birth := db.birth[t.id := b], origin := db.origin[t.id := code])
  }

  function WithChild(db: Db, t: Token, b: Birth): Db {
    db.(tokens := db.tokens[t.id := t], birth := db.birth[t.id := b])
  }

  function WithRedemption(db: Db, e: Redemption): Db {
    db.(redemptions := db.redemptions + [e])
  }

  function WithRenewal(db: Db, e: Renewal): Db {
    db.(refreshes := db.refreshes + [e])
  }

  function RootDb(s: State, pr: Proc, id: Id, hash: string): Db
    requires pr.Exchanging?
  {
    WithRedemption(
      WithRoot(s.db, NewRoot(pr.exchange.client, pr.code, pr.at, id, hash), pr.code.id,
               Birth(pr.exchange.client, s.step, s.step)),
      Redemption(pr.code.id, pr.exchange, pr.code.scope, pr.code.createdAt, Some(id)))
  }

  function ChildDb(s: State, pr: Proc, id: Id, hash: string): Db
    requires pr.Refreshing?
  {
    WithRenewal(
      WithChild(s.db, NewChild(pr.refresh.client, pr.existing, pr.scope, pr.at, id, hash),
                Birth(pr.refresh.client, pr.lookedUp, s.step)),
      Renewal(pr.existing.id, pr.refresh, pr.at, pr.cur.createdAt, pr.scope, Some(id)))
  }

  function EnvironmentEffect(s: State, e: EnvironmentStep): State
    requires EnvironmentEnabled(s, e)
  {
    match e
    case Tick(now) => State(now, s.step + 1, s.db, s.procs)
    case NewSession(sess) => SetDb(s, s.db.(sessions := s.db.sessions[sess.id := sess]))
    case EndSession(id, at) => SetDb(s, s.db.(sessions := RevokeSession(s.db.sessions, id, at)))
    case EndSessions(user, keep, at) =>
      SetDb(s, s.db.(sessions := RevokeSessions(s.db.sessions, Targets(s.db.sessions, user, keep, at), at)))
    case EndToken(id, at) => SetDb(s, WithTokens(s.db, RevokeToken(s.db.tokens, id, at), s.step))
    case EndTokens(sid, at) => SetDb(s, WithTokens(s.db, RevokeTokensOf(s.db.tokens, {sid}, at), s.step))
    case Stop(p) => EndProc(s, p, s.db)
  }

  function AuthorizeEffect(cfg: Config, s: State, p: nat, a: AuthorizeStep): State
    requires AuthorizeEnabled(cfg, s, p, a)
  {
    match a
    case LookupSession(r, id) => SetProc(s, p, Authorizing(SessionLooked, r, s.db.sessions[id], 0), s.db)
    case CheckSession => SetProc(s, p, s.procs[p].(authorizePhase := SessionChecked), s.db)
    case ReadMintClock => SetProc(s, p, s.procs[p].(authorizePhase := SessionMinting, at := s.now), s.db)
    case StoreCode(id, hash) =>
      var pr := s.procs[p];
      EndProc(s, p, WithCode(s.db, NewCode(cfg, pr.authorize, pr.sess, pr.at, id, hash), pr.authorize))
  }

  function ExchangeEffect(cfg: Config, s: State, p: nat, x: ExchangeStep): State
    requires ExchangeEnabled(cfg, s, p, x)
  {
    match x
    case LookupCode(r, id) => SetProc(s, p, Exchanging(CodeLooked, r, s.db.codes[id], 0), s.db)
    case CheckCode => SetProc(s, p, s.procs[p].(exchangePhase := CodeChecked), s.db)
    case TakeCode =>
      SetProc(s, p, s.procs[p].(exchangePhase := CodeWon),
              s.db.(codes := ConsumeCode(s.db.codes, s.procs[p].code.id, s.now)))
    case ReadRootClock => SetProc(s, p, s.procs[p].(exchangePhase := CodeMinting, at := s.now), s.db)
    case StoreRoot(id, hash) => EndProc(s, p, RootDb(s, s.procs[p], id, hash))
    case AnswerExchange =>
      var pr := s.procs[p];
      EndProc(s, p, WithRedemption(s.db, Redemption(pr.code.id, pr.exchange, pr.code.scope, pr.code.createdAt, None)))
  }

  function RefreshEffect(cfg: Config, s: State, p: nat, r: RefreshStep): State
    requires RefreshEnabled(cfg, s, p, r)
  {
    match r
    case LookupToken(req, id) =>
      SetProc(s, p, Refreshing(Looked, req, s.db.tokens[id], s.step, 0, "", s.db.tokens[id], 0), s.db)
    case CheckToken => SetProc(s, p, s.procs[p].(phase := Checked, at := s.now), s.db)
    case TakeToken =>
      SetProc(s, p, s.procs[p].(phase := Won),
              s.db.(tokens := ConsumeToken(s.db.tokens, s.procs[p].existing.id, s.procs[p].at)))
    case LoseToken => SetProc(s, p, s.procs[p].(phase := Reused), s.db)
    case PunishReuse =>
      EndProc(s, p, WithTokens(s.db, PunishTokens(s.db.tokens, s.procs[p].existing, s.procs[p].at), s.step))
    case ChooseScope =>
      var pr := s.procs[p];
      SetProc(s, p, pr.(phase := Walking, scope := NewScope(pr.refresh, pr.existing), cur := pr.existing, hops := 0), s.db)
    case Hop =>
      var pr := s.procs[p];
      SetProc(s, p, pr.(cur := s.db.tokens[pr.cur.parent.value], hops := pr.hops + 1), s.db)
    case StoreChild(id, hash) => EndProc(s, p, ChildDb(s, s.procs[p], id, hash))
    case AnswerRefresh =>
      var pr := s.procs[p];
      EndProc(s, p, WithRenewal(s.db, Renewal(pr.existing.id, pr.refresh, pr.at, pr.cur.createdAt, pr.scope, None)))
  }

  predicate Enabled(cfg: Config, s: State, a: Action) {
    match a
    case Environment(e) => EnvironmentEnabled(s, e)
    case Authorize(p, b) => AuthorizeEnabled(cfg, s, p, b)
    case Exchange(p, x) => ExchangeEnabled(cfg, s, p, x)
    case Refresh(p, r) => RefreshEnabled(cfg, s, p, r)
  }

  function Next(cfg: Config, s: State, a: Action): State
    requires Enabled(cfg, s, a)
  {
    match a
    case Environment(e) => EnvironmentEffect(s, e)
    case Authorize(p, b) => AuthorizeEffect(cfg, s, p, b)
    case Exchange(p, x) => ExchangeEffect(cfg, s, p, x)
    case Refresh(p, r) => RefreshEffect(cfg, s, p, r)
  }

  predicate Step(cfg: Config, s: State, a: Action, s': State) {
    Enabled(cfg, s, a) && s' == Next(cfg, s, a)
  }

  predicate Init(s: State) {
    s.step == 0 && s.procs == map[] && s.db == Db(map[], map[], map[], map[], map[], map[], map[], [], [])
  }

  predicate StepAt(cfg: Config, ss: seq<State>, acts: seq<Action>, i: nat)
    requires i < |acts| && |ss| == |acts| + 1
  {
    Step(cfg, ss[i], acts[i], ss[i + 1])
  }

  /** A run: states joined by steps, the `k`-th state having seen exactly `k` actions. */
  predicate Run(cfg: Config, ss: seq<State>, acts: seq<Action>) {
    && |ss| == |acts| + 1
    && Init(ss[0])
    && forall i {:trigger StepAt(cfg, ss, acts, i)} | 0 <= i < |acts| :: StepAt(cfg, ss, acts, i)
  }
}
