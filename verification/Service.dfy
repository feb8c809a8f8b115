/** The server as a whole: any sequence of handler calls, from empty stores, is a run of the protocol. */
module Service {
  import opened Domain
  import opened StoreSpec
  import opened Protocol
  import opened ProtocolProcs
  import opened ProtocolSteps
  import opened ProtocolSerial
  import opened MemoryStores
  import Authorize = AuthorizeHandler
  import Cascades
  import Exchange = ExchangeHandler
  import Refresh = RefreshHandler

  /** The clock and the three stores. */
  datatype World = World(now: Time, sessions: Sessions, codes: Codes, tokens: Tokens)

  const EMPTY := World(0, map[], map[], map[])

  datatype Call =
    | Wait(now: Time)
    | SignIn(session: Session)
    | AskForCode(authorize: Authorize.Form, client: Option<Client>, signedIn: Authorize.Surroundings)
    | RedeemCode(exchange: Exchange.Form, client: Option<Client>, around: Exchange.Surroundings)
    | RenewToken(refresh: Refresh.Form, client: Option<Client>, nearby: Refresh.Surroundings)
    | RevokePresented(raw: string, owner: Client)
    | EndUser(user: string, keep: Id)
    | EndSession(id: Id)

  /** Calls come at the time of the clock, and what they create has an id and a hash nobody has used. */
  predicate Fits(w: World, c: Call) {
    match c
    case Wait(now) => w.now <= now
    case SignIn(s) => s.id !in w.sessions && s.revokedAt.None? && s.createdAt <= w.now
    case AskForCode(_, _, env) => env.now == w.now && FreshCode(w.codes, env.newId, env.newHash)
    case RedeemCode(_, _, env) => env.now == w.now && FreshToken(w.tokens, env.newId, env.newHash)
    case RenewToken(_, _, env) => env.now == w.now && FreshToken(w.tokens, env.newId, env.newHash)
    case RevokePresented(_, _) => true
    case EndUser(_, _) => true
    case EndSession(_) => true
  }

  /** What the caller is told: nothing more, the code handed out if there is one, or the grant's answer. */
  datatype Reply =
    | Silent
    | CodeReply(code: Option<Id>)
    | Exchanged(exchanged: Exchange.Answer)
    | Refreshed(refreshed: Refresh.Answer)

  // ---- what each call does ----

  function RequestForTokens(sha: string -> string, form: Exchange.Form, client: Client): CodeRequest {
    CodeRequest(client, sha(form.code), form.redirectUri, form.verifier)
  }

  ghost function Presented(w: World, r: CodeRequest, env: Exchange.Surroundings): Option<Domain.Code> {
    if env.faults.lookup then None else ScanCodes(w.codes, r.hash)
  }

  ghost function CodeRedeemed(cfg: Config, sha: string -> string, w: World, form: Exchange.Form, client: Option<Client>,
                              env: Exchange.Surroundings): (World, Reply)
  {
    if form.clientId == "" || form.code == "" || form.redirectUri == "" then (w, Exchanged(Exchange.Refused("invalid_request")))
    else if client.None? || client.value.clientId != form.clientId then (w, Exchanged(Exchange.Refused("invalid_client")))
    else
      var r := RequestForTokens(sha, form, client.value);
      var (answer, st) := Exchange.Redeem(cfg, Exchange.Stores(w.codes, w.tokens), Presented(w, r, env), r, env);
      (w.(codes := st.codes, tokens := st.tokens), Exchanged(answer))
  }

  function RequestForMore(sha: string -> string, form: Refresh.Form, client: Client): RefreshRequest {
    RefreshRequest(client, sha(form.refreshToken), form.scope)
  }

  ghost function Shown(w: World, r: RefreshRequest, env: Refresh.Surroundings): Option<Token> {
    if env.faults.lookup then None else Scan(w.tokens, r.hash)
  }

  ghost function TokenRenewed(cfg: Config, sha: string -> string, w: World, form: Refresh.Form, client: Option<Client>,
                              env: Refresh.Surroundings): (World, Reply)
  {
    if form.refreshToken == "" || form.clientId == "" then (w, Refreshed(Refresh.Refused("invalid_request")))
    else if client.None? then (w, Refreshed(Refresh.Refused("invalid_client")))
    else if client.value.clientId != form.clientId then (w, Refreshed(Refresh.Refused("invalid_grant")))
    else
      var r := RequestForMore(sha, form, client.value);
      var (answer, m) := Refresh.Renew(cfg, w.tokens, Shown(w, r, env), r, env);
      (w.(tokens := m), Refreshed(answer))
  }

  ghost function CodeAsked(cfg: Config, w: World, form: Authorize.Form, client: Option<Client>, env: Authorize.Surroundings): (World, Reply) {
    if Authorize.Mints(cfg, w.sessions, form, client, env) then
      (w.(codes := w.codes[env.newId := NewCode(cfg, Authorize.RequestOf(form, client.value), Authorize.Resolved(w.sessions, env).value,
                                                env.now, env.newId, env.newHash)]),
       CodeReply(if env.redirectParses then Some(env.newId) else None))
    else (w, CodeReply(None))
  }

  ghost function Served(cfg: Config, sha: string -> string, w: World, c: Call): (World, Reply) {
    match c
    case Wait(now) => (w.(now := now), Silent)
    case SignIn(s) => (w.(sessions := w.sessions[s.id := s]), Silent)
    case AskForCode(form, client, env) => CodeAsked(cfg, w, form, client, env)
    case RedeemCode(form, client, env) => CodeRedeemed(cfg, sha, w, form, client, env)
    case RenewToken(form, client, env) => TokenRenewed(cfg, sha, w, form, client, env)
    case RevokePresented(raw, owner) =>
      var found := Scan(w.tokens, sha(raw));
      (if found.Some? && found.value.clientId == owner.clientId then w.(tokens := PunishTokens(w.tokens, found.value, w.now)) else w,
       Silent)
    case EndUser(user, keep) =>
      var ids := Targets(w.sessions, user, keep, w.now);
      (w.(sessions := RevokeSessions(w.sessions, ids, w.now), tokens := RevokeTokensOf(w.tokens, ids, w.now)), Silent)
    case EndSession(id) =>
      (if id !in w.sessions then w
       else w.(sessions := RevokeSession(w.sessions, id, w.now), tokens := RevokeTokensOf(w.tokens, {id}, w.now)),
       Silent)
  }

  ghost function ServedAll(cfg: Config, sha: string -> string, calls: seq<Call>): World {
    if calls == [] then EMPTY else Served(cfg, sha, ServedAll(cfg, sha, calls[..|calls| - 1]), calls[|calls| - 1]).0
  }

  /** The reply to the call after `calls`. */
  ghost function ReplyTo(cfg: Config, sha: string -> string, calls: seq<Call>, c: Call): Reply {
    Served(cfg, sha, ServedAll(cfg, sha, calls), c).1
  }

  ghost predicate AllFit(cfg: Config, sha: string -> string, calls: seq<Call>) {
    forall i | 0 <= i < |calls| :: Fits(ServedAll(cfg, sha, calls[..i]), calls[i])
  }

  // ---- the objects compute it ----

  class Server {
    var now: Time
    const sessions: SessionStore
    const codes: AuthorizationCodeStore
    const tokens: RefreshTokenStore

    ghost predicate Valid()
      reads this, sessions, codes, tokens
    {
      && codes.Valid() && tokens.Valid()
      && CodesIndexed(codes.codes, codes.byHash) && Indexed(tokens.tokens, tokens.byHash)
    }

    function Value(): World
      reads this, sessions, codes, tokens
    {
      World(now, sessions.sessions, codes.codes, tokens.tokens)
    }

    constructor ()
      ensures Valid() && Value() == EMPTY && fresh(sessions) && fresh(codes) && fresh(tokens)
    {
      now := 0;
      sessions := new SessionStore();
      codes := new AuthorizationCodeStore();
      tokens := new RefreshTokenStore();
    }

    method Serve(cfg: Config, sha: string -> string, c: Call) returns (reply: Reply)
      requires Valid() && Fits(Value(), c)
      modifies this, sessions, codes, tokens
      ensures Valid() && (Value(), reply) == Served(cfg, sha, old(Value()), c)
    {
      reply := Silent;
      match c {
        case Wait(t) =>
          now := t;
        case SignIn(s) =>
          var _ := sessions.Store(Some(s));
        case AskForCode(form, client, env) =>
          var answer := Authorize.Handle(cfg, sessions, codes, form, client, env);
          reply := CodeReply(if answer.Minted? then Some(answer.code) else None);
        case RedeemCode(form, client, env) =>
          reply := Redeem(cfg, sha, form, client, env);
        case RenewToken(form, client, env) =>
          reply := Renew(cfg, sha, form, client, env);
        case RevokePresented(raw, owner) =>
          IndexIsScan(tokens.tokens, tokens.byHash, sha(raw));
          Cascades.RevokePresented(tokens, sha, raw, owner, now);
        case EndUser(user, keep) =>
          var _ := Cascades.EndUserSessions(sessions, tokens, user, keep, now, false, {});
          assert Targets(old(sessions.sessions), user, keep, now) - {} == Targets(old(sessions.sessions), user, keep, now);
        case EndSession(id) =>
          var _ := Cascades.EndAnySession(sessions, tokens, id, now);
      }
    }

    method Redeem(cfg: Config, sha: string -> string, form: Exchange.Form, client: Option<Client>, env: Exchange.Surroundings)
      returns (reply: Reply)
      requires Valid() && Fits(Value(), RedeemCode(form, client, env))
      modifies codes, tokens
      ensures Valid() && (Value(), reply) == CodeRedeemed(cfg, sha, old(Value()), form, client, env)
    {
      CodeIndexIsScan(codes.codes, codes.byHash, sha(form.code));
      var answer := Exchange.Handle(cfg, sha, codes, tokens, form, client, env);
      return Exchanged(answer);
    }

    method Renew(cfg: Config, sha: string -> string, form: Refresh.Form, client: Option<Client>, env: Refresh.Surroundings)
      returns (reply: Reply)
      requires Valid() && Fits(Value(), RenewToken(form, client, env))
      modifies tokens
      ensures Valid() && (Value(), reply) == TokenRenewed(cfg, sha, old(Value()), form, client, env)
    {
      IndexIsScan(tokens.tokens, tokens.byHash, sha(form.refreshToken));
      var answer := Refresh.Handle(cfg, sha, tokens, form, client, env);
      return Refreshed(answer);
    }
  }

  /** Serves the calls one after the other, starting with empty stores. */
  method ServeAll(cfg: Config, sha: string -> string, calls: seq<Call>)
    returns (server: Server, replies: seq<Reply>)
    requires AllFit(cfg, sha, calls)
    ensures server.Valid() && server.Value() == ServedAll(cfg, sha, calls)
    ensures |replies| == |calls| && forall i | 0 <= i < |calls| :: replies[i] == ReplyTo(cfg, sha, calls[..i], calls[i])
  {
    server := new Server();
    replies := [];
    for i := 0 to |calls|
      invariant fresh(server) && fresh(server.sessions) && fresh(server.codes) && fresh(server.tokens)
      invariant server.Valid() && server.Value() == ServedAll(cfg, sha, calls[..i])
      invariant |replies| == i && forall j | 0 <= j < i :: replies[j] == ReplyTo(cfg, sha, calls[..j], calls[j])
    {
      assert calls[..i + 1][..i] == calls[..i];
      var reply := server.Serve(cfg, sha, calls[i]);
      replies := replies + [reply];
    }
    assert calls[..|calls|] == calls;
  }

  // ---- and it is a run of the protocol ----

  /** A call, what it found and the reply to it. */
  datatype Turn = Turn(before: World, call: Call, reply: Reply)

  ghost function Transcript(cfg: Config, sha: string -> string, calls: seq<Call>): (turns: seq<Turn>)
    ensures |turns| == |calls|
  {
    if calls == [] then []
    else
      var before, c := calls[..|calls| - 1], calls[|calls| - 1];
      Transcript(cfg, sha, before) + [Turn(ServedAll(cfg, sha, before), c, ReplyTo(cfg, sha, before, c))]
  }

  /** The redemption that an answered exchange stands for. */
  ghost function NewRedemptions(sha: string -> string, t: Turn): seq<Redemption> {
    if t.call.RedeemCode? && t.call.client.Some? && t.reply.Exchanged? && t.reply.exchanged.Tokens? then
      var r := RequestForTokens(sha, t.call.exchange, t.call.client.value);
      var found := Presented(t.before, r, t.call.around);
      var Tokens(scope, authTime, root) := t.reply.exchanged;
      [Redemption(if found.Some? then found.value.id else 0, r, scope, authTime, root)]
    else []
  }

  /** The refresh that an answered refresh request stands for. */
  ghost function NewRenewals(sha: string -> string, t: Turn): seq<Renewal> {
    if t.call.RenewToken? && t.call.client.Some? && t.reply.Refreshed? && t.reply.refreshed.Tokens? then
      var r := RequestForMore(sha, t.call.refresh, t.call.client.value);
      var found := Shown(t.before, r, t.call.nearby);
      var Tokens(scope, authTime, child) := t.reply.refreshed;
      [Renewal(if found.Some? then found.value.id else 0, r, t.before.now, authTime, scope, child)]
    else []
  }

  /** The exchanges that have been answered with tokens, in order. */
  ghost function Redemptions(sha: string -> string, turns: seq<Turn>): seq<Redemption> {
    if turns == [] then [] else Redemptions(sha, turns[..|turns| - 1]) + NewRedemptions(sha, turns[|turns| - 1])
  }

  /** The refreshes that have been answered with tokens, in order. */
  ghost function Renewals(sha: string -> string, turns: seq<Turn>): seq<Renewal> {
    if turns == [] then [] else Renewals(sha, turns[..|turns| - 1]) + NewRenewals(sha, turns[|turns| - 1])
  }

  /** Nobody is in flight, and clock and stores are those of the world. */
  ghost predicate Shows(s: State, w: World) {
    s.procs == map[] && World(s.now, s.db.sessions, s.db.codes, s.db.tokens) == w
  }

  /** The history gained exactly the answers with tokens that the reply stands for. */
  ghost predicate Records(s: State, s': State, sha: string -> string, w: World, c: Call, reply: Reply) {
    && s'.db.redemptions == s.db.redemptions + NewRedemptions(sha, Turn(w, c, reply))
    && s'.db.refreshes == s.db.refreshes + NewRenewals(sha, Turn(w, c, reply))
  }

  ghost predicate RecordsNothing(s: State, s': State) {
    s'.db.redemptions == s.db.redemptions && s'.db.refreshes == s.db.refreshes
  }

  lemma CodeCallRuns(cfg: Config, s: State, w: World, form: Authorize.Form, client: Option<Client>, env: Authorize.Surroundings)
    returns (more: seq<State>, acts: seq<Action>)
    requires Shows(s, w) && Fits(w, AskForCode(form, client, env))
    ensures Stretch(cfg, more, acts) && more[0] == s && Shows(Last(more), CodeAsked(cfg, w, form, client, env).0)
    ensures RecordsNothing(s, Last(more))
  {
    if Authorize.Mints(cfg, w.sessions, form, client, env) {
      more, acts := Authorize.MintingIsARun(cfg, s, 0, form, client.value, env);
    } else {
      more, acts := [s], [];
    }
  }

  lemma ExchangeCallRuns(cfg: Config, sha: string -> string, s: State, w: World, form: Exchange.Form, client: Option<Client>,
                         env: Exchange.Surroundings)
    returns (more: seq<State>, acts: seq<Action>)
    requires Inv(cfg, s) && Shows(s, w) && Fits(w, RedeemCode(form, client, env))
    ensures Stretch(cfg, more, acts) && more[0] == s
    ensures var (w', reply) := CodeRedeemed(cfg, sha, w, form, client, env);
            Shows(Last(more), w') && Records(s, Last(more), sha, w, RedeemCode(form, client, env), reply)
  {
    if form.clientId == "" || form.code == "" || form.redirectUri == "" || client.None? || client.value.clientId != form.clientId {
      more, acts := [s], [];
    } else {
      var r := RequestForTokens(sha, form, client.value);
      more, acts := Exchange.HandlerIsARun(cfg, s, 0, Presented(w, r, env), r, env);
    }
  }

  lemma RefreshCallRuns(cfg: Config, sha: string -> string, s: State, w: World, form: Refresh.Form, client: Option<Client>,
                        env: Refresh.Surroundings)
    returns (more: seq<State>, acts: seq<Action>)
    requires Inv(cfg, s) && Shows(s, w) && Fits(w, RenewToken(form, client, env))
    ensures Stretch(cfg, more, acts) && more[0] == s
    ensures var (w', reply) := TokenRenewed(cfg, sha, w, form, client, env);
            Shows(Last(more), w') && Records(s, Last(more), sha, w, RenewToken(form, client, env), reply)
  {
    if form.refreshToken == "" || form.clientId == "" || client.None? || client.value.clientId != form.clientId {
      more, acts := [s], [];
    } else {
      var r := RequestForMore(sha, form, client.value);
      more, acts := Refresh.HandlerIsARun(cfg, s, 0, Shown(w, r, env), r, env);
    }
  }

  lemma RevocationCallRuns(cfg: Config, s: State, w: World, found: Option<Token>, owner: Client)
    returns (more: seq<State>, acts: seq<Action>)
    requires Shows(s, w)
    ensures Stretch(cfg, more, acts) && more[0] == s && RecordsNothing(s, Last(more))
    ensures Shows(Last(more), if found.Some? && found.value.clientId == owner.clientId
                              then w.(tokens := PunishTokens(w.tokens, found.value, w.now)) else w)
  {
    if found.None? || found.value.clientId != owner.clientId {
      more, acts := [s], [];
    } else if found.value.session.Some? {
      more, acts := OneMore(cfg, [s], [], Environment(EndTokens(found.value.session.value, s.now)));
    } else {
      more, acts := OneMore(cfg, [s], [], Environment(EndToken(found.value.id, s.now)));
    }
  }

  lemma SessionCallRuns(cfg: Config, s: State, w: World, id: Id) returns (more: seq<State>, acts: seq<Action>)
    requires Shows(s, w)
    ensures Stretch(cfg, more, acts) && more[0] == s && RecordsNothing(s, Last(more))
    ensures Shows(Last(more), if id !in w.sessions then w
                              else w.(sessions := RevokeSession(w.sessions, id, w.now), tokens := RevokeTokensOf(w.tokens, {id}, w.now)))
  {
    more, acts := [s], [];
    if id in w.sessions {
      more, acts := OneMore(cfg, more, acts, Environment(EnvironmentStep.EndSession(id, s.now)));
      more, acts := OneMore(cfg, more, acts, Environment(EndTokens(id, s.now)));
    }
  }

  lemma CallRuns(cfg: Config, sha: string -> string, s: State, w: World, c: Call) returns (more: seq<State>, acts: seq<Action>)
    requires Inv(cfg, s) && Shows(s, w) && Fits(w, c)
    ensures Stretch(cfg, more, acts) && more[0] == s
    ensures var (w', reply) := Served(cfg, sha, w, c); Shows(Last(more), w') && Records(s, Last(more), sha, w, c, reply)
  {
    match c
    case Wait(now) => more, acts := OneMore(cfg, [s], [], Environment(Tick(now)));
    case SignIn(session) => more, acts := OneMore(cfg, [s], [], Environment(NewSession(session)));
    case AskForCode(form, client, env) => more, acts := CodeCallRuns(cfg, s, w, form, client, env);
    case RedeemCode(form, client, env) => more, acts := ExchangeCallRuns(cfg, sha, s, w, form, client, env);
    case RenewToken(form, client, env) => more, acts := RefreshCallRuns(cfg, sha, s, w, form, client, env);
    case RevokePresented(raw, owner) => more, acts := RevocationCallRuns(cfg, s, w, Scan(w.tokens, sha(raw)), owner);
    case EndUser(user, keep) => more, acts := Cascades.CascadeIsARun(cfg, s, user, keep);
    case EndSession(id) => more, acts := SessionCallRuns(cfg, s, w, id);
  }

  lemma OneTurnMore(sha: string -> string, turns: seq<Turn>, t: Turn)
    ensures Redemptions(sha, turns + [t]) == Redemptions(sha, turns) + NewRedemptions(sha, t)
    ensures Renewals(sha, turns + [t]) == Renewals(sha, turns) + NewRenewals(sha, t)
  {
    assert (turns + [t])[..|turns|] == turns;
  }

  /** Whatever sequence of calls the server has answered since it started empty, its clock and stores are those at the end of
      a serial run of the protocol, and the answers with tokens it has given are, one for one and in order, those in that
      run's history: every result about runs is a result about the server. */
  lemma {:induction false} ServingIsARun(cfg: Config, sha: string -> string, calls: seq<Call>)
    returns (ss: seq<State>, acts: seq<Action>)
    requires AllFit(cfg, sha, calls)
    ensures Serial(cfg, ss, acts) && Shows(Last(ss), ServedAll(cfg, sha, calls))
    ensures Last(ss).db.redemptions == Redemptions(sha, Transcript(cfg, sha, calls))
    ensures Last(ss).db.refreshes == Renewals(sha, Transcript(cfg, sha, calls))
    decreases |calls|
  {
    if calls == [] {
      ss, acts := [State(0, 0, Db(map[], map[], map[], map[], map[], map[], map[], [], []), map[])], [];
    } else {
      var before, c := calls[..|calls| - 1], calls[|calls| - 1];
      forall i | 0 <= i < |before| ensures Fits(ServedAll(cfg, sha, before[..i]), before[i]) {
        assert before[..i] == calls[..i] && before[i] == calls[i];
      }
      ss, acts := ServingIsARun(cfg, sha, before);
      RunKeeps(cfg, ss, acts, |ss| - 1);
      var more, moreActs := CallRuns(cfg, sha, Last(ss), ServedAll(cfg, sha, before), c);
      StretchGoesOn(cfg, ss, acts, more, moreActs);
      ss, acts := ss + more[1..], acts + moreActs;
      OneTurnMore(sha, Transcript(cfg, sha, before), Turn(ServedAll(cfg, sha, before), c, ReplyTo(cfg, sha, before, c)));
    }
  }
}
