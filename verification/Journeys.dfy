/** A user signs in, a client gets a code for offline access and exchanges it: the start of every run that shows what can
    happen later on. */
module Journeys {
  import opened Domain
  import opened Protocol
  import opened ProtocolSerial
  import Authorize = AuthorizeHandler
  import Exchange = ExchangeHandler
  import MemoryStores

  lemma OfflineAccessIsOneWord()
    ensures Words.Fields(OFFLINE_ACCESS) == [OFFLINE_ACCESS]
  {
    assert Words.IsWord(OFFLINE_ACCESS);
    Words.FieldsOfJoin([OFFLINE_ACCESS]);
  }

  /** A client that may get offline access, whether or not PKCE is required, with a verifier of admissible length. */
  predicate Offline(cfg: Config, client: Client, verifier: string) {
    && client.redirectUris != [] && OFFLINE_ACCESS in client.allowedScopes && client.allowRefreshTokens
    && cfg.authCodeLifetime >= 0 && 43 <= |verifier| <= 128 && cfg.s256(verifier) != ""
  }

  function SignedIn(until: Time): Session {
    Session(1, "user", 0, until, None)
  }

  lemma SignInRun(cfg: Config, until: Time) returns (ss: seq<State>, acts: seq<Action>)
    ensures Serial(cfg, ss, acts) && Last(ss).now == 0 && Last(ss).procs == map[]
    ensures Last(ss).db == Db(map[1 := SignedIn(until)], map[], map[], map[], map[], map[], map[], [], [])
  {
    var s0 := State(0, 0, Db(map[], map[], map[], map[], map[], map[], map[], [], []), map[]);
    var more, moreActs := OneMore(cfg, [s0], [], Environment(NewSession(SignedIn(until))));
    StretchGoesOn(cfg, [s0], [], more, moreActs);
    ss, acts := [s0] + more[1..], [] + moreActs;
  }

  function OfflineForm(cfg: Config, client: Client, verifier: string): Authorize.Form
    requires client.redirectUris != []
  {
    Authorize.Form(client.clientId, client.redirectUris[0], "code", OFFLINE_ACCESS, "", cfg.s256(verifier), PKCE_METHOD, "",
                   Authorize.Omitted)
  }

  /** The code that form gets at sign-in. */
  function OfflineCode(cfg: Config, client: Client, verifier: string, until: Time): Code
    requires client.redirectUris != []
  {
    NewCode(cfg, Authorize.RequestOf(OfflineForm(cfg, client, verifier), client), SignedIn(until), 0, 2, "code")
  }

  const AT_SIGN_IN := Authorize.Surroundings(Some(1), 0, true, 2, "code", true, MemoryStores.NO_FAULTS)

  lemma OfflineFormIsFine(cfg: Config, client: Client, verifier: string, until: Time)
    requires Offline(cfg, client, verifier) && until >= 0
    ensures Authorize.RequestOk(cfg, OfflineForm(cfg, client, verifier), client)
    ensures Authorize.SignedIn(map[1 := SignedIn(until)], OfflineForm(cfg, client, verifier), AT_SIGN_IN)
    ensures Authorize.Resolved(map[1 := SignedIn(until)], AT_SIGN_IN) == Some(SignedIn(until))
  {
    OfflineAccessIsOneWord();
  }

  lemma CodeRun(cfg: Config, client: Client, verifier: string, until: Time) returns (ss: seq<State>, acts: seq<Action>)
    requires Offline(cfg, client, verifier) && until >= 0
    ensures Serial(cfg, ss, acts) && Last(ss).now == 0 && Last(ss).procs == map[]
    ensures Last(ss).db.sessions == map[1 := SignedIn(until)] && Last(ss).db.refreshes == []
    ensures Last(ss).db.codes == map[2 := OfflineCode(cfg, client, verifier, until)] && Last(ss).db.tokens == map[]
  {
    ss, acts := SignInRun(cfg, until);
    OfflineFormIsFine(cfg, client, verifier, until);
    var more, moreActs := Authorize.MintingIsARun(cfg, Last(ss), 0, OfflineForm(cfg, client, verifier), client, AT_SIGN_IN);
    StretchGoesOn(cfg, ss, acts, more, moreActs);
    ss, acts := ss + more[1..], acts + moreActs;
  }

  function OfflineExchange(client: Client, verifier: string): CodeRequest
    requires client.redirectUris != []
  {
    CodeRequest(client, "code", client.redirectUris[0], verifier)
  }

  lemma OfflineExchangeIsFine(cfg: Config, client: Client, verifier: string, until: Time)
    requires Offline(cfg, client, verifier)
    ensures var c := OfflineCode(cfg, client, verifier, until);
            ExchangeOk(cfg, OfflineExchange(client, verifier), c, 0) && IssuesRoot(OfflineExchange(client, verifier), c)
  {
    OfflineAccessIsOneWord();
  }

  function OfflineRoot(cfg: Config, client: Client, verifier: string, until: Time): Token
    requires client.redirectUris != []
  {
    NewRoot(client, OfflineCode(cfg, client, verifier, until), 0, 3, "root")
  }

  /** For any session that lasts up to `until`: a serial run to the root of a chain, minted at the time of the sign-in. */
  lemma RootRun(cfg: Config, client: Client, verifier: string, until: Time) returns (ss: seq<State>, acts: seq<Action>)
    requires Offline(cfg, client, verifier) && until >= 0
    ensures Serial(cfg, ss, acts) && Last(ss).now == 0 && Last(ss).procs == map[]
    ensures Last(ss).db.sessions == map[1 := SignedIn(until)] && Last(ss).db.refreshes == []
    ensures Last(ss).db.tokens == map[3 := OfflineRoot(cfg, client, verifier, until)]
  {
    ss, acts := CodeRun(cfg, client, verifier, until);
    OfflineExchangeIsFine(cfg, client, verifier, until);
    var env := Exchange.Surroundings(0, true, true, 3, "root", MemoryStores.NO_FAULTS);
    var more, moreActs := Exchange.FoundRuns(cfg, Last(ss), 0, OfflineCode(cfg, client, verifier, until),
                                             OfflineExchange(client, verifier), env);
    StretchGoesOn(cfg, ss, acts, more, moreActs);
    ss, acts := ss + more[1..], acts + moreActs;
  }

  /** The clock moves on. */
  lemma Later(cfg: Config, ss: seq<State>, acts: seq<Action>, now: Time) returns (ss': seq<State>, acts': seq<Action>)
    requires Serial(cfg, ss, acts) && Last(ss).procs == map[] && Last(ss).now <= now
    ensures Serial(cfg, ss', acts') && ss <= ss' && Last(ss').procs == map[] && Last(ss').now == now && Last(ss').db == Last(ss).db
  {
    var more, moreActs := OneMore(cfg, [Last(ss)], [], Environment(Tick(now)));
    StretchGoesOn(cfg, ss, acts, more, moreActs);
    ss', acts' := ss + more[1..], acts + moreActs;
  }
}
