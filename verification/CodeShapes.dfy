/** What an authorize request's challenge and method decide about the code minted for it. */
module CodeShapes {
  import opened Domain
  import opened Protocol
  import opened ProtocolInvariant
  import opened ProtocolSteps
  import Authorize = AuthorizeHandler
  import Exchange = ExchangeHandler
  import MemoryStores

  /** The code the authorize endpoint stores for a form. */
  function MintedCode(cfg: Config, sessions: Sessions, form: Authorize.Form, client: Client, env: Authorize.Surroundings): Code
    requires Authorize.Mints(cfg, sessions, form, Some(client), env)
  {
    NewCode(cfg, Authorize.RequestOf(form, client), Authorize.Resolved(sessions, env).value, env.now, env.newId, env.newHash)
  }

  /** The endpoint stores a code that makes the exchange fail without an answer exactly when PKCE is required by neither the
      client nor the server and the form carries a challenge and leaves the method out. */
  lemma WhichFormsMintMethodless(cfg: Config, sessions: Sessions, form: Authorize.Form, client: Client, env: Authorize.Surroundings)
    requires Authorize.Mints(cfg, sessions, form, Some(client), env)
    ensures Exchange.Methodless(MintedCode(cfg, sessions, form, client, env)) <==>
              !cfg.requirePkce && !client.requirePkce && form.challenge != "" && form.challengeMethod == ""
  {
  }

  /** Every form with a challenge that the endpoint accepts is still accepted without its method if and only if PKCE is not
      required: so wherever PKCE is optional, such codes can be minted. */
  lemma LeavingTheMethodOut(cfg: Config, sessions: Sessions, form: Authorize.Form, client: Client, env: Authorize.Surroundings)
    requires Authorize.Mints(cfg, sessions, form, Some(client), env) && form.challenge != ""
    ensures Authorize.Mints(cfg, sessions, form.(challengeMethod := ""), Some(client), env)
            <==> !cfg.requirePkce && !client.requirePkce
  {
    var bare := form.(challengeMethod := "");
    assert Authorize.RequestOf(bare, client) == Authorize.RequestOf(form, client).(challengeMethod := "");
  }

  // ---- which codes can be redeemed at all ----

  predicate HasVerifier(cfg: Config, challenge: string, verifier: string) {
    43 <= |verifier| <= 128 && cfg.s256(verifier) == challenge
  }

  /** Some client, at some moment, with some verifier, gets tokens for the code. */
  ghost predicate Redeemable(cfg: Config, c: Code) {
    exists st: Exchange.Stores, r: CodeRequest, env: Exchange.Surroundings :: Exchange.Redeem(cfg, st, Some(c), r, env).0.Tokens?
  }

  /** A minted code can be redeemed if and only if its request carried no challenge, or carried one with the S256 method that
      is the image of some verifier of admissible length. */
  lemma WhichCodesAreRedeemable(cfg: Config, sessions: Sessions, form: Authorize.Form, client: Client, env: Authorize.Surroundings)
    requires Authorize.Mints(cfg, sessions, form, Some(client), env)
    ensures Redeemable(cfg, MintedCode(cfg, sessions, form, client, env)) <==>
              form.challenge == ""
              || (form.challengeMethod == PKCE_METHOD && exists v: string :: HasVerifier(cfg, form.challenge, v))
  {
    var c := MintedCode(cfg, sessions, form, client, env);
    if Redeemable(cfg, c) {
      var st: Exchange.Stores, r: CodeRequest, at: Exchange.Surroundings :| Exchange.Redeem(cfg, st, Some(c), r, at).0.Tokens?;
      if form.challenge != "" {
        assert PkceOk(cfg, r, c);
        assert HasVerifier(cfg, form.challenge, r.verifier);
      }
    }
    if form.challenge == "" {
      Redeems(cfg, c, client, "");
    } else if form.challengeMethod == PKCE_METHOD && exists v: string :: HasVerifier(cfg, form.challenge, v) {
      var v: string :| HasVerifier(cfg, form.challenge, v);
      Redeems(cfg, c, client, v);
    }
  }

  lemma Redeems(cfg: Config, c: Code, client: Client, verifier: string)
    requires c.clientId == client.clientId && c.consumedAt.None? && PkceOk(cfg, CodeRequest(client, c.hash, c.redirectUri, verifier), c)
    ensures Redeemable(cfg, c)
  {
    var r := CodeRequest(client, c.hash, c.redirectUri, verifier);
    var at := Exchange.Surroundings(c.expiresAt, true, true, 0, "new", MemoryStores.NO_FAULTS);
    assert Exchange.Redeem(cfg, Exchange.Stores(map[c.id := c], map[]), Some(c), r, at).0.Tokens?;
  }

  /** In every interleaving a redeemed code was minted for a request without a challenge or with the S256 method. */
  lemma RedeemedCodesHadAMethod(cfg: Config, ss: seq<State>, acts: seq<Action>, i: nat, k: nat)
    requires Run(cfg, ss, acts) && i < |ss| && k < |ss[i].db.redemptions|
    ensures var db, e := ss[i].db, ss[i].db.redemptions[k];
            && e.code in db.minted
            && (db.minted[e.code].challenge == "" || db.minted[e.code].challengeMethod == PKCE_METHOD)
  {
    RunKeeps(cfg, ss, acts, i);
    var db, e := ss[i].db, ss[i].db.redemptions[k];
    assert RedemptionFits(cfg, e, db.codes, db.origin);
    assert CodeFits(cfg, db.codes[e.code], e.code, db.minted, db.sessions);
  }
}
