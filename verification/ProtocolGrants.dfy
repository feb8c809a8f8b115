/** Scopes and PKCE: what a code was granted bounds everything minted from it. */
module ProtocolGrants {
  import opened Domain
  import opened StoreSpec
  import opened Protocol
  import opened ProtocolInvariant
  import opened ProtocolProcs
  import opened ProtocolSteps
  import opened ProtocolChains

  /** Every scope word of `a` is one of `b`. */
  predicate Narrower(a: string, b: string) {
    Words.Subset(Words.Fields(a), Words.Fields(b))
  }

  predicate Offline(scope: string) {
    OFFLINE_ACCESS in Words.Fields(scope)
  }

  /** The words of the scope a refresh settles on are the words it granted, all of them granted before. */
  lemma NewScopeIsNarrower(r: RefreshRequest, t: Token)
    requires ScopeOk(r, t)
    ensures Words.Fields(NewScope(r, t)) == Granted(r, t) && Narrower(NewScope(r, t), t.scope)
  {
    if r.scopeParam != "" {
      Words.FieldsOfJoin(Words.Fields(r.scopeParam));
    }
  }

  // ---- invariant ----

  ghost predicate CodesGranted(cfg: Config, minted: map<Id, AuthorizeRequest>) {
    forall id {:trigger AuthorizeOk(cfg, minted[id])} | id in minted :: AuthorizeOk(cfg, minted[id])
  }

  ghost predicate TokenGranted(tokens: Tokens, t: Token) {
    Offline(t.scope) && (t.parent.Some? && t.parent.value in tokens ==> Narrower(t.scope, tokens[t.parent.value].scope))
  }

  ghost predicate TokensGranted(tokens: Tokens) {
    forall id {:trigger TokenGranted(tokens, tokens[id])} | id in tokens :: TokenGranted(tokens, tokens[id])
  }

  ghost predicate RenewalsGranted(es: seq<Renewal>, tokens: Tokens) {
    forall i {:trigger es[i]} | 0 <= i < |es| :: es[i].token in tokens && Narrower(es[i].scope, tokens[es[i].token].scope)
  }

  ghost predicate ProcGranted(cfg: Config, pr: Proc) {
    match pr
    case Refreshing(phase, refresh, existing, _, _, scope, _, _) =>
      phase == Walking ==> ScopeOk(refresh, existing) && scope == NewScope(refresh, existing)
    case Exchanging(phase, exchange, code, _) => phase == CodeMinting ==> IssuesRoot(exchange, code)
    case Authorizing(_, authorize, _, _) => AuthorizeOk(cfg, authorize)
  }

  ghost predicate ProcsGranted(cfg: Config, procs: map<nat, Proc>) {
    forall p {:trigger ProcGranted(cfg, procs[p])} | p in procs :: ProcGranted(cfg, procs[p])
  }

  ghost predicate GrantInv(cfg: Config, s: State) {
    && CodesGranted(cfg, s.db.minted) && TokensGranted(s.db.tokens)
    && RenewalsGranted(s.db.refreshes, s.db.tokens) && ProcsGranted(cfg, s.procs)
  }

  // ---- kept by every step ----

  lemma TokensStayGranted(tokens: Tokens, tokens': Tokens)
    requires TokensGranted(tokens) && ParentsStored(tokens) && TokensGrow(tokens, tokens')
    requires forall id {:trigger TokenGranted(tokens', tokens'[id])} | id in tokens' && id !in tokens :: TokenGranted(tokens', tokens'[id])
    ensures TokensGranted(tokens')
  {
    forall id | id in tokens' ensures TokenGranted(tokens', tokens'[id]) {
      if id in tokens {
        assert TokenGranted(tokens, tokens[id]) && TokenLater(tokens[id], tokens'[id]);
      }
    }
  }

  lemma RenewalsStayGranted(es: seq<Renewal>, tokens: Tokens, tokens': Tokens)
    requires RenewalsGranted(es, tokens) && TokensGrow(tokens, tokens')
    ensures RenewalsGranted(es, tokens')
  {
  }

  /** A step that adds no token, no code and no answer. */
  lemma QuietGrants(cfg: Config, s: State, s': State)
    requires Inv(cfg, s) && GrantInv(cfg, s) && Grows(s.db, s'.db)
    requires s'.db.tokens.Keys == s.db.tokens.Keys && s'.db.minted == s.db.minted && s'.db.refreshes == s.db.refreshes
    requires forall p {:trigger ProcGranted(cfg, s'.procs[p])} | p in s'.procs ::
               (p in s.procs && s'.procs[p] == s.procs[p]) || ProcGranted(cfg, s'.procs[p])
    ensures GrantInv(cfg, s')
  {
    ParentsAreStored(s.db.tokens, s.db.birth, s.db.origin, s.db.codes);
    TokensStayGranted(s.db.tokens, s'.db.tokens);
    RenewalsStayGranted(s.db.refreshes, s.db.tokens, s'.db.tokens);
    forall p | p in s'.procs ensures ProcGranted(cfg, s'.procs[p]) {
      assert p in s.procs ==> ProcGranted(cfg, s.procs[p]);
    }
  }

  lemma StoreCodeGrants(cfg: Config, s: State, p: nat, id: Id, hash: string)
    requires Inv(cfg, s) && GrantInv(cfg, s) && AuthorizeEnabled(cfg, s, p, StoreCode(id, hash))
    ensures GrantInv(cfg, AuthorizeEffect(cfg, s, p, StoreCode(id, hash)))
  {
    var s' := AuthorizeEffect(cfg, s, p, StoreCode(id, hash));
    assert ProcGranted(cfg, s.procs[p]);
    forall q | q in s'.procs ensures ProcGranted(cfg, s'.procs[q]) {
      assert ProcGranted(cfg, s.procs[q]);
    }
    forall k | k in s'.db.minted ensures AuthorizeOk(cfg, s'.db.minted[k]) {
      assert k != id ==> AuthorizeOk(cfg, s.db.minted[k]);
    }
  }

  lemma QuietAuthorizeProcs(cfg: Config, s: State, p: nat, a: AuthorizeStep, q: nat)
    requires Inv(cfg, s) && GrantInv(cfg, s) && AuthorizeEnabled(cfg, s, p, a) && !a.StoreCode?
    requires q in AuthorizeEffect(cfg, s, p, a).procs
    ensures ProcGranted(cfg, AuthorizeEffect(cfg, s, p, a).procs[q])
  {
    assert q in s.procs ==> ProcGranted(cfg, s.procs[q]);
  }

  lemma AuthorizeGrants(cfg: Config, s: State, p: nat, a: AuthorizeStep)
    requires Inv(cfg, s) && GrantInv(cfg, s) && AuthorizeEnabled(cfg, s, p, a)
    ensures GrantInv(cfg, AuthorizeEffect(cfg, s, p, a))
  {
    if a.StoreCode? {
      StoreCodeGrants(cfg, s, p, a.id, a.hash);
    } else {
      AuthorizeKeeps(cfg, s, p, a);
      forall q | q in AuthorizeEffect(cfg, s, p, a).procs ensures ProcGranted(cfg, AuthorizeEffect(cfg, s, p, a).procs[q]) {
        QuietAuthorizeProcs(cfg, s, p, a, q);
      }
      QuietGrants(cfg, s, AuthorizeEffect(cfg, s, p, a));
    }
  }

  /** Adding one token whose grant is in order. */
  lemma AddedTokenGrants(tokens: Tokens, t: Token)
    requires TokensGranted(tokens) && ParentsStored(tokens) && t.id !in tokens && TokenGranted(tokens, t)
    requires t.parent.Some? ==> t.parent.value in tokens
    ensures TokensGranted(tokens[t.id := t])
  {
    TokensStayGranted(tokens, tokens[t.id := t]);
  }

  lemma ProcsWithoutGranted(cfg: Config, procs: map<nat, Proc>, p: nat)
    requires ProcsGranted(cfg, procs)
    ensures ProcsGranted(cfg, procs - {p})
  {
    forall q | q in procs - {p} ensures ProcGranted(cfg, (procs - {p})[q]) {
      assert ProcGranted(cfg, procs[q]);
    }
  }

  lemma StoreRootGrants(cfg: Config, s: State, p: nat, id: Id, hash: string)
    requires Inv(cfg, s) && GrantInv(cfg, s) && ExchangeEnabled(cfg, s, p, StoreRoot(id, hash))
    ensures GrantInv(cfg, ExchangeEffect(cfg, s, p, StoreRoot(id, hash)))
  {
    var s' := ExchangeEffect(cfg, s, p, StoreRoot(id, hash));
    assert ProcGranted(cfg, s.procs[p]);
    ParentsAreStored(s.db.tokens, s.db.birth, s.db.origin, s.db.codes);
    AddedTokenGrants(s.db.tokens, s'.db.tokens[id]);
    RenewalsStayGranted(s.db.refreshes, s.db.tokens, s'.db.tokens);
    ProcsWithoutGranted(cfg, s.procs, p);
  }

  lemma QuietExchangeProcs(cfg: Config, s: State, p: nat, x: ExchangeStep, q: nat)
    requires Inv(cfg, s) && GrantInv(cfg, s) && ExchangeEnabled(cfg, s, p, x) && !x.StoreRoot?
    requires q in ExchangeEffect(cfg, s, p, x).procs
    ensures ProcGranted(cfg, ExchangeEffect(cfg, s, p, x).procs[q])
  {
    assert q in s.procs ==> ProcGranted(cfg, s.procs[q]);
  }

  lemma ExchangeGrants(cfg: Config, s: State, p: nat, x: ExchangeStep)
    requires Inv(cfg, s) && GrantInv(cfg, s) && ExchangeEnabled(cfg, s, p, x)
    ensures GrantInv(cfg, ExchangeEffect(cfg, s, p, x))
  {
    if x.StoreRoot? {
      StoreRootGrants(cfg, s, p, x.id, x.hash);
    } else {
      ExchangeKeeps(cfg, s, p, x);
      forall q | q in ExchangeEffect(cfg, s, p, x).procs ensures ProcGranted(cfg, ExchangeEffect(cfg, s, p, x).procs[q]) {
        QuietExchangeProcs(cfg, s, p, x, q);
      }
      QuietGrants(cfg, s, ExchangeEffect(cfg, s, p, x));
    }
  }

  /** The scope a walking refresh will answer, against the stored token. */
  lemma WalkingScope(cfg: Config, s: State, p: nat)
    requires Inv(cfg, s) && GrantInv(cfg, s) && RefreshAt(s, p, Walking)
    ensures var pr := s.procs[p];
            && pr.existing.id in s.db.tokens && Narrower(pr.scope, s.db.tokens[pr.existing.id].scope)
            && (Rotates(pr.refresh, pr.existing) ==> Offline(pr.scope))
  {
    var pr := s.procs[p];
    assert ProcGranted(cfg, pr) && ProcFits(cfg, pr, s.db, s.now, s.step);
    NewScopeIsNarrower(pr.refresh, pr.existing);
  }

  lemma ChildIsGranted(cfg: Config, s: State, p: nat, id: Id, hash: string)
    requires Inv(cfg, s) && GrantInv(cfg, s) && RefreshEnabled(cfg, s, p, StoreChild(id, hash))
    ensures TokensGranted(ChildDb(s, s.procs[p], id, hash).tokens)
  {
    var pr := s.procs[p];
    WalkingScope(cfg, s, p);
    ParentsAreStored(s.db.tokens, s.db.birth, s.db.origin, s.db.codes);
    AddedTokenGrants(s.db.tokens, NewChild(pr.refresh.client, pr.existing, pr.scope, pr.at, id, hash));
  }

  lemma RenewalAddedIsGranted(es: seq<Renewal>, e: Renewal, tokens: Tokens, tokens': Tokens)
    requires RenewalsGranted(es, tokens) && TokensGrow(tokens, tokens')
    requires e.token in tokens && Narrower(e.scope, tokens[e.token].scope)
    ensures RenewalsGranted(es + [e], tokens')
  {
    RenewalsStayGranted(es, tokens, tokens');
  }

  lemma ChildRenewalIsGranted(cfg: Config, s: State, p: nat, id: Id, hash: string)
    requires Inv(cfg, s) && GrantInv(cfg, s) && RefreshEnabled(cfg, s, p, StoreChild(id, hash))
    ensures var db := ChildDb(s, s.procs[p], id, hash); RenewalsGranted(db.refreshes, db.tokens)
  {
    var pr, db := s.procs[p], ChildDb(s, s.procs[p], id, hash);
    WalkingScope(cfg, s, p);
    RenewalAddedIsGranted(s.db.refreshes, Renewal(pr.existing.id, pr.refresh, pr.at, pr.cur.createdAt, pr.scope, Some(id)),
                          s.db.tokens, db.tokens);
  }

  lemma StoreChildGrants(cfg: Config, s: State, p: nat, id: Id, hash: string)
    requires Inv(cfg, s) && GrantInv(cfg, s) && RefreshEnabled(cfg, s, p, StoreChild(id, hash))
    ensures GrantInv(cfg, RefreshEffect(cfg, s, p, StoreChild(id, hash)))
  {
    ChildIsGranted(cfg, s, p, id, hash);
    ChildRenewalIsGranted(cfg, s, p, id, hash);
    ProcsWithoutGranted(cfg, s.procs, p);
  }

  lemma AnswerRefreshGrants(cfg: Config, s: State, p: nat)
    requires Inv(cfg, s) && GrantInv(cfg, s) && RefreshEnabled(cfg, s, p, AnswerRefresh)
    ensures GrantInv(cfg, RefreshEffect(cfg, s, p, AnswerRefresh))
  {
    WalkingScope(cfg, s, p);
    ProcsWithoutGranted(cfg, s.procs, p);
  }

  lemma QuietRefreshProcs(cfg: Config, s: State, p: nat, r: RefreshStep, q: nat)
    requires Inv(cfg, s) && GrantInv(cfg, s) && RefreshEnabled(cfg, s, p, r) && !r.StoreChild? && !r.AnswerRefresh?
    requires q in RefreshEffect(cfg, s, p, r).procs
    ensures ProcGranted(cfg, RefreshEffect(cfg, s, p, r).procs[q])
  {
    assert q in s.procs ==> ProcGranted(cfg, s.procs[q]);
  }

  lemma QuietRefreshStores(cfg: Config, s: State, p: nat, r: RefreshStep)
    requires RefreshEnabled(cfg, s, p, r) && !r.StoreChild? && !r.AnswerRefresh?
    ensures var s' := RefreshEffect(cfg, s, p, r);
            s'.db.tokens.Keys == s.db.tokens.Keys && s'.db.minted == s.db.minted && s'.db.refreshes == s.db.refreshes
  {
  }

  lemma QuietRefreshGrants(cfg: Config, s: State, p: nat, r: RefreshStep)
    requires Inv(cfg, s) && GrantInv(cfg, s) && RefreshEnabled(cfg, s, p, r) && !r.StoreChild? && !r.AnswerRefresh?
    ensures GrantInv(cfg, RefreshEffect(cfg, s, p, r))
  {
    RefreshKeeps(cfg, s, p, r);
    QuietRefreshStores(cfg, s, p, r);
    forall q | q in RefreshEffect(cfg, s, p, r).procs ensures ProcGranted(cfg, RefreshEffect(cfg, s, p, r).procs[q]) {
      QuietRefreshProcs(cfg, s, p, r, q);
    }
    QuietGrants(cfg, s, RefreshEffect(cfg, s, p, r));
  }

  lemma RefreshGrants(cfg: Config, s: State, p: nat, r: RefreshStep)
    requires Inv(cfg, s) && GrantInv(cfg, s) && RefreshEnabled(cfg, s, p, r)
    ensures GrantInv(cfg, RefreshEffect(cfg, s, p, r))
  {
    if r.StoreChild? {
      StoreChildGrants(cfg, s, p, r.id, r.hash);
    } else if r.AnswerRefresh? {
      AnswerRefreshGrants(cfg, s, p);
    } else {
      QuietRefreshGrants(cfg, s, p, r);
    }
  }

  lemma EnvironmentGrants(cfg: Config, s: State, e: EnvironmentStep)
    requires Inv(cfg, s) && GrantInv(cfg, s) && EnvironmentEnabled(s, e)
    ensures GrantInv(cfg, EnvironmentEffect(s, e))
  {
    EnvironmentKeeps(cfg, s, e);
    QuietGrants(cfg, s, EnvironmentEffect(s, e));
  }

  lemma {:induction false} RunGrants(cfg: Config, ss: seq<State>, acts: seq<Action>, i: nat)
    requires Run(cfg, ss, acts) && i < |ss|
    ensures GrantInv(cfg, ss[i])
  {
    if i > 0 {
      RunGrants(cfg, ss, acts, i - 1);
      RunKeeps(cfg, ss, acts, i - 1);
      var s, a := ss[i - 1], acts[i - 1];
      assert StepAt(cfg, ss, acts, i - 1);
      match a
      case Environment(e) => EnvironmentGrants(cfg, s, e);
      case Authorize(p, b) => AuthorizeGrants(cfg, s, p, b);
      case Exchange(p, x) => ExchangeGrants(cfg, s, p, x);
      case Refresh(p, r) => RefreshGrants(cfg, s, p, r);
    }
  }

  // ---- results ----

  lemma {:induction false} NarrowerThanRoot(db: Db, id: Id)
    requires Linked(db.tokens, db.birth) && TokensGranted(db.tokens) && id in db.tokens
    ensures Narrower(db.tokens[id].scope, db.tokens[Root(db.tokens, db.birth, id)].scope)
    decreases if id in db.birth then db.birth[id].stored else 0
  {
    assert LinkFits(db.tokens, db.birth, id) && TokenGranted(db.tokens, db.tokens[id]);
    if db.tokens[id].parent.Some? {
      NarrowerThanRoot(db, db.tokens[id].parent.value);
    }
  }

  /** In every interleaving scopes only shrink: the words of a stored token are among its parent's, its chain root's,
      and the scopes its client was allowed when the code behind the chain was minted, and every stored token may be
      used offline. */
  lemma ScopesOnlyShrink(cfg: Config, ss: seq<State>, acts: seq<Action>, i: nat, id: Id)
    requires Run(cfg, ss, acts) && i < |ss| && id in ss[i].db.tokens
    ensures var db := ss[i].db;
            && Linked(db.tokens, db.birth)
            && Offline(db.tokens[id].scope)
            && (db.tokens[id].parent.Some? ==>
                  db.tokens[id].parent.value in db.tokens
                  && Narrower(db.tokens[id].scope, db.tokens[db.tokens[id].parent.value].scope))
            && var r := Root(db.tokens, db.birth, id);
               && Narrower(db.tokens[id].scope, db.tokens[r].scope)
               && r in db.origin && db.origin[r] in db.codes && db.origin[r] in db.minted
               && db.tokens[r].scope == db.codes[db.origin[r]].scope
               && Words.Subset(Words.Fields(db.tokens[id].scope), db.minted[db.origin[r]].client.allowedScopes)
  {
    RunKeeps(cfg, ss, acts, i);
    RunGrants(cfg, ss, acts, i);
    var db := ss[i].db;
    FitIsLinked(cfg, db);
    var r := Root(db.tokens, db.birth, id);
    assert LinkFits(db.tokens, db.birth, id) && TokenGranted(db.tokens, db.tokens[id]);
    assert TokenFits(db.tokens[r], r, db.tokens, db.birth, db.origin, db.codes);
    NarrowerThanRoot(db, id);
    CodeScopeIsAllowed(cfg, ss, acts, i, db.origin[r]);
  }

  /** A code's scope is what its client was allowed at the time, and a code minted while PKCE was required, by the
      client or by the server, carries a challenge with the S256 method. */
  lemma CodeScopeIsAllowed(cfg: Config, ss: seq<State>, acts: seq<Action>, i: nat, code: Id)
    requires Run(cfg, ss, acts) && i < |ss| && code in ss[i].db.codes
    ensures var db := ss[i].db;
            && code in db.minted
            && db.minted[code].redirectUri in db.minted[code].client.redirectUris
            && db.codes[code].redirectUri == db.minted[code].redirectUri
            && db.codes[code].clientId == db.minted[code].client.clientId
            && Words.Subset(Words.Fields(db.codes[code].scope), db.minted[code].client.allowedScopes)
            && (cfg.requirePkce || db.minted[code].client.requirePkce ==>
                  db.codes[code].challenge.Some? && db.codes[code].challenge.value != ""
                  && db.codes[code].challengeMethod == Some("S256"))
  {
    RunKeeps(cfg, ss, acts, i);
    RunGrants(cfg, ss, acts, i);
    var db := ss[i].db;
    assert CodeFits(cfg, db.codes[code], code, db.minted, db.sessions);
    assert AuthorizeOk(cfg, db.minted[code]);
  }

  /** A refresh never answers with a scope word the presented token did not have. */
  lemma AnswersStayInScope(cfg: Config, ss: seq<State>, acts: seq<Action>, i: nat, k: nat)
    requires Run(cfg, ss, acts) && i < |ss| && k < |ss[i].db.refreshes|
    ensures var e := ss[i].db.refreshes[k];
            e.token in ss[i].db.tokens && Narrower(e.scope, ss[i].db.tokens[e.token].scope)
  {
    RunGrants(cfg, ss, acts, i);
  }

  /** A code minted while PKCE was required is only ever redeemed with a verifier whose S256 image is its challenge. */
  lemma PkceIsEnforced(cfg: Config, ss: seq<State>, acts: seq<Action>, i: nat, k: nat)
    requires Run(cfg, ss, acts) && i < |ss| && k < |ss[i].db.redemptions|
    ensures var db, e := ss[i].db, ss[i].db.redemptions[k];
            && e.code in db.codes && e.code in db.minted
            && (cfg.requirePkce || db.minted[e.code].client.requirePkce ==>
                  && db.codes[e.code].challenge == Some(cfg.s256(e.request.verifier)) && db.codes[e.code].challengeMethod == Some("S256")
                  && 43 <= |e.request.verifier| <= 128)
  {
    CodesAreSingleUse(cfg, ss, acts, i);
    assert RedeemedProperly(cfg, ss[i].db, ss[i].db.redemptions[k]);
    CodeScopeIsAllowed(cfg, ss, acts, i, ss[i].db.redemptions[k].code);
  }
}
