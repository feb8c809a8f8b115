/** What the processes in flight satisfy, and why each token and each code has one winner. */
module ProtocolProcs {
  import opened Domain
  import opened StoreSpec
  import opened Protocol
  import opened ProtocolInvariant

  /** Past the compare-and-set: this process alone may still answer for its token. */
  predicate HoldsToken(pr: Proc) {
    pr.Refreshing? && (pr.phase == Won || pr.phase == Walking)
  }

  predicate HoldsCode(pr: Proc) {
    pr.Exchanging? && (pr.exchangePhase == CodeWon || pr.exchangePhase == CodeMinting)
  }

  // ---- each process on its own ----

  ghost predicate RefreshFits(pr: Proc, db: Db, now: Time, step: nat)
    requires pr.Refreshing?
  {
    var id := pr.existing.id;
    && id in db.tokens && TokenLater(pr.existing, db.tokens[id]) && pr.lookedUp < step
    && pr.existing.createdAt <= now
    && (pr.existing.revokedAt.None? && id in db.revokedStep ==> pr.lookedUp < db.revokedStep[id])
    && (id in db.birth ==> db.birth[id].stored < step)
    && (pr.phase != Looked ==> RefreshOk(pr.refresh, pr.existing, pr.at) && pr.existing.createdAt <= pr.at <= now)
    && (pr.phase != Looked && pr.phase != Checked ==> db.tokens[id].consumedAt.Some?)
    && (pr.phase == Walking ==>
          && pr.cur.id in db.tokens && TokenLater(pr.cur, db.tokens[pr.cur.id])
          && pr.hops <= MAX_HOPS && Up(db.tokens, id, pr.hops) == pr.cur.id)
  }

  ghost predicate ExchangeFits(cfg: Config, pr: Proc, db: Db, now: Time)
    requires pr.Exchanging?
  {
    var id := pr.code.id;
    && id in db.codes && CodeLater(pr.code, db.codes[id]) && pr.code.createdAt <= now
    && (pr.exchangePhase != CodeLooked ==>
          && pr.code.clientId == pr.exchange.client.clientId && pr.code.redirectUri == pr.exchange.redirectUri
          && PkceOk(cfg, pr.exchange, pr.code))
    && (HoldsCode(pr) ==> db.codes[id].consumedAt.Some?)
    && (pr.exchangePhase == CodeMinting ==> pr.code.createdAt <= pr.at <= now)
  }

  ghost predicate AuthorizeFits(pr: Proc, db: Db, now: Time)
    requires pr.Authorizing?
  {
    && pr.sess.id in db.sessions && SessionLater(pr.sess, db.sessions[pr.sess.id])
    && (pr.authorizePhase == SessionMinting ==> pr.at <= now)
  }

  ghost predicate ProcFits(cfg: Config, pr: Proc, db: Db, now: Time, step: nat) {
    match pr
    case Refreshing(_, _, _, _, _, _, _, _) => RefreshFits(pr, db, now, step)
    case Exchanging(_, _, _, _) => ExchangeFits(cfg, pr, db, now)
    case Authorizing(_, _, _, _) => AuthorizeFits(pr, db, now)
  }

  ghost predicate ProcsFit(cfg: Config, procs: map<nat, Proc>, db: Db, now: Time, step: nat) {
    forall p {:trigger ProcFits(cfg, procs[p], db, now, step)} | p in procs :: ProcFits(cfg, procs[p], db, now, step)
  }

  /** Tokens are not noted as revoked, nor born, earlier than they were. */
  ghost predicate NotBackdated(db: Db, db': Db, step: nat) {
    forall id {:trigger id in db'.revokedStep} | id in db'.revokedStep && id !in db.revokedStep :: step <= db'.revokedStep[id]
  }

  lemma RefreshStaysFit(pr: Proc, db: Db, db': Db, now: Time, now': Time, step: nat, step': nat)
    requires pr.Refreshing? && RefreshFits(pr, db, now, step)
    requires Grows(db, db') && NotBackdated(db, db', step) && now <= now' && step <= step'
    requires ParentsStored(db.tokens) && pr.existing.id in db.birth
    ensures RefreshFits(pr, db', now', step')
  {
    UpIsStable(db.tokens, db'.tokens, pr.existing.id, pr.hops);
  }

  lemma ProcStaysFit(cfg: Config, pr: Proc, db: Db, db': Db, now: Time, now': Time, step: nat, step': nat)
    requires ProcFits(cfg, pr, db, now, step)
    requires Grows(db, db') && NotBackdated(db, db', step) && now <= now' && step <= step'
    requires ParentsStored(db.tokens) && db.birth.Keys == db.tokens.Keys
    ensures ProcFits(cfg, pr, db', now', step')
  {
    if pr.Refreshing? {
      RefreshStaysFit(pr, db, db', now, now', step, step');
    }
  }

  // ---- one winner per token ----

  ghost predicate NoChild(tokens: Tokens, id: Id) {
    forall k {:trigger tokens[k].parent} | k in tokens :: tokens[k].parent != Some(id)
  }

  ghost predicate NotRenewed(es: seq<Renewal>, id: Id) {
    forall i | 0 <= i < |es| :: es[i].token != id
  }

  ghost predicate UnspentIsBarren(tokens: Tokens, es: seq<Renewal>) {
    forall id {:trigger NoChild(tokens, id)} {:trigger NotRenewed(es, id)} | id in tokens && tokens[id].consumedAt.None? ::
      NoChild(tokens, id) && NotRenewed(es, id)
  }

  ghost predicate HeldIsBarren(tokens: Tokens, es: seq<Renewal>, procs: map<nat, Proc>) {
    forall p | p in procs && HoldsToken(procs[p]) ::
      NoChild(tokens, procs[p].existing.id) && NotRenewed(es, procs[p].existing.id)
  }

  ghost predicate HoldersDiffer(procs: map<nat, Proc>) {
    forall p, q | p in procs && q in procs && p != q && HoldsToken(procs[p]) && HoldsToken(procs[q]) ::
      procs[p].existing.id != procs[q].existing.id
  }

  ghost predicate OnlyChildren(tokens: Tokens) {
    forall k, l {:trigger tokens[k].parent, tokens[l].parent} | k in tokens && l in tokens && k != l && tokens[k].parent.Some? ::
      tokens[k].parent != tokens[l].parent
  }

  ghost predicate RenewedOnce(es: seq<Renewal>) {
    forall i, j | 0 <= i < j < |es| :: es[i].token != es[j].token
  }

  ghost predicate OneTokenWinner(tokens: Tokens, es: seq<Renewal>, procs: map<nat, Proc>) {
    && UnspentIsBarren(tokens, es) && HeldIsBarren(tokens, es, procs) && HoldersDiffer(procs)
    && OnlyChildren(tokens) && RenewedOnce(es)
  }

  /** Every holder after was a holder of the same token before. */
  ghost predicate NoNewHolder(procs: map<nat, Proc>, procs': map<nat, Proc>) {
    forall p | p in procs' && HoldsToken(procs'[p]) ::
      p in procs && HoldsToken(procs[p]) && procs[p].existing.id == procs'[p].existing.id
  }

  lemma WinnerKept(tokens: Tokens, tokens': Tokens, es: seq<Renewal>, procs: map<nat, Proc>, procs': map<nat, Proc>)
    requires OneTokenWinner(tokens, es, procs)
    requires TokensGrow(tokens, tokens') && tokens'.Keys == tokens.Keys && NoNewHolder(procs, procs')
    ensures OneTokenWinner(tokens', es, procs')
  {
    forall id | id in tokens && NoChild(tokens, id) ensures NoChild(tokens', id) {
    }
    assert UnspentIsBarren(tokens', es);
    assert HeldIsBarren(tokens', es, procs');
  }

  /** Winning the compare-and-set makes `p` the only holder. */
  lemma WinnerTakes(tokens: Tokens, at: Time, es: seq<Renewal>, procs: map<nat, Proc>, p: nat, pr: Proc)
    requires OneTokenWinner(tokens, es, procs)
    requires HoldsToken(pr) && pr.existing.id in tokens && tokens[pr.existing.id].consumedAt.None?
    requires forall q | q in procs && HoldsToken(procs[q]) ::
               procs[q].existing.id in tokens && tokens[procs[q].existing.id].consumedAt.Some?
    ensures OneTokenWinner(ConsumeToken(tokens, pr.existing.id, at), es, procs[p := pr])
  {
    var tokens' := ConsumeToken(tokens, pr.existing.id, at);
    assert NoChild(tokens, pr.existing.id) && NotRenewed(es, pr.existing.id);
    forall id | id in tokens && NoChild(tokens, id) ensures NoChild(tokens', id) {
    }
    assert UnspentIsBarren(tokens', es);
    assert HeldIsBarren(tokens', es, procs[p := pr]);
    assert HoldersDiffer(procs[p := pr]);
  }

  /** The winner of a token answers for it and lets go of it. */
  lemma WinnerAnswers(tokens: Tokens, es: seq<Renewal>, e: Renewal, procs: map<nat, Proc>, p: nat)
    requires OneTokenWinner(tokens, es, procs)
    requires p in procs && HoldsToken(procs[p]) && e.token == procs[p].existing.id
    requires e.token in tokens && tokens[e.token].consumedAt.Some?
    ensures OneTokenWinner(tokens, es + [e], procs - {p})
  {
    assert NotRenewed(es, e.token);
    forall id | NotRenewed(es, id) && id != e.token ensures NotRenewed(es + [e], id) {
    }
    assert UnspentIsBarren(tokens, es + [e]);
    assert HeldIsBarren(tokens, es + [e], procs - {p});
  }

  /** A new token without children, whose parent, if any, had none and is no longer held. */
  lemma WinnerBreeds(tokens: Tokens, t: Token, es: seq<Renewal>, procs: map<nat, Proc>)
    requires OneTokenWinner(tokens, es, procs) && ParentsStored(tokens) && t.id !in tokens
    requires forall i | 0 <= i < |es| :: es[i].token in tokens
    requires t.parent.Some? ==>
               && t.parent.value in tokens && tokens[t.parent.value].consumedAt.Some? && NoChild(tokens, t.parent.value)
               && forall q | q in procs && HoldsToken(procs[q]) :: procs[q].existing.id != t.parent.value
    requires forall q | q in procs && HoldsToken(procs[q]) :: procs[q].existing.id in tokens
    ensures OneTokenWinner(tokens[t.id := t], es, procs)
  {
    var tokens' := tokens[t.id := t];
    forall id | id in tokens && NoChild(tokens, id) && t.parent != Some(id) ensures NoChild(tokens', id) {
    }
    assert NoChild(tokens', t.id);
    assert NotRenewed(es, t.id);
    assert UnspentIsBarren(tokens', es);
    assert HeldIsBarren(tokens', es, procs);
    assert OnlyChildren(tokens');
  }

  // ---- one winner per code ----

  ghost predicate NoRoot(origin: map<Id, Id>, code: Id) {
    forall k | k in origin :: origin[k] != code
  }

  ghost predicate NotRedeemed(es: seq<Redemption>, code: Id) {
    forall i | 0 <= i < |es| :: es[i].code != code
  }

  ghost predicate UnspentCodeIsBarren(codes: Codes, origin: map<Id, Id>, es: seq<Redemption>) {
    && (forall id {:trigger NoRoot(origin, id)} {:trigger NotRedeemed(es, id)} | id in codes && codes[id].consumedAt.None? ::
          NoRoot(origin, id) && NotRedeemed(es, id))
    && (forall k | k in origin :: origin[k] in codes)
    && (forall i | 0 <= i < |es| :: es[i].code in codes)
  }

  ghost predicate HeldCodeIsBarren(origin: map<Id, Id>, es: seq<Redemption>, procs: map<nat, Proc>) {
    forall p | p in procs && HoldsCode(procs[p]) ::
      NoRoot(origin, procs[p].code.id) && NotRedeemed(es, procs[p].code.id)
  }

  ghost predicate CodeHoldersDiffer(procs: map<nat, Proc>) {
    forall p, q | p in procs && q in procs && p != q && HoldsCode(procs[p]) && HoldsCode(procs[q]) ::
      procs[p].code.id != procs[q].code.id
  }

  ghost predicate OneRootPerCode(origin: map<Id, Id>) {
    forall k, l | k in origin && l in origin && k != l :: origin[k] != origin[l]
  }

  ghost predicate RedeemedOnce(es: seq<Redemption>) {
    forall i, j | 0 <= i < j < |es| :: es[i].code != es[j].code
  }

  ghost predicate OneCodeWinner(codes: Codes, origin: map<Id, Id>, es: seq<Redemption>, procs: map<nat, Proc>) {
    && UnspentCodeIsBarren(codes, origin, es) && HeldCodeIsBarren(origin, es, procs) && CodeHoldersDiffer(procs)
    && OneRootPerCode(origin) && RedeemedOnce(es)
  }

  ghost predicate NoNewCodeHolder(procs: map<nat, Proc>, procs': map<nat, Proc>) {
    forall p | p in procs' && HoldsCode(procs'[p]) ::
      p in procs && HoldsCode(procs[p]) && procs[p].code.id == procs'[p].code.id
  }

  lemma CodeWinnerKept(codes: Codes, codes': Codes, origin: map<Id, Id>, es: seq<Redemption>,
                       procs: map<nat, Proc>, procs': map<nat, Proc>)
    requires OneCodeWinner(codes, origin, es, procs) && NoNewCodeHolder(procs, procs')
    requires CodesGrow(codes, codes')
    requires forall id | id in codes' && id !in codes :: NoRoot(origin, id) && NotRedeemed(es, id)
    ensures OneCodeWinner(codes', origin, es, procs')
  {
    assert UnspentCodeIsBarren(codes', origin, es);
    assert HeldCodeIsBarren(origin, es, procs');
  }

  lemma CodeWinnerTakes(codes: Codes, at: Time, origin: map<Id, Id>, es: seq<Redemption>,
                        procs: map<nat, Proc>, p: nat, pr: Proc)
    requires OneCodeWinner(codes, origin, es, procs)
    requires HoldsCode(pr) && pr.code.id in codes && codes[pr.code.id].consumedAt.None?
    requires forall q | q in procs && HoldsCode(procs[q]) ::
               procs[q].code.id in codes && codes[procs[q].code.id].consumedAt.Some?
    ensures OneCodeWinner(ConsumeCode(codes, pr.code.id, at), origin, es, procs[p := pr])
  {
    assert NoRoot(origin, pr.code.id) && NotRedeemed(es, pr.code.id);
    assert UnspentCodeIsBarren(ConsumeCode(codes, pr.code.id, at), origin, es);
    assert HeldCodeIsBarren(origin, es, procs[p := pr]);
    assert CodeHoldersDiffer(procs[p := pr]);
  }

  /** The winner of a code answers for it, with or without a chain root, and lets go of it. */
  lemma CodeWinnerAnswers(codes: Codes, origin: map<Id, Id>, origin': map<Id, Id>, es: seq<Redemption>, e: Redemption,
                          procs: map<nat, Proc>, p: nat)
    requires OneCodeWinner(codes, origin, es, procs)
    requires p in procs && HoldsCode(procs[p]) && e.code == procs[p].code.id
    requires e.code in codes && codes[e.code].consumedAt.Some?
    requires origin' == origin || (e.root.Some? && e.root.value !in origin && origin' == origin[e.root.value := e.code])
    ensures OneCodeWinner(codes, origin', es + [e], procs - {p})
  {
    assert NoRoot(origin, e.code) && NotRedeemed(es, e.code);
    forall id | NotRedeemed(es, id) && id != e.code ensures NotRedeemed(es + [e], id) {
    }
    forall id | NoRoot(origin, id) && id != e.code ensures NoRoot(origin', id) {
    }
    assert UnspentCodeIsBarren(codes, origin', es + [e]);
    assert HeldCodeIsBarren(origin', es + [e], procs - {p});
  }

  // ---- the whole invariant ----

  /** The inductive invariant of the interleaved protocol. */
  ghost predicate Inv(cfg: Config, s: State) {
    && DbInv(cfg, s.db) && Dated(s.db, s.now, s.step)
    && ProcsFit(cfg, s.procs, s.db, s.now, s.step)
    && OneTokenWinner(s.db.tokens, s.db.refreshes, s.procs)
    && OneCodeWinner(s.db.codes, s.db.origin, s.db.redemptions, s.procs)
  }
}
