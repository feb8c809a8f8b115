/** Every step keeps the protocol invariant and only moves records forward. */
module ProtocolSteps {
  import opened Domain
  import opened StoreSpec
  import opened Protocol
  import opened ProtocolInvariant
  import opened ProtocolWrites
  import opened ProtocolProcs

  /** What one step does to the stores, whoever takes it. */
  ghost predicate Advances(s: State, s': State) {
    && Grows(s.db, s'.db) && NotBackdated(s.db, s'.db, s.step)
    && s.now <= s'.now && s'.step == s.step + 1
  }

  /** Processes that did not move stay fit; the ones that moved are fit by assumption. */
  lemma ProcsStayFit(cfg: Config, s: State, s': State)
    requires DbInv(cfg, s.db) && ProcsFit(cfg, s.procs, s.db, s.now, s.step) && Advances(s, s')
    requires forall p {:trigger s'.procs[p]} | p in s'.procs ::
               (p in s.procs && s'.procs[p] == s.procs[p]) || ProcFits(cfg, s'.procs[p], s'.db, s'.now, s'.step)
    ensures ProcsFit(cfg, s'.procs, s'.db, s'.now, s'.step)
  {
    ParentsAreStored(s.db.tokens, s.db.birth, s.db.origin, s.db.codes);
    forall p | p in s'.procs ensures ProcFits(cfg, s'.procs[p], s'.db, s'.now, s'.step) {
      if p in s.procs && s'.procs[p] == s.procs[p] {
        assert ProcFits(cfg, s.procs[p], s.db, s.now, s.step);
        ProcStaysFit(cfg, s.procs[p], s.db, s'.db, s.now, s'.now, s.step, s'.step);
      }
    }
  }

  lemma NoNewHolders(procs: map<nat, Proc>, p: nat, pr: Proc)
    requires HoldsToken(pr) ==> p in procs && HoldsToken(procs[p]) && procs[p].existing.id == pr.existing.id
    requires HoldsCode(pr) ==> p in procs && HoldsCode(procs[p]) && procs[p].code.id == pr.code.id
    ensures NoNewHolder(procs, procs[p := pr]) && NoNewCodeHolder(procs, procs[p := pr])
  {
  }

  lemma SameDbAdvances(s: State, s': State)
    requires s'.db == s.db && s.now <= s'.now && s'.step == s.step + 1
    ensures Advances(s, s')
    ensures Dated(s.db, s.now, s.step) ==> Dated(s'.db, s'.now, s'.step)
  {
  }

  lemma NoNewCodeHolders(procs: map<nat, Proc>, p: nat, pr: Proc)
    requires !HoldsCode(pr)
    ensures NoNewCodeHolder(procs, procs[p := pr])
  {
  }

  lemma NoNewTokenHolders(procs: map<nat, Proc>, p: nat, pr: Proc)
    requires !HoldsToken(pr)
    ensures NoNewHolder(procs, procs[p := pr])
  {
  }

  /** A process moves on and a store with it. */
  lemma MoveStep(cfg: Config, s: State, p: nat, pr: Proc, db: Db)
    requires Inv(cfg, s) && DbInv(cfg, db) && Dated(db, s.now, s.step + 1)
    requires Grows(s.db, db) && NotBackdated(s.db, db, s.step)
    requires ProcFits(cfg, pr, db, s.now, s.step + 1)
    requires OneTokenWinner(db.tokens, db.refreshes, s.procs[p := pr])
    requires OneCodeWinner(db.codes, db.origin, db.redemptions, s.procs[p := pr])
    ensures Inv(cfg, SetProc(s, p, pr, db)) && Advances(s, SetProc(s, p, pr, db))
  {
    ProcsStayFit(cfg, s, SetProc(s, p, pr, db));
  }

  /** A process starts or moves on without touching the stores and without winning anything. */
  lemma QuietStep(cfg: Config, s: State, p: nat, pr: Proc)
    requires Inv(cfg, s)
    requires ProcFits(cfg, pr, s.db, s.now, s.step + 1)
    requires HoldsToken(pr) ==> p in s.procs && HoldsToken(s.procs[p]) && s.procs[p].existing.id == pr.existing.id
    requires HoldsCode(pr) ==> p in s.procs && HoldsCode(s.procs[p]) && s.procs[p].code.id == pr.code.id
    ensures Inv(cfg, SetProc(s, p, pr, s.db)) && Advances(s, SetProc(s, p, pr, s.db))
  {
    var s' := SetProc(s, p, pr, s.db);
    SameDbAdvances(s, s');
    NoNewHolders(s.procs, p, pr);
    ProcsStayFit(cfg, s, s');
    WinnerKept(s.db.tokens, s.db.tokens, s.db.refreshes, s.procs, s'.procs);
    CodeWinnerKept(s.db.codes, s.db.codes, s.db.origin, s.db.redemptions, s.procs, s'.procs);
  }

  /** The stores change while the processes stay, or one of them ends. */
  lemma StoreStep(cfg: Config, s: State, s': State)
    requires Inv(cfg, s) && DbInv(cfg, s'.db) && Dated(s'.db, s'.now, s'.step) && Advances(s, s')
    requires forall p | p in s'.procs :: p in s.procs && s'.procs[p] == s.procs[p]
    requires s'.db.tokens.Keys == s.db.tokens.Keys && s'.db.refreshes == s.db.refreshes
    requires s'.db.codes.Keys == s.db.codes.Keys && s'.db.origin == s.db.origin && s'.db.redemptions == s.db.redemptions
    ensures Inv(cfg, s')
  {
    ProcsStayFit(cfg, s, s');
    WinnerKept(s.db.tokens, s'.db.tokens, s.db.refreshes, s.procs, s'.procs);
    CodeWinnerKept(s.db.codes, s'.db.codes, s.db.origin, s.db.redemptions, s.procs, s'.procs);
  }

  /** A write that only moves records on dates nothing in the future and nothing back. */
  lemma MovingOnStaysDated(db: Db, db': Db, now: Time, step: nat)
    requires Dated(db, now, step) && Grows(db, db')
    requires db'.tokens.Keys == db.tokens.Keys && db'.codes.Keys == db.codes.Keys && db'.birth == db.birth && db'.refreshes == db.refreshes
    requires forall id | id in db'.revokedStep :: db'.revokedStep[id] == if id in db.revokedStep then db.revokedStep[id] else step
    ensures Dated(db', now, step + 1) && NotBackdated(db, db', step)
  {
  }

  lemma RevokeStep(cfg: Config, s: State, tokens': Tokens, s': State)
    requires Inv(cfg, s) && OnlyRevokes(s.db.tokens, tokens')
    requires s' == State(s.now, s.step + 1, WithTokens(s.db, tokens', s.step), s'.procs)
    requires forall p | p in s'.procs :: p in s.procs && s'.procs[p] == s.procs[p]
    ensures Inv(cfg, s') && Advances(s, s')
  {
    RevokeWrite(cfg, s.db, tokens', s.step);
    MovingOnStaysDated(s.db, s'.db, s.now, s.step);
    StoreStep(cfg, s, s');
  }

  lemma SessionStep(cfg: Config, s: State, sessions': Sessions)
    requires Inv(cfg, s) && SessionsGrow(s.db.sessions, sessions') && SessionsFit(sessions')
    ensures Inv(cfg, SetDb(s, s.db.(sessions := sessions')))
    ensures Advances(s, SetDb(s, s.db.(sessions := sessions')))
  {
    SessionWrite(cfg, s.db, sessions');
    StoreStep(cfg, s, SetDb(s, s.db.(sessions := sessions')));
  }

  lemma RevokingSessionsGrows(m: Sessions, id: Id, user: string, keep: Id, at: Time)
    requires SessionsFit(m)
    ensures SessionsGrow(m, RevokeSession(m, id, at)) && SessionsFit(RevokeSession(m, id, at))
    ensures var m' := RevokeSessions(m, Targets(m, user, keep, at), at); SessionsGrow(m, m') && SessionsFit(m')
  {
  }

  lemma RevokingTokensOnlyRevokes(m: Tokens, id: Id, sid: Id, at: Time)
    ensures OnlyRevokes(m, RevokeToken(m, id, at)) && OnlyRevokes(m, RevokeTokensOf(m, {sid}, at))
  {
  }

  lemma TickOrStopKeeps(cfg: Config, s: State, s': State)
    requires Inv(cfg, s) && s'.db == s.db && s.now <= s'.now && s'.step == s.step + 1
    requires forall p | p in s'.procs :: p in s.procs && s'.procs[p] == s.procs[p]
    ensures Inv(cfg, s') && Advances(s, s')
  {
    StoreStep(cfg, s, s');
  }

  lemma EnvironmentKeeps(cfg: Config, s: State, e: EnvironmentStep)
    requires Inv(cfg, s) && EnvironmentEnabled(s, e)
    ensures Inv(cfg, EnvironmentEffect(s, e)) && Advances(s, EnvironmentEffect(s, e))
  {
    var s' := EnvironmentEffect(s, e);
    var sessions, tokens := s.db.sessions, s.db.tokens;
    match e
    case Tick(now) => TickOrStopKeeps(cfg, s, s');
    case NewSession(sess) => SessionStep(cfg, s, sessions[sess.id := sess]);
    case EndSession(id, at) =>
      RevokingSessionsGrows(sessions, id, "", 0, at);
      SessionStep(cfg, s, RevokeSession(sessions, id, at));
    case EndSessions(user, keep, at) =>
      RevokingSessionsGrows(sessions, 0, user, keep, at);
      SessionStep(cfg, s, RevokeSessions(sessions, Targets(sessions, user, keep, at), at));
    case EndToken(id, at) =>
      RevokingTokensOnlyRevokes(tokens, id, 0, at);
      RevokeStep(cfg, s, RevokeToken(tokens, id, at), s');
    case EndTokens(sid, at) =>
      RevokingTokensOnlyRevokes(tokens, 0, sid, at);
      RevokeStep(cfg, s, RevokeTokensOf(tokens, {sid}, at), s');
    case Stop(p) => TickOrStopKeeps(cfg, s, s');
  }

  // ---- authorize ----

  lemma StoreCodeAdvances(cfg: Config, s: State, p: nat, id: Id, hash: string)
    requires Inv(cfg, s) && AuthorizeEnabled(cfg, s, p, StoreCode(id, hash))
    ensures var s' := AuthorizeEffect(cfg, s, p, StoreCode(id, hash));
            Advances(s, s') && DbInv(cfg, s'.db) && Dated(s'.db, s'.now, s'.step)
  {
    var pr := s.procs[p];
    assert ProcFits(cfg, pr, s.db, s.now, s.step);
    CodeWrite(cfg, s.db, NewCode(cfg, pr.authorize, pr.sess, pr.at, id, hash), pr.authorize);
  }

  lemma StoreCodeKeeps(cfg: Config, s: State, p: nat, id: Id, hash: string)
    requires Inv(cfg, s) && AuthorizeEnabled(cfg, s, p, StoreCode(id, hash))
    ensures Inv(cfg, AuthorizeEffect(cfg, s, p, StoreCode(id, hash)))
    ensures Advances(s, AuthorizeEffect(cfg, s, p, StoreCode(id, hash)))
  {
    var s' := AuthorizeEffect(cfg, s, p, StoreCode(id, hash));
    StoreCodeAdvances(cfg, s, p, id, hash);
    ProcsStayFit(cfg, s, s');
    WinnerKept(s.db.tokens, s.db.tokens, s.db.refreshes, s.procs, s'.procs);
    CodeWinnerKept(s.db.codes, s'.db.codes, s.db.origin, s.db.redemptions, s.procs, s'.procs);
  }

  lemma AuthorizeKeeps(cfg: Config, s: State, p: nat, a: AuthorizeStep)
    requires Inv(cfg, s) && AuthorizeEnabled(cfg, s, p, a)
    ensures Inv(cfg, AuthorizeEffect(cfg, s, p, a)) && Advances(s, AuthorizeEffect(cfg, s, p, a))
  {
    match a
    case StoreCode(id, hash) => StoreCodeKeeps(cfg, s, p, id, hash);
    case LookupSession(r, id) => QuietStep(cfg, s, p, AuthorizeEffect(cfg, s, p, a).procs[p]);
    case CheckSession =>
      assert ProcFits(cfg, s.procs[p], s.db, s.now, s.step);
      QuietStep(cfg, s, p, AuthorizeEffect(cfg, s, p, a).procs[p]);
    case ReadMintClock =>
      assert ProcFits(cfg, s.procs[p], s.db, s.now, s.step);
      QuietStep(cfg, s, p, AuthorizeEffect(cfg, s, p, a).procs[p]);
  }

  // ---- code exchange ----

  lemma TakeCodeWinner(cfg: Config, s: State, p: nat)
    requires Inv(cfg, s) && ExchangeEnabled(cfg, s, p, TakeCode)
    ensures OneCodeWinner(ConsumeCode(s.db.codes, s.procs[p].code.id, s.now), s.db.origin, s.db.redemptions,
                          s.procs[p := s.procs[p].(exchangePhase := CodeWon)])
  {
    forall q | q in s.procs && HoldsCode(s.procs[q])
      ensures s.procs[q].code.id in s.db.codes && s.db.codes[s.procs[q].code.id].consumedAt.Some?
    {
      assert ProcFits(cfg, s.procs[q], s.db, s.now, s.step);
    }
    CodeWinnerTakes(s.db.codes, s.now, s.db.origin, s.db.redemptions, s.procs, p, s.procs[p].(exchangePhase := CodeWon));
  }

  lemma TakeCodeProc(cfg: Config, s: State, p: nat)
    requires Inv(cfg, s) && ExchangeEnabled(cfg, s, p, TakeCode)
    ensures var pr := s.procs[p];
            ExchangeFits(cfg, pr.(exchangePhase := CodeWon), s.db.(codes := ConsumeCode(s.db.codes, pr.code.id, s.now)), s.now)
  {
    assert ProcFits(cfg, s.procs[p], s.db, s.now, s.step);
  }

  lemma TakeCodeKeeps(cfg: Config, s: State, p: nat)
    requires Inv(cfg, s) && ExchangeEnabled(cfg, s, p, TakeCode)
    ensures Inv(cfg, ExchangeEffect(cfg, s, p, TakeCode)) && Advances(s, ExchangeEffect(cfg, s, p, TakeCode))
  {
    var pr := s.procs[p];
    var won, db := pr.(exchangePhase := CodeWon), s.db.(codes := ConsumeCode(s.db.codes, pr.code.id, s.now));
    TakeCodeWrite(cfg, s.db, pr.code.id, s.now);
    MovingOnStaysDated(s.db, db, s.now, s.step);
    TakeCodeProc(cfg, s, p);
    TakeCodeWinner(cfg, s, p);
    NoNewTokenHolders(s.procs, p, won);
    WinnerKept(s.db.tokens, s.db.tokens, s.db.refreshes, s.procs, s.procs[p := won]);
    MoveStep(cfg, s, p, won, db);
  }

  lemma AnswerExchangeKeeps(cfg: Config, s: State, p: nat)
    requires Inv(cfg, s) && ExchangeEnabled(cfg, s, p, AnswerExchange)
    ensures Inv(cfg, ExchangeEffect(cfg, s, p, AnswerExchange))
    ensures Advances(s, ExchangeEffect(cfg, s, p, AnswerExchange))
  {
    var s' := ExchangeEffect(cfg, s, p, AnswerExchange);
    var pr := s.procs[p];
    assert ProcFits(cfg, pr, s.db, s.now, s.step);
    var e := Redemption(pr.code.id, pr.exchange, pr.code.scope, pr.code.createdAt, None);
    RedemptionWrite(cfg, s.db, e);
    ProcsStayFit(cfg, s, s');
    WinnerKept(s.db.tokens, s.db.tokens, s.db.refreshes, s.procs, s'.procs);
    CodeWinnerAnswers(s.db.codes, s.db.origin, s.db.origin, s.db.redemptions, e, s.procs, p);
  }

  lemma HeldTokensAreStored(cfg: Config, s: State)
    requires Inv(cfg, s)
    ensures forall q | q in s.procs && HoldsToken(s.procs[q]) ::
              s.procs[q].existing.id in s.db.tokens && s.db.tokens[s.procs[q].existing.id].consumedAt.Some?
    ensures forall i | 0 <= i < |s.db.refreshes| :: s.db.refreshes[i].token in s.db.tokens
    ensures ParentsStored(s.db.tokens)
  {
    forall q | q in s.procs && HoldsToken(s.procs[q])
      ensures s.procs[q].existing.id in s.db.tokens && s.db.tokens[s.procs[q].existing.id].consumedAt.Some?
    {
      assert ProcFits(cfg, s.procs[q], s.db, s.now, s.step);
    }
    forall i | 0 <= i < |s.db.refreshes| ensures s.db.refreshes[i].token in s.db.tokens {
      assert RenewalFits(s.db.refreshes[i], s.db.tokens);
    }
    ParentsAreStored(s.db.tokens, s.db.birth, s.db.origin, s.db.codes);
  }

  /** Dating survives one more token and one more answer, both dated now or before. */
  lemma StaysDated(db: Db, t: Token, b: Birth, origin': map<Id, Id>, redemptions': seq<Redemption>, refreshes': seq<Renewal>,
                   now: Time, step: nat)
    requires Dated(db, now, step) && t.createdAt <= now && b.stored == step
    requires || refreshes' == db.refreshes
             || (|refreshes'| > 0 && refreshes'[|refreshes'| - 1].at <= now && refreshes'[..|refreshes'| - 1] == db.refreshes)
    ensures Dated(db.(tokens := db.tokens[t.id := t], birth := db.birth[t.id := b], origin := origin',
                      redemptions := redemptions', refreshes := refreshes'), now, step + 1)
  {
  }

  lemma RootDbKeeps(cfg: Config, s: State, p: nat, id: Id, hash: string)
    requires Inv(cfg, s) && ExchangeEnabled(cfg, s, p, StoreRoot(id, hash))
    ensures DbInv(cfg, RootDb(s, s.procs[p], id, hash)) && Grows(s.db, RootDb(s, s.procs[p], id, hash))
    ensures Dated(RootDb(s, s.procs[p], id, hash), s.now, s.step + 1)
  {
    var pr := s.procs[p];
    assert ProcFits(cfg, pr, s.db, s.now, s.step);
    assert CodeFits(cfg, s.db.codes[pr.code.id], pr.code.id, s.db.minted, s.db.sessions);
    var t := NewRoot(pr.exchange.client, pr.code, pr.at, id, hash);
    var b := Birth(pr.exchange.client, s.step, s.step);
    RootWrite(cfg, s.db, t, pr.code.id, b);
    var mid := WithRoot(s.db, t, pr.code.id, b);
    var e := Redemption(pr.code.id, pr.exchange, pr.code.scope, pr.code.createdAt, Some(id));
    RedemptionWrite(cfg, mid, e);
    GrowsTransitive(s.db, mid, WithRedemption(mid, e));
    StaysDated(s.db, t, b, mid.origin, s.db.redemptions + [e], s.db.refreshes, s.now, s.step);
  }

  /** A root has no parent, so only the code's winner is concerned. */
  lemma RootWinners(cfg: Config, s: State, p: nat, t: Token)
    requires Inv(cfg, s) && t.id !in s.db.tokens && t.parent.None? && p in s.procs
    ensures OneTokenWinner(s.db.tokens[t.id := t], s.db.refreshes, s.procs - {p})
  {
    HeldTokensAreStored(cfg, s);
    WinnerBreeds(s.db.tokens, t, s.db.refreshes, s.procs);
    var m := s.db.tokens[t.id := t];
    WinnerKept(m, m, s.db.refreshes, s.procs, s.procs - {p});
  }

  lemma StoreRootKeeps(cfg: Config, s: State, p: nat, id: Id, hash: string)
    requires Inv(cfg, s) && ExchangeEnabled(cfg, s, p, StoreRoot(id, hash))
    ensures Inv(cfg, ExchangeEffect(cfg, s, p, StoreRoot(id, hash)))
    ensures Advances(s, ExchangeEffect(cfg, s, p, StoreRoot(id, hash)))
  {
    var s' := ExchangeEffect(cfg, s, p, StoreRoot(id, hash));
    var pr := s.procs[p];
    assert ProcFits(cfg, pr, s.db, s.now, s.step);
    RootDbKeeps(cfg, s, p, id, hash);
    ProcsStayFit(cfg, s, s');
    RootWinners(cfg, s, p, NewRoot(pr.exchange.client, pr.code, pr.at, id, hash));
    CodeWinnerAnswers(s.db.codes, s.db.origin, s'.db.origin, s.db.redemptions,
                      Redemption(pr.code.id, pr.exchange, pr.code.scope, pr.code.createdAt, Some(id)), s.procs, p);
  }

  lemma ExchangeKeeps(cfg: Config, s: State, p: nat, x: ExchangeStep)
    requires Inv(cfg, s) && ExchangeEnabled(cfg, s, p, x)
    ensures Inv(cfg, ExchangeEffect(cfg, s, p, x)) && Advances(s, ExchangeEffect(cfg, s, p, x))
  {
    match x
    case LookupCode(r, id) =>
      assert CodeFits(cfg, s.db.codes[id], id, s.db.minted, s.db.sessions);
      QuietStep(cfg, s, p, ExchangeEffect(cfg, s, p, x).procs[p]);
    case CheckCode =>
      assert ProcFits(cfg, s.procs[p], s.db, s.now, s.step);
      QuietStep(cfg, s, p, ExchangeEffect(cfg, s, p, x).procs[p]);
    case TakeCode => TakeCodeKeeps(cfg, s, p);
    case ReadRootClock =>
      assert ProcFits(cfg, s.procs[p], s.db, s.now, s.step);
      QuietStep(cfg, s, p, ExchangeEffect(cfg, s, p, x).procs[p]);
    case StoreRoot(id, hash) => StoreRootKeeps(cfg, s, p, id, hash);
    case AnswerExchange => AnswerExchangeKeeps(cfg, s, p);
  }

  // ---- refresh ----

  /** The moves of a refresh that only look at its own snapshot and at consumption. */
  lemma MovesFit(pr: Proc, db: Db, now: Time, step: nat, scope: string)
    requires pr.Refreshing? && RefreshFits(pr, db, now, step)
    ensures pr.phase == Looked && RefreshOk(pr.refresh, pr.existing, now) ==>
              RefreshFits(pr.(phase := Checked, at := now), db, now, step + 1)
    ensures pr.phase == Checked && db.tokens[pr.existing.id].consumedAt.Some? ==>
              RefreshFits(pr.(phase := Reused), db, now, step + 1)
    ensures pr.phase == Checked && db.tokens[pr.existing.id].consumedAt.Some? ==>
              RefreshFits(pr.(phase := Won), db, now, step + 1)
    ensures pr.phase == Won ==>
              RefreshFits(pr.(phase := Walking, scope := scope, cur := pr.existing, hops := 0), db, now, step + 1)
  {
  }

  lemma TakeFits(pr: Proc, db: Db, at: Time, now: Time, step: nat)
    requires pr.Refreshing? && RefreshFits(pr, db, now, step) && pr.phase == Checked
    ensures RefreshFits(pr.(phase := Won), db.(tokens := ConsumeToken(db.tokens, pr.existing.id, at)), now, step + 1)
  {
  }

  lemma HopFits(pr: Proc, db: Db, now: Time, step: nat)
    requires pr.Refreshing? && RefreshFits(pr, db, now, step) && pr.phase == Walking && !WalkDone(db.tokens, pr)
    requires db.tokens[pr.cur.parent.value].id == pr.cur.parent.value
    ensures RefreshFits(pr.(cur := db.tokens[pr.cur.parent.value], hops := pr.hops + 1), db, now, step + 1)
  {
    UpOneMore(db.tokens, pr.existing.id, pr.hops);
    assert Up(db.tokens, pr.cur.id, 1) == pr.cur.parent.value;
  }

  lemma TakeTokenProc(cfg: Config, s: State, p: nat)
    requires Inv(cfg, s) && RefreshEnabled(cfg, s, p, TakeToken)
    ensures var pr := s.procs[p];
            RefreshFits(pr.(phase := Won), s.db.(tokens := ConsumeToken(s.db.tokens, pr.existing.id, pr.at)), s.now, s.step + 1)
  {
    RefreshingFits(cfg, s, p);
    TakeFits(s.procs[p], s.db, s.procs[p].at, s.now, s.step);
  }

  lemma TakeTokenWinner(cfg: Config, s: State, p: nat)
    requires Inv(cfg, s) && RefreshEnabled(cfg, s, p, TakeToken)
    ensures var pr := s.procs[p];
            OneTokenWinner(ConsumeToken(s.db.tokens, pr.existing.id, pr.at), s.db.refreshes, s.procs[p := pr.(phase := Won)])
  {
    HeldTokensAreStored(cfg, s);
    WinnerTakes(s.db.tokens, s.procs[p].at, s.db.refreshes, s.procs, p, s.procs[p].(phase := Won));
  }

  lemma TakeTokenKeeps(cfg: Config, s: State, p: nat)
    requires Inv(cfg, s) && RefreshEnabled(cfg, s, p, TakeToken)
    ensures Inv(cfg, RefreshEffect(cfg, s, p, TakeToken)) && Advances(s, RefreshEffect(cfg, s, p, TakeToken))
  {
    var pr := s.procs[p];
    var won, db := pr.(phase := Won), s.db.(tokens := ConsumeToken(s.db.tokens, pr.existing.id, pr.at));
    TakeTokenWrite(cfg, s.db, pr.existing.id, pr.at);
    MovingOnStaysDated(s.db, db, s.now, s.step);
    TakeTokenProc(cfg, s, p);
    TakeTokenWinner(cfg, s, p);
    NoNewCodeHolders(s.procs, p, won);
    CodeWinnerKept(s.db.codes, s.db.codes, s.db.origin, s.db.redemptions, s.procs, s.procs[p := won]);
    MoveStep(cfg, s, p, won, db);
  }

  lemma PunishReuseKeeps(cfg: Config, s: State, p: nat)
    requires Inv(cfg, s) && RefreshEnabled(cfg, s, p, PunishReuse)
    ensures Inv(cfg, RefreshEffect(cfg, s, p, PunishReuse)) && Advances(s, RefreshEffect(cfg, s, p, PunishReuse))
  {
    var pr := s.procs[p];
    var id, at := pr.existing.id, pr.at;
    RevokingTokensOnlyRevokes(s.db.tokens, id, if pr.existing.session.Some? then pr.existing.session.value else 0, at);
    RevokeStep(cfg, s, PunishTokens(s.db.tokens, pr.existing, at), RefreshEffect(cfg, s, p, PunishReuse));
  }

  ghost predicate IdsFit(m: Tokens) {
    forall id {:trigger m[id].id} | id in m :: m[id].id == id
  }

  lemma TokenIdsFit(cfg: Config, s: State)
    requires Inv(cfg, s)
    ensures IdsFit(s.db.tokens)
  {
    forall id | id in s.db.tokens ensures s.db.tokens[id].id == id {
      assert TokenFits(s.db.tokens[id], id, s.db.tokens, s.db.birth, s.db.origin, s.db.codes);
    }
  }

  lemma RefreshingFits(cfg: Config, s: State, p: nat)
    requires Inv(cfg, s) && p in s.procs && s.procs[p].Refreshing?
    ensures RefreshFits(s.procs[p], s.db, s.now, s.step)
  {
    assert ProcFits(cfg, s.procs[p], s.db, s.now, s.step);
  }

  lemma HopProc(cfg: Config, s: State, p: nat)
    requires Inv(cfg, s) && RefreshEnabled(cfg, s, p, Hop)
    ensures var pr := s.procs[p];
            RefreshFits(pr.(cur := s.db.tokens[pr.cur.parent.value], hops := pr.hops + 1), s.db, s.now, s.step + 1)
  {
    RefreshingFits(cfg, s, p);
    TokenIdsFit(cfg, s);
    HopFits(s.procs[p], s.db, s.now, s.step);
  }

  lemma WalkerMoves(cfg: Config, s: State, p: nat, pr: Proc)
    requires Inv(cfg, s) && RefreshAt(s, p, Walking)
    requires pr.Refreshing? && pr.phase == Walking && pr.existing == s.procs[p].existing && RefreshFits(pr, s.db, s.now, s.step + 1)
    ensures Inv(cfg, SetProc(s, p, pr, s.db)) && Advances(s, SetProc(s, p, pr, s.db))
  {
    QuietStep(cfg, s, p, pr);
  }

  lemma HopIs(cfg: Config, s: State, p: nat)
    requires RefreshEnabled(cfg, s, p, Hop)
    ensures var pr := s.procs[p];
            RefreshEffect(cfg, s, p, Hop) == SetProc(s, p, pr.(cur := s.db.tokens[pr.cur.parent.value], hops := pr.hops + 1), s.db)
  {
  }

  lemma HopKeeps(cfg: Config, s: State, p: nat)
    requires Inv(cfg, s) && RefreshEnabled(cfg, s, p, Hop)
    ensures Inv(cfg, RefreshEffect(cfg, s, p, Hop)) && Advances(s, RefreshEffect(cfg, s, p, Hop))
  {
    var pr := s.procs[p];
    HopIs(cfg, s, p);
    HopProc(cfg, s, p);
    WalkerMoves(cfg, s, p, pr.(cur := s.db.tokens[pr.cur.parent.value], hops := pr.hops + 1));
  }

  /** The walk stops at the root or after the last hop, and further hops would not move it. */
  lemma WalkEnds(m: Tokens, id: Id, n: nat, k: nat)
    requires n <= k && (n == k || (Up(m, id, n) in m ==> m[Up(m, id, n)].parent.None? || m[Up(m, id, n)].parent.value !in m))
    ensures Up(m, id, k) == Up(m, id, n)
    decreases k
  {
    if n < k {
      WalkEnds(m, id, n, k - 1);
      UpOneMore(m, id, k - 1);
    }
  }

  lemma RenewalIsFit(cfg: Config, s: State, p: nat, child: Option<Id>, tokens': Tokens)
    requires Inv(cfg, s) && RefreshAt(s, p, Walking) && WalkDone(s.db.tokens, s.procs[p])
    requires TokensGrow(s.db.tokens, tokens')
    requires child.Some? ==> child.value in tokens' && tokens'[child.value].parent == Some(s.procs[p].existing.id)
    ensures var pr := s.procs[p];
            RenewalFits(Renewal(pr.existing.id, pr.refresh, pr.at, pr.cur.createdAt, pr.scope, child), tokens')
  {
    var pr := s.procs[p];
    assert ProcFits(cfg, pr, s.db, s.now, s.step);
    WalkEnds(s.db.tokens, pr.existing.id, pr.hops, MAX_HOPS);
    ParentsAreStored(s.db.tokens, s.db.birth, s.db.origin, s.db.codes);
    UpIsStable(s.db.tokens, tokens', pr.existing.id, MAX_HOPS);
  }

  lemma RefreshAtIsNow(cfg: Config, s: State, p: nat)
    requires Inv(cfg, s) && RefreshAt(s, p, Walking)
    ensures s.procs[p].at <= s.now
  {
    assert ProcFits(cfg, s.procs[p], s.db, s.now, s.step);
  }

  lemma AnswerDated(db: Db, e: Renewal, now: Time, step: nat)
    requires Dated(db, now, step) && e.at <= now
    ensures Dated(WithRenewal(db, e), now, step + 1)
  {
  }

  lemma AnswerRefreshWinner(cfg: Config, s: State, p: nat, e: Renewal)
    requires Inv(cfg, s) && p in s.procs && HoldsToken(s.procs[p]) && e.token == s.procs[p].existing.id
    ensures OneTokenWinner(s.db.tokens, s.db.refreshes + [e], s.procs - {p})
  {
    HeldTokensAreStored(cfg, s);
    WinnerAnswers(s.db.tokens, s.db.refreshes, e, s.procs, p);
  }

  lemma AnswerRefreshKeeps(cfg: Config, s: State, p: nat)
    requires Inv(cfg, s) && RefreshEnabled(cfg, s, p, AnswerRefresh)
    ensures Inv(cfg, RefreshEffect(cfg, s, p, AnswerRefresh)) && Advances(s, RefreshEffect(cfg, s, p, AnswerRefresh))
  {
    var s' := RefreshEffect(cfg, s, p, AnswerRefresh);
    var pr := s.procs[p];
    var e := Renewal(pr.existing.id, pr.refresh, pr.at, pr.cur.createdAt, pr.scope, None);
    RefreshAtIsNow(cfg, s, p);
    RenewalIsFit(cfg, s, p, None, s.db.tokens);
    RenewalWrite(cfg, s.db, e);
    AnswerDated(s.db, e, s.now, s.step);
    ProcsStayFit(cfg, s, s');
    AnswerRefreshWinner(cfg, s, p, e);
    CodeWinnerKept(s.db.codes, s.db.codes, s.db.origin, s.db.redemptions, s.procs, s'.procs);
  }

  /** The child about to be stored is what the refresh grant mints for the stored parent. */
  lemma ChildToBe(cfg: Config, s: State, p: nat, id: Id, hash: string)
    requires Inv(cfg, s) && RefreshEnabled(cfg, s, p, StoreChild(id, hash))
    ensures var pr := s.procs[p];
            var t, b := NewChild(pr.refresh.client, pr.existing, pr.scope, pr.at, id, hash), Birth(pr.refresh.client, pr.lookedUp, s.step);
            && pr.existing.id in s.db.tokens && pr.existing.id in s.db.birth
            && ChildFits(s.db.tokens[pr.existing.id], t, b)
            && b.lookedUp <= b.stored && s.db.birth[pr.existing.id].stored < b.stored
            && (pr.existing.id in s.db.revokedStep ==> b.lookedUp < s.db.revokedStep[pr.existing.id])
            && pr.at <= s.now
  {
    var pr := s.procs[p];
    RefreshingFits(cfg, s, p);
    assert TokenFits(s.db.tokens[pr.existing.id], pr.existing.id, s.db.tokens, s.db.birth, s.db.origin, s.db.codes);
  }

  lemma ChildTokenKeeps(cfg: Config, s: State, p: nat, id: Id, hash: string)
    requires Inv(cfg, s) && RefreshEnabled(cfg, s, p, StoreChild(id, hash))
    ensures var pr := s.procs[p];
            var mid := WithChild(s.db, NewChild(pr.refresh.client, pr.existing, pr.scope, pr.at, id, hash),
                                 Birth(pr.refresh.client, pr.lookedUp, s.step));
            DbInv(cfg, mid) && Grows(s.db, mid)
  {
    var pr := s.procs[p];
    ChildToBe(cfg, s, p, id, hash);
    ChildWrite(cfg, s.db, NewChild(pr.refresh.client, pr.existing, pr.scope, pr.at, id, hash),
               Birth(pr.refresh.client, pr.lookedUp, s.step));
  }

  lemma ChildDbDated(cfg: Config, s: State, p: nat, id: Id, hash: string)
    requires Inv(cfg, s) && RefreshEnabled(cfg, s, p, StoreChild(id, hash))
    ensures Dated(ChildDb(s, s.procs[p], id, hash), s.now, s.step + 1)
  {
    var pr := s.procs[p];
    RefreshAtIsNow(cfg, s, p);
    var e := Renewal(pr.existing.id, pr.refresh, pr.at, pr.cur.createdAt, pr.scope, Some(id));
    StaysDated(s.db, NewChild(pr.refresh.client, pr.existing, pr.scope, pr.at, id, hash),
               Birth(pr.refresh.client, pr.lookedUp, s.step), s.db.origin, s.db.redemptions, s.db.refreshes + [e], s.now, s.step);
  }

  lemma ChildDbKeeps(cfg: Config, s: State, p: nat, id: Id, hash: string)
    requires Inv(cfg, s) && RefreshEnabled(cfg, s, p, StoreChild(id, hash))
    ensures DbInv(cfg, ChildDb(s, s.procs[p], id, hash)) && Grows(s.db, ChildDb(s, s.procs[p], id, hash))
    ensures Dated(ChildDb(s, s.procs[p], id, hash), s.now, s.step + 1)
  {
    var pr := s.procs[p];
    var mid := WithChild(s.db, NewChild(pr.refresh.client, pr.existing, pr.scope, pr.at, id, hash),
                         Birth(pr.refresh.client, pr.lookedUp, s.step));
    var e := Renewal(pr.existing.id, pr.refresh, pr.at, pr.cur.createdAt, pr.scope, Some(id));
    ChildTokenKeeps(cfg, s, p, id, hash);
    ChildDbDated(cfg, s, p, id, hash);
    RenewalIsFit(cfg, s, p, Some(id), mid.tokens);
    RenewalWrite(cfg, mid, e);
    GrowsTransitive(s.db, mid, WithRenewal(mid, e));
  }

  lemma ChildWinners(cfg: Config, s: State, p: nat, t: Token, e: Renewal)
    requires Inv(cfg, s) && p in s.procs && HoldsToken(s.procs[p])
    requires t.id !in s.db.tokens && t.parent == Some(s.procs[p].existing.id) && e.token == s.procs[p].existing.id
    ensures OneTokenWinner(s.db.tokens[t.id := t], s.db.refreshes + [e], s.procs - {p})
  {
    var pr := s.procs[p];
    HeldTokensAreStored(cfg, s);
    WinnerAnswers(s.db.tokens, s.db.refreshes, e, s.procs, p);
    WinnerBreeds(s.db.tokens, t, s.db.refreshes + [e], s.procs - {p});
  }

  lemma StoreChildKeeps(cfg: Config, s: State, p: nat, id: Id, hash: string)
    requires Inv(cfg, s) && RefreshEnabled(cfg, s, p, StoreChild(id, hash))
    ensures Inv(cfg, RefreshEffect(cfg, s, p, StoreChild(id, hash)))
    ensures Advances(s, RefreshEffect(cfg, s, p, StoreChild(id, hash)))
  {
    var s' := RefreshEffect(cfg, s, p, StoreChild(id, hash));
    var pr := s.procs[p];
    ChildDbKeeps(cfg, s, p, id, hash);
    ProcsStayFit(cfg, s, s');
    ChildWinners(cfg, s, p, NewChild(pr.refresh.client, pr.existing, pr.scope, pr.at, id, hash),
                 Renewal(pr.existing.id, pr.refresh, pr.at, pr.cur.createdAt, pr.scope, Some(id)));
    CodeWinnerKept(s.db.codes, s.db.codes, s.db.origin, s.db.redemptions, s.procs, s'.procs);
  }

  lemma LookupTokenKeeps(cfg: Config, s: State, p: nat, r: RefreshRequest, id: Id)
    requires Inv(cfg, s) && RefreshEnabled(cfg, s, p, LookupToken(r, id))
    ensures Inv(cfg, RefreshEffect(cfg, s, p, LookupToken(r, id)))
    ensures Advances(s, RefreshEffect(cfg, s, p, LookupToken(r, id)))
  {
    assert TokenFits(s.db.tokens[id], id, s.db.tokens, s.db.birth, s.db.origin, s.db.codes);
    QuietStep(cfg, s, p, RefreshEffect(cfg, s, p, LookupToken(r, id)).procs[p]);
  }

  lemma CheckOrLoseKeeps(cfg: Config, s: State, p: nat, r: RefreshStep)
    requires Inv(cfg, s) && RefreshEnabled(cfg, s, p, r) && (r.CheckToken? || r.LoseToken? || r.ChooseScope?)
    ensures Inv(cfg, RefreshEffect(cfg, s, p, r)) && Advances(s, RefreshEffect(cfg, s, p, r))
  {
    var pr := s.procs[p];
    assert ProcFits(cfg, pr, s.db, s.now, s.step);
    MovesFit(pr, s.db, s.now, s.step, NewScope(pr.refresh, pr.existing));
    QuietStep(cfg, s, p, RefreshEffect(cfg, s, p, r).procs[p]);
  }

  lemma RefreshKeeps(cfg: Config, s: State, p: nat, r: RefreshStep)
    requires Inv(cfg, s) && RefreshEnabled(cfg, s, p, r)
    ensures Inv(cfg, RefreshEffect(cfg, s, p, r)) && Advances(s, RefreshEffect(cfg, s, p, r))
  {
    match r
    case LookupToken(req, id) => LookupTokenKeeps(cfg, s, p, req, id);
    case TakeToken => TakeTokenKeeps(cfg, s, p);
    case PunishReuse => PunishReuseKeeps(cfg, s, p);
    case Hop => HopKeeps(cfg, s, p);
    case StoreChild(id, hash) => StoreChildKeeps(cfg, s, p, id, hash);
    case AnswerRefresh => AnswerRefreshKeeps(cfg, s, p);
    case CheckToken => CheckOrLoseKeeps(cfg, s, p, r);
    case LoseToken => CheckOrLoseKeeps(cfg, s, p, r);
    case ChooseScope => CheckOrLoseKeeps(cfg, s, p, r);
  }

  // ---- runs ----

  /** Any step of any actor. */
  lemma StepKeeps(cfg: Config, s: State, a: Action, s': State)
    requires Inv(cfg, s) && Step(cfg, s, a, s')
    ensures Inv(cfg, s') && Advances(s, s')
  {
    match a
    case Environment(e) => EnvironmentKeeps(cfg, s, e);
    case Authorize(p, b) => AuthorizeKeeps(cfg, s, p, b);
    case Exchange(p, x) => ExchangeKeeps(cfg, s, p, x);
    case Refresh(p, r) => RefreshKeeps(cfg, s, p, r);
  }

  lemma InitIsFit(cfg: Config, s: State)
    requires Init(s)
    ensures Inv(cfg, s)
  {
  }

  /** The invariant holds in every state of every run. */
  lemma {:induction false} RunKeeps(cfg: Config, ss: seq<State>, acts: seq<Action>, i: nat)
    requires Run(cfg, ss, acts) && i < |ss|
    ensures Inv(cfg, ss[i]) && ss[i].step == i
  {
    if i == 0 {
      InitIsFit(cfg, ss[0]);
    } else {
      RunKeeps(cfg, ss, acts, i - 1);
      assert StepAt(cfg, ss, acts, i - 1);
      StepKeeps(cfg, ss[i - 1], acts[i - 1], ss[i]);
    }
  }

  lemma GrowingOn(a: State, b: State, c: State)
    requires Grows(a.db, b.db) && NotBackdated(a.db, b.db, a.step) && a.now <= b.now && a.step <= b.step && Advances(b, c)
    ensures Grows(a.db, c.db) && NotBackdated(a.db, c.db, a.step) && a.now <= c.now
  {
    GrowsTransitive(a.db, b.db, c.db);
  }

  lemma RunAdvances(cfg: Config, ss: seq<State>, acts: seq<Action>, i: nat)
    requires Run(cfg, ss, acts) && i < |acts|
    ensures Advances(ss[i], ss[i + 1])
  {
    RunKeeps(cfg, ss, acts, i);
    assert StepAt(cfg, ss, acts, i);
    StepKeeps(cfg, ss[i], acts[i], ss[i + 1]);
  }

  lemma {:induction false} StepsAreCounted(cfg: Config, ss: seq<State>, acts: seq<Action>, i: nat)
    requires Run(cfg, ss, acts) && i < |ss|
    ensures ss[i].step == i
  {
    if i > 0 {
      StepsAreCounted(cfg, ss, acts, i - 1);
      RunAdvances(cfg, ss, acts, i - 1);
    }
  }

  /** Between any two states of a run records only move forward: nothing disappears, no consumption or
      revocation is undone or re-dated, and a revocation noted in between carries a step number from in between. */
  lemma {:induction false} RunGrows(cfg: Config, ss: seq<State>, acts: seq<Action>, i: nat, j: nat)
    requires Run(cfg, ss, acts) && i <= j < |ss|
    ensures Grows(ss[i].db, ss[j].db) && NotBackdated(ss[i].db, ss[j].db, i) && ss[i].now <= ss[j].now
    decreases j
  {
    if i < j {
      RunGrows(cfg, ss, acts, i, j - 1);
      RunAdvances(cfg, ss, acts, j - 1);
      StepsAreCounted(cfg, ss, acts, i);
      StepsAreCounted(cfg, ss, acts, j - 1);
      GrowingOn(ss[i], ss[j - 1], ss[j]);
    }
  }
}
