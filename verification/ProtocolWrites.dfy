/** Every kind of write keeps the invariant of the stores. */
module ProtocolWrites {
  import opened Domain
  import opened StoreSpec
  import opened Protocol
  import opened ProtocolInvariant

  lemma SessionWrite(cfg: Config, db: Db, sessions': Sessions)
    requires DbInv(cfg, db) && SessionsGrow(db.sessions, sessions') && SessionsFit(sessions')
    ensures Grows(db, db.(sessions := sessions')) && DbInv(cfg, db.(sessions := sessions'))
  {
    CodesStayFit(cfg, db.codes, db.codes, db.minted, db.sessions, sessions');
  }

  lemma TakeCodeWrite(cfg: Config, db: Db, id: Id, at: Time)
    requires DbInv(cfg, db)
    ensures Grows(db, db.(codes := ConsumeCode(db.codes, id, at)))
    ensures DbInv(cfg, db.(codes := ConsumeCode(db.codes, id, at)))
  {
    var codes' := ConsumeCode(db.codes, id, at);
    MovingOnGrows(db, codes', db.tokens, db.revokedStep);
    CodesStayFit(cfg, db.codes, codes', db.minted, db.sessions, db.sessions);
    TokensStayFit(db.tokens, db.tokens, db.birth, db.origin, db.codes, codes');
    RedemptionsStayFit(cfg, db.redemptions, db.codes, codes', db.origin, db.origin);
  }

  /** Tokens that only moved forward, with no revocation among the changes. */
  lemma TokensMoveOn(cfg: Config, db: Db, tokens': Tokens)
    requires DbInv(cfg, db) && TokensGrow(db.tokens, tokens') && tokens'.Keys == db.tokens.Keys
    ensures TokensFit(tokens', db.birth, db.origin, db.codes)
    ensures RenewalsFit(db.refreshes, tokens')
    ensures TokenHashesDiffer(tokens')
  {
    TokensStayFit(db.tokens, tokens', db.birth, db.origin, db.codes, db.codes);
    ParentsAreStored(db.tokens, db.birth, db.origin, db.codes);
    RenewalsStayFit(db.refreshes, db.tokens, tokens');
    forall k, l | k in tokens' && l in tokens' && k != l ensures tokens'[k].hash != tokens'[l].hash {
      assert TokenLater(db.tokens[k], tokens'[k]) && TokenLater(db.tokens[l], tokens'[l]);
    }
  }

  lemma MovingOnGrows(db: Db, codes': Codes, tokens': Tokens, revokedStep': map<Id, nat>)
    requires HistoryFits(db)
    requires CodesGrow(db.codes, codes') && codes'.Keys == db.codes.Keys
    requires TokensGrow(db.tokens, tokens') && tokens'.Keys == db.tokens.Keys
    requires Extends(db.revokedStep, revokedStep') && revokedStep'.Keys <= tokens'.Keys
    ensures var db' := db.(codes := codes', tokens := tokens', revokedStep := revokedStep');
            Grows(db, db') && HistoryFits(db')
  {
  }

  lemma TakeTokenWrite(cfg: Config, db: Db, id: Id, at: Time)
    requires DbInv(cfg, db)
    ensures Grows(db, db.(tokens := ConsumeToken(db.tokens, id, at)))
    ensures DbInv(cfg, db.(tokens := ConsumeToken(db.tokens, id, at)))
  {
    var tokens' := ConsumeToken(db.tokens, id, at);
    TokensMoveOn(cfg, db, tokens');
    MovingOnGrows(db, db.codes, tokens', db.revokedStep);
    assert RevocationsFit(tokens', db.birth, db.revokedStep);
  }

  /** A write to the token store that does nothing but revoke. */
  ghost predicate OnlyRevokes(m: Tokens, m': Tokens) {
    m'.Keys == m.Keys && forall id | id in m :: TokenLater(m[id], m'[id]) && m'[id].consumedAt == m[id].consumedAt
  }

  lemma RevokingStepsFit(tokens: Tokens, birth: map<Id, Birth>, revokedStep: map<Id, nat>, tokens': Tokens, step: nat)
    requires RevocationsFit(tokens, birth, revokedStep) && OnlyRevokes(tokens, tokens')
    requires forall id | id in birth :: birth[id].lookedUp < step
    ensures var r' := map id | id in revokedStep.Keys + NewlyRevoked(tokens, tokens') ::
                        if id in revokedStep then revokedStep[id] else step;
            RevocationsFit(tokens', birth, r')
  {
    var r' := map id | id in revokedStep.Keys + NewlyRevoked(tokens, tokens') ::
                if id in revokedStep then revokedStep[id] else step;
    forall id | id in tokens' ensures tokens'[id].revokedAt.Some? <==> id in r' {
      assert TokenLater(tokens[id], tokens'[id]);
    }
    forall id | id in tokens' && id in birth && tokens'[id].parent.Some? && tokens'[id].parent.value in r'
      ensures birth[id].lookedUp < r'[tokens'[id].parent.value]
    {
      assert TokenLater(tokens[id], tokens'[id]);
    }
  }

  lemma RevokeWrite(cfg: Config, db: Db, tokens': Tokens, step: nat)
    requires DbInv(cfg, db) && OnlyRevokes(db.tokens, tokens')
    requires forall id | id in db.birth :: db.birth[id].stored < step
    ensures Grows(db, WithTokens(db, tokens', step)) && DbInv(cfg, WithTokens(db, tokens', step))
  {
    TokensMoveOn(cfg, db, tokens');
    forall id | id in db.birth ensures db.birth[id].lookedUp < step {
      assert TokenFits(db.tokens[id], id, db.tokens, db.birth, db.origin, db.codes);
    }
    RevokingStepsFit(db.tokens, db.birth, db.revokedStep, tokens', step);
    MovingOnGrows(db, db.codes, tokens', WithTokens(db, tokens', step).revokedStep);
  }

  lemma AddedHashDiffers(tokens: Tokens, t: Token)
    requires TokenHashesDiffer(tokens) && FreshToken(tokens, t.id, t.hash)
    ensures TokenHashesDiffer(tokens[t.id := t])
  {
  }

  lemma AddedCodeHashDiffers(codes: Codes, c: Code)
    requires CodeHashesDiffer(codes) && FreshCode(codes, c.id, c.hash)
    ensures CodeHashesDiffer(codes[c.id := c])
  {
  }

  lemma AddingCodeGrows(db: Db, c: Code, r: AuthorizeRequest)
    requires HistoryFits(db) && c.id !in db.codes
    ensures Grows(db, WithCode(db, c, r)) && HistoryFits(WithCode(db, c, r))
  {
  }

  lemma AddingRootGrows(db: Db, t: Token, code: Id, b: Birth)
    requires HistoryFits(db) && t.id !in db.tokens
    ensures Grows(db, WithRoot(db, t, code, b)) && HistoryFits(WithRoot(db, t, code, b))
  {
  }

  lemma AddingChildGrows(db: Db, t: Token, b: Birth)
    requires HistoryFits(db) && t.id !in db.tokens
    ensures Grows(db, WithChild(db, t, b)) && HistoryFits(WithChild(db, t, b))
  {
  }

  lemma CodeWrite(cfg: Config, db: Db, c: Code, r: AuthorizeRequest)
    requires DbInv(cfg, db) && FreshCode(db.codes, c.id, c.hash)
    requires CodeFits(cfg, c, c.id, db.minted[c.id := r], db.sessions)
    ensures Grows(db, WithCode(db, c, r)) && DbInv(cfg, WithCode(db, c, r))
  {
    var codes', minted' := db.codes[c.id := c], db.minted[c.id := r];
    forall id | id in codes' ensures CodeFits(cfg, codes'[id], id, minted', db.sessions) {
      if id != c.id {
        assert CodeFits(cfg, db.codes[id], id, db.minted, db.sessions);
      }
    }
    AddingCodeGrows(db, c, r);
    AddedCodeHashDiffers(db.codes, c);
    TokensStayFit(db.tokens, db.tokens, db.birth, db.origin, db.codes, codes');
    RedemptionsStayFit(cfg, db.redemptions, db.codes, codes', db.origin, db.origin);
  }

  /** Adding a token whose parent link, if any, was looked up before that parent was revoked. */
  lemma AddedTokenFits(db: Db, t: Token, b: Birth, origin': map<Id, Id>)
    requires HistoryFits(db) && TokensFit(db.tokens, db.birth, db.origin, db.codes)
    requires FreshToken(db.tokens, t.id, t.hash) && Extends(db.origin, origin')
    requires forall k | k in origin' && k != t.id :: k in db.origin
    requires TokenFits(t, t.id, db.tokens, db.birth[t.id := b], origin', db.codes)
    ensures TokensFit(db.tokens[t.id := t], db.birth[t.id := b], origin', db.codes)
  {
    var tokens', birth' := db.tokens[t.id := t], db.birth[t.id := b];
    forall id | id in tokens' ensures TokenFits(tokens'[id], id, tokens', birth', origin', db.codes) {
      if id != t.id {
        assert TokenFits(db.tokens[id], id, db.tokens, db.birth, db.origin, db.codes);
        TokenStaysFit(id, db.tokens, tokens', db.birth, birth', db.origin, origin', db.codes, db.codes);
      }
    }
  }

  lemma AddedTokenRevocations(db: Db, t: Token, b: Birth)
    requires HistoryFits(db) && RevocationsFit(db.tokens, db.birth, db.revokedStep)
    requires t.id !in db.tokens && t.revokedAt.None?
    requires t.parent.Some? && t.parent.value in db.revokedStep ==> b.lookedUp < db.revokedStep[t.parent.value]
    ensures RevocationsFit(db.tokens[t.id := t], db.birth[t.id := b], db.revokedStep)
  {
  }

  lemma RootWrite(cfg: Config, db: Db, t: Token, code: Id, b: Birth)
    requires DbInv(cfg, db) && FreshToken(db.tokens, t.id, t.hash) && t.revokedAt.None? && t.parent.None?
    requires code in db.codes && RootFits(db.codes[code], t, b) && b.lookedUp <= b.stored
    ensures Grows(db, WithRoot(db, t, code, b)) && DbInv(cfg, WithRoot(db, t, code, b))
  {
    var tokens', origin' := db.tokens[t.id := t], db.origin[t.id := code];
    AddingRootGrows(db, t, code, b);
    AddedHashDiffers(db.tokens, t);
    AddedTokenFits(db, t, b, origin');
    AddedTokenRevocations(db, t, b);
    ParentsAreStored(db.tokens, db.birth, db.origin, db.codes);
    RenewalsStayFit(db.refreshes, db.tokens, tokens');
    RedemptionsStayFit(cfg, db.redemptions, db.codes, db.codes, db.origin, origin');
  }

  lemma ChildWrite(cfg: Config, db: Db, t: Token, b: Birth)
    requires DbInv(cfg, db) && FreshToken(db.tokens, t.id, t.hash) && t.revokedAt.None?
    requires t.parent.Some? && t.parent.value in db.tokens && ChildFits(db.tokens[t.parent.value], t, b)
    requires b.lookedUp <= b.stored && db.birth[t.parent.value].stored < b.stored
    requires t.parent.value in db.revokedStep ==> b.lookedUp < db.revokedStep[t.parent.value]
    ensures Grows(db, WithChild(db, t, b)) && DbInv(cfg, WithChild(db, t, b))
  {
    var tokens' := db.tokens[t.id := t];
    assert TokenFits(db.tokens[t.parent.value], t.parent.value, db.tokens, db.birth, db.origin, db.codes);
    AddingChildGrows(db, t, b);
    AddedHashDiffers(db.tokens, t);
    AddedTokenFits(db, t, b, db.origin);
    AddedTokenRevocations(db, t, b);
    ParentsAreStored(db.tokens, db.birth, db.origin, db.codes);
    RenewalsStayFit(db.refreshes, db.tokens, tokens');
  }

  lemma RedemptionWrite(cfg: Config, db: Db, e: Redemption)
    requires DbInv(cfg, db) && RedemptionFits(cfg, e, db.codes, db.origin)
    ensures Grows(db, WithRedemption(db, e)) && DbInv(cfg, WithRedemption(db, e))
  {
  }

  lemma RenewalWrite(cfg: Config, db: Db, e: Renewal)
    requires DbInv(cfg, db) && RenewalFits(e, db.tokens)
    ensures Grows(db, WithRenewal(db, e)) && DbInv(cfg, WithRenewal(db, e))
  {
  }
}
