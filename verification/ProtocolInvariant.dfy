/** What every step of the interleaved protocol keeps in the stores. */
module ProtocolInvariant {
  import opened Domain
  import opened StoreSpec
  import opened Protocol

  // ---- records only ever move forward ----

  ghost predicate TokensGrow(m: Tokens, m': Tokens) {
    forall id | id in m :: id in m' && TokenLater(m[id], m'[id])
  }

  ghost predicate CodesGrow(m: Codes, m': Codes) {
    forall id | id in m :: id in m' && CodeLater(m[id], m'[id])
  }

  ghost predicate SessionsGrow(m: Sessions, m': Sessions) {
    forall id | id in m :: id in m' && SessionLater(m[id], m'[id])
  }

  ghost predicate Extends<V>(m: map<Id, V>, m': map<Id, V>) {
    forall k | k in m :: k in m' && m'[k] == m[k]
  }

  /** No record disappears, no consumption or revocation is undone or re-dated, and history is only added to. */
  ghost predicate Grows(db: Db, db': Db) {
    && SessionsGrow(db.sessions, db'.sessions)
    && CodesGrow(db.codes, db'.codes)
    && TokensGrow(db.tokens, db'.tokens)
    && Extends(db.minted, db'.minted) && Extends(db.origin, db'.origin) && Extends(db.birth, db'.birth)
    && Extends(db.revokedStep, db'.revokedStep)
    && db.redemptions <= db'.redemptions && db.refreshes <= db'.refreshes
  }

  lemma GrowsTransitive(a: Db, b: Db, c: Db)
    requires Grows(a, b) && Grows(b, c)
    ensures Grows(a, c)
  {
  }

  // ---- ancestors ----

  /** The ancestor at most `n` parent links up, or the last one reachable. */
  function Up(m: Tokens, id: Id, n: nat): (r: Id)
    ensures id in m ==> r in m
    decreases n
  {
    if n == 0 || id !in m || m[id].parent.None? || m[id].parent.value !in m then id
    else Up(m, m[id].parent.value, n - 1)
  }

  /** One more hop from where `n` hops lead. */
  lemma {:induction false} UpOneMore(m: Tokens, id: Id, n: nat)
    ensures Up(m, id, n + 1) == Up(m, Up(m, id, n), 1)
    decreases n
  {
    if n > 0 && id in m && m[id].parent.Some? && m[id].parent.value in m {
      UpOneMore(m, m[id].parent.value, n - 1);
    }
  }

  ghost predicate ParentsStored(m: Tokens) {
    forall id | id in m && m[id].parent.Some? :: m[id].parent.value in m
  }

  /** Later writes never change who a stored token's ancestors are. */
  lemma {:induction false} UpIsStable(m: Tokens, m': Tokens, id: Id, n: nat)
    requires TokensGrow(m, m') && ParentsStored(m) && id in m
    ensures Up(m', id, n) == Up(m, id, n)
    decreases n
  {
    if n > 0 && m[id].parent.Some? {
      UpIsStable(m, m', m[id].parent.value, n - 1);
    }
  }

  // ---- what the stored records satisfy ----

  /** History speaks about stored records only. */
  ghost predicate HistoryFits(db: Db) {
    && db.minted.Keys == db.codes.Keys && db.birth.Keys == db.tokens.Keys
    && db.origin.Keys <= db.tokens.Keys && db.revokedStep.Keys <= db.tokens.Keys
  }

  ghost predicate SessionsFit(m: Sessions) {
    forall id | id in m :: m[id].id == id
  }

  /** A code is what the authorize endpoint mints for its recorded request and for the session it names. */
  ghost predicate CodeFits(cfg: Config, c: Code, id: Id, minted: map<Id, AuthorizeRequest>, sessions: Sessions) {
    && id in minted && c.session.Some? && c.session.value in sessions
    && c == NewCode(cfg, minted[id], sessions[c.session.value], c.createdAt, id, c.hash).(consumedAt := c.consumedAt)
  }

  ghost predicate CodesFit(cfg: Config, codes: Codes, minted: map<Id, AuthorizeRequest>, sessions: Sessions) {
    forall id {:trigger CodeFits(cfg, codes[id], id, minted, sessions)} | id in codes ::
      CodeFits(cfg, codes[id], id, minted, sessions)
  }

  /** A chain root is what the code grant mints for the code it comes from. */
  ghost predicate RootFits(c: Code, t: Token, b: Birth) {
    && c.clientId == b.client.clientId && c.createdAt <= t.createdAt && c.session.Some?
    && t == NewRoot(b.client, c, t.createdAt, t.id, t.hash).(consumedAt := t.consumedAt, revokedAt := t.revokedAt)
  }

  /** A rotated token is what the refresh grant mints for its parent. */
  ghost predicate ChildFits(parent: Token, t: Token, b: Birth) {
    && parent.clientId == b.client.clientId && parent.session.Some?
    && parent.createdAt <= t.createdAt <= parent.absoluteExpiresAt
    && t == NewChild(b.client, parent, t.scope, t.createdAt, t.id, t.hash).(consumedAt := t.consumedAt, revokedAt := t.revokedAt)
  }

  ghost predicate TokenFits(t: Token, id: Id, tokens: Tokens, birth: map<Id, Birth>, origin: map<Id, Id>, codes: Codes) {
    && t.id == id && id in birth && birth[id].lookedUp <= birth[id].stored
    && match t.parent
       case None => id in origin && origin[id] in codes && RootFits(codes[origin[id]], t, birth[id])
       case Some(p) =>
         && id !in origin && p in tokens && p in birth && birth[p].stored < birth[id].stored
         && tokens[p].id == p && ChildFits(tokens[p], t, birth[id])
  }

  ghost predicate TokensFit(tokens: Tokens, birth: map<Id, Birth>, origin: map<Id, Id>, codes: Codes) {
    forall id {:trigger TokenFits(tokens[id], id, tokens, birth, origin, codes)} | id in tokens ::
      TokenFits(tokens[id], id, tokens, birth, origin, codes)
  }

  /** A refresh was answered within the token's two expiry times, with the auth time the ancestor walk gives. */
  ghost predicate RenewalFits(e: Renewal, tokens: Tokens) {
    && e.token in tokens
    && e.request.client.clientId == tokens[e.token].clientId
    && tokens[e.token].createdAt <= e.at
    && e.at <= tokens[e.token].absoluteExpiresAt && e.at <= tokens[e.token].expiresAt
    && e.authTime == tokens[Up(tokens, e.token, MAX_HOPS)].createdAt
    && (e.child.Some? ==> e.child.value in tokens && tokens[e.child.value].parent == Some(e.token))
  }

  ghost predicate RenewalsFit(es: seq<Renewal>, tokens: Tokens) {
    forall i {:trigger RenewalFits(es[i], tokens)} | 0 <= i < |es| :: RenewalFits(es[i], tokens)
  }

  ghost predicate RedemptionFits(cfg: Config, e: Redemption, codes: Codes, origin: map<Id, Id>) {
    && e.code in codes
    && e.request.client.clientId == codes[e.code].clientId
    && e.request.redirectUri == codes[e.code].redirectUri
    && PkceOk(cfg, e.request, codes[e.code])
    && e.scope == codes[e.code].scope && e.authTime == codes[e.code].createdAt
    && (e.root.Some? ==> e.root.value in origin && origin[e.root.value] == e.code)
  }

  ghost predicate RedemptionsFit(cfg: Config, es: seq<Redemption>, codes: Codes, origin: map<Id, Id>) {
    forall i {:trigger RedemptionFits(cfg, es[i], codes, origin)} | 0 <= i < |es| ::
      RedemptionFits(cfg, es[i], codes, origin)
  }

  /** Revoked tokens are exactly those with a revoking step, and that step came after every lookup that led to a child. */
  ghost predicate RevocationsFit(tokens: Tokens, birth: map<Id, Birth>, revokedStep: map<Id, nat>) {
    && (forall id {:trigger id in revokedStep} | id in tokens :: tokens[id].revokedAt.Some? <==> id in revokedStep)
    && (forall id {:trigger birth[id]} | id in tokens && id in birth && tokens[id].parent.Some? && tokens[id].parent.value in revokedStep ::
          birth[id].lookedUp < revokedStep[tokens[id].parent.value])
  }

  ghost predicate TokenHashesDiffer(m: Tokens) {
    forall k, l {:trigger m[k].hash, m[l].hash} | k in m && l in m && k != l :: m[k].hash != m[l].hash
  }

  ghost predicate CodeHashesDiffer(m: Codes) {
    forall k, l {:trigger m[k].hash, m[l].hash} | k in m && l in m && k != l :: m[k].hash != m[l].hash
  }

  /** What the stores and the history satisfy together. */
  ghost predicate DbInv(cfg: Config, db: Db) {
    && HistoryFits(db)
    && SessionsFit(db.sessions)
    && CodesFit(cfg, db.codes, db.minted, db.sessions)
    && TokensFit(db.tokens, db.birth, db.origin, db.codes)
    && RenewalsFit(db.refreshes, db.tokens)
    && RedemptionsFit(cfg, db.redemptions, db.codes, db.origin)
    && RevocationsFit(db.tokens, db.birth, db.revokedStep)
    && TokenHashesDiffer(db.tokens) && CodeHashesDiffer(db.codes)
  }

  /** Nothing on record is dated in the future. */
  ghost predicate Dated(db: Db, now: Time, step: nat) {
    && (forall id {:trigger db.tokens[id].createdAt} | id in db.tokens :: db.tokens[id].createdAt <= now)
    && (forall id {:trigger db.codes[id].createdAt} | id in db.codes :: db.codes[id].createdAt <= now)
    && (forall id {:trigger db.birth[id].stored} | id in db.birth :: db.birth[id].stored < step)
    && (forall id {:trigger db.revokedStep[id]} | id in db.revokedStep :: db.revokedStep[id] < step)
    && (forall i {:trigger db.refreshes[i].at} | 0 <= i < |db.refreshes| :: db.refreshes[i].at <= now)
  }

  // ---- records that stay fit while others change ----

  lemma CodesStayFit(cfg: Config, codes: Codes, codes': Codes, minted: map<Id, AuthorizeRequest>,
                     sessions: Sessions, sessions': Sessions)
    requires CodesFit(cfg, codes, minted, sessions) && SessionsGrow(sessions, sessions')
    requires codes'.Keys == codes.Keys && CodesGrow(codes, codes')
    ensures CodesFit(cfg, codes', minted, sessions')
  {
    forall id | id in codes' ensures CodeFits(cfg, codes'[id], id, minted, sessions') {
      assert CodeFits(cfg, codes[id], id, minted, sessions) && CodeLater(codes[id], codes'[id]);
    }
  }

  lemma TokenStaysFit(id: Id, tokens: Tokens, tokens': Tokens, birth: map<Id, Birth>, birth': map<Id, Birth>,
                      origin: map<Id, Id>, origin': map<Id, Id>, codes: Codes, codes': Codes)
    requires id in tokens && TokenFits(tokens[id], id, tokens, birth, origin, codes)
    requires TokensGrow(tokens, tokens') && CodesGrow(codes, codes')
    requires Extends(birth, birth') && Extends(origin, origin') && (id in origin' ==> id in origin)
    ensures TokenFits(tokens'[id], id, tokens', birth', origin', codes')
  {
  }

  lemma TokensStayFit(tokens: Tokens, tokens': Tokens, birth: map<Id, Birth>, origin: map<Id, Id>, codes: Codes, codes': Codes)
    requires TokensFit(tokens, birth, origin, codes) && TokensGrow(tokens, tokens') && CodesGrow(codes, codes')
    requires tokens'.Keys == tokens.Keys
    ensures TokensFit(tokens', birth, origin, codes')
  {
    forall id | id in tokens' ensures TokenFits(tokens'[id], id, tokens', birth, origin, codes') {
      TokenStaysFit(id, tokens, tokens', birth, birth, origin, origin, codes, codes');
    }
  }

  lemma ParentsAreStored(tokens: Tokens, birth: map<Id, Birth>, origin: map<Id, Id>, codes: Codes)
    requires TokensFit(tokens, birth, origin, codes)
    ensures ParentsStored(tokens)
  {
    forall id | id in tokens && tokens[id].parent.Some? ensures tokens[id].parent.value in tokens {
      assert TokenFits(tokens[id], id, tokens, birth, origin, codes);
    }
  }

  lemma RenewalsStayFit(es: seq<Renewal>, tokens: Tokens, tokens': Tokens)
    requires RenewalsFit(es, tokens) && TokensGrow(tokens, tokens') && ParentsStored(tokens)
    ensures RenewalsFit(es, tokens')
  {
    forall i | 0 <= i < |es| ensures RenewalFits(es[i], tokens') {
      assert RenewalFits(es[i], tokens);
      UpIsStable(tokens, tokens', es[i].token, MAX_HOPS);
    }
  }

  lemma RedemptionsStayFit(cfg: Config, es: seq<Redemption>, codes: Codes, codes': Codes, origin: map<Id, Id>, origin': map<Id, Id>)
    requires RedemptionsFit(cfg, es, codes, origin) && CodesGrow(codes, codes') && Extends(origin, origin')
    ensures RedemptionsFit(cfg, es, codes', origin')
  {
    forall i | 0 <= i < |es| ensures RedemptionFits(cfg, es[i], codes', origin') {
      assert RedemptionFits(cfg, es[i], codes, origin);
    }
  }
}
