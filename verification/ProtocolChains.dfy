/** What holds of every rotation chain and every code in any state an interleaved run reaches. */
module ProtocolChains {
  import opened Domain
  import opened Protocol
  import opened ProtocolInvariant
  import opened ProtocolProcs
  import opened ProtocolSteps

  // ---- roots and depths ----

  ghost predicate LinkFits(tokens: Tokens, birth: map<Id, Birth>, id: Id)
    requires id in tokens
  {
    && id in birth
    && (tokens[id].parent.Some? ==>
          tokens[id].parent.value in tokens && tokens[id].parent.value in birth
          && birth[tokens[id].parent.value].stored < birth[id].stored)
  }

  /** Parents are stored, and were stored before their children. */
  ghost predicate Linked(tokens: Tokens, birth: map<Id, Birth>) {
    forall id {:trigger LinkFits(tokens, birth, id)} | id in tokens :: LinkFits(tokens, birth, id)
  }

  ghost function Root(tokens: Tokens, birth: map<Id, Birth>, id: Id): (r: Id)
    requires Linked(tokens, birth) && id in tokens
    ensures r in tokens && tokens[r].parent.None?
    decreases if id in birth then birth[id].stored else 0
  {
    assert LinkFits(tokens, birth, id);
    if tokens[id].parent.None? then id else
      assert LinkFits(tokens, birth, tokens[id].parent.value);
      Root(tokens, birth, tokens[id].parent.value)
  }

  ghost function Depth(tokens: Tokens, birth: map<Id, Birth>, id: Id): nat
    requires Linked(tokens, birth) && id in tokens
    decreases if id in birth then birth[id].stored else 0
  {
    assert LinkFits(tokens, birth, id);
    if tokens[id].parent.None? then 0 else
      assert LinkFits(tokens, birth, tokens[id].parent.value);
      1 + Depth(tokens, birth, tokens[id].parent.value)
  }

  lemma FitIsLinked(cfg: Config, db: Db)
    requires DbInv(cfg, db)
    ensures Linked(db.tokens, db.birth)
  {
    forall id | id in db.tokens ensures LinkFits(db.tokens, db.birth, id) {
      assert TokenFits(db.tokens[id], id, db.tokens, db.birth, db.origin, db.codes);
    }
  }

  /** `n` hops reach the root exactly when the chain is no deeper than `n`. */
  lemma {:induction false} UpReachesRoot(tokens: Tokens, birth: map<Id, Birth>, id: Id, n: nat)
    requires Linked(tokens, birth) && id in tokens
    ensures Up(tokens, id, n) == Root(tokens, birth, id) <==> Depth(tokens, birth, id) <= n
    decreases n
  {
    assert LinkFits(tokens, birth, id);
    if tokens[id].parent.Some? && n > 0 {
      UpReachesRoot(tokens, birth, tokens[id].parent.value, n - 1);
    }
  }

  /** Going up goes back in time, so no token is its own ancestor. */
  lemma {:induction false} UpWasEarlier(tokens: Tokens, birth: map<Id, Birth>, id: Id, n: nat)
    requires Linked(tokens, birth) && id in tokens
    ensures Up(tokens, id, n) in birth && id in birth
    ensures n == 0 || tokens[id].parent.None? || birth[Up(tokens, id, n)].stored < birth[id].stored
    decreases n
  {
    assert LinkFits(tokens, birth, id);
    if tokens[id].parent.Some? && n > 0 {
      UpWasEarlier(tokens, birth, tokens[id].parent.value, n - 1);
    }
  }

  /** Parent links never form a cycle: every proper ancestor was stored strictly earlier. */
  lemma NoCycles(cfg: Config, ss: seq<State>, acts: seq<Action>, i: nat, id: Id, n: nat)
    requires Run(cfg, ss, acts) && i < |ss| && id in ss[i].db.tokens && ss[i].db.tokens[id].parent.Some? && n > 0
    ensures Up(ss[i].db.tokens, id, n) != id
  {
    RunKeeps(cfg, ss, acts, i);
    FitIsLinked(cfg, ss[i].db);
    UpWasEarlier(ss[i].db.tokens, ss[i].db.birth, id, n);
  }

  // ---- each chain is a line ----

  lemma {:induction false} SameDepthSameToken(tokens: Tokens, birth: map<Id, Birth>, u: Id, v: Id)
    requires Linked(tokens, birth) && OnlyChildren(tokens) && u in tokens && v in tokens
    requires Root(tokens, birth, u) == Root(tokens, birth, v)
    requires Depth(tokens, birth, u) == Depth(tokens, birth, v)
    ensures u == v
    decreases Depth(tokens, birth, u)
  {
    assert LinkFits(tokens, birth, u) && LinkFits(tokens, birth, v);
    if tokens[u].parent.Some? && tokens[v].parent.Some? {
      SameDepthSameToken(tokens, birth, tokens[u].parent.value, tokens[v].parent.value);
    }
  }

  /** Of two tokens in one chain, the shallower is an ancestor of the deeper. */
  lemma {:induction false} ChainIsALine(tokens: Tokens, birth: map<Id, Birth>, u: Id, v: Id)
    requires Linked(tokens, birth) && OnlyChildren(tokens) && u in tokens && v in tokens
    requires Root(tokens, birth, u) == Root(tokens, birth, v)
    requires Depth(tokens, birth, u) <= Depth(tokens, birth, v)
    ensures Up(tokens, v, Depth(tokens, birth, v) - Depth(tokens, birth, u)) == u
    decreases Depth(tokens, birth, v)
  {
    if Depth(tokens, birth, u) == Depth(tokens, birth, v) {
      SameDepthSameToken(tokens, birth, u, v);
    } else {
      assert LinkFits(tokens, birth, v);
      ChainIsALine(tokens, birth, u, tokens[v].parent.value);
    }
  }

  lemma {:induction false} ProperAncestorHasChild(tokens: Tokens, birth: map<Id, Birth>, v: Id, n: nat)
    requires Linked(tokens, birth) && v in tokens && 0 < n <= Depth(tokens, birth, v)
    ensures !NoChild(tokens, Up(tokens, v, n))
    decreases n
  {
    assert LinkFits(tokens, birth, v);
    if n > 1 {
      ProperAncestorHasChild(tokens, birth, tokens[v].parent.value, n - 1);
    }
  }

  /** An unconsumed token is the deepest of its chain. */
  lemma UnconsumedIsDeepest(tokens: Tokens, birth: map<Id, Birth>, u: Id, v: Id)
    requires Linked(tokens, birth) && OnlyChildren(tokens) && NoChild(tokens, u)
    requires u in tokens && v in tokens && Root(tokens, birth, u) == Root(tokens, birth, v)
    ensures Depth(tokens, birth, v) <= Depth(tokens, birth, u)
  {
    if Depth(tokens, birth, u) < Depth(tokens, birth, v) {
      ChainIsALine(tokens, birth, u, v);
      ProperAncestorHasChild(tokens, birth, v, Depth(tokens, birth, v) - Depth(tokens, birth, u));
    }
  }

  /** Two tokens of one chain: the shallower lies on the deeper one's way to the root, and one of them is consumed. */
  ghost predicate OnOneLine(tokens: Tokens, birth: map<Id, Birth>, u: Id, v: Id)
    requires Linked(tokens, birth) && u in tokens && v in tokens
  {
    && (Depth(tokens, birth, u) <= Depth(tokens, birth, v) ==>
          Up(tokens, v, Depth(tokens, birth, v) - Depth(tokens, birth, u)) == u)
    && (u != v ==> tokens[u].consumedAt.Some? || tokens[v].consumedAt.Some?)
  }

  ghost predicate ChainsAreLines(tokens: Tokens, birth: map<Id, Birth>) {
    && Linked(tokens, birth)
    && forall u, v {:trigger OnOneLine(tokens, birth, u, v)} |
         u in tokens && v in tokens && Root(tokens, birth, u) == Root(tokens, birth, v) :: OnOneLine(tokens, birth, u, v)
  }

  ghost predicate ParentsConsumed(tokens: Tokens) {
    forall k {:trigger tokens[k].parent} | k in tokens && tokens[k].parent.Some? ::
      tokens[k].parent.value in tokens && tokens[tokens[k].parent.value].consumedAt.Some?
  }

  lemma LinesFromWinners(tokens: Tokens, birth: map<Id, Birth>, es: seq<Renewal>)
    requires Linked(tokens, birth) && OnlyChildren(tokens) && UnspentIsBarren(tokens, es)
    ensures ChainsAreLines(tokens, birth)
  {
    forall u, v | u in tokens && v in tokens && Root(tokens, birth, u) == Root(tokens, birth, v)
      ensures OnOneLine(tokens, birth, u, v)
    {
      if Depth(tokens, birth, u) <= Depth(tokens, birth, v) {
        ChainIsALine(tokens, birth, u, v);
      }
      if tokens[u].consumedAt.None? && tokens[v].consumedAt.None? {
        assert NoChild(tokens, u) && NoChild(tokens, v);
        UnconsumedIsDeepest(tokens, birth, u, v);
        UnconsumedIsDeepest(tokens, birth, v, u);
        SameDepthSameToken(tokens, birth, u, v);
      }
    }
  }

  lemma ParentsAreConsumed(tokens: Tokens, birth: map<Id, Birth>, es: seq<Renewal>)
    requires Linked(tokens, birth) && UnspentIsBarren(tokens, es)
    ensures ParentsConsumed(tokens)
  {
    forall k {:trigger tokens[k].parent} | k in tokens && tokens[k].parent.Some?
      ensures tokens[k].parent.value in tokens && tokens[tokens[k].parent.value].consumedAt.Some?
    {
      assert LinkFits(tokens, birth, k);
      var p := tokens[k].parent.value;
      assert tokens[p].consumedAt.None? ==> NoChild(tokens, p);
    }
  }

  /** Rotation is linear in every interleaving: no two tokens share a parent, a token with a child is consumed,
      at most one refresh succeeds per token, and every chain is a line with at most one unconsumed token. */
  lemma RotationIsLinear(cfg: Config, ss: seq<State>, acts: seq<Action>, i: nat)
    requires Run(cfg, ss, acts) && i < |ss|
    ensures OnlyChildren(ss[i].db.tokens)
    ensures ParentsConsumed(ss[i].db.tokens)
    ensures RenewedOnce(ss[i].db.refreshes)
    ensures ChainsAreLines(ss[i].db.tokens, ss[i].db.birth)
  {
    RunKeeps(cfg, ss, acts, i);
    var db := ss[i].db;
    FitIsLinked(cfg, db);
    LinesFromWinners(db.tokens, db.birth, db.refreshes);
    ParentsAreConsumed(db.tokens, db.birth, db.refreshes);
  }

  // ---- what stays the same along a chain ----

  /** What a chain's members share with its root, and how far each member's expiry times reach. */
  ghost predicate MemberFits(tokens: Tokens, birth: map<Id, Birth>, id: Id)
    requires Linked(tokens, birth) && id in tokens
  {
    var r := Root(tokens, birth, id);
    var t, root := tokens[id], tokens[r];
    && id in birth && r in birth
    && t.clientId == root.clientId && t.userId == root.userId && t.session == root.session && t.session.Some?
    && root.createdAt <= t.createdAt
    && t.absoluteExpiresAt == root.absoluteExpiresAt
    && root.absoluteExpiresAt == root.createdAt + birth[r].client.AbsoluteLifetime()
    && (birth[id].client.refreshExpiration == Sliding && t.parent.Some? ==> t.expiresAt <= t.absoluteExpiresAt)
    && (birth[id].client.refreshExpiration == Absolute
        && birth[id].client.AbsoluteLifetime() >= birth[r].client.AbsoluteLifetime() ==>
          t.expiresAt >= t.absoluteExpiresAt)
  }

  lemma {:induction false} MemberIsFit(cfg: Config, db: Db, id: Id)
    requires TokensFit(db.tokens, db.birth, db.origin, db.codes) && Linked(db.tokens, db.birth) && id in db.tokens
    ensures MemberFits(db.tokens, db.birth, id)
    decreases if id in db.birth then db.birth[id].stored else 0
  {
    assert LinkFits(db.tokens, db.birth, id);
    assert TokenFits(db.tokens[id], id, db.tokens, db.birth, db.origin, db.codes);
    if db.tokens[id].parent.Some? {
      MemberIsFit(cfg, db, db.tokens[id].parent.value);
    }
  }

  /** In every interleaving a chain keeps its root's client, user, session and absolute ceiling, which is the root's
      creation plus the absolute lifetime its client then had. Rotated tokens minted in sliding mode never expire past
      the ceiling, and tokens minted in absolute mode with an unreduced lifetime never expire before it, so the
      earlier of their two expiry times is the ceiling. */
  lemma ChainsKeepTheirRoot(cfg: Config, ss: seq<State>, acts: seq<Action>, i: nat, id: Id)
    requires Run(cfg, ss, acts) && i < |ss| && id in ss[i].db.tokens
    ensures Linked(ss[i].db.tokens, ss[i].db.birth) && MemberFits(ss[i].db.tokens, ss[i].db.birth, id)
  {
    RunKeeps(cfg, ss, acts, i);
    FitIsLinked(cfg, ss[i].db);
    MemberIsFit(cfg, ss[i].db, id);
  }

  /** No refresh succeeds on a clock reading past the root's creation plus the absolute lifetime at issuance,
      whatever the client's settings have become since. */
  lemma NoRefreshPastTheCeiling(cfg: Config, ss: seq<State>, acts: seq<Action>, i: nat, k: nat)
    requires Run(cfg, ss, acts) && i < |ss| && k < |ss[i].db.refreshes|
    ensures var db, e := ss[i].db, ss[i].db.refreshes[k];
            && Linked(db.tokens, db.birth) && e.token in db.tokens
            && var r := Root(db.tokens, db.birth, e.token);
               r in db.birth && e.at <= db.tokens[r].createdAt + db.birth[r].client.AbsoluteLifetime()
  {
    RunKeeps(cfg, ss, acts, i);
    var db, e := ss[i].db, ss[i].db.refreshes[k];
    FitIsLinked(cfg, db);
    assert RenewalFits(e, db.tokens);
    MemberIsFit(cfg, db, e.token);
  }

  /** The reported auth time never exceeds the clock, and it is the creation of the chain's root whenever the token
      is at most `MAX_HOPS` rotations deep; deeper down the walk stops short of the root. */
  lemma AuthTimeIsTheRoots(cfg: Config, ss: seq<State>, acts: seq<Action>, i: nat, k: nat)
    requires Run(cfg, ss, acts) && i < |ss| && k < |ss[i].db.refreshes|
    ensures var db, e := ss[i].db, ss[i].db.refreshes[k];
            && Linked(db.tokens, db.birth) && e.token in db.tokens
            && var walked := Up(db.tokens, e.token, MAX_HOPS);
               && walked in db.tokens && e.authTime == db.tokens[walked].createdAt && e.authTime <= e.at
               && (walked == Root(db.tokens, db.birth, e.token) <==> Depth(db.tokens, db.birth, e.token) <= MAX_HOPS)
  {
    RunKeeps(cfg, ss, acts, i);
    var db, e := ss[i].db, ss[i].db.refreshes[k];
    FitIsLinked(cfg, db);
    assert RenewalFits(e, db.tokens);
    UpReachesRoot(db.tokens, db.birth, e.token, MAX_HOPS);
    UpIsOlder(cfg, db, e.token, MAX_HOPS);
  }

  lemma {:induction false} UpIsOlder(cfg: Config, db: Db, id: Id, n: nat)
    requires TokensFit(db.tokens, db.birth, db.origin, db.codes) && id in db.tokens
    ensures db.tokens[Up(db.tokens, id, n)].createdAt <= db.tokens[id].createdAt
    decreases n
  {
    assert TokenFits(db.tokens[id], id, db.tokens, db.birth, db.origin, db.codes);
    if db.tokens[id].parent.Some? && n > 0 {
      UpIsOlder(cfg, db, db.tokens[id].parent.value, n - 1);
    }
  }

  /** Two refreshes in one chain no deeper than the walk reaches report the same auth time. */
  lemma AuthTimeIsStable(cfg: Config, ss: seq<State>, acts: seq<Action>, i: nat, k: nat, l: nat)
    requires Run(cfg, ss, acts) && i < |ss| && k < |ss[i].db.refreshes| && l < |ss[i].db.refreshes|
    requires var db := ss[i].db;
             && Linked(db.tokens, db.birth)
             && db.refreshes[k].token in db.tokens && db.refreshes[l].token in db.tokens
             && Root(db.tokens, db.birth, db.refreshes[k].token) == Root(db.tokens, db.birth, db.refreshes[l].token)
             && Depth(db.tokens, db.birth, db.refreshes[k].token) <= MAX_HOPS
             && Depth(db.tokens, db.birth, db.refreshes[l].token) <= MAX_HOPS
    ensures ss[i].db.refreshes[k].authTime == ss[i].db.refreshes[l].authTime
  {
    AuthTimeIsTheRoots(cfg, ss, acts, i, k);
    AuthTimeIsTheRoots(cfg, ss, acts, i, l);
  }

  // ---- codes ----

  /** What an answered exchange and the code behind it satisfy. */
  ghost predicate RedeemedProperly(cfg: Config, db: Db, e: Redemption) {
    && e.code in db.codes && e.code in db.minted
    && var c, r := db.codes[e.code], db.minted[e.code];
       && c.consumedAt.Some?
       && e.request.client.clientId == c.clientId == r.client.clientId
       && e.request.redirectUri == c.redirectUri == r.redirectUri
       && (c.challenge.Some? ==> VerifierOk(cfg, e.request.verifier, c.challenge.value, PKCE_METHOD))
       && (e.root.Some? ==> e.root.value in db.origin && db.origin[e.root.value] == e.code)
  }

  /** In every interleaving an exchange answers with the scope that the request behind the code was allowed and with the
      creation of the code as auth time, which is never later than the clock or than the root of the chain it starts. */
  lemma ExchangesReportTheCode(cfg: Config, ss: seq<State>, acts: seq<Action>, i: nat, k: nat)
    requires Run(cfg, ss, acts) && i < |ss| && k < |ss[i].db.redemptions|
    ensures var db, e := ss[i].db, ss[i].db.redemptions[k];
            && e.code in db.codes && e.code in db.minted
            && e.scope == db.minted[e.code].scope && e.authTime == db.codes[e.code].createdAt <= ss[i].now
            && (e.root.Some? ==> e.root.value in db.tokens && e.authTime <= db.tokens[e.root.value].createdAt
                                 && db.tokens[e.root.value].scope == e.scope)
  {
    RunKeeps(cfg, ss, acts, i);
    var db, e := ss[i].db, ss[i].db.redemptions[k];
    assert RedemptionFits(cfg, e, db.codes, db.origin);
    assert CodeFits(cfg, db.codes[e.code], e.code, db.minted, db.sessions);
    assert db.codes[e.code].createdAt <= ss[i].now;
    if e.root.Some? {
      var root := e.root.value;
      assert TokenFits(db.tokens[root], root, db.tokens, db.birth, db.origin, db.codes);
    }
  }

  /** In every interleaving a code is redeemed at most once, starts at most one chain, and is redeemed only by its own
      client with its own redirect URI and, if it carries a challenge, with a verifier that matches under S256. */
  lemma CodesAreSingleUse(cfg: Config, ss: seq<State>, acts: seq<Action>, i: nat)
    requires Run(cfg, ss, acts) && i < |ss|
    ensures RedeemedOnce(ss[i].db.redemptions)
    ensures OneRootPerCode(ss[i].db.origin)
    ensures forall k {:trigger ss[i].db.redemptions[k]} | 0 <= k < |ss[i].db.redemptions| ::
              RedeemedProperly(cfg, ss[i].db, ss[i].db.redemptions[k])
    ensures forall t {:trigger ss[i].db.tokens[t].parent} | t in ss[i].db.tokens && ss[i].db.tokens[t].parent.None? ::
              t in ss[i].db.origin && ss[i].db.origin[t] in ss[i].db.codes
  {
    RunKeeps(cfg, ss, acts, i);
    var db := ss[i].db;
    forall k {:trigger db.redemptions[k]} | 0 <= k < |db.redemptions|
      ensures RedeemedProperly(cfg, db, db.redemptions[k])
    {
      var e := db.redemptions[k];
      assert RedemptionFits(cfg, e, db.codes, db.origin);
      assert CodeFits(cfg, db.codes[e.code], e.code, db.minted, db.sessions);
      assert db.codes[e.code].consumedAt.None? ==> NotRedeemed(db.redemptions, e.code);
    }
    forall t {:trigger db.tokens[t].parent} | t in db.tokens && db.tokens[t].parent.None?
      ensures t in db.origin && db.origin[t] in db.codes
    {
      assert TokenFits(db.tokens[t], t, db.tokens, db.birth, db.origin, db.codes);
    }
  }
}
