/** What the callers of the server can rely on: no refresh token and no code buys tokens twice, and what they end has ended. */
module Answers {
  import opened Domain
  import opened StoreSpec
  import opened Protocol
  import opened ProtocolInvariant
  import opened ProtocolProcs
  import opened ProtocolSteps
  import opened ProtocolSerial
  import opened MemoryStores
  import opened Service

  predicate Redeemed(reply: Reply) {
    reply.Exchanged? && reply.exchanged.Tokens?
  }

  predicate Renewed(reply: Reply) {
    reply.Refreshed? && reply.refreshed.Tokens?
  }

  lemma PrefixFits(cfg: Config, sha: string -> string, calls: seq<Call>, i: nat)
    requires AllFit(cfg, sha, calls) && i <= |calls|
    ensures AllFit(cfg, sha, calls[..i])
  {
    forall k | 0 <= k < i ensures Fits(ServedAll(cfg, sha, calls[..i][..k]), calls[..i][k]) {
      assert calls[..i][..k] == calls[..k] && calls[..i][k] == calls[k];
    }
  }

  lemma OneCallMore(cfg: Config, sha: string -> string, calls: seq<Call>, i: nat)
    requires i < |calls|
    ensures ServedAll(cfg, sha, calls[..i + 1]) == Served(cfg, sha, ServedAll(cfg, sha, calls[..i]), calls[i]).0
  {
    assert calls[..i + 1][..i] == calls[..i];
  }

  predicate TokensKept(m: Tokens, m': Tokens) {
    forall id | id in m :: id in m' && m'[id].hash == m[id].hash
  }

  predicate CodesKept(m: Codes, m': Codes) {
    forall id | id in m :: id in m' && m'[id].hash == m[id].hash
  }

  /** Codes and tokens stay stored under their ids and hashes. */
  predicate Keeps(w: World, w': World) {
    CodesKept(w.codes, w'.codes) && TokensKept(w.tokens, w'.tokens)
  }

  lemma RedemptionKeeps(cfg: Config, st: Exchange.Stores, found: Option<Domain.Code>, r: CodeRequest, env: Exchange.Surroundings)
    requires env.newId !in st.tokens
    ensures var st' := Exchange.Redeem(cfg, st, found, r, env).1; CodesKept(st.codes, st'.codes) && TokensKept(st.tokens, st'.tokens)
  {
  }

  lemma RenewalKeeps(cfg: Config, m: Tokens, found: Option<Token>, r: RefreshRequest, env: Refresh.Surroundings)
    requires env.newId !in m
    ensures TokensKept(m, Refresh.Renew(cfg, m, found, r, env).1)
  {
  }

  lemma RedeemCallKeeps(cfg: Config, sha: string -> string, w: World, form: Exchange.Form, client: Option<Client>, env: Exchange.Surroundings)
    requires env.newId !in w.tokens
    ensures Keeps(w, CodeRedeemed(cfg, sha, w, form, client, env).0)
  {
    if client.Some? {
      var r := RequestForTokens(sha, form, client.value);
      RedemptionKeeps(cfg, Exchange.Stores(w.codes, w.tokens), Presented(w, r, env), r, env);
    }
  }

  lemma RenewCallKeeps(cfg: Config, sha: string -> string, w: World, form: Refresh.Form, client: Option<Client>, env: Refresh.Surroundings)
    requires env.newId !in w.tokens
    ensures Keeps(w, TokenRenewed(cfg, sha, w, form, client, env).0)
  {
    if client.Some? {
      var r := RequestForMore(sha, form, client.value);
      RenewalKeeps(cfg, w.tokens, Shown(w, r, env), r, env);
    }
  }

  lemma CallKeeps(cfg: Config, sha: string -> string, w: World, c: Call)
    requires Fits(w, c)
    ensures Keeps(w, Served(cfg, sha, w, c).0)
  {
    match c
    case RedeemCode(form, client, env) => RedeemCallKeeps(cfg, sha, w, form, client, env);
    case RenewToken(form, client, env) => RenewCallKeeps(cfg, sha, w, form, client, env);
    case _ =>
  }

  lemma KeepsOn(w: World, w': World, w'': World)
    requires Keeps(w, w') && Keeps(w', w'')
    ensures Keeps(w, w'')
  {
  }

  lemma OneCallKeeps(cfg: Config, sha: string -> string, calls: seq<Call>, i: nat)
    requires i < |calls| && Fits(ServedAll(cfg, sha, calls[..i]), calls[i])
    ensures Keeps(ServedAll(cfg, sha, calls[..i]), ServedAll(cfg, sha, calls[..i + 1]))
  {
    CallKeeps(cfg, sha, ServedAll(cfg, sha, calls[..i]), calls[i]);
    OneCallMore(cfg, sha, calls, i);
  }

  lemma {:induction false} CallsKeep(cfg: Config, sha: string -> string, calls: seq<Call>, i: nat, j: nat)
    requires AllFit(cfg, sha, calls) && i <= j <= |calls|
    ensures Keeps(ServedAll(cfg, sha, calls[..i]), ServedAll(cfg, sha, calls[..j]))
    decreases j
  {
    if i < j {
      CallsKeep(cfg, sha, calls, i, j - 1);
      OneCallKeeps(cfg, sha, calls, j - 1);
      KeepsOn(ServedAll(cfg, sha, calls[..i]), ServedAll(cfg, sha, calls[..j - 1]), ServedAll(cfg, sha, calls[..j]));
    }
  }

  /** After any calls no two stored codes and no two stored tokens share a hash. */
  lemma ServedIsFit(cfg: Config, sha: string -> string, calls: seq<Call>, n: nat)
    requires AllFit(cfg, sha, calls) && n <= |calls|
    ensures var w := ServedAll(cfg, sha, calls[..n]); TokenHashesDiffer(w.tokens) && CodeHashesDiffer(w.codes) && IdsMatch(w)
  {
    PrefixFits(cfg, sha, calls, n);
    var ss, acts := ServingIsARun(cfg, sha, calls[..n]);
    RunKeeps(cfg, ss, acts, |ss| - 1);
    StateIdsMatch(cfg, Last(ss));
  }

  lemma RecordIsFit(cfg: Config, sha: string -> string, calls: seq<Call>)
    requires AllFit(cfg, sha, calls)
    ensures RenewedOnce(Renewals(sha, Transcript(cfg, sha, calls))) && RedeemedOnce(Redemptions(sha, Transcript(cfg, sha, calls)))
  {
    var ss, acts := ServingIsARun(cfg, sha, calls);
    RunKeeps(cfg, ss, acts, |ss| - 1);
  }

  lemma {:induction false} TurnOf(cfg: Config, sha: string -> string, calls: seq<Call>, i: nat)
    requires i < |calls|
    ensures Transcript(cfg, sha, calls)[i] == Turn(ServedAll(cfg, sha, calls[..i]), calls[i], ReplyTo(cfg, sha, calls[..i], calls[i]))
    decreases |calls|
  {
    if i < |calls| - 1 {
      TurnOf(cfg, sha, calls[..|calls| - 1], i);
      assert calls[..|calls| - 1][..i] == calls[..i];
    }
  }

  /** Records carry the id they are stored under. */
  ghost predicate IdsMatch(w: World) {
    && (forall id {:trigger w.codes[id].id} | id in w.codes :: w.codes[id].id == id)
    && IdsFit(w.tokens)
  }

  lemma StateIdsMatch(cfg: Config, s: State)
    requires Inv(cfg, s)
    ensures IdsMatch(World(s.now, s.db.sessions, s.db.codes, s.db.tokens))
  {
    TokenIdsFit(cfg, s);
    forall id {:trigger s.db.codes[id].id} | id in s.db.codes ensures s.db.codes[id].id == id {
      assert CodeFits(cfg, s.db.codes[id], id, s.db.minted, s.db.sessions);
    }
  }

  // ---- no refresh token is renewed twice ----

  /** The id of the stored token that a call presents. */
  ghost function TokenShown(sha: string -> string, w: World, c: Call): Id
    requires c.RenewToken?
  {
    var found := Scan(w.tokens, sha(c.refresh.refreshToken));
    if found.Some? then found.value.id else 0
  }

  lemma RenewalIsOfStored(cfg: Config, sha: string -> string, w: World, c: Call)
    requires c.RenewToken? && Renewed(Served(cfg, sha, w, c).1) && IdsMatch(w)
    ensures var id := TokenShown(sha, w, c); id in w.tokens && w.tokens[id].hash == sha(c.refresh.refreshToken)
  {
    ScanFinds(w.tokens, sha(c.refresh.refreshToken));
  }

  /** A turn that ends in tokens for a presented token. */
  ghost predicate IsRenewal(sha: string -> string, t: Turn) {
    t.call.RenewToken? && |NewRenewals(sha, t)| == 1 && NewRenewals(sha, t)[0].token == TokenShown(sha, t.before, t.call)
  }

  lemma RenewalIsOne(cfg: Config, sha: string -> string, w: World, c: Call)
    requires c.RenewToken? && Renewed(Served(cfg, sha, w, c).1)
    ensures IsRenewal(sha, Turn(w, c, Served(cfg, sha, w, c).1))
  {
  }

  lemma {:induction false} RenewalIsOnRecord(sha: string -> string, turns: seq<Turn>, i: nat) returns (a: nat)
    requires i < |turns| && IsRenewal(sha, turns[i])
    ensures a == |Renewals(sha, turns[..i])| < |Renewals(sha, turns)|
    ensures Renewals(sha, turns)[a].token == TokenShown(sha, turns[i].before, turns[i].call)
    decreases |turns|
  {
    var before := turns[..|turns| - 1];
    assert before[..i] == turns[..i];
    if i == |turns| - 1 {
      a := |Renewals(sha, before)|;
    } else {
      a := RenewalIsOnRecord(sha, before, i);
    }
  }

  /** Two answers with tokens are two entries of the record. */
  lemma BothRenewalsOnRecord(sha: string -> string, turns: seq<Turn>, i: nat, j: nat)
    requires i < j < |turns| && IsRenewal(sha, turns[i]) && IsRenewal(sha, turns[j]) && RenewedOnce(Renewals(sha, turns))
    ensures TokenShown(sha, turns[i].before, turns[i].call) != TokenShown(sha, turns[j].before, turns[j].call)
  {
    var a := RenewalIsOnRecord(sha, turns, i);
    var b := RenewalIsOnRecord(sha, turns, j);
    var earlier := RenewalIsOnRecord(sha, turns[..j], i);
    assert turns[..j][..i] == turns[..i];
  }

  lemma SameTokenShown(cfg: Config, sha: string -> string, calls: seq<Call>, i: nat, j: nat)
    requires AllFit(cfg, sha, calls) && i < j < |calls| && calls[i].RenewToken? && calls[j].RenewToken?
    requires sha(calls[i].refresh.refreshToken) == sha(calls[j].refresh.refreshToken)
    ensures Renewed(ReplyTo(cfg, sha, calls[..i], calls[i])) && Renewed(ReplyTo(cfg, sha, calls[..j], calls[j])) ==>
              TokenShown(sha, ServedAll(cfg, sha, calls[..i]), calls[i]) == TokenShown(sha, ServedAll(cfg, sha, calls[..j]), calls[j])
  {
    if Renewed(ReplyTo(cfg, sha, calls[..i], calls[i])) && Renewed(ReplyTo(cfg, sha, calls[..j], calls[j])) {
      var w, w' := ServedAll(cfg, sha, calls[..i]), ServedAll(cfg, sha, calls[..j]);
      ServedIsFit(cfg, sha, calls, i);
      ServedIsFit(cfg, sha, calls, j);
      RenewalIsOfStored(cfg, sha, w, calls[i]);
      RenewalIsOfStored(cfg, sha, w', calls[j]);
      CallsKeep(cfg, sha, calls, i, j);
      var a, b := TokenShown(sha, w, calls[i]), TokenShown(sha, w', calls[j]);
      assert w'.tokens[a].hash == w.tokens[a].hash == w'.tokens[b].hash;
    }
  }

  /** Of two calls that present the same token at most one is answered with tokens, whatever else was called before,
      between and after. */
  lemma TokensAreRenewedOnce(cfg: Config, sha: string -> string, calls: seq<Call>, i: nat, j: nat)
    requires AllFit(cfg, sha, calls) && i < j < |calls| && calls[i].RenewToken? && calls[j].RenewToken?
    requires sha(calls[i].refresh.refreshToken) == sha(calls[j].refresh.refreshToken)
    ensures !(Renewed(ReplyTo(cfg, sha, calls[..i], calls[i])) && Renewed(ReplyTo(cfg, sha, calls[..j], calls[j])))
  {
    if Renewed(ReplyTo(cfg, sha, calls[..i], calls[i])) && Renewed(ReplyTo(cfg, sha, calls[..j], calls[j])) {
      SameTokenShown(cfg, sha, calls, i, j);
      RenewalIsOne(cfg, sha, ServedAll(cfg, sha, calls[..i]), calls[i]);
      RenewalIsOne(cfg, sha, ServedAll(cfg, sha, calls[..j]), calls[j]);
      TurnOf(cfg, sha, calls, i);
      TurnOf(cfg, sha, calls, j);
      RecordIsFit(cfg, sha, calls);
      BothRenewalsOnRecord(sha, Transcript(cfg, sha, calls), i, j);
    }
  }

  // ---- no code is redeemed twice ----

  /** The id of the stored code that a call presents. */
  ghost function CodeShown(sha: string -> string, w: World, c: Call): Id
    requires c.RedeemCode?
  {
    var found := ScanCodes(w.codes, sha(c.exchange.code));
    if found.Some? then found.value.id else 0
  }

  lemma RedemptionIsOfStored(cfg: Config, sha: string -> string, w: World, c: Call)
    requires c.RedeemCode? && Redeemed(Served(cfg, sha, w, c).1) && IdsMatch(w)
    ensures var id := CodeShown(sha, w, c); id in w.codes && w.codes[id].hash == sha(c.exchange.code)
  {
    var id :| IsCodeFor(w.codes, sha(c.exchange.code), id) && ScanCodes(w.codes, sha(c.exchange.code)).value == w.codes[id];
  }

  /** A turn that ends in tokens for a presented code. */
  ghost predicate IsRedemption(sha: string -> string, t: Turn) {
    t.call.RedeemCode? && |NewRedemptions(sha, t)| == 1 && NewRedemptions(sha, t)[0].code == CodeShown(sha, t.before, t.call)
  }

  lemma RedemptionIsOne(cfg: Config, sha: string -> string, w: World, c: Call)
    requires c.RedeemCode? && Redeemed(Served(cfg, sha, w, c).1)
    ensures IsRedemption(sha, Turn(w, c, Served(cfg, sha, w, c).1))
  {
  }

  lemma {:induction false} RedemptionIsOnRecord(sha: string -> string, turns: seq<Turn>, i: nat) returns (a: nat)
    requires i < |turns| && IsRedemption(sha, turns[i])
    ensures a == |Redemptions(sha, turns[..i])| < |Redemptions(sha, turns)|
    ensures Redemptions(sha, turns)[a].code == CodeShown(sha, turns[i].before, turns[i].call)
    decreases |turns|
  {
    var before := turns[..|turns| - 1];
    assert before[..i] == turns[..i];
    if i == |turns| - 1 {
      a := |Redemptions(sha, before)|;
    } else {
      a := RedemptionIsOnRecord(sha, before, i);
    }
  }

  /** Two answers with tokens are two entries of the record. */
  lemma BothRedemptionsOnRecord(sha: string -> string, turns: seq<Turn>, i: nat, j: nat)
    requires i < j < |turns| && IsRedemption(sha, turns[i]) && IsRedemption(sha, turns[j]) && RedeemedOnce(Redemptions(sha, turns))
    ensures CodeShown(sha, turns[i].before, turns[i].call) != CodeShown(sha, turns[j].before, turns[j].call)
  {
    var a := RedemptionIsOnRecord(sha, turns, i);
    var b := RedemptionIsOnRecord(sha, turns, j);
    var earlier := RedemptionIsOnRecord(sha, turns[..j], i);
    assert turns[..j][..i] == turns[..i];
  }

  lemma SameCodeShown(cfg: Config, sha: string -> string, calls: seq<Call>, i: nat, j: nat)
    requires AllFit(cfg, sha, calls) && i < j < |calls| && calls[i].RedeemCode? && calls[j].RedeemCode?
    requires sha(calls[i].exchange.code) == sha(calls[j].exchange.code)
    ensures Redeemed(ReplyTo(cfg, sha, calls[..i], calls[i])) && Redeemed(ReplyTo(cfg, sha, calls[..j], calls[j])) ==>
              CodeShown(sha, ServedAll(cfg, sha, calls[..i]), calls[i]) == CodeShown(sha, ServedAll(cfg, sha, calls[..j]), calls[j])
  {
    if Redeemed(ReplyTo(cfg, sha, calls[..i], calls[i])) && Redeemed(ReplyTo(cfg, sha, calls[..j], calls[j])) {
      var w, w' := ServedAll(cfg, sha, calls[..i]), ServedAll(cfg, sha, calls[..j]);
      ServedIsFit(cfg, sha, calls, i);
      ServedIsFit(cfg, sha, calls, j);
      RedemptionIsOfStored(cfg, sha, w, calls[i]);
      RedemptionIsOfStored(cfg, sha, w', calls[j]);
      CallsKeep(cfg, sha, calls, i, j);
      var a, b := CodeShown(sha, w, calls[i]), CodeShown(sha, w', calls[j]);
      assert w'.codes[a].hash == w.codes[a].hash == w'.codes[b].hash;
    }
  }

  /** Of two calls that present the same code at most one is answered with tokens, whatever else was called before,
      between and after. */
  lemma CodesAreRedeemedOnce(cfg: Config, sha: string -> string, calls: seq<Call>, i: nat, j: nat)
    requires AllFit(cfg, sha, calls) && i < j < |calls| && calls[i].RedeemCode? && calls[j].RedeemCode?
    requires sha(calls[i].exchange.code) == sha(calls[j].exchange.code)
    ensures !(Redeemed(ReplyTo(cfg, sha, calls[..i], calls[i])) && Redeemed(ReplyTo(cfg, sha, calls[..j], calls[j])))
  {
    if Redeemed(ReplyTo(cfg, sha, calls[..i], calls[i])) && Redeemed(ReplyTo(cfg, sha, calls[..j], calls[j])) {
      SameCodeShown(cfg, sha, calls, i, j);
      RedemptionIsOne(cfg, sha, ServedAll(cfg, sha, calls[..i]), calls[i]);
      RedemptionIsOne(cfg, sha, ServedAll(cfg, sha, calls[..j]), calls[j]);
      TurnOf(cfg, sha, calls, i);
      TurnOf(cfg, sha, calls, j);
      RecordIsFit(cfg, sha, calls);
      BothRedemptionsOnRecord(sha, Transcript(cfg, sha, calls), i, j);
    }
  }

  // ---- calls that end something end it ----

  /** The user's session, not the kept one, neither revoked nor expired. */
  predicate Ends(w: World, id: Id, user: string, keep: Id) {
    && id in w.sessions && w.sessions[id].userId == user && id != keep
    && w.sessions[id].revokedAt.None? && w.now < w.sessions[id].expiresAt
  }

  /** Ending one session ends it and every unrevoked token under it; a session nobody knows changes nothing. */
  lemma EndingASessionEndsIt(cfg: Config, sha: string -> string, w: World, id: Id)
    ensures var (w', reply) := Served(cfg, sha, w, Call.EndSession(id));
            && reply.Silent? && w'.now == w.now && w'.codes == w.codes
            && if id in w.sessions then SessionEnded(w.sessions, w'.sessions, id, w.now) && TokensEnded(w.tokens, w'.tokens, {id}, w.now)
               else w'.sessions == w.sessions && w'.tokens == w.tokens
  {
  }

  /** Ending a user's sessions ends those that are neither kept, revoked nor expired and the unrevoked tokens under exactly
      these; every other session and token is as before. */
  lemma EndingAUserEndsThem(cfg: Config, sha: string -> string, w: World, user: string, keep: Id)
    ensures var (w', reply) := Served(cfg, sha, w, EndUser(user, keep));
            && reply.Silent? && w'.now == w.now && w'.codes == w.codes
            && w'.sessions.Keys == w.sessions.Keys && w'.tokens.Keys == w.tokens.Keys
            && (forall id | id in w.sessions ::
                  w'.sessions[id] == if Ends(w, id, user, keep) then w.sessions[id].(revokedAt := Some(w.now)) else w.sessions[id])
            && (forall t | t in w.tokens ::
                  var sid := w.tokens[t].session;
                  w'.tokens[t] == if sid.Some? && Ends(w, sid.value, user, keep) && w.tokens[t].revokedAt.None?
                                  then w.tokens[t].(revokedAt := Some(w.now)) else w.tokens[t])
  {
  }

  /** Presenting a token for revocation ends the unrevoked tokens of its session, or without one the token alone; a token of
      another client, or none, changes nothing. */
  lemma RevokingATokenEndsIt(cfg: Config, sha: string -> string, w: World, raw: string, owner: Client)
    ensures var (w', reply) := Served(cfg, sha, w, RevokePresented(raw, owner));
            var found := Scan(w.tokens, sha(raw));
            && reply.Silent? && w'.now == w.now && w'.codes == w.codes && w'.sessions == w.sessions
            && if found.Some? && found.value.clientId == owner.clientId && found.value.session.Some?
               then TokensEnded(w.tokens, w'.tokens, {found.value.session.value}, w.now)
               else if found.Some? && found.value.clientId == owner.clientId && found.value.id in w.tokens
                       && w.tokens[found.value.id].revokedAt.None?
               then w'.tokens == w.tokens[found.value.id := w.tokens[found.value.id].(revokedAt := Some(w.now))]
               else w'.tokens == w.tokens
  {
  }
}
