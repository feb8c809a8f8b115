/** A run from the initial state in which a refresh token outlives its session and the cascade that ends the user's sessions. */
module Outliving {
  import opened Domain
  import opened StoreSpec
  import opened Protocol
  import opened ProtocolSteps
  import opened ProtocolSerial
  import opened Journeys
  import Cascades
  import Refresh = RefreshHandler

  /** How long after its making a root can be presented. */
  function Reach(client: Client): (d: int)
    ensures d > 0
  {
    if client.refreshExpiration == Absolute || client.AbsoluteLifetime() < client.RefreshLifetime() then client.AbsoluteLifetime()
    else client.RefreshLifetime()
  }

  /** The session is over, and every session of the user is ended. */
  lemma CascadeRun(cfg: Config, client: Client, verifier: string, until: Time)
    returns (ss: seq<State>, acts: seq<Action>, k: nat)
    requires Offline(cfg, client, verifier) && until >= 0
    ensures Serial(cfg, ss, acts) && k < |ss| && ss[k].procs == Last(ss).procs == map[] && ss[k].now == Last(ss).now == until + 1
    ensures ss[k].db.sessions == map[1 := SignedIn(until)]
    ensures (Last(ss).db.sessions, Last(ss).db.tokens) == Cascades.Ended(
              ss[k].db.sessions, ss[k].db.tokens, Targets(ss[k].db.sessions, "user", NIL_ID, ss[k].now), ss[k].now)
    ensures Last(ss).db.tokens == map[3 := OfflineRoot(cfg, client, verifier, until)]
  {
    ss, acts := RootRun(cfg, client, verifier, until);
    ss, acts := Later(cfg, ss, acts, until + 1);
    k := |ss| - 1;
    var more, moreActs := Cascades.CascadeIsARun(cfg, Last(ss), "user", NIL_ID);
    StretchGoesOn(cfg, ss, acts, more, moreActs);
    assert ss[k] == (ss + more[1..])[k];
    ss, acts := ss + more[1..], acts + moreActs;
  }

  /** A token is refreshed and rotated, and the answer put on record. */
  lemma RotationRuns(cfg: Config, s: State, t: Token, r: RefreshRequest, env: Refresh.Surroundings)
    returns (more: seq<State>, moreActs: seq<Action>)
    requires s.procs == map[] && IdsFit(s.db.tokens) && FreshToken(s.db.tokens, env.newId, env.newHash) && env.newHash != ""
    requires env.now == s.now && env.user.UserFound? && env.issued && env.faults == MemoryStores.NO_FAULTS
    requires IsTokenFor(s.db.tokens, r.hash, t.id) && s.db.tokens[t.id] == t && t.consumedAt.None?
    requires RefreshOk(r, t, s.now) && ScopeOk(r, t) && Rotates(r, t)
    ensures Stretch(cfg, more, moreActs) && more[0] == s && env.newId in Last(more).db.tokens
    ensures |Last(more).db.refreshes| == |s.db.refreshes| + 1
    ensures var e := Last(more).db.refreshes[|s.db.refreshes|]; e.token == t.id && e.at == s.now && e.child == Some(env.newId)
  {
    more, moreActs := Refresh.FoundRuns(cfg, s, 0, t, r, env);
  }

  lemma RootCanBeRefreshed(client: Client, c: Code, now: Time, x: CodeRequest)
    requires IssuesRoot(x, c) && x.client == client && 0 <= now <= Reach(client)
    ensures var t, r := NewRoot(client, c, 0, 3, "root"), RefreshRequest(client, "root", "");
            RefreshOk(r, t, now) && ScopeOk(r, t) && Rotates(r, t)
  {
  }

  lemma RootIsRefreshed(cfg: Config, ss: seq<State>, acts: seq<Action>, client: Client, c: Code, x: CodeRequest)
    returns (ss': seq<State>, acts': seq<Action>)
    requires Serial(cfg, ss, acts) && Last(ss).procs == map[] && 0 <= Last(ss).now <= Reach(client)
    requires Last(ss).db.tokens == map[3 := NewRoot(client, c, 0, 3, "root")] && IssuesRoot(x, c) && x.client == client
    ensures Serial(cfg, ss', acts') && ss <= ss' && 4 in Last(ss').db.tokens
    ensures |Last(ss').db.refreshes| == |Last(ss).db.refreshes| + 1
    ensures var e := Last(ss').db.refreshes[|Last(ss).db.refreshes|]; e.token == 3 && e.at == Last(ss).now && e.child == Some(4)
  {
    RootCanBeRefreshed(client, c, Last(ss).now, x);
    RunKeeps(cfg, ss, acts, |ss| - 1);
    TokenIdsFit(cfg, Last(ss));
    var env := Refresh.Surroundings(Last(ss).now, Refresh.UserFound, true, 4, "child", MemoryStores.NO_FAULTS);
    var more, moreActs := RotationRuns(cfg, Last(ss), NewRoot(client, c, 0, 3, "root"), RefreshRequest(client, "root", ""), env);
    StretchGoesOn(cfg, ss, acts, more, moreActs);
    ss', acts' := ss + more[1..], acts + moreActs;
  }

  /** For every client that may get offline access and every session shorter than the reach of its refresh tokens there is a
      run in which all sessions of the user are ended and a token of the user is refreshed after that. */
  lemma TokenOutlivesItsSession(cfg: Config, client: Client, verifier: string, until: Time)
    returns (ss: seq<State>, acts: seq<Action>, k: nat, j: nat)
    requires Offline(cfg, client, verifier) && 0 <= until < Reach(client)
    ensures Serial(cfg, ss, acts) && k <= j < |ss| && ss[k].procs == ss[j].procs == map[]
    ensures (ss[j].db.sessions, ss[j].db.tokens) == Cascades.Ended(
              ss[k].db.sessions, ss[k].db.tokens, Targets(ss[k].db.sessions, "user", NIL_ID, ss[k].now), ss[k].now)
    ensures |Last(ss).db.refreshes| == |ss[j].db.refreshes| + 1
    ensures var e := Last(ss).db.refreshes[|ss[j].db.refreshes|];
            && e.token in ss[j].db.tokens && ss[j].db.tokens[e.token].userId == "user" && ss[j].db.tokens[e.token].session == Some(1)
            && 1 in ss[j].db.sessions && ss[j].db.sessions[1].userId == "user" && ss[j].db.sessions[1].expiresAt < ss[k].now <= e.at
            && e.child.Some? && e.child.value in Last(ss).db.tokens && e.child.value !in ss[j].db.tokens
  {
    ss, acts, k := CascadeRun(cfg, client, verifier, until);
    j := |ss| - 1;
    OfflineExchangeIsFine(cfg, client, verifier, until);
    ss, acts := RootIsRefreshed(cfg, ss, acts, client, OfflineCode(cfg, client, verifier, until), OfflineExchange(client, verifier));
  }
}
