/** Chains of any length, and what the ancestor walk makes of those that are longer than it reaches. */
module DeepChains {
  import opened Domain
  import opened StoreSpec
  import opened Protocol
  import opened ProtocolInvariant
  import opened ProtocolSteps
  import opened ProtocolChains
  import opened ProtocolSerial
  import opened Journeys
  import Refresh = RefreshHandler

  // ---- a chain of any length ----

  /** The token `id` of a chain whose root, token 3, was minted at 0 and all of whose rotations happened at 1. */
  predicate Link(t: Token, id: Id, client: Client) {
    && t.id == id && |t.hash| == id + 1 && t.clientId == client.clientId && OFFLINE_ACCESS in Words.Fields(t.scope) && t.revokedAt.None?
    && t.parent == (if id == 3 then None else Some(id - 1)) && t.createdAt == (if id == 3 then 0 else 1)
    && 1 <= t.expiresAt && 1 <= t.absoluteExpiresAt
  }

  /** A chain of `n` rotations, the last token of which can be refreshed. */
  ghost predicate Chain(m: Tokens, client: Client, n: nat) {
    && (forall id :: id in m <==> 3 <= id <= n + 3)
    && (forall id {:trigger Link(m[id], id, client)} | id in m :: Link(m[id], id, client))
    && m[n + 3].consumedAt.None?
  }

  lemma {:induction false} WalkInChain(m: Tokens, client: Client, n: nat, id: Id, hops: nat)
    requires Chain(m, client, n) && id in m
    ensures Up(m, id, hops) == if hops <= id - 3 then id - hops else 3
    decreases hops
  {
    assert Link(m[id], id, client);
    if hops > 0 && id > 3 {
      WalkInChain(m, client, n, id - 1, hops - 1);
    }
  }

  lemma {:induction false} DepthInChain(m: Tokens, birth: map<Id, Birth>, client: Client, n: nat, id: Id)
    requires Chain(m, client, n) && Linked(m, birth) && id in m
    ensures Depth(m, birth, id) == id - 3 && Root(m, birth, id) == 3
    decreases id
  {
    assert Link(m[id], id, client);
    if id > 3 {
      DepthInChain(m, birth, client, n, id - 1);
    }
  }

  function RotationOf(client: Client, n: nat): Refresh.Surroundings {
    Refresh.Surroundings(1, Refresh.UserFound, true, n + 4, seq(n + 5, _ => 'x'), MemoryStores.NO_FAULTS)
  }

  function RequestFor(m: Tokens, client: Client, n: nat): RefreshRequest
    requires n + 3 in m
  {
    RefreshRequest(client, m[n + 3].hash, "")
  }

  /** The chain after one more rotation. */
  function Longer(m: Tokens, client: Client, n: nat): Tokens
    requires n + 3 in m
  {
    ConsumeToken(m, n + 3, 1)[n + 4 := NewChild(client, m[n + 3], m[n + 3].scope, 1, n + 4, RotationOf(client, n).newHash)]
  }

  lemma ChildLinks(t: Token, client: Client, n: nat)
    requires Link(t, n + 3, client)
    ensures Link(NewChild(client, t, t.scope, 1, n + 4, RotationOf(client, n).newHash), n + 4, client)
  {
  }

  lemma ChainGrows(m: Tokens, client: Client, n: nat)
    requires Chain(m, client, n)
    ensures Chain(Longer(m, client, n), client, n + 1)
  {
    var m' := Longer(m, client, n);
    assert Link(m[n + 3], n + 3, client);
    ChildLinks(m[n + 3], client, n);
    forall id | id in m' ensures Link(m'[id], id, client) {
      if id != n + 4 {
        assert Link(m[id], id, client);
      }
    }
  }

  lemma LastCanBeRenewed(m: Tokens, client: Client, n: nat)
    requires Chain(m, client, n)
    ensures RefreshOk(RequestFor(m, client, n), m[n + 3], 1) && m[n + 3].id == n + 3
    ensures FreshToken(m, n + 4, RotationOf(client, n).newHash)
  {
    assert Link(m[n + 3], n + 3, client);
    forall id | id in m ensures m[id].hash != RotationOf(client, n).newHash {
      assert Link(m[id], id, client);
    }
  }

  lemma {:induction false} WalkIgnoresUse(m: Tokens, used: Id, at: Time, id: Id, hops: nat)
    ensures Up(ConsumeToken(m, used, at), id, hops) == Up(m, id, hops)
    decreases hops
  {
    if hops > 0 && id in m && m[id].parent.Some? {
      WalkIgnoresUse(m, used, at, m[id].parent.value, hops - 1);
    }
  }

  lemma WalkFromTheLast(m: Tokens, client: Client, n: nat)
    requires Chain(m, client, n)
    ensures var consumed := ConsumeToken(m, n + 3, 1);
            consumed[Up(consumed, n + 3, MAX_HOPS)].createdAt == if n <= MAX_HOPS then 0 else 1
  {
    WalkIgnoresUse(m, n + 3, 1, n + 3, MAX_HOPS);
    WalkInChain(m, client, n, n + 3, MAX_HOPS);
    assert Link(m[Up(m, n + 3, MAX_HOPS)], Up(m, n + 3, MAX_HOPS), client);
  }

  /** What a refresh of the chain's last token answers and stores. */
  lemma LastIsRenewed(cfg: Config, m: Tokens, client: Client, n: nat, authTime: Time)
    requires n + 3 in m && Link(m[n + 3], n + 3, client) && m[n + 3].consumedAt.None? && client.allowRefreshTokens
    requires var consumed := ConsumeToken(m, n + 3, 1); consumed[Up(consumed, n + 3, MAX_HOPS)].createdAt == authTime
    ensures Refresh.Renew(cfg, m, Some(m[n + 3]), RequestFor(m, client, n), RotationOf(client, n))
            == (Refresh.Tokens(m[n + 3].scope, authTime, Some(n + 4)), Longer(m, client, n))
  {
  }

  /** Rotates the chain's last token; the answer is put on record. */
  lemma RotateOnce(cfg: Config, ss: seq<State>, acts: seq<Action>, client: Client, n: nat)
    returns (ss': seq<State>, acts': seq<Action>)
    requires Serial(cfg, ss, acts) && Last(ss).procs == map[] && Last(ss).now == 1
    requires Chain(Last(ss).db.tokens, client, n) && client.allowRefreshTokens
    ensures Serial(cfg, ss', acts') && Last(ss').procs == map[] && Last(ss').now == 1
    ensures Last(ss').db.tokens == Longer(Last(ss).db.tokens, client, n)
    ensures var t, authTime := Last(ss).db.tokens[n + 3], if n <= MAX_HOPS then 0 else 1;
            Last(ss').db.refreshes == Last(ss).db.refreshes
              + [Renewal(n + 3, RequestFor(Last(ss).db.tokens, client, n), 1, authTime, t.scope, Some(n + 4))]
  {
    var s := Last(ss);
    RunKeeps(cfg, ss, acts, |ss| - 1);
    TokenIdsFit(cfg, s);
    LastCanBeRenewed(s.db.tokens, client, n);
    assert Link(s.db.tokens[n + 3], n + 3, client);
    var more, moreActs :=
      Refresh.FoundRuns(cfg, s, 0, s.db.tokens[n + 3], RequestFor(s.db.tokens, client, n), RotationOf(client, n));
    WalkFromTheLast(s.db.tokens, client, n);
    LastIsRenewed(cfg, s.db.tokens, client, n, if n <= MAX_HOPS then 0 else 1);
    StretchGoesOn(cfg, ss, acts, more, moreActs);
    ss', acts' := ss + more[1..], acts + moreActs;
  }

  lemma RootLinks(client: Client, c: Code, r: CodeRequest)
    requires IssuesRoot(r, c)
    ensures Chain(map[3 := NewRoot(client, c, 0, 3, "root")], client, 0)
  {
    assert Link(NewRoot(client, c, 0, 3, "root"), 3, client);
  }

  lemma ChainStarts(cfg: Config, client: Client, verifier: string) returns (ss: seq<State>, acts: seq<Action>)
    requires Offline(cfg, client, verifier)
    ensures Serial(cfg, ss, acts) && Last(ss).procs == map[] && Last(ss).now == 1
    ensures Chain(Last(ss).db.tokens, client, 0)
  {
    ss, acts := RootRun(cfg, client, verifier, 0);
    ss, acts := Later(cfg, ss, acts, 1);
    OfflineExchangeIsFine(cfg, client, verifier, 0);
    RootLinks(client, OfflineCode(cfg, client, verifier, 0), OfflineExchange(client, verifier));
  }

  lemma {:induction false} ChainRun(cfg: Config, client: Client, verifier: string, n: nat) returns (ss: seq<State>, acts: seq<Action>)
    requires Offline(cfg, client, verifier)
    ensures Serial(cfg, ss, acts) && Last(ss).procs == map[] && Last(ss).now == 1
    ensures Chain(Last(ss).db.tokens, client, n)
    decreases n
  {
    if n == 0 {
      ss, acts := ChainStarts(cfg, client, verifier);
    } else {
      ss, acts := ChainRun(cfg, client, verifier, n - 1);
      ChainGrows(Last(ss).db.tokens, client, n - 1);
      ss, acts := RotateOnce(cfg, ss, acts, client, n - 1);
    }
  }

  // ---- the reported auth time ----

  lemma LastIsDeep(m: Tokens, birth: map<Id, Birth>, client: Client, n: nat, id: Id)
    requires Chain(m, client, n) && Linked(m, birth) && id in m
    ensures Depth(m, birth, id) == id - 3 && m[Root(m, birth, id)].createdAt == 0
  {
    DepthInChain(m, birth, client, n, id);
    assert Link(m[3], 3, client);
  }

  lemma RunIsLinked(cfg: Config, ss: seq<State>, acts: seq<Action>)
    requires Run(cfg, ss, acts)
    ensures Linked(Last(ss).db.tokens, Last(ss).db.birth)
  {
    RunKeeps(cfg, ss, acts, |ss| - 1);
    FitIsLinked(cfg, Last(ss).db);
  }

  lemma LastIsPresented(cfg: Config, ss: seq<State>, acts: seq<Action>, client: Client, n: nat)
    returns (ss': seq<State>, acts': seq<Action>, k: nat)
    requires Serial(cfg, ss, acts) && Last(ss).procs == map[] && Last(ss).now == 1
    requires Chain(Last(ss).db.tokens, client, n) && client.allowRefreshTokens
    ensures Serial(cfg, ss', acts') && Chain(Last(ss').db.tokens, client, n + 1) && k < |Last(ss').db.refreshes|
    ensures var e := Last(ss').db.refreshes[k]; e.token == n + 3 && e.authTime == if n <= MAX_HOPS then 0 else 1
  {
    k := |Last(ss).db.refreshes|;
    ChainGrows(Last(ss).db.tokens, client, n);
    ss', acts' := RotateOnce(cfg, ss, acts, client, n);
  }

  /** For every client that may get offline access and every depth past the walk's reach there is a run in which a token of
      that depth is presented and the answer reports 1 although the chain began at 0. */
  lemma DeepWalkMissesTheRoot(cfg: Config, client: Client, verifier: string, depth: nat)
    returns (ss: seq<State>, acts: seq<Action>, k: nat)
    requires Offline(cfg, client, verifier) && depth > MAX_HOPS
    ensures Serial(cfg, ss, acts) && k < |Last(ss).db.refreshes|
    ensures var db, e := Last(ss).db, Last(ss).db.refreshes[k];
            && Linked(db.tokens, db.birth) && e.token in db.tokens && Depth(db.tokens, db.birth, e.token) == depth
            && e.authTime == 1 && db.tokens[Root(db.tokens, db.birth, e.token)].createdAt == 0
  {
    ss, acts := ChainRun(cfg, client, verifier, depth);
    ss, acts, k := LastIsPresented(cfg, ss, acts, client, depth);
    RunIsLinked(cfg, ss, acts);
    LastIsDeep(Last(ss).db.tokens, Last(ss).db.birth, client, depth + 1, depth + 3);
  }

  /** If an answered refresh presented a token of the given depth, it reported the creation of the chain's root. */
  ghost predicate ReportsTheRoot(cfg: Config, ss: seq<State>, acts: seq<Action>, i: nat, k: nat, depth: nat) {
    Run(cfg, ss, acts) && i < |ss| && k < |ss[i].db.refreshes| ==>
      var db, e := ss[i].db, ss[i].db.refreshes[k];
      Linked(db.tokens, db.birth) && e.token in db.tokens && Depth(db.tokens, db.birth, e.token) == depth ==>
        e.authTime == db.tokens[Root(db.tokens, db.birth, e.token)].createdAt
  }

  ghost predicate AlwaysReportsTheRoot(cfg: Config, depth: nat) {
    forall ss: seq<State>, acts: seq<Action>, i: nat, k: nat :: ReportsTheRoot(cfg, ss, acts, i, k, depth)
  }

  /** In every interleaving the reported auth time of a token so deep is the creation of its chain's root if and only if the
      walk reaches that deep. */
  lemma AuthTimeIsExact(cfg: Config, client: Client, verifier: string, depth: nat)
    requires Offline(cfg, client, verifier)
    ensures AlwaysReportsTheRoot(cfg, depth) <==> depth <= MAX_HOPS
  {
    if depth <= MAX_HOPS {
      forall ss: seq<State>, acts: seq<Action>, i: nat, k: nat ensures ReportsTheRoot(cfg, ss, acts, i, k, depth) {
        if Run(cfg, ss, acts) && i < |ss| && k < |ss[i].db.refreshes| {
          AuthTimeIsTheRoots(cfg, ss, acts, i, k);
        }
      }
    } else {
      var ss, acts, k := DeepWalkMissesTheRoot(cfg, client, verifier, depth);
      assert !ReportsTheRoot(cfg, ss, acts, |ss| - 1, k, depth);
    }
  }
}
