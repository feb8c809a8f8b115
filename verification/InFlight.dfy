/** A run from the initial state in which a refresh in flight outlives the revocation of its session. */
module InFlight {
  import opened Domain
  import opened Protocol
  import opened ProtocolRevocation
  import opened ProtocolSerial
  import opened ProtocolFinality
  import opened Journeys
  import Refresh = RefreshHandler

  /** A serial run up to a won refresh: sign-in, code, exchange, lookup, checks, compare-and-set. */
  lemma WonRefresh(cfg: Config, client: Client, verifier: string, until: Time) returns (ss: seq<State>, acts: seq<Action>)
    requires Offline(cfg, client, verifier) && until >= 0
    ensures Serial(cfg, ss, acts) && RefreshAt(Last(ss), 0, Won) && Last(ss).now == 0
    ensures var s, pr := Last(ss), Last(ss).procs[0];
            && pr.existing.session == Some(1) && ScopeOk(pr.refresh, pr.existing) && Rotates(pr.refresh, pr.existing)
            && pr.existing.id in s.db.tokens && s.db.tokens[pr.existing.id].session == Some(1)
  {
    OfflineAccessIsOneWord();
    ss, acts := RootRun(cfg, client, verifier, until);
    var root := Last(ss).db.tokens[3];
    var more, moreActs := Refresh.TakeRuns(cfg, Last(ss), 0, root, RefreshRequest(client, "root", ""));
    StretchGoesOn(cfg, ss, acts, more, moreActs);
    ss, acts := ss + more[1..], acts + moreActs;
  }

  /** For every client that may get offline access and every length of a session there is a run from the initial state after
      which every token of the session is revoked and a refresh in flight will still add an unrevoked one. */
  lemma RevocationCanComeTooLate(cfg: Config, client: Client, verifier: string, until: Time)
    returns (ss: seq<State>, acts: seq<Action>, sid: Id)
    requires Offline(cfg, client, verifier) && until >= 0
    ensures Run(cfg, ss, acts) && AllRevoked(Last(ss), sid) && TokensUnder(Last(ss).db.tokens, sid) != {}
    ensures Extensible(cfg, ss, acts, TokensUnder(Last(ss).db.tokens, sid))
  {
    ss, acts := WonRefresh(cfg, client, verifier, until);
    sid := 1;
    var s, pr := Last(ss), Last(ss).procs[0];
    ss, acts := RunOn(cfg, ss, acts, Environment(EndTokens(sid, s.now)));
    assert Last(ss).procs == s.procs && MayExtend(Last(ss), pr);
    assert pr.existing.id in TokensUnder(Last(ss).db.tokens, sid);
    RevocationIsFinalExactly(cfg, ss, acts, sid);
  }
}
