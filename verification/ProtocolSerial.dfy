/** Runs in which every handler runs to completion on one clock reading.

    They are interleaved runs with a restriction, so everything proved of all
    interleavings holds of them too. */
module ProtocolSerial {
  import opened Domain
  import opened StoreSpec
  import opened Protocol
  import opened ProtocolInvariant
  import opened ProtocolProcs
  import opened ProtocolSteps
  import opened ProtocolChains
  import opened ProtocolRevocation

  /** While a process is in flight nothing happens but its own steps, and revocations carry the current time. */
  predicate SerialStep(s: State, a: Action) {
    match a
    case Environment(Stop(_)) => true
    case Environment(Tick(_)) => s.procs == map[]
    case Environment(NewSession(_)) => s.procs == map[]
    case Environment(EndSession(_, at)) => s.procs == map[] && at == s.now
    case Environment(EndSessions(_, _, at)) => s.procs == map[] && at == s.now
    case Environment(EndToken(_, at)) => s.procs == map[] && at == s.now
    case Environment(EndTokens(_, at)) => s.procs == map[] && at == s.now
    case Authorize(p, _) => s.procs.Keys <= {p}
    case Exchange(p, _) => s.procs.Keys <= {p}
    case Refresh(p, _) => s.procs.Keys <= {p}
  }

  predicate SerialAt(ss: seq<State>, acts: seq<Action>, i: nat)
    requires i < |acts| && |ss| == |acts| + 1
  {
    SerialStep(ss[i], acts[i])
  }

  predicate Serial(cfg: Config, ss: seq<State>, acts: seq<Action>) {
    Run(cfg, ss, acts) && forall i {:trigger SerialAt(ss, acts, i)} | 0 <= i < |acts| :: SerialAt(ss, acts, i)
  }

  // ---- reuse ----

  /** Run to completion, the moment reuse of a token is punished is the end of its chain: from then on every member of
      the chain was stored before, its record no longer changes, and none of them is ever renewed. */
  lemma ReuseEndsTheChain(cfg: Config, ss: seq<State>, acts: seq<Action>, i: nat, j: nat, member: Id)
    requires Serial(cfg, ss, acts) && i < |acts| && i < j < |ss|
    requires acts[i].Refresh? && acts[i].r == PunishReuse
    requires acts[i].p in ss[i].procs && ss[i].procs[acts[i].p].Refreshing?
    requires Linked(ss[j].db.tokens, ss[j].db.birth) && member in ss[j].db.tokens
    requires var reused := ss[i].procs[acts[i].p].existing.id;
             && reused in ss[j].db.tokens
             && Root(ss[j].db.tokens, ss[j].db.birth, member) == Root(ss[j].db.tokens, ss[j].db.birth, reused)
    ensures member in ss[i].db.tokens && member in ss[i + 1].db.tokens
    ensures ss[j].db.tokens[member].revokedAt.Some? && ss[j].db.tokens[member] == ss[i + 1].db.tokens[member]
    ensures |ss[i].db.refreshes| <= |ss[j].db.refreshes|
    ensures forall k {:trigger ss[j].db.refreshes[k].token} | |ss[i].db.refreshes| <= k < |ss[j].db.refreshes| ::
              ss[j].db.refreshes[k].token != member
  {
    var t := ss[i].procs[acts[i].p].existing;
    assert SerialAt(ss, acts, i) && StepAt(cfg, ss, acts, i);
    PunishedReuseIsFinal(cfg, ss, acts, i, j);
    var d := TokensUnder(ss[i].db.tokens, t.session.value);
    var db := ss[j].db;
    var r := Root(db.tokens, db.birth, t.id);
    RootInSession(cfg, ss, acts, j, t.id);
    RootIsAsOld(cfg, ss, acts, i, j, t.id);
    ChainStaysWithin(db, d, member);
  }

  lemma RootInSession(cfg: Config, ss: seq<State>, acts: seq<Action>, j: nat, id: Id)
    requires Run(cfg, ss, acts) && j < |ss| && id in ss[j].db.tokens && Linked(ss[j].db.tokens, ss[j].db.birth)
    ensures ss[j].db.tokens[Root(ss[j].db.tokens, ss[j].db.birth, id)].session == ss[j].db.tokens[id].session
  {
    ChainsKeepTheirRoot(cfg, ss, acts, j, id);
  }

  /** The root of a token stored by state `i` was stored by state `i` and kept its session. */
  lemma {:induction false} RootIsAsOld(cfg: Config, ss: seq<State>, acts: seq<Action>, i: nat, j: nat, id: Id)
    requires Run(cfg, ss, acts) && i <= j < |ss| && id in ss[i].db.tokens && Linked(ss[j].db.tokens, ss[j].db.birth)
    requires id in ss[j].db.tokens
    ensures var r := Root(ss[j].db.tokens, ss[j].db.birth, id);
            r in ss[i].db.tokens && ss[i].db.tokens[r].session == ss[j].db.tokens[r].session
    decreases if id in ss[j].db.birth then ss[j].db.birth[id].stored else 0
  {
    RunGrows(cfg, ss, acts, i, j);
    assert LinkFits(ss[j].db.tokens, ss[j].db.birth, id);
    assert TokenLater(ss[i].db.tokens[id], ss[j].db.tokens[id]);
    if ss[j].db.tokens[id].parent.Some? {
      TokenInRunFits(cfg, ss, acts, i, id);
      RootIsAsOld(cfg, ss, acts, i, j, ss[j].db.tokens[id].parent.value);
    }
  }

  // ---- session ceilings ----

  /** A moment at which the session was still usable, as far as its record tells. */
  predicate WithinSession(at: Time, sess: Session) {
    at <= sess.expiresAt && (sess.revokedAt.Some? ==> at <= sess.revokedAt.value)
  }

  ghost predicate CodesCeiled(codes: Codes, sessions: Sessions) {
    forall id {:trigger codes[id].session} | id in codes && codes[id].session.Some? && codes[id].session.value in sessions ::
      WithinSession(codes[id].createdAt, sessions[codes[id].session.value])
  }

  ghost predicate RootsCeiled(tokens: Tokens, origin: map<Id, Id>, codes: Codes) {
    forall id {:trigger origin[id]} | id in origin && id in tokens && origin[id] in codes ::
      tokens[id].createdAt <= codes[origin[id]].expiresAt
  }

  ghost predicate ProcCeiled(pr: Proc, s: State) {
    match pr
    case Authorizing(phase, _, sess, at) =>
      && sess.id in s.db.sessions && s.db.sessions[sess.id] == sess
      && (phase != SessionLooked ==> SessionUsable(sess, s.now))
      && (phase == SessionMinting ==> at == s.now)
    case Exchanging(phase, _, code, at) =>
      && (phase != CodeLooked ==> s.now <= code.expiresAt)
      && (phase == CodeMinting ==> at == s.now)
    case Refreshing(_, _, _, _, _, _, _, _) => true
  }

  ghost predicate CeilingInv(s: State) {
    && CodesCeiled(s.db.codes, s.db.sessions)
    && RootsCeiled(s.db.tokens, s.db.origin, s.db.codes)
    && (forall p {:trigger ProcCeiled(s.procs[p], s)} | p in s.procs :: ProcCeiled(s.procs[p], s))
  }

  ghost predicate CodeGrounded(s: State, id: Id, c: Code) {
    c.createdAt <= s.now && c.id == id && c.session.Some? && c.session.value in s.db.sessions
  }

  /** Ids, sessions and dates the ceilings rest on. */
  ghost predicate Grounded(s: State) {
    && SessionsFit(s.db.sessions)
    && (forall id {:trigger s.db.codes[id].session} | id in s.db.codes :: CodeGrounded(s, id, s.db.codes[id]))
    && (forall id {:trigger s.db.origin[id]} | id in s.db.origin :: id in s.db.tokens && s.db.origin[id] in s.db.codes)
    && (forall p {:trigger s.procs[p].code} | p in s.procs && s.procs[p].Exchanging? ::
          s.procs[p].code.id in s.db.codes && s.db.codes[s.procs[p].code.id].expiresAt == s.procs[p].code.expiresAt)
  }

  lemma RunGrounded(cfg: Config, ss: seq<State>, acts: seq<Action>, i: nat)
    requires Run(cfg, ss, acts) && i < |ss|
    ensures Grounded(ss[i])
  {
    RunKeeps(cfg, ss, acts, i);
    InvGrounds(cfg, ss[i]);
  }

  lemma InvGrounds(cfg: Config, s: State)
    requires Inv(cfg, s)
    ensures Grounded(s)
  {
    forall id | id in s.db.codes ensures CodeGrounded(s, id, s.db.codes[id]) {
      assert CodeFits(cfg, s.db.codes[id], id, s.db.minted, s.db.sessions);
    }
    forall id {:trigger s.db.origin[id]} | id in s.db.origin ensures id in s.db.tokens && s.db.origin[id] in s.db.codes {
      assert id in s.db.tokens.Keys;
    }
    forall p {:trigger s.procs[p].code} | p in s.procs && s.procs[p].Exchanging?
      ensures s.procs[p].code.id in s.db.codes && s.db.codes[s.procs[p].code.id].expiresAt == s.procs[p].code.expiresAt
    {
      assert ProcFits(cfg, s.procs[p], s.db, s.now, s.step);
    }
  }

  lemma CeiledAfterEnvironment(s: State, e: EnvironmentStep)
    requires Grounded(s) && CeilingInv(s) && EnvironmentEnabled(s, e) && SerialStep(s, Environment(e))
    ensures CeilingInv(EnvironmentEffect(s, e))
  {
    var s' := EnvironmentEffect(s, e);
    forall p | p in s'.procs ensures ProcCeiled(s'.procs[p], s') {
      assert ProcCeiled(s.procs[p], s);
    }
  }

  lemma CeiledAfterAuthorize(cfg: Config, s: State, p: nat, a: AuthorizeStep)
    requires Grounded(s) && CeilingInv(s) && AuthorizeEnabled(cfg, s, p, a) && SerialStep(s, Authorize(p, a))
    ensures CeilingInv(AuthorizeEffect(cfg, s, p, a))
  {
    var s' := AuthorizeEffect(cfg, s, p, a);
    assert p in s.procs ==> ProcCeiled(s.procs[p], s);
    forall q | q in s'.procs ensures ProcCeiled(s'.procs[q], s') {
    }
  }

  lemma CeiledAfterExchange(cfg: Config, s: State, p: nat, x: ExchangeStep)
    requires Grounded(s) && CeilingInv(s) && ExchangeEnabled(cfg, s, p, x) && SerialStep(s, Exchange(p, x))
    ensures CeilingInv(ExchangeEffect(cfg, s, p, x))
  {
    var s' := ExchangeEffect(cfg, s, p, x);
    assert p in s.procs ==> ProcCeiled(s.procs[p], s);
    assert p in s.procs && s.procs[p].Exchanging? ==> s.procs[p].code.id in s.db.codes;
    forall q | q in s'.procs ensures ProcCeiled(s'.procs[q], s') {
    }
  }

  lemma CeiledAfterRefresh(cfg: Config, s: State, p: nat, r: RefreshStep)
    requires Grounded(s) && CeilingInv(s) && RefreshEnabled(cfg, s, p, r) && SerialStep(s, Refresh(p, r))
    ensures CeilingInv(RefreshEffect(cfg, s, p, r))
  {
    var s' := RefreshEffect(cfg, s, p, r);
    forall q | q in s'.procs ensures ProcCeiled(s'.procs[q], s') {
    }
  }

  lemma {:induction false} SerialRunCeiled(cfg: Config, ss: seq<State>, acts: seq<Action>, i: nat)
    requires Serial(cfg, ss, acts) && i < |ss|
    ensures CeilingInv(ss[i])
  {
    if i > 0 {
      SerialRunCeiled(cfg, ss, acts, i - 1);
      RunGrounded(cfg, ss, acts, i - 1);
      assert StepAt(cfg, ss, acts, i - 1) && SerialAt(ss, acts, i - 1);
      match acts[i - 1]
      case Environment(e) => CeiledAfterEnvironment(ss[i - 1], e);
      case Authorize(p, b) => CeiledAfterAuthorize(cfg, ss[i - 1], p, b);
      case Exchange(p, x) => CeiledAfterExchange(cfg, ss[i - 1], p, x);
      case Refresh(p, r) => CeiledAfterRefresh(cfg, ss[i - 1], p, r);
    }
  }

  /** Run to completion, the root of a chain was created no later than the session's expiry plus the code lifetime,
      and, once the session is revoked, no later than its revocation plus the code lifetime. */
  lemma RootsRespectTheSession(cfg: Config, ss: seq<State>, acts: seq<Action>, i: nat, id: Id)
    requires Serial(cfg, ss, acts) && i < |ss| && id in ss[i].db.tokens
    ensures var db := ss[i].db;
            && Linked(db.tokens, db.birth)
            && var root := db.tokens[Root(db.tokens, db.birth, id)];
               && root.session.Some? && root.session.value in db.sessions && root.session == db.tokens[id].session
               && var sess := db.sessions[root.session.value];
                  && root.createdAt <= sess.expiresAt + cfg.authCodeLifetime
                  && (sess.revokedAt.Some? ==> root.createdAt <= sess.revokedAt.value + cfg.authCodeLifetime)
  {
    var db := ss[i].db;
    ChainsKeepTheirRoot(cfg, ss, acts, i, id);
    var r := Root(db.tokens, db.birth, id);
    TokenInRunFits(cfg, ss, acts, i, r);
    CodeInRunFits(cfg, ss, acts, i, db.origin[r]);
    SerialRunCeiled(cfg, ss, acts, i);
  }

  lemma CodeInRunFits(cfg: Config, ss: seq<State>, acts: seq<Action>, i: nat, c: Id)
    requires Run(cfg, ss, acts) && i < |ss| && c in ss[i].db.codes
    ensures var db := ss[i].db; CodeFits(cfg, db.codes[c], c, db.minted, db.sessions)
  {
    RunKeeps(cfg, ss, acts, i);
  }

  /** Run to completion, a code was created no later than its session's expiry and, once that is revoked, its revocation; and
      so was the auth time that an exchange of it reports. */
  lemma CodesRespectTheSession(cfg: Config, ss: seq<State>, acts: seq<Action>, i: nat, c: Id)
    requires Serial(cfg, ss, acts) && i < |ss| && c in ss[i].db.codes
    ensures var db := ss[i].db;
            && db.codes[c].session.Some? && db.codes[c].session.value in db.sessions
            && var sess := db.sessions[db.codes[c].session.value];
               && db.codes[c].createdAt <= sess.expiresAt
               && (sess.revokedAt.Some? ==> db.codes[c].createdAt <= sess.revokedAt.value)
    ensures forall k {:trigger ss[i].db.redemptions[k]} | 0 <= k < |ss[i].db.redemptions| && ss[i].db.redemptions[k].code == c ::
              ss[i].db.redemptions[k].authTime == ss[i].db.codes[c].createdAt
  {
    CodeInRunFits(cfg, ss, acts, i, c);
    SerialRunCeiled(cfg, ss, acts, i);
    assert WithinSession(ss[i].db.codes[c].createdAt, ss[i].db.sessions[ss[i].db.codes[c].session.value]);
    forall k {:trigger ss[i].db.redemptions[k]} | 0 <= k < |ss[i].db.redemptions| && ss[i].db.redemptions[k].code == c
      ensures ss[i].db.redemptions[k].authTime == ss[i].db.codes[c].createdAt
    {
      ExchangesReportTheCode(cfg, ss, acts, i, k);
    }
  }

  /** Run to completion, no refresh under a session succeeds later than the earlier of the session's expiry and
      revocation plus the code lifetime plus the absolute lifetime the client had at the code exchange. */
  lemma RefreshesRespectTheSession(cfg: Config, ss: seq<State>, acts: seq<Action>, i: nat, k: nat)
    requires Serial(cfg, ss, acts) && i < |ss| && k < |ss[i].db.refreshes|
    ensures var db, e := ss[i].db, ss[i].db.refreshes[k];
            && Linked(db.tokens, db.birth) && e.token in db.tokens
            && var r := Root(db.tokens, db.birth, e.token);
               && r in db.birth && db.tokens[e.token].session.Some? && db.tokens[e.token].session.value in db.sessions
               && var sess, grace := db.sessions[db.tokens[e.token].session.value],
                                     cfg.authCodeLifetime + db.birth[r].client.AbsoluteLifetime();
                  e.at <= sess.expiresAt + grace && (sess.revokedAt.Some? ==> e.at <= sess.revokedAt.value + grace)
  {
    NoRefreshPastTheCeiling(cfg, ss, acts, i, k);
    RootsRespectTheSession(cfg, ss, acts, i, ss[i].db.refreshes[k].token);
  }

  // ---- stretches of serial runs ----

  /** States joined by serial steps, from any starting state. */
  ghost predicate Stretch(cfg: Config, ss: seq<State>, acts: seq<Action>) {
    && |ss| == |acts| + 1
    && forall i {:trigger StepAt(cfg, ss, acts, i)} {:trigger SerialAt(ss, acts, i)} | 0 <= i < |acts| ::
         StepAt(cfg, ss, acts, i) && SerialAt(ss, acts, i)
  }

  function Last(ss: seq<State>): State
    requires |ss| > 0
  {
    ss[|ss| - 1]
  }

  /** One more step at the end. */
  lemma OneMore(cfg: Config, ss: seq<State>, acts: seq<Action>, a: Action) returns (ss': seq<State>, acts': seq<Action>)
    requires Stretch(cfg, ss, acts) && Enabled(cfg, Last(ss), a) && SerialStep(Last(ss), a)
    ensures Stretch(cfg, ss', acts') && ss'[0] == ss[0] && Last(ss') == Next(cfg, Last(ss), a)
  {
    ss', acts' := ss + [Next(cfg, Last(ss), a)], acts + [a];
    forall i | 0 <= i < |acts'| ensures StepAt(cfg, ss', acts', i) && SerialAt(ss', acts', i) {
      if i < |acts| {
        assert StepAt(cfg, ss, acts, i) && SerialAt(ss, acts, i);
      }
    }
  }

  /** The process in flight gives up, as a handler does on every refusal. */
  lemma StopRuns(cfg: Config, ss: seq<State>, acts: seq<Action>, p: nat) returns (ss': seq<State>, acts': seq<Action>)
    requires Stretch(cfg, ss, acts) && Last(ss).procs.Keys == {p}
    ensures Stretch(cfg, ss', acts') && ss'[0] == ss[0]
    ensures Last(ss').procs == map[] && Last(ss').db == Last(ss).db && Last(ss').now == Last(ss).now
  {
    ss', acts' := OneMore(cfg, ss, acts, Environment(Stop(p)));
  }

  /** A serial run goes on with any stretch that starts where it ends. */
  lemma StretchGoesOn(cfg: Config, ss: seq<State>, acts: seq<Action>, more: seq<State>, moreActs: seq<Action>)
    requires Serial(cfg, ss, acts) && Stretch(cfg, more, moreActs) && more[0] == Last(ss)
    ensures Serial(cfg, ss + more[1..], acts + moreActs) && Last(ss + more[1..]) == Last(more)
  {
    var ss', acts' := ss + more[1..], acts + moreActs;
    forall i | 0 <= i < |acts'| ensures StepAt(cfg, ss', acts', i) && SerialAt(ss', acts', i) {
      if i < |acts| {
        assert StepAt(cfg, ss, acts, i) && SerialAt(ss, acts, i);
      } else {
        assert StepAt(cfg, more, moreActs, i - |acts|) && SerialAt(more, moreActs, i - |acts|);
        assert i == |acts| ==> ss'[i] == more[0];
      }
    }
  }
}
