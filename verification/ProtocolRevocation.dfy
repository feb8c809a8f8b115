/** Revocation: permanent, causal, and final once no request is in flight. */
module ProtocolRevocation {
  import opened Domain
  import opened StoreSpec
  import opened Protocol
  import opened ProtocolInvariant
  import opened ProtocolProcs
  import opened ProtocolSteps
  import opened ProtocolChains

  // ---- the history tells the truth about the run ----

  /** Step `l` of the run looked up token `id`, then not revoked. */
  ghost predicate LookedUpAt(ss: seq<State>, acts: seq<Action>, l: nat, id: Id) {
    && l < |acts| < |ss| && acts[l].Refresh? && acts[l].r.LookupToken? && acts[l].r.id == id
    && id in ss[l].db.tokens
  }

  ghost predicate ProcHonest(ss: seq<State>, acts: seq<Action>, p: nat, pr: Proc) {
    pr.Refreshing? ==>
      LookedUpAt(ss, acts, pr.lookedUp, pr.existing.id) && acts[pr.lookedUp].p == p
      && ss[pr.lookedUp].db.tokens[pr.existing.id] == pr.existing
  }

  ghost predicate ProcsHonest(ss: seq<State>, acts: seq<Action>, procs: map<nat, Proc>) {
    forall p {:trigger ProcHonest(ss, acts, p, procs[p])} | p in procs :: ProcHonest(ss, acts, p, procs[p])
  }

  /** A rotated token was stored by the process whose lookup of the then unrevoked parent is on record. */
  ghost predicate BirthHonest(ss: seq<State>, acts: seq<Action>, t: Token, b: Birth) {
    t.parent.Some? ==>
      && LookedUpAt(ss, acts, b.lookedUp, t.parent.value)
      && ss[b.lookedUp].db.tokens[t.parent.value].revokedAt.None?
      && b.lookedUp < b.stored < |acts|
      && acts[b.stored].Refresh? && acts[b.stored].r.StoreChild? && acts[b.stored].r.id == t.id
      && acts[b.stored].p == acts[b.lookedUp].p
  }

  ghost predicate BirthsHonest(ss: seq<State>, acts: seq<Action>, db: Db) {
    forall id {:trigger BirthHonest(ss, acts, db.tokens[id], db.birth[id])} | id in db.tokens && id in db.birth ::
      BirthHonest(ss, acts, db.tokens[id], db.birth[id])
  }

  /** Only two steps add a token. */
  lemma RefreshAddsToken(cfg: Config, s: State, p: nat, r: RefreshStep, id: Id)
    requires RefreshEnabled(cfg, s, p, r) && id in RefreshEffect(cfg, s, p, r).db.tokens && id !in s.db.tokens
    ensures r.StoreChild? && r.id == id && RefreshAt(s, p, Walking)
    ensures var s', pr := RefreshEffect(cfg, s, p, r), s.procs[p];
            && s'.db.tokens[id] == NewChild(pr.refresh.client, pr.existing, pr.scope, pr.at, id, r.hash)
            && s'.db.birth[id] == Birth(pr.refresh.client, pr.lookedUp, s.step)
  {
  }

  lemma ExchangeAddsToken(cfg: Config, s: State, p: nat, x: ExchangeStep, id: Id)
    requires ExchangeEnabled(cfg, s, p, x) && id in ExchangeEffect(cfg, s, p, x).db.tokens && id !in s.db.tokens
    ensures ExchangeEffect(cfg, s, p, x).db.tokens[id].parent.None?
  {
  }

  lemma NewSnapshot(cfg: Config, s: State, a: Action, s': State, p: nat)
    requires Step(cfg, s, a, s') && p in s'.procs && s'.procs[p].Refreshing?
    ensures (p in s.procs && s.procs[p].Refreshing? && s.procs[p].existing == s'.procs[p].existing
             && s.procs[p].lookedUp == s'.procs[p].lookedUp)
         || (a.Refresh? && a.p == p && a.r.LookupToken? && a.r.id in s.db.tokens
             && s'.procs[p].existing == s.db.tokens[a.r.id] && s'.procs[p].lookedUp == s.step)
  {
  }

  lemma ProcIsHonest(cfg: Config, ss: seq<State>, acts: seq<Action>, i: nat, p: nat)
    requires Run(cfg, ss, acts) && 0 < i < |ss| && Inv(cfg, ss[i - 1]) && ss[i - 1].step == i - 1
    requires ProcsHonest(ss, acts, ss[i - 1].procs) && p in ss[i].procs && ss[i].procs[p].Refreshing?
    ensures ProcHonest(ss, acts, p, ss[i].procs[p])
  {
    var s, a, s' := ss[i - 1], acts[i - 1], ss[i];
    assert StepAt(cfg, ss, acts, i - 1);
    NewSnapshot(cfg, s, a, s', p);
    if p in s.procs && s.procs[p].Refreshing? && s.procs[p].existing == s'.procs[p].existing
       && s.procs[p].lookedUp == s'.procs[p].lookedUp {
      assert ProcHonest(ss, acts, p, s.procs[p]);
    } else {
      assert TokenFits(s.db.tokens[a.r.id], a.r.id, s.db.tokens, s.db.birth, s.db.origin, s.db.codes);
    }
  }

  lemma WalkerSawItUnrevoked(cfg: Config, s: State, p: nat)
    requires Inv(cfg, s) && RefreshAt(s, p, Walking)
    ensures s.procs[p].existing.revokedAt.None? && s.procs[p].lookedUp < s.step
    ensures s.procs[p].existing.id in s.db.tokens
  {
    assert ProcFits(cfg, s.procs[p], s.db, s.now, s.step);
  }

  lemma NewBirthIsHonest(cfg: Config, ss: seq<State>, acts: seq<Action>, i: nat, id: Id)
    requires 0 < i < |ss| && |ss| == |acts| + 1 && Inv(cfg, ss[i - 1]) && ss[i - 1].step == i - 1
    requires acts[i - 1].Refresh? && Step(cfg, ss[i - 1], acts[i - 1], ss[i])
    requires ProcsHonest(ss, acts, ss[i - 1].procs) && id in ss[i].db.tokens && id !in ss[i - 1].db.tokens
    ensures id in ss[i].db.birth && BirthHonest(ss, acts, ss[i].db.tokens[id], ss[i].db.birth[id])
  {
    var s, a := ss[i - 1], acts[i - 1];
    RefreshAddsToken(cfg, s, a.p, a.r, id);
    WalkerSawItUnrevoked(cfg, s, a.p);
    assert ProcHonest(ss, acts, a.p, s.procs[a.p]);
  }

  lemma BirthIsHonest(cfg: Config, ss: seq<State>, acts: seq<Action>, i: nat, id: Id)
    requires Run(cfg, ss, acts) && 0 < i < |ss| && Inv(cfg, ss[i - 1]) && ss[i - 1].step == i - 1
    requires ProcsHonest(ss, acts, ss[i - 1].procs) && BirthsHonest(ss, acts, ss[i - 1].db)
    requires Grows(ss[i - 1].db, ss[i].db) && id in ss[i].db.tokens && id in ss[i].db.birth
    ensures BirthHonest(ss, acts, ss[i].db.tokens[id], ss[i].db.birth[id])
  {
    var s, a, s' := ss[i - 1], acts[i - 1], ss[i];
    assert StepAt(cfg, ss, acts, i - 1);
    if id in s.db.tokens {
      assert id in s.db.birth.Keys;
      assert BirthHonest(ss, acts, s.db.tokens[id], s.db.birth[id]);
      assert TokenLater(s.db.tokens[id], s'.db.tokens[id]);
    } else if a.Refresh? {
      NewBirthIsHonest(cfg, ss, acts, i, id);
    } else if a.Exchange? {
      ExchangeAddsToken(cfg, s, a.p, a.x, id);
    }
  }

  lemma HonestStep(cfg: Config, ss: seq<State>, acts: seq<Action>, i: nat)
    requires Run(cfg, ss, acts) && 0 < i < |ss| && Inv(cfg, ss[i - 1]) && ss[i - 1].step == i - 1
    requires ProcsHonest(ss, acts, ss[i - 1].procs) && BirthsHonest(ss, acts, ss[i - 1].db)
    requires Grows(ss[i - 1].db, ss[i].db)
    ensures ProcsHonest(ss, acts, ss[i].procs) && BirthsHonest(ss, acts, ss[i].db)
  {
    forall p | p in ss[i].procs ensures ProcHonest(ss, acts, p, ss[i].procs[p]) {
      if ss[i].procs[p].Refreshing? {
        ProcIsHonest(cfg, ss, acts, i, p);
      }
    }
    forall id | id in ss[i].db.tokens && id in ss[i].db.birth
      ensures BirthHonest(ss, acts, ss[i].db.tokens[id], ss[i].db.birth[id])
    {
      BirthIsHonest(cfg, ss, acts, i, id);
    }
  }

  lemma NothingToTellAtFirst(ss: seq<State>, acts: seq<Action>, s: State)
    requires Init(s)
    ensures ProcsHonest(ss, acts, s.procs) && BirthsHonest(ss, acts, s.db)
  {
  }

  lemma {:induction false} HistoryIsHonest(cfg: Config, ss: seq<State>, acts: seq<Action>, i: nat)
    requires Run(cfg, ss, acts) && i < |ss|
    ensures ProcsHonest(ss, acts, ss[i].procs) && BirthsHonest(ss, acts, ss[i].db)
  {
    if i > 0 {
      HistoryIsHonest(cfg, ss, acts, i - 1);
      RunKeeps(cfg, ss, acts, i - 1);
      RunGrows(cfg, ss, acts, i - 1, i);
      HonestStep(cfg, ss, acts, i);
    } else {
      NothingToTellAtFirst(ss, acts, ss[0]);
    }
  }

  // ---- causality ----

  /** In every interleaving, if a token is already revoked in state `k`, then any child it ever has comes from a
      process that looked it up, unrevoked, before state `k`. */
  lemma RevocationIsCausal(cfg: Config, ss: seq<State>, acts: seq<Action>, k: nat, i: nat, t: Id)
    requires Run(cfg, ss, acts) && k <= i < |ss| && t in ss[i].db.tokens && ss[i].db.tokens[t].parent.Some?
    requires var p := ss[i].db.tokens[t].parent.value; p in ss[k].db.tokens && ss[k].db.tokens[p].revokedAt.Some?
    ensures t in ss[i].db.birth && BirthHonest(ss, acts, ss[i].db.tokens[t], ss[i].db.birth[t])
    ensures ss[i].db.birth[t].lookedUp < k
  {
    var p := ss[i].db.tokens[t].parent.value;
    RunKeeps(cfg, ss, acts, k);
    RunKeeps(cfg, ss, acts, i);
    RunGrows(cfg, ss, acts, k, i);
    HistoryIsHonest(cfg, ss, acts, i);
    assert BirthHonest(ss, acts, ss[i].db.tokens[t], ss[i].db.birth[t]);
    assert p in ss[k].db.revokedStep && ss[k].db.revokedStep[p] < k;
    assert p in ss[i].db.revokedStep;
  }

  /** A token that reached its session after everything under that session was revoked: some ancestor, or it itself,
      was stored after the revocation by a code exchange, or by a refresh whose lookup came before it. */
  ghost predicate Escaped(ss: seq<State>, acts: seq<Action>, k: nat, tokens: Tokens, birth: map<Id, Birth>, a: Id)
    requires k < |ss|
  {
    && a in tokens && a in birth && a !in ss[k].db.tokens
    && (tokens[a].parent.Some? ==> birth[a].lookedUp < k && BirthHonest(ss, acts, tokens[a], birth[a]))
  }

  lemma TokenInRunFits(cfg: Config, ss: seq<State>, acts: seq<Action>, i: nat, t: Id)
    requires Run(cfg, ss, acts) && i < |ss| && t in ss[i].db.tokens
    ensures var db := ss[i].db; TokenFits(db.tokens[t], t, db.tokens, db.birth, db.origin, db.codes)
  {
    RunKeeps(cfg, ss, acts, i);
  }

  lemma {:induction false} SurvivorsDescendFromInFlight(cfg: Config, ss: seq<State>, acts: seq<Action>, k: nat, i: nat, sid: Id, t: Id)
    returns (n: nat)
    requires Run(cfg, ss, acts) && k <= i < |ss|
    requires forall id | id in ss[k].db.tokens && ss[k].db.tokens[id].session == Some(sid) :: ss[k].db.tokens[id].revokedAt.Some?
    requires t in ss[i].db.tokens && ss[i].db.tokens[t].session == Some(sid) && t !in ss[k].db.tokens
    ensures Escaped(ss, acts, k, ss[i].db.tokens, ss[i].db.birth, Up(ss[i].db.tokens, t, n))
    decreases if t in ss[i].db.birth then ss[i].db.birth[t].stored else 0
  {
    var db := ss[i].db;
    TokenInRunFits(cfg, ss, acts, i, t);
    if db.tokens[t].parent.None? {
      n := 0;
    } else {
      var p := db.tokens[t].parent.value;
      RunGrows(cfg, ss, acts, k, i);
      if p in ss[k].db.tokens {
        assert TokenLater(ss[k].db.tokens[p], db.tokens[p]);
        RevocationIsCausal(cfg, ss, acts, k, i, t);
        n := 0;
      } else {
        n := SurvivorsDescendFromInFlight(cfg, ss, acts, k, i, sid, p);
        n := n + 1;
      }
    }
  }

  // ---- finality ----

  /** A set of revoked tokens, complete with all their descendants, that no request in flight may still take or extend. */
  ghost predicate Dead(s: State, d: set<Id>, answered: nat) {
    && (forall id | id in d :: id in s.db.tokens && s.db.tokens[id].revokedAt.Some?)
    && (forall id {:trigger s.db.tokens[id].parent}
          | id in s.db.tokens && s.db.tokens[id].parent.Some? && s.db.tokens[id].parent.value in d :: id in d)
    && (forall p | p in s.procs && s.procs[p].Refreshing? && s.procs[p].existing.id in d && s.procs[p].phase != Reused ::
          s.procs[p].phase == Looked && s.procs[p].existing.revokedAt.Some?)
    && answered <= |s.db.refreshes|
    && (forall i {:trigger s.db.refreshes[i].token} | answered <= i < |s.db.refreshes| :: s.db.refreshes[i].token !in d)
  }

  ghost predicate Frozen(m: Tokens, m': Tokens, d: set<Id>) {
    forall id | id in d :: id in m && id in m' && m'[id] == m[id]
  }

  lemma DeadAfterEnvironment(cfg: Config, s: State, e: EnvironmentStep, d: set<Id>, answered: nat)
    requires Dead(s, d, answered) && EnvironmentEnabled(s, e)
    ensures Dead(EnvironmentEffect(s, e), d, answered) && Frozen(s.db.tokens, EnvironmentEffect(s, e).db.tokens, d)
  {
  }

  lemma DeadAfterAuthorize(cfg: Config, s: State, p: nat, a: AuthorizeStep, d: set<Id>, answered: nat)
    requires Dead(s, d, answered) && AuthorizeEnabled(cfg, s, p, a)
    ensures Dead(AuthorizeEffect(cfg, s, p, a), d, answered) && Frozen(s.db.tokens, AuthorizeEffect(cfg, s, p, a).db.tokens, d)
  {
  }

  lemma DeadAfterExchange(cfg: Config, s: State, p: nat, x: ExchangeStep, d: set<Id>, answered: nat)
    requires Dead(s, d, answered) && ExchangeEnabled(cfg, s, p, x)
    ensures Dead(ExchangeEffect(cfg, s, p, x), d, answered) && Frozen(s.db.tokens, ExchangeEffect(cfg, s, p, x).db.tokens, d)
  {
  }

  lemma RunIdsFit(cfg: Config, ss: seq<State>, acts: seq<Action>, i: nat)
    requires Run(cfg, ss, acts) && i < |ss|
    ensures IdsFit(ss[i].db.tokens)
  {
    RunKeeps(cfg, ss, acts, i);
    TokenIdsFit(cfg, ss[i]);
  }

  lemma DeadHoldsNoNew(cfg: Config, s: State, p: nat, r: RefreshStep, d: set<Id>, answered: nat, q: nat)
    requires IdsFit(s.db.tokens) && Dead(s, d, answered) && RefreshEnabled(cfg, s, p, r) && !r.StoreChild? && !r.AnswerRefresh?
    requires var s' := RefreshEffect(cfg, s, p, r);
             q in s'.procs && s'.procs[q].Refreshing? && s'.procs[q].existing.id in d && s'.procs[q].phase != Reused
    ensures var pr := RefreshEffect(cfg, s, p, r).procs[q]; pr.phase == Looked && pr.existing.revokedAt.Some?
  {
    if q == p && r.LookupToken? {
      assert s.db.tokens[r.id].revokedAt.Some?;
    }
  }

  lemma DeadAfterRefresh(cfg: Config, s: State, p: nat, r: RefreshStep, d: set<Id>, answered: nat)
    requires IdsFit(s.db.tokens) && Dead(s, d, answered) && RefreshEnabled(cfg, s, p, r) && !r.StoreChild? && !r.AnswerRefresh?
    ensures Dead(RefreshEffect(cfg, s, p, r), d, answered) && Frozen(s.db.tokens, RefreshEffect(cfg, s, p, r).db.tokens, d)
  {
    var s' := RefreshEffect(cfg, s, p, r);
    forall q | q in s'.procs && s'.procs[q].Refreshing? && s'.procs[q].existing.id in d && s'.procs[q].phase != Reused
      ensures s'.procs[q].phase == Looked && s'.procs[q].existing.revokedAt.Some?
    {
      DeadHoldsNoNew(cfg, s, p, r, d, answered, q);
    }
  }

  lemma DeadAfterAnswer(cfg: Config, s: State, p: nat, r: RefreshStep, d: set<Id>, answered: nat)
    requires Dead(s, d, answered) && RefreshEnabled(cfg, s, p, r) && (r.StoreChild? || r.AnswerRefresh?)
    ensures Dead(RefreshEffect(cfg, s, p, r), d, answered) && Frozen(s.db.tokens, RefreshEffect(cfg, s, p, r).db.tokens, d)
  {
  }

  lemma DeadAfterStep(cfg: Config, s: State, a: Action, s': State, d: set<Id>, answered: nat)
    requires IdsFit(s.db.tokens) && Dead(s, d, answered) && Step(cfg, s, a, s')
    ensures Dead(s', d, answered) && Frozen(s.db.tokens, s'.db.tokens, d)
  {
    match a
    case Environment(e) => DeadAfterEnvironment(cfg, s, e, d, answered);
    case Authorize(p, b) => DeadAfterAuthorize(cfg, s, p, b, d, answered);
    case Exchange(p, x) => DeadAfterExchange(cfg, s, p, x, d, answered);
    case Refresh(p, r) =>
      if r.StoreChild? || r.AnswerRefresh? {
        DeadAfterAnswer(cfg, s, p, r, d, answered);
      } else {
        DeadAfterRefresh(cfg, s, p, r, d, answered);
      }
  }

  /** Dead tokens stay dead for the rest of the run: their records no longer change, none of them is renewed, and no
      child is added to any of them. */
  lemma {:induction false} DeadStaysDead(cfg: Config, ss: seq<State>, acts: seq<Action>, i: nat, j: nat, d: set<Id>)
    requires Run(cfg, ss, acts) && i <= j < |ss| && Dead(ss[i], d, |ss[i].db.refreshes|)
    ensures Dead(ss[j], d, |ss[i].db.refreshes|) && Frozen(ss[i].db.tokens, ss[j].db.tokens, d)
    decreases j
  {
    if i < j {
      DeadStaysDead(cfg, ss, acts, i, j - 1, d);
      RunIdsFit(cfg, ss, acts, j - 1);
      assert StepAt(cfg, ss, acts, j - 1);
      DeadAfterStep(cfg, ss[j - 1], acts[j - 1], ss[j], d, |ss[i].db.refreshes|);
    }
  }

  /** The tokens stored under a session. */
  ghost function TokensUnder(m: Tokens, sid: Id): set<Id> {
    set id | id in m && m[id].session == Some(sid)
  }

  /** No process other than `p` holds an unrevoked snapshot of a token of the session. */
  ghost predicate NobodyElseHolds(s: State, p: nat, sid: Id) {
    forall q | q in s.procs && q != p && s.procs[q].Refreshing? && s.procs[q].existing.session == Some(sid)
               && s.procs[q].phase != Reused :: s.procs[q].phase == Looked && s.procs[q].existing.revokedAt.Some?
  }

  ghost predicate SessionsInherited(m: Tokens) {
    forall id {:trigger m[id].parent} | id in m && m[id].parent.Some? ::
      m[id].parent.value in m && m[m[id].parent.value].session == m[id].session
  }

  lemma RunSessionsInherited(cfg: Config, ss: seq<State>, acts: seq<Action>, i: nat)
    requires Run(cfg, ss, acts) && i < |ss|
    ensures SessionsInherited(ss[i].db.tokens)
  {
    var db := ss[i].db;
    forall id {:trigger db.tokens[id].parent} | id in db.tokens && db.tokens[id].parent.Some?
      ensures db.tokens[id].parent.value in db.tokens && db.tokens[db.tokens[id].parent.value].session == db.tokens[id].session
    {
      TokenInRunFits(cfg, ss, acts, i, id);
    }
  }

  lemma SnapshotSessions(cfg: Config, ss: seq<State>, acts: seq<Action>, i: nat, q: nat)
    requires Run(cfg, ss, acts) && i < |ss| && q in ss[i].procs && ss[i].procs[q].Refreshing?
    ensures var t := ss[i].procs[q].existing;
            t.id in ss[i].db.tokens && t.session == ss[i].db.tokens[t.id].session && t.session.Some?
  {
    RunKeeps(cfg, ss, acts, i);
    assert ProcFits(cfg, ss[i].procs[q], ss[i].db, ss[i].now, ss[i].step);
    TokenInRunFits(cfg, ss, acts, i, ss[i].procs[q].existing.id);
  }

  lemma RefreshInRunFits(cfg: Config, ss: seq<State>, acts: seq<Action>, i: nat, p: nat)
    requires Run(cfg, ss, acts) && i < |ss| && p in ss[i].procs && ss[i].procs[p].Refreshing?
    ensures RefreshFits(ss[i].procs[p], ss[i].db, ss[i].now, ss[i].step)
  {
    RunKeeps(cfg, ss, acts, i);
    assert ProcFits(cfg, ss[i].procs[p], ss[i].db, ss[i].now, ss[i].step);
  }

  /** Revoking a session's tokens while no request holds one of them kills all of them at once. */
  lemma RevokedSessionIsDead(cfg: Config, ss: seq<State>, acts: seq<Action>, i: nat, sid: Id)
    requires Run(cfg, ss, acts) && i < |ss|
    requires forall id | id in ss[i].db.tokens && ss[i].db.tokens[id].session == Some(sid) :: ss[i].db.tokens[id].revokedAt.Some?
    requires forall q | q in ss[i].procs && ss[i].procs[q].Refreshing? && ss[i].procs[q].existing.session == Some(sid)
                        && ss[i].procs[q].phase != Reused ::
               ss[i].procs[q].phase == Looked && ss[i].procs[q].existing.revokedAt.Some?
    ensures Dead(ss[i], TokensUnder(ss[i].db.tokens, sid), |ss[i].db.refreshes|)
  {
    RunSessionsInherited(cfg, ss, acts, i);
    forall q | q in ss[i].procs && ss[i].procs[q].Refreshing?
      ensures var t := ss[i].procs[q].existing; t.id in ss[i].db.tokens && t.session == ss[i].db.tokens[t.id].session
    {
      SnapshotSessions(cfg, ss, acts, i, q);
    }
  }

  /** Once reuse of a token has been punished and no other request is in flight on that session, every token then
      stored under the session is dead for the rest of the run. */
  lemma PunishedReuseIsFinal(cfg: Config, ss: seq<State>, acts: seq<Action>, i: nat, j: nat)
    requires Run(cfg, ss, acts) && i < |acts| && i < j < |ss|
    requires acts[i].Refresh? && acts[i].r == PunishReuse
    requires acts[i].p in ss[i].procs && ss[i].procs[acts[i].p].Refreshing?
    requires var t := ss[i].procs[acts[i].p].existing; t.session.Some? ==> NobodyElseHolds(ss[i], acts[i].p, t.session.value)
    ensures var t := ss[i].procs[acts[i].p].existing;
            && t.session.Some?
            && var d := TokensUnder(ss[i].db.tokens, t.session.value);
               && t.id in d && Dead(ss[j], d, |ss[i].db.refreshes|) && Frozen(ss[i + 1].db.tokens, ss[j].db.tokens, d)
  {
    var t := ss[i].procs[acts[i].p].existing;
    SnapshotSessions(cfg, ss, acts, i, acts[i].p);
    assert StepAt(cfg, ss, acts, i);
    var sid := t.session.value;
    assert TokensUnder(ss[i + 1].db.tokens, sid) == TokensUnder(ss[i].db.tokens, sid);
    RevokedSessionIsDead(cfg, ss, acts, i + 1, sid);
    DeadStaysDead(cfg, ss, acts, i + 1, j, TokensUnder(ss[i].db.tokens, sid));
  }

  /** What is closed under children and holds a root holds the whole chain. */
  lemma {:induction false} ChainStaysWithin(db: Db, d: set<Id>, id: Id)
    requires Linked(db.tokens, db.birth) && id in db.tokens && Root(db.tokens, db.birth, id) in d
    requires forall k {:trigger db.tokens[k].parent} | k in db.tokens && db.tokens[k].parent.Some? && db.tokens[k].parent.value in d :: k in d
    ensures id in d
    decreases if id in db.birth then db.birth[id].stored else 0
  {
    assert LinkFits(db.tokens, db.birth, id);
    if db.tokens[id].parent.Some? {
      ChainStaysWithin(db, d, db.tokens[id].parent.value);
    }
  }

  // ---- why finality needs nobody in flight ----

  lemma WalkerPassedItsChecks(cfg: Config, s: State, p: nat)
    requires Inv(cfg, s) && RefreshAt(s, p, Walking)
    ensures RefreshOk(s.procs[p].refresh, s.procs[p].existing, s.procs[p].at)
  {
    assert ProcFits(cfg, s.procs[p], s.db, s.now, s.step);
  }

  lemma ChildPassesChecks(r: RefreshRequest, parent: Token, scope: string, at: Time, id: Id, hash: string)
    requires RefreshOk(r, parent, at)
    ensures RefreshOk(r.(hash := hash), NewChild(r.client, parent, scope, at, id, hash), at)
  {
  }

  lemma RevokingKeepsWalk(s: State, p: nat, sid: Id, at: Time, id: Id, hash: string)
    requires RefreshAt(s, p, Walking) && at <= s.now
    ensures var s1 := EnvironmentEffect(s, EndTokens(sid, at));
            && (forall k | k in s1.db.tokens && s1.db.tokens[k].session == Some(sid) :: s1.db.tokens[k].revokedAt.Some?)
            && (WalkDone(s.db.tokens, s.procs[p]) ==> WalkDone(s1.db.tokens, s1.procs[p]))
            && (FreshToken(s.db.tokens, id, hash) ==> FreshToken(s1.db.tokens, id, hash))
  {
  }

  /** A refresh that already won its token outlives a revocation of the whole session: the child it then stores is
      under the revoked session, not revoked, and passes every check of a later refresh by the same client. */
  lemma InFlightRefreshOutlivesRevocation(cfg: Config, s: State, p: nat, sid: Id, at: Time, id: Id, hash: string)
    requires Inv(cfg, s) && RefreshAt(s, p, Walking) && WalkDone(s.db.tokens, s.procs[p])
    requires Rotates(s.procs[p].refresh, s.procs[p].existing) && FreshToken(s.db.tokens, id, hash)
    requires s.procs[p].existing.session == Some(sid) && at <= s.now
    ensures var s1 := EnvironmentEffect(s, EndTokens(sid, at));
            && (forall k | k in s1.db.tokens && s1.db.tokens[k].session == Some(sid) :: s1.db.tokens[k].revokedAt.Some?)
            && RefreshEnabled(cfg, s1, p, StoreChild(id, hash))
            && var s2 := RefreshEffect(cfg, s1, p, StoreChild(id, hash));
               && IsTokenFor(s2.db.tokens, hash, id)
               && s2.db.tokens[id].session == Some(sid) && s2.db.tokens[id].revokedAt.None?
               && RefreshOk(s.procs[p].refresh.(hash := hash), s2.db.tokens[id], s.procs[p].at)
  {
    var pr := s.procs[p];
    WalkerPassedItsChecks(cfg, s, p);
    ChildPassesChecks(pr.refresh, pr.existing, pr.scope, pr.at, id, hash);
    RevokingKeepsWalk(s, p, sid, at, id, hash);
  }
}
