/** Requests for password reset links and uses of them, interleaved with each other and with everything else that touches
    their store. */
module ResetRaces {
  import opened Domain
  import opened PasswordReset

  /** A use of a link that has passed its first lookup, then read the clock and passed its second, then won the token. */
  datatype Use = Checked | Ready(t: ResetToken, at: Time) | Winner(t: ResetToken, at: Time)

  /** A request for a link that has cleared the user's tokens, at the given step, and not yet stored its own. */
  datatype Ask = Ask(user: string, cleared: nat)

  datatype Change = Change(token: Id, user: string, at: Time)

  datatype State = State(
    step: nat,
    tokens: Resets,
    uses: map<Id, Use>,
    asks: map<Id, Ask>,
    // history: every token as it was issued and the step that issued it, every token won, every password set
    issued: Resets,
    issuedStep: map<Id, nat>,
    won: set<Id>,
    changes: seq<Change>)

  datatype Action =
    | AskClear(q: Id, user: string, at: Time)
    | AskIssue(q: Id, t: ResetToken)
    | AskStop(q: Id)
    | Clear(user: string, at: Time)
    | Purge(before: Time)
    | FirstLookup(p: Id, token: Id, at: Time)
    | SecondLookup(p: Id, token: Id, now: Time, at: Time)
    | Consume(p: Id, ok: bool)
    | SetPassword(p: Id, ok: bool)
    | GiveUp(p: Id)

  predicate Live(m: Resets, id: Id) {
    id in m && m[id].consumedAt.None?
  }

  predicate Enabled(s: State, a: Action) {
    match a
    case AskClear(q, _, _) => q !in s.asks
    case AskIssue(q, t) =>
      && q in s.asks && t.userId == s.asks[q].user && t.id !in s.issued && t.consumedAt.None?
      && forall id | id in s.tokens :: s.tokens[id].hash != t.hash
    case AskStop(q) => q in s.asks
    case Clear(_, _) => true
    case Purge(_) => true
    case FirstLookup(p, token, at) => p !in s.uses && Consumable(s.tokens, token, at)
    case SecondLookup(p, token, now, at) => p in s.uses && s.uses[p].Checked? && now <= at && Consumable(s.tokens, token, at)
    case Consume(p, _) => p in s.uses && s.uses[p].Ready?
    case SetPassword(p, _) => p in s.uses && s.uses[p].Winner?
    case GiveUp(p) => p in s.uses && !s.uses[p].Winner?
  }

  /** A use whose compare-and-set fails, or whose store call fails, ends without an effect. */
  function Effect(s: State, a: Action): State
    requires Enabled(s, a)
  {
    match a
    case AskClear(q, user, at) => s.(tokens := Invalidated(s.tokens, user, at), asks := s.asks[q := Ask(user, s.step)])
    case AskIssue(q, t) =>
      s.(tokens := s.tokens[t.id := t], asks := s.asks - {q}, issued := s.issued[t.id := t], issuedStep := s.issuedStep[t.id := s.step])
    case AskStop(q) => s.(asks := s.asks - {q})
    case Clear(user, at) => s.(tokens := Invalidated(s.tokens, user, at))
    case Purge(before) => s.(tokens := Purged(s.tokens, before))
    case FirstLookup(p, _, _) => s.(uses := s.uses[p := Checked])
    case SecondLookup(p, token, now, _) => s.(uses := s.uses[p := Ready(s.tokens[token], now)])
    case Consume(p, ok) =>
      var u := s.uses[p];
      if ok && Consumable(s.tokens, u.t.id, u.at) then
        s.(tokens := Consumed(s.tokens, u.t.id, u.at), uses := s.uses[p := Winner(u.t, u.at)], won := s.won + {u.t.id})
      else s.(uses := s.uses - {p})
    case SetPassword(p, ok) =>
      var u := s.uses[p];
      s.(uses := s.uses - {p}, changes := if ok then s.changes + [Change(u.t.id, u.t.userId, u.at)] else s.changes)
    case GiveUp(p) => s.(uses := s.uses - {p})
  }

  function Next(s: State, a: Action): State
    requires Enabled(s, a)
  {
    Effect(s, a).(step := s.step + 1)
  }

  predicate Init(s: State) {
    s == State(0, map[], map[], map[], map[], map[], {}, [])
  }

  predicate StepAt(ss: seq<State>, acts: seq<Action>, i: nat)
    requires i < |acts| && |ss| == |acts| + 1
  {
    Enabled(ss[i], acts[i]) && ss[i + 1] == Next(ss[i], acts[i])
  }

  /** States joined by steps, from any starting state. */
  ghost predicate Stretch(ss: seq<State>, acts: seq<Action>) {
    |ss| == |acts| + 1 && forall i {:trigger StepAt(ss, acts, i)} | 0 <= i < |acts| :: StepAt(ss, acts, i)
  }

  ghost predicate Run(ss: seq<State>, acts: seq<Action>) {
    Stretch(ss, acts) && Init(ss[0])
  }

  function Last(ss: seq<State>): State
    requires |ss| > 0
  {
    ss[|ss| - 1]
  }

  lemma OneMore(ss: seq<State>, acts: seq<Action>, a: Action) returns (ss': seq<State>, acts': seq<Action>)
    requires Stretch(ss, acts) && Enabled(Last(ss), a)
    ensures Stretch(ss', acts') && ss'[0] == ss[0] && Last(ss') == Next(Last(ss), a)
    ensures ss <= ss' && acts' == acts + [a]
  {
    ss', acts' := ss + [Next(Last(ss), a)], acts + [a];
    forall i | 0 <= i < |acts'| ensures StepAt(ss', acts', i) {
      if i < |acts| {
        assert StepAt(ss, acts, i);
      }
    }
  }

  // ---- what every step keeps ----

  /** `t` is the token issued under its id, but for the time it was consumed. */
  predicate AsIssued(issued: Resets, t: ResetToken) {
    t.id in issued && t == issued[t.id].(consumedAt := t.consumedAt)
  }

  predicate StoreOk(tokens: Resets, issued: Resets, won: set<Id>) {
    && (forall id | id in tokens :: tokens[id].id == id && AsIssued(issued, tokens[id]))
    && (forall id | id in won :: id in issued && (id in tokens ==> tokens[id].consumedAt.Some?))
  }

  /** A winner's token is won, by it alone, and has not changed a password yet. */
  predicate UsesOk(uses: map<Id, Use>, issued: Resets, won: set<Id>, changes: seq<Change>) {
    && (forall p | p in uses && !uses[p].Checked? :: AsIssued(issued, uses[p].t))
    && (forall p | p in uses && uses[p].Winner? :: uses[p].t.id in won && uses[p].at < uses[p].t.expiresAt)
    && (forall p, q | p in uses && q in uses && uses[p].Winner? && uses[q].Winner? && uses[p].t.id == uses[q].t.id :: p == q)
    && (forall p, i | p in uses && uses[p].Winner? && 0 <= i < |changes| :: changes[i].token != uses[p].t.id)
  }

  predicate ChangesOk(changes: seq<Change>, issued: Resets, won: set<Id>) {
    && (forall i | 0 <= i < |changes| :: ChangeOk(changes[i], issued) && changes[i].token in won)
    && (forall i, j | 0 <= i < j < |changes| :: changes[i].token != changes[j].token)
  }

  predicate ChangeOk(c: Change, issued: Resets) {
    c.token in issued && c.user == issued[c.token].userId && c.at < issued[c.token].expiresAt
  }

  /** A request has nothing of its user's left to clear but what was issued since it cleared. */
  ghost predicate AskOk(tokens: Resets, issuedStep: map<Id, nat>, a: Ask) {
    forall id | Live(tokens, id) && tokens[id].userId == a.user :: id in issuedStep && a.cleared < issuedStep[id]
  }

  ghost predicate AsksOk(tokens: Resets, asks: map<Id, Ask>, issued: Resets, issuedStep: map<Id, nat>, step: nat) {
    && issuedStep.Keys == issued.Keys
    && (forall q | q in asks :: asks[q].cleared < step && AskOk(tokens, issuedStep, asks[q]))
  }

  ghost predicate Inv(s: State) {
    && StoreOk(s.tokens, s.issued, s.won)
    && UsesOk(s.uses, s.issued, s.won, s.changes)
    && ChangesOk(s.changes, s.issued, s.won)
    && AsksOk(s.tokens, s.asks, s.issued, s.issuedStep, s.step)
  }

  /** One step counts itself and puts on record at most the token it issues. */
  lemma StepOnRecord(s: State, a: Action)
    requires Enabled(s, a)
    ensures var s' := Next(s, a);
            && s'.step == s.step + 1
            && s'.issued == (if a.AskIssue? then s.issued[a.t.id := a.t] else s.issued)
            && s'.issuedStep == (if a.AskIssue? then s.issuedStep[a.t.id := s.step] else s.issuedStep)
            && (a.AskIssue? ==> a.t.id !in s.issued)
  {
  }

  lemma AskStaysOk(s: State, a: Action, k: Ask)
    requires Enabled(s, a) && s.issuedStep.Keys == s.issued.Keys && k.cleared < s.step && AskOk(s.tokens, s.issuedStep, k)
    ensures AskOk(Next(s, a).tokens, Next(s, a).issuedStep, k)
  {
    forall id | Live(Next(s, a).tokens, id) && (!a.AskIssue? || id != a.t.id) ensures Live(s.tokens, id) {
    }
  }

  lemma AsksStayOk(s: State, a: Action)
    requires Inv(s) && Enabled(s, a)
    ensures var s' := Next(s, a); AsksOk(s'.tokens, s'.asks, s'.issued, s'.issuedStep, s'.step)
  {
    var s' := Next(s, a);
    StepOnRecord(s, a);
    forall q | q in s'.asks ensures s'.asks[q].cleared < s'.step && AskOk(s'.tokens, s'.issuedStep, s'.asks[q]) {
      if q in s.asks && s.asks[q] == s'.asks[q] {
        AskStaysOk(s, a, s.asks[q]);
      }
    }
  }

  lemma IssueKeeps(s: State, q: Id, t: ResetToken)
    requires Inv(s) && Enabled(s, AskIssue(q, t))
    ensures Inv(Next(s, AskIssue(q, t)))
  {
    AsksStayOk(s, AskIssue(q, t));
  }

  lemma WinKeeps(s: State, p: Id)
    requires Inv(s) && Enabled(s, Consume(p, true)) && Consumable(s.tokens, s.uses[p].t.id, s.uses[p].at)
    ensures Inv(Next(s, Consume(p, true)))
  {
    AsksStayOk(s, Consume(p, true));
    assert AsIssued(s.issued, s.tokens[s.uses[p].t.id]);
    assert s.uses[p].t.id !in s.won;
  }

  /** Clearing and purging touch nothing but the store. */
  lemma SweepKeeps(s: State, a: Action)
    requires Inv(s) && Enabled(s, a) && (a.AskClear? || a.AskStop? || a.Clear? || a.Purge?)
    ensures Inv(Next(s, a))
  {
    AsksStayOk(s, a);
  }

  lemma UseKeeps(s: State, a: Action)
    requires Inv(s) && Enabled(s, a) && (a.FirstLookup? || a.SecondLookup? || a.SetPassword? || a.GiveUp?)
    ensures Inv(Next(s, a))
  {
    AsksStayOk(s, a);
  }

  lemma LossKeeps(s: State, p: Id, ok: bool)
    requires Inv(s) && Enabled(s, Consume(p, ok)) && !(ok && Consumable(s.tokens, s.uses[p].t.id, s.uses[p].at))
    ensures Inv(Next(s, Consume(p, ok)))
  {
    AsksStayOk(s, Consume(p, ok));
  }

  lemma StepKeeps(s: State, a: Action)
    requires Inv(s) && Enabled(s, a)
    ensures Inv(Next(s, a))
  {
    match a
    case AskIssue(q, t) => IssueKeeps(s, q, t);
    case Consume(p, ok) =>
      if ok && Consumable(s.tokens, s.uses[p].t.id, s.uses[p].at) {
        WinKeeps(s, p);
      } else {
        LossKeeps(s, p, ok);
      }
    case FirstLookup(_, _, _) => UseKeeps(s, a);
    case SecondLookup(_, _, _, _) => UseKeeps(s, a);
    case SetPassword(_, _) => UseKeeps(s, a);
    case GiveUp(_) => UseKeeps(s, a);
    case _ => SweepKeeps(s, a);
  }

  lemma {:induction false} RunKeeps(ss: seq<State>, acts: seq<Action>, n: nat)
    requires Run(ss, acts) && n < |ss|
    ensures Inv(ss[n]) && ss[n].step == n
  {
    if n > 0 {
      RunKeeps(ss, acts, n - 1);
      assert StepAt(ss, acts, n - 1);
      StepKeeps(ss[n - 1], acts[n - 1]);
    }
  }

  // ---- one change per link ----

  /** In every interleaving a link changes at most one password, once: that of the user it was issued to, and only when it
      was won before it expired. */
  lemma OneChangePerLink(ss: seq<State>, acts: seq<Action>, n: nat)
    requires Run(ss, acts) && n < |ss|
    ensures var s := ss[n];
            && (forall i, j | 0 <= i < j < |s.changes| :: s.changes[i].token != s.changes[j].token)
            && (forall i | 0 <= i < |s.changes| ::
                  && s.changes[i].token in s.issued && s.changes[i].user == s.issued[s.changes[i].token].userId
                  && s.changes[i].at < s.issued[s.changes[i].token].expiresAt)
  {
    RunKeeps(ss, acts, n);
    forall i | 0 <= i < |ss[n].changes| ensures ChangeOk(ss[n].changes[i], ss[n].issued) {
    }
  }

  // ---- one link per user, as long as no request overtakes another ----

  lemma {:induction false} StepsAreCounted(ss: seq<State>, acts: seq<Action>, n: nat)
    requires Run(ss, acts) && n < |ss|
    ensures ss[n].step == n && ss[n].issuedStep.Keys == ss[n].issued.Keys
  {
    if n > 0 {
      StepsAreCounted(ss, acts, n - 1);
      assert StepAt(ss, acts, n - 1);
      StepOnRecord(ss[n - 1], acts[n - 1]);
    }
  }

  /** The history of issues tells the truth. */
  lemma {:induction false} IssuesAreHonest(ss: seq<State>, acts: seq<Action>, n: nat, id: Id)
    requires Run(ss, acts) && n < |ss| && id in ss[n].issuedStep && id in ss[n].issued
    ensures var j := ss[n].issuedStep[id]; j < n && acts[j].AskIssue? && acts[j].t == ss[n].issued[id] && acts[j].t.id == id
  {
    if n > 0 {
      StepsAreCounted(ss, acts, n - 1);
      assert StepAt(ss, acts, n - 1);
      StepOnRecord(ss[n - 1], acts[n - 1]);
      if id in ss[n - 1].issuedStep {
        IssuesAreHonest(ss, acts, n - 1, id);
      }
    }
  }

  /** When step `k` stores a request's token, the token that step `j` stored for the same user since that request cleared is
      still live. */
  predicate Overtakes(ss: seq<State>, acts: seq<Action>, j: nat, k: nat)
    requires k < |acts| && |ss| == |acts| + 1 && j < |acts|
  {
    && acts[k].AskIssue? && acts[k].q in ss[k].asks && acts[j].AskIssue?
    && ss[k].asks[acts[k].q].cleared < j < k
    && acts[j].t.userId == acts[k].t.userId && Live(ss[k].tokens, acts[j].t.id)
  }

  ghost predicate NoneOvertaken(ss: seq<State>, acts: seq<Action>, n: nat)
    requires n < |ss| && |ss| == |acts| + 1
  {
    forall j, k {:trigger Overtakes(ss, acts, j, k)} | 0 <= j < k < n :: !Overtakes(ss, acts, j, k)
  }

  ghost predicate AlwaysOneLive(ss: seq<State>, n: nat)
    requires n < |ss|
  {
    forall m {:trigger ss[m]} | 0 <= m <= n :: OneLivePerUser(ss[m].tokens)
  }

  lemma IssueLeavesOne(s: State, q: Id, t: ResetToken)
    requires Enabled(s, AskIssue(q, t)) && Inv(s) && OneLivePerUser(s.tokens)
    ensures OneLivePerUser(Next(s, AskIssue(q, t)).tokens) <==> forall id | Live(s.tokens, id) :: s.tokens[id].userId != t.userId
  {
    var m := Next(s, AskIssue(q, t)).tokens;
    forall id | Live(s.tokens, id) && s.tokens[id].userId == t.userId ensures !OneLivePerUser(m) {
      assert id != t.id && Live(m, id) && Live(m, t.id);
    }
  }

  lemma OtherStepsLeaveOne(s: State, a: Action)
    requires Enabled(s, a) && !a.AskIssue? && OneLivePerUser(s.tokens)
    ensures OneLivePerUser(Next(s, a).tokens)
  {
    FewerStayOne(s.tokens, Next(s, a).tokens);
  }

  lemma IssueSinceClear(ss: seq<State>, acts: seq<Action>, k: nat, id: Id)
    requires Run(ss, acts) && k < |acts| && acts[k].AskIssue? && Live(ss[k].tokens, id) && ss[k].tokens[id].userId == acts[k].t.userId
    ensures id in ss[k].issuedStep && var j := ss[k].issuedStep[id]; j < |acts| && Overtakes(ss, acts, j, k)
  {
    RunKeeps(ss, acts, k);
    assert StepAt(ss, acts, k);
    assert AskOk(ss[k].tokens, ss[k].issuedStep, ss[k].asks[acts[k].q]);
    IssuesAreHonest(ss, acts, k, id);
  }

  /** Up to state `n` of any interleaving every user always has at most one usable link if and only if no request, on storing
      its token, finds a live one that another request stored for the same user since it cleared. */
  lemma {:induction false} OneLinkUnlessOvertaken(ss: seq<State>, acts: seq<Action>, n: nat)
    requires Run(ss, acts) && n < |ss|
    ensures AlwaysOneLive(ss, n) <==> NoneOvertaken(ss, acts, n)
  {
    if n > 0 {
      var k := n - 1;
      OneLinkUnlessOvertaken(ss, acts, k);
      assert StepAt(ss, acts, k);
      RunKeeps(ss, acts, k);
      if AlwaysOneLive(ss, k) {
        assert OneLivePerUser(ss[k].tokens);
        if acts[k].AskIssue? {
          IssueLeavesOne(ss[k], acts[k].q, acts[k].t);
          OvertakenIsLive(ss, acts, k);
        } else {
          OtherStepsLeaveOne(ss[k], acts[k]);
        }
      }
    }
  }

  lemma OvertakenIsLive(ss: seq<State>, acts: seq<Action>, k: nat)
    requires Run(ss, acts) && k < |acts| && acts[k].AskIssue?
    ensures (exists j: nat {:trigger Overtakes(ss, acts, j, k)} | j < k :: Overtakes(ss, acts, j, k)) <==>
              exists id :: Live(ss[k].tokens, id) && ss[k].tokens[id].userId == acts[k].t.userId
  {
    RunKeeps(ss, acts, k);
    if exists id :: Live(ss[k].tokens, id) && ss[k].tokens[id].userId == acts[k].t.userId {
      var id :| Live(ss[k].tokens, id) && ss[k].tokens[id].userId == acts[k].t.userId;
      IssueSinceClear(ss, acts, k, id);
    }
    forall j: nat {:trigger Overtakes(ss, acts, j, k)} | j < k && Overtakes(ss, acts, j, k)
      ensures ss[k].tokens[acts[j].t.id].userId == acts[k].t.userId
    {
      IssuedFor(ss, acts, j, k);
    }
  }

  /** A token issued at step `j` is on record ever after. */
  lemma {:induction false} StaysOnRecord(ss: seq<State>, acts: seq<Action>, j: nat, k: nat)
    requires Run(ss, acts) && j < k < |ss| && acts[j].AskIssue?
    ensures acts[j].t.id in ss[k].issued && ss[k].issued[acts[j].t.id] == acts[j].t
    decreases k
  {
    assert StepAt(ss, acts, k - 1);
    StepOnRecord(ss[k - 1], acts[k - 1]);
    if j < k - 1 {
      StaysOnRecord(ss, acts, j, k - 1);
    }
  }

  lemma IssuedFor(ss: seq<State>, acts: seq<Action>, j: nat, k: nat)
    requires Run(ss, acts) && j < k < |ss| && acts[j].AskIssue? && acts[j].t.id in ss[k].tokens
    ensures ss[k].tokens[acts[j].t.id].userId == acts[j].t.userId
  {
    RunKeeps(ss, acts, k);
    StaysOnRecord(ss, acts, j, k);
    assert AsIssued(ss[k].issued, ss[k].tokens[acts[j].t.id]);
  }

  /** Requests that overlap: both clear, then both store. */
  lemma OverlappingRequestsLeaveTwo(a: ResetToken, b: ResetToken) returns (ss: seq<State>, acts: seq<Action>)
    requires a.id != b.id && a.hash != b.hash && a.userId == b.userId && a.consumedAt.None? && b.consumedAt.None?
    ensures Run(ss, acts) && Live(Last(ss).tokens, a.id) && Live(Last(ss).tokens, b.id)
    ensures Last(ss).asks == map[] && !OneLivePerUser(Last(ss).tokens)
  {
    ss, acts := OneMore([State(0, map[], map[], map[], map[], map[], {}, [])], [], AskClear(1, a.userId, a.createdAt));
    ss, acts := OneMore(ss, acts, AskClear(2, b.userId, b.createdAt));
    ss, acts := OneMore(ss, acts, AskIssue(1, a));
    ss, acts := OneMore(ss, acts, AskIssue(2, b));
    assert Last(ss).tokens == map[a.id := a, b.id := b];
    assert Last(ss).tokens[a.id] == a && Last(ss).tokens[b.id] == b;
  }

  /** At most one request is between its clear and its issue, and its user has no usable link. */
  ghost predicate OneAsking(s: State) {
    && (forall p, q | p in s.asks && q in s.asks :: p == q)
    && (forall q, id | q in s.asks && Live(s.tokens, id) :: s.tokens[id].userId != s.asks[q].user)
  }

  lemma IssuingEndsTheAsking(s: State, a: Action)
    requires Enabled(s, a) && OneAsking(s) && (a.AskIssue? || a.AskStop?)
    ensures Next(s, a).asks == map[]
  {
  }

  lemma OneAskingStays(s: State, a: Action)
    requires Enabled(s, a) && OneAsking(s) && (a.AskClear? ==> s.asks == map[])
    ensures OneAsking(Next(s, a))
  {
    if a.AskIssue? || a.AskStop? {
      IssuingEndsTheAsking(s, a);
    } else {
      NothingComesAlive(s, a);
    }
  }

  lemma NothingComesAlive(s: State, a: Action)
    requires Enabled(s, a) && !a.AskIssue?
    ensures forall id | Live(Next(s, a).tokens, id) :: Live(s.tokens, id) && s.tokens[id] == Next(s, a).tokens[id]
    ensures a.AskClear? ==> forall id | Live(Next(s, a).tokens, id) :: s.tokens[id].userId != a.user
  {
  }

  /** Requests held one at a time never leave two links, whatever else is interleaved with them. */
  lemma {:induction false} OneAtATimeLeavesOne(ss: seq<State>, acts: seq<Action>, n: nat)
    requires Run(ss, acts) && n < |ss|
    requires forall k | 0 <= k < n && acts[k].AskClear? :: ss[k].asks == map[]
    ensures OneLivePerUser(ss[n].tokens) && OneAsking(ss[n])
  {
    if n > 0 {
      OneAtATimeLeavesOne(ss, acts, n - 1);
      RunKeeps(ss, acts, n - 1);
      assert StepAt(ss, acts, n - 1);
      var s, a := ss[n - 1], acts[n - 1];
      OneAskingStays(s, a);
      if a.AskIssue? {
        IssueLeavesOne(s, a.q, a.t);
      } else {
        OtherStepsLeaveOne(s, a);
      }
    }
  }

  // ---- the handlers are stretches of such runs ----

  lemma WinRuns(s: State, p: Id, t: ResetToken, now: Time) returns (ss: seq<State>, acts: seq<Action>)
    requires p !in s.uses && Consumable(s.tokens, t.id, now) && s.tokens[t.id] == t
    ensures Stretch(ss, acts) && ss[0] == s
    ensures Last(ss) == s.(step := Last(ss).step, tokens := Consumed(s.tokens, t.id, now), won := s.won + {t.id},
                           uses := s.uses[p := Winner(t, now)])
  {
    ss, acts := OneMore([s], [], FirstLookup(p, t.id, now));
    ss, acts := OneMore(ss, acts, SecondLookup(p, t.id, now, now));
    assert Last(ss).uses == s.uses[p := Ready(t, now)];
    ss, acts := OneMore(ss, acts, Consume(p, true));
    assert Last(ss).uses == s.uses[p := Winner(t, now)];
  }

  /** The reset handler, run on its own with a usable link and an acceptable password: two lookups, the compare-and-set, the
      new password, and on success the clearing of the user's other links. */
  lemma ResetIsARun(s: State, p: Id, hash: string, now: Time, settable: bool) returns (ss: seq<State>, acts: seq<Action>)
    requires Distinct(s.tokens) && p !in s.uses && Usable(s.tokens, hash, now).Some?
    ensures Stretch(ss, acts) && ss[0] == s
    ensures var t := Usable(s.tokens, hash, now).value;
            var spent := Consumed(s.tokens, t.id, now);
            Last(ss) == s.(step := Last(ss).step, tokens := if settable then Invalidated(spent, t.userId, now) else spent,
                           won := s.won + {t.id},
                           changes := if settable then s.changes + [Change(t.id, t.userId, now)] else s.changes)
  {
    var t := Usable(s.tokens, hash, now).value;
    ss, acts := WinRuns(s, p, t, now);
    ss, acts := OneMore(ss, acts, SetPassword(p, settable));
    assert Last(ss).uses == s.uses;
    if settable {
      ss, acts := OneMore(ss, acts, Action.Clear(t.userId, now));
    }
  }

  /** A request for a link past its throttle, run on its own: clear, then store, unless a call on the way fails. */
  lemma AskingIsARun(s: State, q: Id, t: ResetToken, outage: Outage) returns (ss: seq<State>, acts: seq<Action>)
    requires q !in s.asks && t.id !in s.issued && t.consumedAt.None?
    ensures Stretch(ss, acts) && ss[0] == s
    ensures Last(ss).tokens == AfterAsking(s.tokens, t, outage) && Last(ss).asks == s.asks
    ensures Last(ss).uses == s.uses && Last(ss).won == s.won && Last(ss).changes == s.changes
  {
    ss, acts := [s], [];
    if !outage.TokenFails? && !outage.InvalidateFails? {
      ss, acts := OneMore(ss, acts, AskClear(q, t.userId, t.createdAt));
      assert Last(ss).asks - {q} == s.asks;
      if outage.CreateFails? || exists id :: id in Last(ss).tokens && Last(ss).tokens[id].hash == t.hash {
        ss, acts := OneMore(ss, acts, AskStop(q));
      } else {
        ss, acts := OneMore(ss, acts, AskIssue(q, t));
      }
    }
  }
}
