/** Sign-ins that overlap: the tracker is asked before the slow check of the credentials and told of a failure after it. */
module LoginRaces {
  import opened Domain
  import opened LoginTracker
  import LoginDiscipline

  /** The tracker's rows and, for each sign-in past the lock check, the key it is for. */
  datatype State = State(rows: Table, busy: map<Id, string>)

  /** A sign-in asks whether its key is locked and stops there if it is; otherwise its credentials are looked at, and it ends
      with a failure recorded, with a success, or with neither. */
  datatype Event =
    | Ask(p: Id, key: string, at: Time)
    | Fail(p: Id, at: Time)
    | Succeed(p: Id, at: Time)
    | Leave(p: Id, at: Time)

  predicate Enabled(s: State, e: Event) {
    e.Ask? <==> e.p !in s.busy
  }

  function Next(s: State, lim: Limits, e: Event): State
    requires Enabled(s, e)
  {
    match e
    case Ask(p, key, at) =>
      State(RowsAfter(s.rows, lim, IsLockedOut(key, at)), if Locked(s.rows, lim, key, at) then s.busy else s.busy[p := key])
    case Fail(p, at) => State(RowsAfter(s.rows, lim, RecordFailure(s.busy[p], at)), s.busy - {p})
    case Succeed(p, at) => State(RowsAfter(s.rows, lim, Reset(s.busy[p], at)), s.busy - {p})
    case Leave(p, _) => State(s.rows, s.busy - {p})
  }

  /** How a sign-in past the lock check ends. */
  function End(p: Id, l: LoginDiscipline.Try): Event {
    match l.verdict
    case Right => Succeed(p, l.at)
    case Wrong => Fail(p, l.at)
    case Unavailable => Leave(p, l.at)
  }

  /** A sign-in that overlaps with none is two such events, or one if its key is locked, with the same effect on the rows. */
  lemma SignInAlone(s: State, lim: Limits, p: Id, l: LoginDiscipline.Try)
    requires p !in s.busy && !LoginDiscipline.Outage(l)
    ensures Enabled(s, Ask(p, l.key, l.at))
    ensures var s1, after := Next(s, lim, Ask(p, l.key, l.at)), State(LoginDiscipline.AfterTry(s.rows, lim, l), s.busy);
            if !LoginDiscipline.Validated(s.rows, lim, l) then s1 == after
            else Enabled(s1, End(p, l)) && Next(s1, lim, End(p, l)) == after
  {
    assert s.busy[p := l.key] - {p} == s.busy;
  }

  predicate StepAt(ss: seq<State>, lim: Limits, es: seq<Event>, i: nat)
    requires i < |es| && |ss| == |es| + 1
  {
    Enabled(ss[i], es[i]) && ss[i + 1] == Next(ss[i], lim, es[i])
  }

  /** Time never goes back, and no two failures are recorded at the same tick. */
  predicate InOrder(e: Event, f: Event) {
    e.at <= f.at && (e.Fail? && f.Fail? ==> e.at < f.at)
  }

  ghost predicate Run(ss: seq<State>, lim: Limits, es: seq<Event>) {
    && |ss| == |es| + 1 && ss[0] == State(map[], map[])
    && (forall i {:trigger StepAt(ss, lim, es, i)} | 0 <= i < |es| :: StepAt(ss, lim, es, i))
    && (forall i, j | 0 <= i < j < |es| :: InOrder(es[i], es[j]))
  }

  /** The sign-ins on the key whose credentials are being looked at. */
  function Busy(s: State, key: string): set<Id> {
    set p | p in s.busy && s.busy[p] == key
  }

  /** The event records a failure for the key. */
  predicate Fails(s: State, e: Event, key: string) {
    e.Fail? && e.p in s.busy && s.busy[e.p] == key
  }

  /** The failures recorded for the key among the first `n` events, from `from` to before `to`. */
  function Failures(ss: seq<State>, es: seq<Event>, n: nat, key: string, from: Time, to: Time): nat
    requires n <= |es| && |ss| == |es| + 1
  {
    if n == 0 then 0
    else
      Failures(ss, es, n - 1, key, from, to)
      + (if Fails(ss[n - 1], es[n - 1], key) && from <= es[n - 1].at < to then 1 else 0)
  }

  // ---- one event ----

  /** What a row can look like when the last failure for its key was recorded before `next`. */
  predicate RowMakesSense(r: Row, lim: Limits, next: Time) {
    && r.failures >= 1 && r.firstAt < next
    && (r.lockedAt.None? ==> r.failures < LoginDiscipline.Threshold(lim))
    && (r.lockedAt.Some? ==> r.firstAt < r.lockedAt.value < next)
  }

  /** How far the row of a key can have got when `c` failures have been recorded since `from`, `k` sign-ins are busy and no
      more than `m` ever are. */
  predicate Fits(t: Table, lim: Limits, key: string, from: Time, c: int, k: int, m: int) {
    var n := LoginDiscipline.Threshold(lim);
    if key !in t then c <= n + m - 3
    else if t[key].lockedAt.None? then c <= if t[key].firstAt < from then t[key].failures - 1 else n + m - 3 + t[key].failures
    else if t[key].lockedAt.value < from then c + k <= m - 1
    else c + k <= if t[key].firstAt < from then n + m - 2 else 2 * (n + m - 2)
  }

  predicate Standing(t: Table, lim: Limits, key: string, from: Time, c: int, k: int, m: int, next: Time) {
    && (key in t ==> RowMakesSense(t[key], lim, next))
    && (next <= from ==> c == 0)
    && Fits(t, lim, key, from, c, k, m)
  }

  lemma AskingStands(t: Table, lim: Limits, key: string, from: Time, c: int, k: int, m: int, next: Time, at: Time)
    requires Standing(t, lim, key, from, c, k, m, next) && lim.lockout >= lim.resetAfter
    requires m >= 1 && k >= 0 && at < from + lim.resetAfter
    ensures var t' := RowsAfter(t, lim, IsLockedOut(key, at));
            Standing(t', lim, key, from, c, if Locked(t, lim, key, at) then k else k + 1, m, next)
  {
  }

  lemma FailingStands(t: Table, lim: Limits, key: string, from: Time, c: int, k: int, m: int, next: Time, at: Time)
    requires Standing(t, lim, key, from, c, k, m, next) && lim.lockout >= lim.resetAfter
    requires 1 <= k <= m && next <= at < from + lim.resetAfter
    ensures var t' := RowsAfter(t, lim, RecordFailure(key, at));
            Standing(t', lim, key, from, c + if from <= at then 1 else 0, k - 1, m, at + 1)
  {
  }

  lemma ForgettingStands(t: Table, lim: Limits, key: string, from: Time, c: int, k: int, m: int, next: Time, at: Time)
    requires Standing(t, lim, key, from, c, k, m, next) && c == 0 && k >= 1 && m >= 1
    ensures Standing(RowsAfter(t, lim, Reset(key, at)), lim, key, from, c, k - 1, m, next)
  {
  }

  // ---- runs ----

  lemma JoiningCounts(busy: map<Id, string>, p: Id, k: string, rows: Table, rows': Table, key: string)
    requires p !in busy
    ensures |Busy(State(rows', busy[p := k]), key)| == |Busy(State(rows, busy), key)| + if k == key then 1 else 0
  {
    var l, r := Busy(State(rows', busy[p := k]), key), Busy(State(rows, busy), key);
    assert l == if k == key then r + {p} else r;
  }

  lemma AskingCounts(s: State, lim: Limits, p: Id, k: string, at: Time, key: string)
    requires Enabled(s, Ask(p, k, at))
    ensures |Busy(Next(s, lim, Ask(p, k, at)), key)| == |Busy(s, key)| + if k == key && !Locked(s.rows, lim, key, at) then 1 else 0
  {
    var rows' := Next(s, lim, Ask(p, k, at)).rows;
    if Locked(s.rows, lim, k, at) {
      assert Busy(State(rows', s.busy), key) == Busy(s, key);
    } else {
      JoiningCounts(s.busy, p, k, s.rows, rows', key);
    }
  }

  lemma LeavingCounts(busy: map<Id, string>, p: Id, rows: Table, rows': Table, key: string)
    requires p in busy
    ensures |Busy(State(rows', busy - {p}), key)| == |Busy(State(rows, busy), key)| - if busy[p] == key then 1 else 0
  {
    var l, r := Busy(State(rows', busy - {p}), key), Busy(State(rows, busy), key);
    assert l == if busy[p] == key then r - {p} else r;
  }

  /** The moment from which the next failure for the key can be recorded. */
  function Clear(ss: seq<State>, es: seq<Event>, n: nat, key: string): Time
    requires n <= |es| && |ss| == |es| + 1
  {
    if n == 0 then (if es == [] then 0 else es[0].at)
    else if Fails(ss[n - 1], es[n - 1], key) then es[n - 1].at + 1
    else Clear(ss, es, n - 1, key)
  }

  lemma {:induction false} ClearIsPast(ss: seq<State>, lim: Limits, es: seq<Event>, n: nat, i: nat, key: string)
    requires Run(ss, lim, es) && n <= i < |es| && es[i].Fail?
    ensures Clear(ss, es, n, key) <= es[i].at
    decreases n
  {
    if n > 0 {
      assert InOrder(es[n - 1], es[i]);
      ClearIsPast(ss, lim, es, n - 1, i, key);
    } else if i > 0 {
      assert InOrder(es[0], es[i]);
    }
  }

  /** Never more than `m` sign-ins on the key at a time are between the lock check and their end. */
  ghost predicate AtMost(ss: seq<State>, key: string, m: nat) {
    forall i {:trigger ss[i]} | 0 <= i < |ss| :: |Busy(ss[i], key)| <= m
  }

  /** No sign-in on the key succeeds from `from` to before `to`. */
  ghost predicate NoSuccess(ss: seq<State>, es: seq<Event>, key: string, from: Time, to: Time) {
    |ss| == |es| + 1
    && forall i {:trigger es[i]} | 0 <= i < |es| && es[i].Succeed? && es[i].p in ss[i].busy && ss[i].busy[es[i].p] == key ::
         !(from <= es[i].at < to)
  }

  ghost predicate StandsAfter(ss: seq<State>, lim: Limits, es: seq<Event>, n: nat, key: string, from: Time, m: nat)
    requires n <= |es| && |ss| == |es| + 1
  {
    Standing(ss[n].rows, lim, key, from, Failures(ss, es, n, key, from, from + lim.resetAfter), |Busy(ss[n], key)|, m,
             Clear(ss, es, n, key))
  }

  lemma OtherKeysStand(s: State, lim: Limits, e: Event, key: string)
    requires Enabled(s, e) && key != if e.Ask? then e.key else s.busy[e.p]
    ensures var t, t' := s.rows, Next(s, lim, e).rows; (key in t <==> key in t') && (key in t ==> t'[key] == t[key])
  {
  }

  lemma NothingYet(ss: seq<State>, lim: Limits, es: seq<Event>, n: nat, key: string, from: Time, to: Time)
    requires Run(ss, lim, es) && n < |es| && es[n].at < from
    ensures Failures(ss, es, n, key, from, to) == 0
  {
    if n > 0 {
      assert InOrder(es[n - 1], es[n]);
      NothingYet(ss, lim, es, n - 1, key, from, to);
    }
  }

  /** An event of a sign-in on another key. */
  lemma OtherEventStands(ss: seq<State>, lim: Limits, es: seq<Event>, i: nat, key: string, from: Time, m: nat)
    requires Run(ss, lim, es) && i < |es| && StandsAfter(ss, lim, es, i, key, from, m) && Enabled(ss[i], es[i])
    requires key != if es[i].Ask? then es[i].key else ss[i].busy[es[i].p]
    ensures StandsAfter(ss, lim, es, i + 1, key, from, m)
  {
    var s, e := ss[i], es[i];
    assert StepAt(ss, lim, es, i);
    OtherKeysStand(s, lim, e, key);
    if e.Ask? {
      AskingCounts(s, lim, e.p, e.key, e.at, key);
    } else {
      LeavingCounts(s.busy, e.p, s.rows, ss[i + 1].rows, key);
    }
  }

  lemma FailureStands(ss: seq<State>, lim: Limits, es: seq<Event>, i: nat, key: string, from: Time, m: nat)
    requires Run(ss, lim, es) && i < |es| && lim.lockout >= lim.resetAfter && m >= 1 && |Busy(ss[i], key)| <= m
    requires es[i].at < from + lim.resetAfter && Fails(ss[i], es[i], key) && StandsAfter(ss, lim, es, i, key, from, m)
    ensures StandsAfter(ss, lim, es, i + 1, key, from, m)
  {
    var s, e := ss[i], es[i];
    var c, k, next := Failures(ss, es, i, key, from, from + lim.resetAfter), |Busy(s, key)|, Clear(ss, es, i, key);
    assert StepAt(ss, lim, es, i);
    assert e.p in Busy(s, key);
    LeavingCounts(s.busy, e.p, s.rows, ss[i + 1].rows, key);
    ClearIsPast(ss, lim, es, i, i, key);
    FailingStands(s.rows, lim, key, from, c, k, m, next, e.at);
  }

  lemma EventStands(ss: seq<State>, lim: Limits, es: seq<Event>, i: nat, key: string, from: Time, m: nat)
    requires Run(ss, lim, es) && i < |es| && lim.lockout >= lim.resetAfter && m >= 1 && AtMost(ss, key, m)
    requires es[i].at < from + lim.resetAfter && NoSuccess(ss, es, key, from, from + lim.resetAfter)
    requires StandsAfter(ss, lim, es, i, key, from, m)
    ensures StandsAfter(ss, lim, es, i + 1, key, from, m)
  {
    var s, e := ss[i], es[i];
    var c, k, next := Failures(ss, es, i, key, from, from + lim.resetAfter), |Busy(s, key)|, Clear(ss, es, i, key);
    assert StepAt(ss, lim, es, i);
    if (if e.Ask? then e.key else s.busy[e.p]) != key {
      OtherEventStands(ss, lim, es, i, key, from, m);
    } else if e.Fail? {
      FailureStands(ss, lim, es, i, key, from, m);
    } else if e.Ask? {
      AskingCounts(s, lim, e.p, key, e.at, key);
      AskingStands(s.rows, lim, key, from, c, k, m, next, e.at);
    } else {
      assert e.p in Busy(s, key);
      LeavingCounts(s.busy, e.p, s.rows, ss[i + 1].rows, key);
      if e.Succeed? {
        NothingYet(ss, lim, es, i, key, from, from + lim.resetAfter);
        ForgettingStands(s.rows, lim, key, from, c, k, m, next, e.at);
      }
    }
  }

  lemma {:induction false} RunStands(ss: seq<State>, lim: Limits, es: seq<Event>, n: nat, key: string, from: Time, m: nat)
    requires Run(ss, lim, es) && n <= |es| && lim.lockout >= lim.resetAfter && m >= 1 && AtMost(ss, key, m)
    requires NoSuccess(ss, es, key, from, from + lim.resetAfter)
    requires n > 0 ==> es[n - 1].at < from + lim.resetAfter
    ensures StandsAfter(ss, lim, es, n, key, from, m)
    decreases n
  {
    if n > 0 {
      assert n > 1 ==> InOrder(es[n - 2], es[n - 1]);
      RunStands(ss, lim, es, n - 1, key, from, m);
      EventStands(ss, lim, es, n - 1, key, from, m);
    }
  }

  /** With a lock at least as long as the window, as by default, and never more than `m` sign-ins on a key at a time past the
      lock check, any stretch of one window's length without a success holds at most 2 * (n + m - 2) recorded failures for the
      key, n being the failure that locks. One at a time that is the bound 2 * (n - 1) on sign-ins that do not overlap. */
  lemma {:induction false} OverlappingGuessesAreBounded(ss: seq<State>, lim: Limits, es: seq<Event>, n: nat, key: string, from: Time, m: nat)
    requires Run(ss, lim, es) && n <= |es| && lim.lockout >= lim.resetAfter && m >= 1 && AtMost(ss, key, m)
    requires NoSuccess(ss, es, key, from, from + lim.resetAfter)
    ensures Failures(ss, es, n, key, from, from + lim.resetAfter) <= 2 * (LoginDiscipline.Threshold(lim) + m - 2)
    decreases n
  {
    if n > 0 {
      if es[n - 1].at < from + lim.resetAfter {
        RunStands(ss, lim, es, n, key, from, m);
      } else {
        OverlappingGuessesAreBounded(ss, lim, es, n - 1, key, from, m);
      }
    }
  }

  // ---- the bound is reached ----

  /** A run without success that ends in `s` and counts `c` failures; the next event may come at `clock`. */
  ghost predicate Built(ss: seq<State>, lim: Limits, es: seq<Event>, s: State, key: string, from: Time, to: Time, c: nat, m: nat, clock: Time) {
    && Run(ss, lim, es) && ss[|es|] == s && Failures(ss, es, |es|, key, from, to) == c && AtMost(ss, key, m)
    && forall i | 0 <= i < |es| :: !es[i].Succeed? && es[i].at <= clock && (es[i].Fail? ==> es[i].at < clock)
  }

  lemma {:induction false} FailuresSoFar(ss: seq<State>, es: seq<Event>, ss': seq<State>, es': seq<Event>, n: nat, key: string, from: Time, to: Time)
    requires |ss| == |es| + 1 && |ss'| == |es'| + 1 && ss <= ss' && es <= es' && n <= |es|
    ensures Failures(ss', es', n, key, from, to) == Failures(ss, es, n, key, from, to)
    decreases n
  {
    if n > 0 {
      FailuresSoFar(ss, es, ss', es', n - 1, key, from, to);
    }
  }

  lemma OneMore(ss: seq<State>, lim: Limits, es: seq<Event>, s: State, key: string, from: Time, to: Time, c: nat, m: nat, clock: Time, e: Event)
    returns (ss': seq<State>, es': seq<Event>)
    requires Built(ss, lim, es, s, key, from, to, c, m, clock)
    requires Enabled(s, e) && clock <= e.at && !e.Succeed? && |Busy(Next(s, lim, e), key)| <= m
    ensures Built(ss', lim, es', Next(s, lim, e), key, from, to, c + if Fails(s, e, key) && from <= e.at < to then 1 else 0, m,
                  if e.Fail? then e.at + 1 else e.at)
    ensures ss' == ss + [Next(s, lim, e)] && es' == es + [e]
  {
    ss', es' := ss + [Next(s, lim, e)], es + [e];
    FailuresSoFar(ss, es, ss', es', |es|, key, from, to);
    forall i | 0 <= i < |es'| ensures StepAt(ss', lim, es', i) {
      assert i < |es| ==> StepAt(ss, lim, es, i);
    }
  }

  /** Sign-ins 1 to `j` are busy with the key. */
  function Crowd(key: string, j: nat): (busy: map<Id, string>)
    ensures forall p | p in busy :: 1 <= p <= j && busy[p] == key
    ensures forall p | 1 <= p <= j :: p in busy
  {
    if j == 0 then map[] else Crowd(key, j - 1)[j := key]
  }

  lemma {:induction false} CrowdCounts(rows: Table, key: string, j: nat)
    ensures |Busy(State(rows, Crowd(key, j)), key)| == j
  {
    if j == 0 {
      assert Busy(State(rows, Crowd(key, j)), key) == {};
    } else {
      CrowdCounts(rows, key, j - 1);
      assert Busy(State(rows, Crowd(key, j)), key) == Busy(State(rows, Crowd(key, j - 1)), key) + {j};
    }
  }

  /** `j` sign-ins get past the lock check at one tick. */
  lemma {:induction false} Gather(ss: seq<State>, lim: Limits, es: seq<Event>, rows: Table, key: string, from: Time, to: Time, c: nat, m: nat,
                                  clock: Time, at: Time, j: nat)
    returns (ss': seq<State>, es': seq<Event>)
    requires Built(ss, lim, es, State(rows, map[]), key, from, to, c, m, clock) && clock <= at && j <= m
    requires key in rows ==> rows[key].lockedAt.None? && at - rows[key].firstAt <= lim.resetAfter
    ensures Built(ss', lim, es', State(rows, Crowd(key, j)), key, from, to, c, m, at)
  {
    if j == 0 {
      ss', es' := ss, es;
      assert Crowd(key, 0) == map[];
    } else {
      ss', es' := Gather(ss, lim, es, rows, key, from, to, c, m, clock, at, j - 1);
      CrowdCounts(rows, key, j);
      assert Crowd(key, j - 1)[j := key] == Crowd(key, j);
      ss', es' := OneMore(ss', lim, es', State(rows, Crowd(key, j - 1)), key, from, to, c, m, at, Ask(j, key, at));
    }
  }

  /** One of them fails. */
  lemma OneFails(ss: seq<State>, lim: Limits, es: seq<Event>, rows: Table, key: string, from: Time, to: Time, c: nat, m: nat, clock: Time,
                 at: Time, j: nat)
    returns (ss': seq<State>, es': seq<Event>)
    requires Built(ss, lim, es, State(rows, Crowd(key, j)), key, from, to, c, m, clock) && clock <= at && 1 <= j <= m
    ensures Built(ss', lim, es', State(RowsAfter(rows, lim, RecordFailure(key, at)), Crowd(key, j - 1)), key, from, to,
                  c + if from <= at < to then 1 else 0, m, at + 1)
  {
    CrowdCounts(RowsAfter(rows, lim, RecordFailure(key, at)), key, j - 1);
    assert Crowd(key, j) - {j} == Crowd(key, j - 1);
    ss', es' := OneMore(ss, lim, es, State(rows, Crowd(key, j)), key, from, to, c, m, clock, Fail(j, at));
  }

  /** Behind the lock `j` of them fail, one a tick. */
  lemma {:induction false} Burst(ss: seq<State>, lim: Limits, es: seq<Event>, r: Row, key: string, from: Time, to: Time, c: nat, m: nat,
                                 clock: Time, k: nat, j: nat)
    returns (ss': seq<State>, es': seq<Event>)
    requires Built(ss, lim, es, State(map[key := r], Crowd(key, k)), key, from, to, c, m, clock) && j <= k <= m
    requires r.lockedAt.Some? && clock + j - 1 - r.firstAt <= lim.resetAfter && from <= clock && clock + j <= to
    ensures Built(ss', lim, es', State(map[key := r.(failures := r.failures + j)], Crowd(key, k - j)), key, from, to, c + j, m, clock + j)
    decreases j
  {
    if j == 0 {
      ss', es' := ss, es;
      assert r.(failures := r.failures + j) == r;
    } else {
      ss', es' := Burst(ss, lim, es, r, key, from, to, c, m, clock, k, j - 1);
      var q := r.(failures := r.failures + j - 1);
      assert RowsAfter(map[key := q], lim, RecordFailure(key, clock + j - 1)) == map[key := r.(failures := r.failures + j)];
      ss', es' := OneFails(ss', lim, es', map[key := q], key, from, to, c + j - 1, m, clock + j - 1, clock + j - 1, k - j + 1);
    }
  }

  /** `j` sign-ins one after the other, one a tick, that fail without setting a lock. */
  lemma {:induction false} InTurn(ss: seq<State>, lim: Limits, es: seq<Event>, r: Row, key: string, from: Time, to: Time, c: nat, m: nat,
                                  clock: Time, start: Time, j: nat)
    returns (ss': seq<State>, es': seq<Event>)
    requires Built(ss, lim, es, State(map[key := r], map[]), key, from, to, c, m, clock) && clock <= start && m >= 1
    requires r.lockedAt.None? && r.failures >= 1 && r.failures + j < LoginDiscipline.Threshold(lim)
    requires start + j - 1 - r.firstAt <= lim.resetAfter && from <= start && start + j <= to
    ensures Built(ss', lim, es', State(map[key := r.(failures := r.failures + j)], map[]), key, from, to, c + j, m, start + j)
    decreases j
  {
    if j == 0 {
      ss', es' := ss, es;
      assert r.(failures := r.failures + j) == r;
    } else {
      ss', es' := InTurn(ss, lim, es, r, key, from, to, c, m, clock, start, j - 1);
      var q, at := r.(failures := r.failures + j - 1), start + j - 1;
      ss', es' := Gather(ss', lim, es', map[key := q], key, from, to, c + j - 1, m, at, at, 1);
      assert RowsAfter(map[key := q], lim, RecordFailure(key, at)) == map[key := r.(failures := r.failures + j)];
      assert Crowd(key, 0) == map[];
      ss', es' := OneFails(ss', lim, es', map[key := q], key, from, to, c + j - 1, m, at, at, 1);
    }
  }

  /** From one failure on the row to the lock, with `m` sign-ins past the check when it is set. */
  lemma UpToTheLock(ss: seq<State>, lim: Limits, es: seq<Event>, first: Time, key: string, from: Time, to: Time, c: nat, m: nat,
                    clock: Time, start: Time)
    returns (ss': seq<State>, es': seq<Event>)
    requires Built(ss, lim, es, State(map[key := Row(1, first, None)], map[]), key, from, to, c, m, clock) && clock <= start && m >= 1
    requires var n := LoginDiscipline.Threshold(lim); start + n - 2 - first <= lim.resetAfter && from <= start && start + n - 1 <= to
    ensures var n := LoginDiscipline.Threshold(lim);
            Built(ss', lim, es', State(map[key := Row(n, first, Some(start + n - 2))], Crowd(key, m - 1)), key, from, to, c + n - 1, m,
                  start + n - 1)
  {
    var n, r := LoginDiscipline.Threshold(lim), Row(1, first, None);
    ss', es' := InTurn(ss, lim, es, r, key, from, to, c, m, clock, start, n - 2);
    var q, at := Row(n - 1, first, None), start + n - 2;
    ss', es' := Gather(ss', lim, es', map[key := q], key, from, to, c + n - 2, m, at, at, m);
    assert RowsAfter(map[key := q], lim, RecordFailure(key, at)) == map[key := Row(n, first, Some(at))];
    ss', es' := OneFails(ss', lim, es', map[key := q], key, from, to, c + n - 2, m, at, at, m);
  }

  lemma NothingBuilt(lim: Limits, key: string, from: Time, to: Time, m: nat)
    ensures Built([State(map[], map[])], lim, [], State(map[], map[]), key, from, to, 0, m, 0)
  {
    assert Busy(State(map[], map[]), key) == {};
  }

  /** One failure before the stretch, then in it a lock with `m` sign-ins past the check, all but one of which fail at once. */
  lemma FirstRound(lim: Limits, key: string, m: nat, from: Time, to: Time) returns (ss: seq<State>, es: seq<Event>)
    requires m >= 2 && 0 < from && to == from + lim.resetAfter && from + LoginDiscipline.Threshold(lim) + m - 4 == lim.resetAfter
    ensures var n := LoginDiscipline.Threshold(lim);
            Built(ss, lim, es, State(map[key := Row(n + m - 2, 0, Some(from + n - 2))], Crowd(key, 1)), key, from, to, n + m - 3, m,
                  lim.resetAfter + 1)
  {
    var n := LoginDiscipline.Threshold(lim);
    NothingBuilt(lim, key, from, to, m);
    ss, es := Gather([State(map[], map[])], lim, [], map[], key, from, to, 0, m, 0, 0, 1);
    ss, es := OneFails(ss, lim, es, map[], key, from, to, 0, m, 0, 0, 1);
    assert Crowd(key, 0) == map[];
    ss, es := UpToTheLock(ss, lim, es, 0, key, from, to, 0, m, 1, from);
    ss, es := Burst(ss, lim, es, Row(n, 0, Some(from + n - 2)), key, from, to, n - 1, m, from + n - 1, m - 1, m - 2);
  }

  /** For every window of at least that many ticks and every `m` the bound is reached: the last sign-in past the check in one
      window is told of its failure in the next, which opens it and clears the lock. */
  lemma OverlappingGuessesFit(lim: Limits, key: string, m: nat) returns (ss: seq<State>, es: seq<Event>, from: Time)
    requires m >= 2 && lim.resetAfter >= 2 * (LoginDiscipline.Threshold(lim) + m - 2)
    ensures Run(ss, lim, es) && AtMost(ss, key, m) && NoSuccess(ss, es, key, from, from + lim.resetAfter)
    ensures Failures(ss, es, |es|, key, from, from + lim.resetAfter) == 2 * (LoginDiscipline.Threshold(lim) + m - 2)
  {
    var n, r := LoginDiscipline.Threshold(lim), lim.resetAfter;
    from := r - n - m + 4;
    var to := from + r;
    ss, es := FirstRound(lim, key, m, from, to);
    var locked := Row(n + m - 2, 0, Some(from + n - 2));
    assert RowsAfter(map[key := locked], lim, RecordFailure(key, r + 1)) == map[key := Row(1, r + 1, None)];
    ss, es := OneFails(ss, lim, es, map[key := locked], key, from, to, n + m - 3, m, r + 1, r + 1, 1);
    assert Crowd(key, 0) == map[];
    ss, es := UpToTheLock(ss, lim, es, r + 1, key, from, to, n + m - 2, m, r + 2, r + 2);
    ss, es := Burst(ss, lim, es, Row(n, r + 1, Some(r + n)), key, from, to, 2 * n + m - 3, m, r + n + 1, m - 1, m - 1);
  }

  /** A recorded failure leaves the key locked exactly if it was locked and the window of the row is not over: one that comes
      in later clears a lock that has not run out. */
  lemma WhatAFailureLeavesLocked(t: Table, lim: Limits, key: string, at: Time)
    requires key in t && t[key].lockedAt.Some?
    ensures Locked(RowsAfter(t, lim, RecordFailure(key, at)), lim, key, at) <==> Locked(t, lim, key, at) && !WindowOver(t, lim, key, at)
  {
  }

  /** A run in which that happens: the last event clears a lock that is not yet over. */
  lemma LateFailureClearsTheLock(lim: Limits, key: string) returns (ss: seq<State>, es: seq<Event>)
    requires lim.lockout >= 2 && lim.resetAfter >= LoginDiscipline.Threshold(lim) - 1
    ensures Run(ss, lim, es) && AtMost(ss, key, 2) && es != []
    ensures var i := |es| - 1;
            && es[i].Fail? && Locked(ss[i].rows, lim, key, es[i].at) && !Locked(ss[i + 1].rows, lim, key, es[i].at)
  {
    var n, r := LoginDiscipline.Threshold(lim), lim.resetAfter;
    var from := r - n + 2;
    ss, es := FirstRound(lim, key, 2, from, from + r);
    var locked := map[key := Row(n, 0, Some(from + n - 2))];
    var late := RowsAfter(locked, lim, RecordFailure(key, r + 1));
    CrowdCounts(late, key, 0);
    assert Crowd(key, 1) - {1} == Crowd(key, 0);
    ss, es := OneMore(ss, lim, es, State(locked, Crowd(key, 1)), key, from, from + r, n - 1, 2, r + 1, Fail(1, r + 1));
    assert ss[|es| - 1] == State(locked, Crowd(key, 1));
  }
}
