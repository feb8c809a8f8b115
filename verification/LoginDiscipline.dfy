/** Check the lock, then validate, then record or reset: what this order guarantees about password guesses. */
module LoginDiscipline {
  import opened Domain
  import opened LoginTracker

  /** What checking the credentials says; a check that fails for another reason is neither a failure nor a success. */
  datatype Verdict = Right | Wrong | Unavailable

  /** One sign-in: `lookup` and `record` say how the tracker's database behaves at the question and at the answer. */
  datatype Try = Try(key: string, at: Time, verdict: Verdict, lookup: Database, record: Database)

  datatype Answer = AccountLocked | ServerError | InvalidCredentials | SignedIn

  /** A guess is looked at unless its key is known to be locked: a tracker that cannot be asked stops nobody. */
  predicate Validated(t: Table, lim: Limits, l: Try) {
    !(l.lookup.readable && Locked(t, lim, l.key, l.at))
  }

  function AfterTry(t: Table, lim: Limits, l: Try): Table {
    var asked := if l.lookup.Works() then RowsAfter(t, lim, IsLockedOut(l.key, l.at)) else t;
    if !Validated(t, lim, l) then asked
    else match l.verdict
      case Right => if l.record.writable then RowsAfter(asked, lim, Reset(l.key, l.at)) else asked
      case Wrong => if l.record.Works() then RowsAfter(asked, lim, RecordFailure(l.key, l.at)) else asked
      case Unavailable => asked
  }

  /** Errors of the tracker are logged and otherwise ignored. */
  method Login(tracker: PersistentTracker, l: Try) returns (answer: Answer)
    modifies tracker
    ensures tracker.rows == AfterTry(old(tracker.rows), tracker.limits, l)
    ensures answer == if !Validated(old(tracker.rows), tracker.limits, l) then AccountLocked
                      else match l.verdict case Right => SignedIn case Wrong => InvalidCredentials case Unavailable => ServerError
    ensures answer.AccountLocked? <==>
              && l.lookup.readable && l.key in old(tracker.rows) && old(tracker.rows)[l.key].lockedAt.Some?
              && l.at - old(tracker.rows)[l.key].lockedAt.value < tracker.limits.lockout
  {
    var locked, _ := tracker.IsLockedOut(l.key, l.at, l.lookup);
    if locked {
      return AccountLocked;
    }
    match l.verdict {
      case Unavailable =>
        return ServerError;
      case Wrong =>
        var _ := tracker.RecordFailure(l.key, l.at, l.record);
        return InvalidCredentials;
      case Right =>
        var _ := tracker.Reset(l.key, l.at, l.record);
        return SignedIn;
    }
  }

  // ---- runs ----

  function After(t: Table, lim: Limits, ls: seq<Try>): Table {
    if ls == [] then t else AfterTry(After(t, lim, ls[..|ls| - 1]), lim, ls[|ls| - 1])
  }

  predicate ClockAdvances(ls: seq<Try>) {
    forall i, j | 0 <= i < j < |ls| :: ls[i].at < ls[j].at
  }

  /** A failed guess on the key, made in the window, whose credentials were looked at. */
  predicate Counts(t: Table, lim: Limits, l: Try, key: string, from: Time, to: Time) {
    l.key == key && from <= l.at < to && l.verdict == Wrong && Validated(t, lim, l)
  }

  predicate Outage(l: Try) {
    !l.lookup.Works() || !l.record.Works()
  }

  /** The validated failures on the key from `from` to before `to`. */
  function Failures(t: Table, lim: Limits, ls: seq<Try>, key: string, from: Time, to: Time): nat {
    if ls == [] then 0
    else
      var before, l := ls[..|ls| - 1], ls[|ls| - 1];
      Failures(t, lim, before, key, from, to) + (if Counts(After(t, lim, before), lim, l, key, from, to) then 1 else 0)
  }

  /** Those of them that met an outage of the tracker. */
  function Outages(t: Table, lim: Limits, ls: seq<Try>, key: string, from: Time, to: Time): nat {
    if ls == [] then 0
    else
      var before, l := ls[..|ls| - 1], ls[|ls| - 1];
      Outages(t, lim, before, key, from, to)
      + (if Outage(l) && Counts(After(t, lim, before), lim, l, key, from, to) then 1 else 0)
  }

  /** The failures that met a working tracker. */
  function Clean(t: Table, lim: Limits, ls: seq<Try>, key: string, from: Time, to: Time): int {
    Failures(t, lim, ls, key, from, to) - Outages(t, lim, ls, key, from, to)
  }

  lemma OneTryMore(t: Table, lim: Limits, ls: seq<Try>, i: nat)
    requires i < |ls|
    ensures After(t, lim, ls[..i + 1]) == AfterTry(After(t, lim, ls[..i]), lim, ls[i])
  {
    assert ls[..i + 1][..i] == ls[..i];
  }

  lemma OneTryCounted(t: Table, lim: Limits, ls: seq<Try>, i: nat, key: string, from: Time, to: Time)
    requires i < |ls|
    ensures var counts := Counts(After(t, lim, ls[..i]), lim, ls[i], key, from, to) && !Outage(ls[i]);
            Clean(t, lim, ls[..i + 1], key, from, to) == Clean(t, lim, ls[..i], key, from, to) + if counts then 1 else 0
  {
    assert ls[..i + 1][..i] == ls[..i];
  }

  // ---- what a row remembers ----

  /** Try `i` is a wrong guess on the key that was looked at and recorded. */
  predicate Recorded(t: Table, lim: Limits, ls: seq<Try>, i: nat, key: string)
    requires i < |ls|
  {
    ls[i].key == key && ls[i].verdict == Wrong && Validated(After(t, lim, ls[..i]), lim, ls[i]) && ls[i].record.Works()
  }

  /** Try `i` is a success on the key that reached the tracker. */
  predicate Cleared(t: Table, lim: Limits, ls: seq<Try>, i: nat, key: string)
    requires i < |ls|
  {
    ls[i].key == key && ls[i].verdict == Right && Validated(After(t, lim, ls[..i]), lim, ls[i]) && ls[i].record.writable
  }

  /** How many failures on the key were recorded from try `s` to before try `n`. */
  function RecordedSince(t: Table, lim: Limits, ls: seq<Try>, s: nat, n: nat, key: string): nat
    requires n <= |ls|
    decreases n
  {
    if n <= s then 0 else RecordedSince(t, lim, ls, s, n - 1, key) + if Recorded(t, lim, ls, n - 1, key) then 1 else 0
  }

  /** A recorded success leaves nothing of the key. */
  lemma SuccessClears(t: Table, lim: Limits, ls: seq<Try>, i: nat, key: string)
    requires i < |ls| && Cleared(t, lim, ls, i, key)
    ensures key !in After(t, lim, ls[..i + 1])
  {
    OneTryMore(t, lim, ls, i);
  }

  /** From try `s`, with which it began, the row of the key counts every recorded failure; all of them lie within one window, and
      no success came between. A lock was set by the one that made the number up, at try `l`. */
  predicate RowBeganAt(lim: Limits, ls: seq<Try>, n: nat, key: string, s: nat, l: nat)
    requires n <= |ls| && key in After(map[], lim, ls[..n])
  {
    var r := After(map[], lim, ls[..n])[key];
    && s < n && Recorded(map[], lim, ls, s, key) && ls[s].at == r.firstAt
    && RecordedSince(map[], lim, ls, s, n, key) == r.failures >= 1
    && (forall i | s <= i < n :: !Cleared(map[], lim, ls, i, key))
    && (forall i | s <= i < n && Recorded(map[], lim, ls, i, key) :: ls[i].at - ls[s].at <= lim.resetAfter)
    && (r.lockedAt.None? ==> r.failures < Threshold(lim))
    && (r.lockedAt.Some? ==>
          && s <= l < n && Recorded(map[], lim, ls, l, key) && r.lockedAt == Some(ls[l].at)
          && RecordedSince(map[], lim, ls, s, l + 1, key) == Threshold(lim))
  }

  /** What one try does to the row of a key, if it leaves one. */
  lemma RowAfterTry(t: Table, lim: Limits, l: Try, key: string)
    requires key in AfterTry(t, lim, l)
    ensures var r := AfterTry(t, lim, l)[key];
            if l.key == key && l.verdict == Wrong && Validated(t, lim, l) && l.record.Works() then
              if key !in t || WindowOver(t, lim, key, l.at) then r == Row(1, l.at, None)
              else
                var locks := t[key].failures + 1 >= lim.maxFailures && t[key].lockedAt.None?;
                r == Row(t[key].failures + 1, t[key].firstAt, if locks then Some(l.at) else t[key].lockedAt)
            else
              && key in t && r == t[key]
              && !(l.key == key && l.verdict == Right && Validated(t, lim, l) && l.record.writable)
  {
  }

  /** Try `n` opens a new window for the key. */
  lemma RowBegins(lim: Limits, ls: seq<Try>, n: nat, key: string)
    requires n < |ls| && 0 <= lim.resetAfter && Recorded(map[], lim, ls, n, key) && key in After(map[], lim, ls[..n + 1])
    requires var t := After(map[], lim, ls[..n]); key !in t || WindowOver(t, lim, key, ls[n].at)
    ensures RowBeganAt(lim, ls, n + 1, key, n, n)
  {
    OneTryMore(map[], lim, ls, n);
    RowAfterTry(After(map[], lim, ls[..n]), lim, ls[n], key);
  }

  /** Try `n` is one more failure in the window of the row. */
  lemma RowCounts(lim: Limits, ls: seq<Try>, n: nat, key: string, s: nat, l: nat)
    requires n < |ls| && Recorded(map[], lim, ls, n, key) && key in After(map[], lim, ls[..n + 1])
    requires key in After(map[], lim, ls[..n]) && !WindowOver(After(map[], lim, ls[..n]), lim, key, ls[n].at)
    requires RowBeganAt(lim, ls, n, key, s, l)
    ensures RowBeganAt(lim, ls, n + 1, key, s, if After(map[], lim, ls[..n])[key].lockedAt.None? then n else l)
  {
    OneTryMore(map[], lim, ls, n);
    RowAfterTry(After(map[], lim, ls[..n]), lim, ls[n], key);
    assert RecordedSince(map[], lim, ls, s, n + 1, key) == RecordedSince(map[], lim, ls, s, n, key) + 1;
  }

  lemma RowStays(lim: Limits, ls: seq<Try>, n: nat, key: string, s: nat, l: nat)
    requires n < |ls| && !Recorded(map[], lim, ls, n, key) && key in After(map[], lim, ls[..n + 1])
    requires key in After(map[], lim, ls[..n]) && RowBeganAt(lim, ls, n, key, s, l)
    ensures RowBeganAt(lim, ls, n + 1, key, s, l)
  {
    OneTryMore(map[], lim, ls, n);
    RowAfterTry(After(map[], lim, ls[..n]), lim, ls[n], key);
  }

  lemma RowGoesOn(lim: Limits, ls: seq<Try>, n: nat, key: string, s: nat, l: nat) returns (s': nat, l': nat)
    requires n < |ls| && 0 <= lim.resetAfter
    requires key in After(map[], lim, ls[..n]) ==> RowBeganAt(lim, ls, n, key, s, l)
    requires key in After(map[], lim, ls[..n + 1])
    ensures RowBeganAt(lim, ls, n + 1, key, s', l')
  {
    var t := After(map[], lim, ls[..n]);
    s', l' := s, l;
    if !Recorded(map[], lim, ls, n, key) {
      OneTryMore(map[], lim, ls, n);
      RowAfterTry(t, lim, ls[n], key);
      RowStays(lim, ls, n, key, s, l);
    } else if key !in t || WindowOver(t, lim, key, ls[n].at) {
      RowBegins(lim, ls, n, key);
      s', l' := n, n;
    } else {
      RowCounts(lim, ls, n, key, s, l);
      if t[key].lockedAt.None? {
        l' := n;
      }
    }
  }

  /** The row of a key tells the truth about the past: how many failures were recorded since when, and which of them locked. */
  lemma {:induction false} RowTellsThePast(lim: Limits, ls: seq<Try>, n: nat, key: string) returns (s: nat, l: nat)
    requires n <= |ls| && 0 <= lim.resetAfter && key in After(map[], lim, ls[..n])
    ensures RowBeganAt(lim, ls, n, key, s, l)
    decreases n
  {
    s, l := 0, 0;
    if key in After(map[], lim, ls[..n - 1]) {
      s, l := RowTellsThePast(lim, ls, n - 1, key);
    }
    s, l := RowGoesOn(lim, ls, n - 1, key, s, l);
  }

  /** A key is locked only after as many failures as the threshold were recorded for it within one window, the last of them at the
      moment of the lock, and no success in between. */
  lemma LocksTakeThresholdFailures(lim: Limits, ls: seq<Try>, n: nat, key: string, at: Time) returns (s: nat, l: nat)
    requires n <= |ls| && 0 <= lim.resetAfter && LockedSince(After(map[], lim, ls[..n]), key, at)
    ensures s <= l < n && ls[l].at == at && ls[l].at - ls[s].at <= lim.resetAfter
    ensures Recorded(map[], lim, ls, s, key) && Recorded(map[], lim, ls, l, key)
    ensures RecordedSince(map[], lim, ls, s, l + 1, key) == Threshold(lim)
    ensures forall i | s <= i <= l :: !Cleared(map[], lim, ls, i, key)
  {
    s, l := RowTellsThePast(lim, ls, n, key);
  }

  // ---- a lock lasts ----

  predicate LockedSince(t: Table, key: string, at: Time) {
    key in t && t[key].lockedAt == Some(at)
  }

  lemma {:induction false} LockStays(t: Table, lim: Limits, ls: seq<Try>, i: nat, j: nat, key: string, at: Time)
    requires i <= j <= |ls|
    requires LockedSince(After(t, lim, ls[..i]), key, at)
    requires forall k | i <= k < j && ls[k].key == key :: ls[k].at - at < lim.lockout && ls[k].lookup.readable
    ensures LockedSince(After(t, lim, ls[..j]), key, at)
    decreases j
  {
    if i < j {
      LockStays(t, lim, ls, i, j - 1, key, at);
      OneTryMore(t, lim, ls, j - 1);
    }
  }

  /** While the tracker can be read, a key locked at `at` has no credentials validated before `at` plus the lockout time,
      whatever is tried on it or on other keys meanwhile; the first try on it from then on is validated. */
  lemma LockHolds(t: Table, lim: Limits, ls: seq<Try>, i: nat, j: nat, at: Time)
    requires i <= j < |ls|
    requires LockedSince(After(t, lim, ls[..i]), ls[j].key, at)
    requires forall k | i <= k < j && ls[k].key == ls[j].key :: ls[k].at - at < lim.lockout && ls[k].lookup.readable
    ensures Validated(After(t, lim, ls[..j]), lim, ls[j]) <==> ls[j].at >= at + lim.lockout || !ls[j].lookup.readable
  {
    LockStays(t, lim, ls, i, j, ls[j].key, at);
  }

  // ---- how many guesses fit in a window ----

  /** The failure that sets the lock. The first failure never does, so a limit below two works like two. */
  function Threshold(lim: Limits): (n: int)
    ensures n >= 2 && n >= lim.maxFailures
  {
    if lim.maxFailures < 2 then 2 else lim.maxFailures
  }

  /** The lockout time, which makes no difference below two ticks of the clock. */
  function Lockout(lim: Limits): (n: int)
    ensures n >= 2 && n >= lim.lockout
  {
    if lim.lockout < 2 then 2 else lim.lockout
  }

  /** The window outlasts the lock by too little to fit another round of guesses in between. */
  predicate LockCoversWindow(lim: Limits) {
    lim.resetAfter - Lockout(lim) < 2 * (Threshold(lim) - 1) - 1
  }

  /** Failures come one a tick, and it is the threshold's failure that locks. */
  predicate RowMakesSense(r: Row, lim: Limits, clock: Time) {
    && 1 <= r.failures && r.firstAt + r.failures <= clock
    && (r.lockedAt.None? ==> r.failures < Threshold(lim))
    && (r.lockedAt.Some? ==> r.firstAt + Threshold(lim) - 1 <= r.lockedAt.value < clock)
  }

  predicate RowsMakeSense(t: Table, lim: Limits, clock: Time) {
    forall k | k in t :: RowMakesSense(t[k], lim, clock)
  }

  lemma SenseIsKept(t: Table, lim: Limits, l: Try, clock: Time, clock': Time)
    requires clock <= l.at < clock' && RowsMakeSense(t, lim, clock)
    ensures RowsMakeSense(AfterTry(t, lim, l), lim, clock')
  {
    var t' := AfterTry(t, lim, l);
    forall k | k in t' ensures RowMakesSense(t'[k], lim, clock') {
      if k in t {
        assert RowMakesSense(t[k], lim, clock);
      }
    }
  }

  /** How far a row can have got when `c` failures met a working tracker since `from`. */
  predicate RowFits(r: Row, lim: Limits, from: Time, clock: Time, c: int) {
    if r.lockedAt.None? then
      c <= if r.firstAt < from then r.failures - 1 else Threshold(lim) - 2 + r.failures
    else if r.lockedAt.value < from then
      c <= 0 || (c <= clock - r.lockedAt.value - lim.lockout && c <= r.firstAt + lim.resetAfter + 1 - r.lockedAt.value - lim.lockout)
    else
      c <= r.lockedAt.value - from + 1 && c <= if r.firstAt < from then Threshold(lim) - 1 else 2 * (Threshold(lim) - 1)
  }

  /** A lock set since `from` has run out since: what is left of the window is too short for more. */
  predicate LockBehind(lim: Limits, from: Time, clock: Time, c: int) {
    c <= clock - from - lim.lockout + 1
  }

  predicate CountFits(t: Table, lim: Limits, key: string, from: Time, clock: Time, c: int) {
    && (c <= 0 || c <= clock - from)
    && (LockBehind(lim, from, clock, c)
        || if key in t then RowFits(t[key], lim, from, clock, c) else c <= Threshold(lim) - 2)
  }

  lemma NothingCountedFits(t: Table, lim: Limits, key: string, from: Time, clock: Time)
    requires RowsMakeSense(t, lim, clock)
    ensures CountFits(t, lim, key, from, clock, 0)
  {
    if key in t {
      assert RowMakesSense(t[key], lim, clock);
    }
  }

  lemma CountStillFits(t: Table, lim: Limits, l: Try, key: string, clock: Time, from: Time, c: int)
    requires lim.lockout >= 2 && LockCoversWindow(lim)
    requires clock <= l.at && RowsMakeSense(t, lim, clock) && from <= l.at < from + lim.resetAfter
    requires l.key == key ==> l.verdict != Right || !Validated(t, lim, l)
    requires CountFits(t, lim, key, from, clock, c)
    ensures var d := if Counts(t, lim, l, key, from, from + lim.resetAfter) && !Outage(l) then 1 else 0;
            CountFits(AfterTry(t, lim, l), lim, key, from, l.at + 1, c + d)
  {
    if key in t {
      assert RowMakesSense(t[key], lim, clock);
    }
  }

  lemma FittingCountsAreSmall(t: Table, lim: Limits, key: string, from: Time, clock: Time, c: int)
    requires lim.lockout >= 2 && LockCoversWindow(lim) && clock <= from + lim.resetAfter
    requires RowsMakeSense(t, lim, clock) && CountFits(t, lim, key, from, clock, c)
    ensures c <= 2 * (Threshold(lim) - 1)
  {
    if key in t {
      assert RowMakesSense(t[key], lim, clock);
    }
  }

  /** No success on the key between `from` and `to`. */
  predicate NoSuccess(t: Table, lim: Limits, ls: seq<Try>, key: string, from: Time, to: Time) {
    forall i | 0 <= i < |ls| && ls[i].key == key && from <= ls[i].at < to ::
      ls[i].verdict != Right || !Validated(After(t, lim, ls[..i]), lim, ls[i])
  }

  /** The moment from which the `n`-th try may be made. */
  function Start(ls: seq<Try>, n: nat, clock: Time): Time
    requires n <= |ls|
  {
    if n == 0 then clock else ls[n - 1].at + 1
  }

  lemma {:induction false} SenseOfRuns(t: Table, lim: Limits, ls: seq<Try>, n: nat, clock: Time)
    requires n <= |ls| && ClockAdvances(ls)
    requires RowsMakeSense(t, lim, clock) && (forall i | 0 <= i < |ls| :: clock <= ls[i].at)
    ensures RowsMakeSense(After(t, lim, ls[..n]), lim, Start(ls, n, clock))
    decreases n
  {
    if n > 0 {
      SenseOfRuns(t, lim, ls, n - 1, clock);
      OneTryMore(t, lim, ls, n - 1);
      SenseIsKept(After(t, lim, ls[..n - 1]), lim, ls[n - 1], Start(ls, n - 1, clock), ls[n - 1].at + 1);
    }
  }

  lemma {:induction false} NothingCountedYet(t: Table, lim: Limits, ls: seq<Try>, n: nat, key: string, from: Time, to: Time)
    requires n <= |ls| && ClockAdvances(ls) && (n > 0 ==> ls[n - 1].at < from)
    ensures Clean(t, lim, ls[..n], key, from, to) == 0
    decreases n
  {
    if n > 0 {
      OneTryCounted(t, lim, ls, n - 1, key, from, to);
      NothingCountedYet(t, lim, ls, n - 1, key, from, to);
    }
  }

  /** The `i`-th try is made in the window: what fits before it fits after it. */
  lemma CountingGoesOn(t: Table, lim: Limits, ls: seq<Try>, i: nat, key: string, from: Time, clock: Time, c: int)
    requires i < |ls| && lim.lockout >= 2 && LockCoversWindow(lim)
    requires clock <= ls[i].at && from <= ls[i].at < from + lim.resetAfter
    requires RowsMakeSense(After(t, lim, ls[..i]), lim, clock) && CountFits(After(t, lim, ls[..i]), lim, key, from, clock, c)
    requires c == Clean(t, lim, ls[..i], key, from, from + lim.resetAfter)
    requires NoSuccess(t, lim, ls, key, from, from + lim.resetAfter)
    ensures CountFits(After(t, lim, ls[..i + 1]), lim, key, from, ls[i].at + 1,
                      Clean(t, lim, ls[..i + 1], key, from, from + lim.resetAfter))
  {
    OneTryMore(t, lim, ls, i);
    OneTryCounted(t, lim, ls, i, key, from, from + lim.resetAfter);
    CountStillFits(After(t, lim, ls[..i]), lim, ls[i], key, clock, from, c);
  }

  lemma {:induction false} CountingUp(t: Table, lim: Limits, ls: seq<Try>, n: nat, key: string, from: Time, clock: Time)
    requires n <= |ls| && lim.lockout >= 2 && LockCoversWindow(lim) && ClockAdvances(ls)
    requires RowsMakeSense(t, lim, clock) && (forall i | 0 <= i < |ls| :: clock <= ls[i].at)
    requires NoSuccess(t, lim, ls, key, from, from + lim.resetAfter)
    requires n > 0 && from <= ls[n - 1].at < from + lim.resetAfter
    ensures CountFits(After(t, lim, ls[..n]), lim, key, from, ls[n - 1].at + 1,
                      Clean(t, lim, ls[..n], key, from, from + lim.resetAfter))
    decreases n
  {
    var c, start := Clean(t, lim, ls[..n - 1], key, from, from + lim.resetAfter), Start(ls, n - 1, clock);
    SenseOfRuns(t, lim, ls, n - 1, clock);
    if n > 1 && from <= ls[n - 2].at {
      CountingUp(t, lim, ls, n - 1, key, from, clock);
    } else {
      NothingCountedYet(t, lim, ls, n - 1, key, from, from + lim.resetAfter);
      NothingCountedFits(After(t, lim, ls[..n - 1]), lim, key, from, start);
    }
    CountingGoesOn(t, lim, ls, n - 1, key, from, start, c);
  }

  /** At most one failure a tick. */
  lemma {:induction false} OneFailureATick(t: Table, lim: Limits, ls: seq<Try>, n: nat, key: string, from: Time, to: Time)
    requires n <= |ls| && ClockAdvances(ls)
    ensures Clean(t, lim, ls[..n], key, from, to) <= if n == 0 || ls[n - 1].at < from || to < from then 0
                                                     else if ls[n - 1].at < to then ls[n - 1].at + 1 - from else to - from
    decreases n
  {
    if n > 0 {
      OneTryCounted(t, lim, ls, n - 1, key, from, to);
      OneFailureATick(t, lim, ls, n - 1, key, from, to);
    }
  }

  lemma {:induction false} TheCountIsBounded(t: Table, lim: Limits, ls: seq<Try>, n: nat, key: string, from: Time, clock: Time)
    requires n <= |ls| && lim.lockout >= 2 && LockCoversWindow(lim) && ClockAdvances(ls)
    requires RowsMakeSense(t, lim, clock) && (forall i | 0 <= i < |ls| :: clock <= ls[i].at)
    requires NoSuccess(t, lim, ls, key, from, from + lim.resetAfter)
    ensures Clean(t, lim, ls[..n], key, from, from + lim.resetAfter) <= 2 * (Threshold(lim) - 1)
    decreases n
  {
    if n > 0 {
      if from <= ls[n - 1].at < from + lim.resetAfter {
        CountingUp(t, lim, ls, n, key, from, clock);
        SenseOfRuns(t, lim, ls, n, clock);
        FittingCountsAreSmall(After(t, lim, ls[..n]), lim, key, from, ls[n - 1].at + 1,
                              Clean(t, lim, ls[..n], key, from, from + lim.resetAfter));
      } else {
        OneTryCounted(t, lim, ls, n - 1, key, from, from + lim.resetAfter);
        TheCountIsBounded(t, lim, ls, n - 1, key, from, clock);
      }
    }
  }

  /** When the lock covers the window, any stretch of one window's length without a success holds, beside those that met
      an outage of the tracker, at most 2 * (n - 1) validated failures for a key, where n is the failure that locks: eight
      with the default limits. The rows to start from are any that runs of this discipline leave behind. */
  lemma GuessesAreBounded(t: Table, lim: Limits, ls: seq<Try>, key: string, from: Time, clock: Time)
    requires LockCoversWindow(lim) && ClockAdvances(ls)
    requires RowsMakeSense(t, lim, clock) && (forall i | 0 <= i < |ls| :: clock <= ls[i].at)
    requires NoSuccess(t, lim, ls, key, from, from + lim.resetAfter)
    ensures Failures(t, lim, ls, key, from, from + lim.resetAfter)
            <= 2 * (Threshold(lim) - 1) + Outages(t, lim, ls, key, from, from + lim.resetAfter)
  {
    assert ls[..|ls|] == ls;
    if lim.lockout >= 2 {
      TheCountIsBounded(t, lim, ls, |ls|, key, from, clock);
    } else {
      OneFailureATick(t, lim, ls, |ls|, key, from, from + lim.resetAfter);
    }
  }

  // ---- and no tighter bound or weaker condition will do ----

  /** A wrong guess while the tracker works. */
  function Guess(key: string, at: Time): Try {
    Try(key, at, Wrong, Database(true, true), Database(true, true))
  }

  /** A run of guesses that all came before `next`, the table it ends in, and the failures it counts. */
  predicate Standing(lim: Limits, key: string, ls: seq<Try>, t: Table, from: Time, to: Time, c: int, next: Time) {
    && After(map[], lim, ls) == t && Failures(map[], lim, ls, key, from, to) == c && Outages(map[], lim, ls, key, from, to) == 0
    && ClockAdvances(ls) && forall i | 0 <= i < |ls| :: ls[i].at < next && ls[i].verdict == Wrong
  }

  lemma OneTryAppended(lim: Limits, ls: seq<Try>, l: Try, from: Time, to: Time)
    ensures After(map[], lim, ls + [l]) == AfterTry(After(map[], lim, ls), lim, l)
    ensures var counts := Counts(After(map[], lim, ls), lim, l, l.key, from, to);
            && Failures(map[], lim, ls + [l], l.key, from, to) == Failures(map[], lim, ls, l.key, from, to) + (if counts then 1 else 0)
            && (Outage(l) || Outages(map[], lim, ls + [l], l.key, from, to) == Outages(map[], lim, ls, l.key, from, to))
  {
    assert (ls + [l])[..|ls + [l]| - 1] == ls;
  }

  lemma OneGuess(lim: Limits, key: string, ls: seq<Try>, t: Table, from: Time, to: Time, c: int, next: Time, at: Time)
    returns (ls': seq<Try>)
    requires Standing(lim, key, ls, t, from, to, c, next) && next <= at && Validated(t, lim, Guess(key, at))
    ensures Standing(lim, key, ls', AfterTry(t, lim, Guess(key, at)), from, to, c + if from <= at < to then 1 else 0, at + 1)
  {
    OneTryAppended(lim, ls, Guess(key, at), from, to);
    ls' := ls + [Guess(key, at)];
  }

  lemma GuessOnRow(lim: Limits, key: string, r: Row, at: Time)
    requires at - r.firstAt <= lim.resetAfter && (r.lockedAt.Some? ==> at - r.lockedAt.value >= lim.lockout)
    ensures Validated(map[key := r], lim, Guess(key, at))
    ensures var locks := r.failures + 1 >= lim.maxFailures && r.lockedAt.None?;
            AfterTry(map[key := r], lim, Guess(key, at))
            == map[key := Row(r.failures + 1, r.firstAt, if locks then Some(at) else r.lockedAt)]
  {
  }

  /** Whether `n` guesses from `start` on are all in the window or all before it. */
  predicate Aligned(start: Time, n: nat, from: Time, to: Time, counted: bool) {
    if counted then from <= start && start + n <= to else start + n <= from
  }

  /** `n` guesses, one a tick, that neither set a lock nor meet one, all in the window of the row. */
  lemma {:induction false} QuietGuesses(lim: Limits, key: string, ls: seq<Try>, r: Row, from: Time, to: Time, c: int, next: Time,
                                        start: Time, n: nat, counted: bool)
    returns (ls': seq<Try>)
    requires Standing(lim, key, ls, map[key := r], from, to, c, next) && next <= start && Aligned(start, n, from, to, counted)
    requires start + n - 1 - r.firstAt <= lim.resetAfter && r.failures >= 1
    requires if r.lockedAt.Some? then start - r.lockedAt.value >= lim.lockout else r.failures + n < Threshold(lim)
    ensures Standing(lim, key, ls', map[key := r.(failures := r.failures + n)], from, to, c + if counted then n else 0, start + n)
    decreases n
  {
    if n == 0 {
      ls' := ls;
      assert r.(failures := r.failures + n) == r;
    } else {
      var mid := QuietGuesses(lim, key, ls, r, from, to, c, next, start, n - 1, counted);
      GuessOnRow(lim, key, r.(failures := r.failures + n - 1), start + n - 1);
      ls' := OneGuess(lim, key, mid, map[key := r.(failures := r.failures + n - 1)], from, to,
                      c + (if counted then n - 1 else 0), start + n - 1, start + n - 1);
    }
  }

  /** A guess that opens a new window: the key has no row, or one whose window and lock are over. */
  predicate Opens(t: Table, lim: Limits, key: string, start: Time) {
    && (t == map[] || t.Keys == {key})
    && (key in t ==> WindowOver(t, lim, key, start) && !Locked(t, lim, key, start))
  }

  /** As many guesses as it takes to lock a key, one a tick, in a new window. */
  lemma LockingRound(lim: Limits, key: string, ls: seq<Try>, t: Table, from: Time, to: Time, c: int, next: Time, start: Time, counted: bool)
    returns (ls': seq<Try>)
    requires Standing(lim, key, ls, t, from, to, c, next) && next <= start && Opens(t, lim, key, start)
    requires Aligned(start, Threshold(lim), from, to, counted) && Threshold(lim) - 1 <= lim.resetAfter
    ensures var n := Threshold(lim);
            Standing(lim, key, ls', map[key := Row(n, start, Some(start + n - 1))], from, to, c + if counted then n else 0, start + n)
  {
    var n, d := Threshold(lim), if counted then 1 else 0;
    assert AfterTry(t, lim, Guess(key, start)) == map[key := Row(1, start, None)];
    var one := OneGuess(lim, key, ls, t, from, to, c, next, start);
    var most := QuietGuesses(lim, key, one, Row(1, start, None), from, to, c + d, start + 1, start + 1, n - 2, counted);
    GuessOnRow(lim, key, Row(n - 1, start, None), start + n - 1);
    ls' := OneGuess(lim, key, most, map[key := Row(n - 1, start, None)], from, to, c + (n - 1) * d, start + n - 1, start + n - 1);
  }

  lemma NothingStands(lim: Limits, key: string, from: Time, to: Time)
    ensures Standing(lim, key, [], map[], from, to, 0, 0)
  {
  }

  /** Guesses when the lock has run out, up to the end of the window, then a full round in the next window. */
  lemma ShortLockBreaksTheBound(lim: Limits, key: string) returns (ls: seq<Try>, from: Time)
    requires !LockCoversWindow(lim)
    ensures ClockAdvances(ls) && NoSuccess(map[], lim, ls, key, from, from + lim.resetAfter)
    ensures Outages(map[], lim, ls, key, from, from + lim.resetAfter) == 0
    ensures Failures(map[], lim, ls, key, from, from + lim.resetAfter) == lim.resetAfter - Lockout(lim) + 2 > 2 * (Threshold(lim) - 1)
  {
    var n := Threshold(lim);
    from := n - 1 + Lockout(lim);
    var to, tail := from + lim.resetAfter, lim.resetAfter - from + 1;
    NothingStands(lim, key, from, to);
    ls := LockingRound(lim, key, [], map[], from, to, 0, 0, 0, false);
    ls := QuietGuesses(lim, key, ls, Row(n, 0, Some(n - 1)), from, to, 0, n, from, tail, true);
    ls := LockingRound(lim, key, ls, map[key := Row(n + tail, 0, Some(n - 1))], from, to, tail, from + tail, lim.resetAfter + 1, true);
  }

  /** The bound is reached: the guesses that just do not lock, late in one window, and a full round in the next. */
  lemma TheBoundIsReached(lim: Limits, key: string) returns (ls: seq<Try>, from: Time)
    requires lim.resetAfter >= 2 * (Threshold(lim) - 1)
    ensures ClockAdvances(ls) && NoSuccess(map[], lim, ls, key, from, from + lim.resetAfter)
    ensures Outages(map[], lim, ls, key, from, from + lim.resetAfter) == 0
    ensures Failures(map[], lim, ls, key, from, from + lim.resetAfter) == 2 * (Threshold(lim) - 1)
  {
    var n := Threshold(lim);
    from := lim.resetAfter - n + 3;
    var to := from + lim.resetAfter;
    NothingStands(lim, key, from, to);
    assert AfterTry(map[], lim, Guess(key, 0)) == map[key := Row(1, 0, None)];
    ls := OneGuess(lim, key, [], map[], from, to, 0, 0, 0);
    ls := QuietGuesses(lim, key, ls, Row(1, 0, None), from, to, 0, 1, from, n - 2, true);
    ls := LockingRound(lim, key, ls, map[key := Row(n - 1, 0, None)], from, to, n - 2, from + n - 2, lim.resetAfter + 1, true);
  }

  /** Eight guesses in fifteen minutes are possible with the default limits. */
  lemma EightGuessesFit(key: string) returns (ls: seq<Try>, from: Time)
    ensures ClockAdvances(ls) && NoSuccess(map[], DEFAULT_LIMITS, ls, key, from, from + 15 * MINUTE)
    ensures Failures(map[], DEFAULT_LIMITS, ls, key, from, from + 15 * MINUTE) == 8
  {
    ls, from := TheBoundIsReached(DEFAULT_LIMITS, key);
  }

  ghost predicate WithinBound(lim: Limits, ls: seq<Try>, key: string, from: Time) {
    ClockAdvances(ls) && NoSuccess(map[], lim, ls, key, from, from + lim.resetAfter) ==>
      Failures(map[], lim, ls, key, from, from + lim.resetAfter)
      <= 2 * (Threshold(lim) - 1) + Outages(map[], lim, ls, key, from, from + lim.resetAfter)
  }

  /** In every run from an empty table no stretch of one window's length without a success holds more than the bound. */
  ghost predicate Bounded(lim: Limits) {
    forall ls: seq<Try>, key: string, from: Time :: WithinBound(lim, ls, key, from)
  }

  /** The bound holds of every run if and only if the lock covers the window. */
  lemma TheBoundIsExact(lim: Limits)
    ensures Bounded(lim) <==> LockCoversWindow(lim)
  {
    if LockCoversWindow(lim) {
      forall ls: seq<Try>, key: string, from: Time ensures WithinBound(lim, ls, key, from) {
        if ClockAdvances(ls) && NoSuccess(map[], lim, ls, key, from, from + lim.resetAfter) {
          GuessesAreBounded(map[], lim, ls, key, from, if ls == [] then 0 else ls[0].at);
        }
      }
    } else {
      var ls, from := ShortLockBreaksTheBound(lim, "");
      assert !WithinBound(lim, ls, "", from);
    }
  }

  // ---- a lock that runs out inside its window ----

  predicate LockedRow(t: Table, key: string, lock: Time, first: Time) {
    LockedSince(t, key, lock) && t[key].firstAt == first
  }

  lemma LockedRowIsKept(t: Table, lim: Limits, l: Try, key: string, lock: Time, first: Time)
    requires LockedRow(t, key, lock, first)
    requires l.key == key ==> l.verdict != Right && l.at <= first + lim.resetAfter
    ensures LockedRow(AfterTry(t, lim, l), key, lock, first)
  {
  }

  lemma {:induction false} LockStaysSet(t: Table, lim: Limits, ls: seq<Try>, i: nat, j: nat, key: string, lock: Time, first: Time)
    requires i <= j <= |ls| && LockedRow(After(t, lim, ls[..i]), key, lock, first)
    requires forall k | i <= k < j && ls[k].key == key :: ls[k].verdict != Right && ls[k].at <= first + lim.resetAfter
    ensures LockedRow(After(t, lim, ls[..j]), key, lock, first)
    decreases j
  {
    if i < j {
      LockStaysSet(t, lim, ls, i, j - 1, key, lock, first);
      OneTryMore(t, lim, ls, j - 1);
      LockedRowIsKept(After(t, lim, ls[..j - 1]), lim, ls[j - 1], key, lock, first);
    }
  }

  /** Once a lock has run out inside its window nothing locks the key again: every guess up to the end of the window is
      looked at, however many fail. */
  lemma {:induction false} NeverLocksAgain(t: Table, lim: Limits, ls: seq<Try>, i: nat, j: nat, key: string, lock: Time, first: Time)
    requires i <= j < |ls| && ls[j].key == key
    requires LockedRow(After(t, lim, ls[..i]), key, lock, first)
    requires forall k | i <= k <= j && ls[k].key == key ::
               ls[k].verdict != Right && lock + lim.lockout <= ls[k].at <= first + lim.resetAfter
    ensures Validated(After(t, lim, ls[..j]), lim, ls[j])
  {
    LockStaysSet(t, lim, ls, i, j, key, lock, first);
  }
}
