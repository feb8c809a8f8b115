/** The two trackers of failed sign-ins and their agreement. */
module LoginTracker {
  import opened Domain

  datatype Limits = Limits(maxFailures: int, lockout: int, resetAfter: int)

  const DEFAULT_LIMITS := Limits(5, 15 * MINUTE, 15 * MINUTE)

  /** The zero value of a time, which the in-memory tracker reads as "never". */
  const ZERO_TIME: Time := 0

  /** What the in-memory tracker keeps for a key. */
  datatype Attempt = Attempt(failures: int, firstAt: Time, lockedAt: Time)

  /** What the persistent tracker keeps for a key; here "never" is a missing value. */
  datatype Row = Row(failures: int, firstAt: Time, lockedAt: Option<Time>)

  type Attempts = map<string, Attempt>
  type Table = map<string, Row>

  datatype Call =
    | IsLockedOut(key: string, at: Time)
    | RecordFailure(key: string, at: Time)
    | Reset(key: string, at: Time)

  // ---- in memory ----

  function MemoryAnswer(m: Attempts, lim: Limits, c: Call): bool {
    c.IsLockedOut? && c.key in m && m[c.key].lockedAt != ZERO_TIME && c.at - m[c.key].lockedAt < lim.lockout
  }

  function MemoryAfter(m: Attempts, lim: Limits, c: Call): Attempts {
    match c
    case IsLockedOut(key, at) =>
      if key in m && !MemoryAnswer(m, lim, c) && at - m[key].firstAt > lim.resetAfter then m - {key} else m
    case RecordFailure(key, at) =>
      if key !in m || at - m[key].firstAt > lim.resetAfter then m[key := Attempt(1, at, ZERO_TIME)]
      else
        var failures := m[key].failures + 1;
        var locks := failures >= lim.maxFailures && m[key].lockedAt == ZERO_TIME;
        m[key := Attempt(failures, m[key].firstAt, if locks then at else m[key].lockedAt)]
    case Reset(key, _) => m - {key}
  }

  class MemoryTracker {
    var attempts: Attempts
    const limits: Limits

    constructor ()
      ensures attempts == map[] && limits == Limits(5, 900 * SECOND, 900 * SECOND)
    {
      attempts, limits := map[], DEFAULT_LIMITS;
    }

    method IsLockedOut(key: string, now: Time) returns (locked: bool)
      modifies this
      ensures locked == MemoryAnswer(old(attempts), limits, Call.IsLockedOut(key, now))
      ensures attempts == MemoryAfter(old(attempts), limits, Call.IsLockedOut(key, now))
      ensures locked <==> key in old(attempts) && old(attempts)[key].lockedAt != ZERO_TIME
                          && now - old(attempts)[key].lockedAt < limits.lockout
      ensures attempts == if key in old(attempts) && !locked && now - old(attempts)[key].firstAt > limits.resetAfter
                          then old(attempts) - {key} else old(attempts)
    {
      if key !in attempts {
        return false;
      }
      var a := attempts[key];
      if a.lockedAt != ZERO_TIME && now - a.lockedAt < limits.lockout {
        return true;
      }
      if now - a.firstAt > limits.resetAfter {
        attempts := attempts - {key};
        return false;
      }
      return false;
    }

    method RecordFailure(key: string, now: Time)
      modifies this
      ensures attempts == MemoryAfter(old(attempts), limits, Call.RecordFailure(key, now))
      ensures key !in old(attempts) || now - old(attempts)[key].firstAt > limits.resetAfter ==>
                attempts == old(attempts)[key := Attempt(1, now, ZERO_TIME)]
      ensures key in old(attempts) && now - old(attempts)[key].firstAt <= limits.resetAfter ==>
                var a := old(attempts)[key];
                var locks := a.failures + 1 >= limits.maxFailures && a.lockedAt == ZERO_TIME;
                attempts == old(attempts)[key := Attempt(a.failures + 1, a.firstAt, if locks then now else a.lockedAt)]
    {
      if key !in attempts {
        attempts := attempts[key := Attempt(1, now, ZERO_TIME)];
        return;
      }
      var a := attempts[key];
      if now - a.firstAt > limits.resetAfter {
        a := a.(failures := 1);
        a := a.(firstAt := now);
        a := a.(lockedAt := ZERO_TIME);
        attempts := attempts[key := a];
        return;
      }
      a := a.(failures := a.failures + 1);
      if a.failures >= limits.maxFailures && a.lockedAt == ZERO_TIME {
        a := a.(lockedAt := now);
      }
      attempts := attempts[key := a];
    }

    method Reset(key: string, now: Time)
      modifies this
      ensures attempts == MemoryAfter(old(attempts), limits, Call.Reset(key, now)) == old(attempts) - {key}
    {
      attempts := attempts - {key};
    }
  }

  // ---- persistent ----

  predicate Locked(t: Table, lim: Limits, key: string, at: Time) {
    key in t && t[key].lockedAt.Some? && at - t[key].lockedAt.value < lim.lockout
  }

  function RowsAnswer(t: Table, lim: Limits, c: Call): bool {
    c.IsLockedOut? && Locked(t, lim, c.key, c.at)
  }

  predicate WindowOver(t: Table, lim: Limits, key: string, at: Time) {
    key in t && at - t[key].firstAt > lim.resetAfter
  }

  function RowsAfter(t: Table, lim: Limits, c: Call): Table {
    match c
    case IsLockedOut(key, at) =>
      if !Locked(t, lim, key, at) && WindowOver(t, lim, key, at) then t - {key} else t
    case RecordFailure(key, at) =>
      if key !in t || WindowOver(t, lim, key, at) then t[key := Row(1, at, None)]
      else
        var r := t[key];
        var locks := r.failures + 1 >= lim.maxFailures && r.lockedAt.None?;
        t[key := Row(r.failures + 1, r.firstAt, if locks then Some(at) else r.lockedAt)]
    case Reset(key, _) => t - {key}
  }

  /** Which statements of one call to the database go through. */
  datatype Database = Database(readable: bool, writable: bool) {
    predicate Works() { readable && writable }
  }

  class PersistentTracker {
    var rows: Table
    const limits: Limits

    constructor (rows: Table)
      ensures this.rows == rows && limits == Limits(5, 900 * SECOND, 900 * SECOND)
    {
      this.rows, limits := rows, DEFAULT_LIMITS;
    }

    /** A read that fails, or a stale row that cannot be cleared, is an error beside the answer "not locked". */
    method IsLockedOut(key: string, now: Time, db: Database) returns (locked: bool, failed: bool)
      modifies this
      ensures locked == (db.readable && Locked(old(rows), limits, key, now))
      ensures failed == (!db.readable || (!locked && WindowOver(old(rows), limits, key, now) && !db.writable))
      ensures rows == if db.Works() then RowsAfter(old(rows), limits, Call.IsLockedOut(key, now)) else old(rows)
      ensures locked <==> db.readable && key in old(rows) && old(rows)[key].lockedAt.Some?
                          && now - old(rows)[key].lockedAt.value < limits.lockout
      ensures rows == if db.Works() && key in old(rows) && !locked && now - old(rows)[key].firstAt > limits.resetAfter
                      then old(rows) - {key} else old(rows)
    {
      if !db.readable {
        return false, true;
      }
      if key !in rows {
        return false, false;
      }
      var e := rows[key];
      if e.lockedAt.Some? && now - e.lockedAt.value < limits.lockout {
        return true, false;
      }
      if now - e.firstAt > limits.resetAfter {
        if !db.writable {
          return false, true;
        }
        rows := rows - {key};
        return false, false;
      }
      return false, false;
    }

    /** One transaction: it is carried out whole or not at all. */
    method RecordFailure(key: string, now: Time, db: Database) returns (failed: bool)
      modifies this
      ensures failed == !db.Works()
      ensures rows == if failed then old(rows) else RowsAfter(old(rows), limits, Call.RecordFailure(key, now))
      ensures !failed && (key !in old(rows) || now - old(rows)[key].firstAt > limits.resetAfter) ==>
                rows == old(rows)[key := Row(1, now, None)]
      ensures !failed && key in old(rows) && now - old(rows)[key].firstAt <= limits.resetAfter ==>
                var e := old(rows)[key];
                var locks := e.failures + 1 >= limits.maxFailures && e.lockedAt.None?;
                rows == old(rows)[key := Row(e.failures + 1, e.firstAt, if locks then Some(now) else e.lockedAt)]
    {
      if !db.readable {
        return true;
      }
      var e: Row;
      if key !in rows {
        e := Row(1, now, None);
      } else {
        e := rows[key];
        if now - e.firstAt > limits.resetAfter {
          e := e.(failures := 1);
          e := e.(firstAt := now);
          e := e.(lockedAt := None);
        } else {
          e := e.(failures := e.failures + 1);
          if e.failures >= limits.maxFailures && e.lockedAt.None? {
            e := e.(lockedAt := Some(now));
          }
        }
      }
      if !db.writable {
        return true;
      }
      rows := rows[key := e];
      return false;
    }

    method Reset(key: string, now: Time, db: Database) returns (failed: bool)
      modifies this
      ensures failed == !db.writable
      ensures rows == if failed then old(rows) else RowsAfter(old(rows), limits, Call.Reset(key, now))
      ensures rows == if failed then old(rows) else old(rows) - {key}
    {
      if !db.writable {
        return true;
      }
      rows := rows - {key};
      return false;
    }
  }

  // ---- agreement ----

  function MemoryAnswers(m: Attempts, lim: Limits, calls: seq<Call>): seq<bool>
    decreases |calls|
  {
    if calls == [] then []
    else [MemoryAnswer(m, lim, calls[0])] + MemoryAnswers(MemoryAfter(m, lim, calls[0]), lim, calls[1..])
  }

  function RowsAnswers(t: Table, lim: Limits, calls: seq<Call>): seq<bool>
    decreases |calls|
  {
    if calls == [] then []
    else [RowsAnswer(t, lim, calls[0])] + RowsAnswers(RowsAfter(t, lim, calls[0]), lim, calls[1..])
  }

  /** The rows that say what an in-memory tracker remembers. */
  function AsRows(m: Attempts): Table {
    map k | k in m ::
      Row(m[k].failures, m[k].firstAt, if m[k].lockedAt == ZERO_TIME then None else Some(m[k].lockedAt))
  }

  /** A failure recorded at the zero time that reaches the limit: the one call after which the in-memory tracker, which
      reads the zero time as "never", holds no lock where the persistent one does. */
  predicate LocksAtZero(m: Attempts, lim: Limits, c: Call) {
    && c.RecordFailure? && c.at == ZERO_TIME && c.key in m && c.at - m[c.key].firstAt <= lim.resetAfter
    && m[c.key].lockedAt == ZERO_TIME && m[c.key].failures + 1 >= lim.maxFailures
  }

  /** From corresponding states the trackers answer every call alike, and their states correspond again if and only if the
      call does not set a lock at the zero time. */
  lemma OneCallAgrees(m: Attempts, lim: Limits, c: Call)
    ensures MemoryAnswer(m, lim, c) == RowsAnswer(AsRows(m), lim, c)
    ensures AsRows(MemoryAfter(m, lim, c)) == RowsAfter(AsRows(m), lim, c) <==> !LocksAtZero(m, lim, c)
  {
    var l, r := AsRows(MemoryAfter(m, lim, c)), RowsAfter(AsRows(m), lim, c);
    assert l.Keys == r.Keys;
    if LocksAtZero(m, lim, c) {
      assert l[c.key].lockedAt != r[c.key].lockedAt;
    } else {
      forall k | k in l ensures l[k] == r[k] {
      }
    }
  }

  /** No call of the sequence sets a lock at the zero time; in particular none does when the clock never reads zero. */
  predicate NoLockAtZero(m: Attempts, lim: Limits, calls: seq<Call>)
    decreases |calls|
  {
    calls == [] || (!LocksAtZero(m, lim, calls[0]) && NoLockAtZero(MemoryAfter(m, lim, calls[0]), lim, calls[1..]))
  }

  /** The two trackers, started in the same state, answer every sequence of calls alike up to the first lock set at the
      zero time. */
  lemma {:induction false} TrackersAgree(m: Attempts, lim: Limits, calls: seq<Call>)
    requires NoLockAtZero(m, lim, calls)
    ensures MemoryAnswers(m, lim, calls) == RowsAnswers(AsRows(m), lim, calls)
    decreases |calls|
  {
    if calls != [] {
      OneCallAgrees(m, lim, calls[0]);
      TrackersAgree(MemoryAfter(m, lim, calls[0]), lim, calls[1..]);
    }
  }

  /** So they answer every sequence of calls at non-zero times alike. */
  lemma {:induction false} NonZeroTimesAgree(m: Attempts, lim: Limits, calls: seq<Call>)
    requires forall c | c in calls :: c.at != ZERO_TIME
    ensures MemoryAnswers(m, lim, calls) == RowsAnswers(AsRows(m), lim, calls)
  {
    NoLockWithoutZero(m, lim, calls);
    TrackersAgree(m, lim, calls);
  }

  lemma {:induction false} NoLockWithoutZero(m: Attempts, lim: Limits, calls: seq<Call>)
    requires forall c | c in calls :: c.at != ZERO_TIME
    ensures NoLockAtZero(m, lim, calls)
    decreases |calls|
  {
    if calls != [] {
      NoLockWithoutZero(MemoryAfter(m, lim, calls[0]), lim, calls[1..]);
    }
  }

  /** After a lock at the zero time the two differ on the very next question asked within the lockout time. */
  lemma ZeroTimeTellsThemApart(m: Attempts, lim: Limits, key: string, at: Time)
    requires LocksAtZero(m, lim, RecordFailure(key, ZERO_TIME))
    ensures var c, q := RecordFailure(key, ZERO_TIME), IsLockedOut(key, at);
            && !MemoryAnswer(MemoryAfter(m, lim, c), lim, q)
            && (RowsAnswer(RowsAfter(AsRows(m), lim, c), lim, q) <==> at - ZERO_TIME < lim.lockout)
  {
  }
}
