/** What each atomic store operation does to the stored records.

    The interleaved protocol takes these as its steps and the in-memory stores
    are proved to compute them. */
module StoreSpec {
  import opened Domain

  // ---- refresh tokens ----

  /** `b` is the record `a` at the same or a later moment: only an unset consumption or revocation time may differ. */
  predicate TokenLater(a: Token, b: Token) {
    && b == a.(consumedAt := b.consumedAt, revokedAt := b.revokedAt)
    && (a.consumedAt.Some? ==> b.consumedAt == a.consumedAt)
    && (a.revokedAt.Some? ==> b.revokedAt == a.revokedAt)
  }

  function ConsumeToken(m: Tokens, id: Id, at: Time): Tokens {
    if id in m && m[id].consumedAt.None? then m[id := m[id].(consumedAt := Some(at))] else m
  }

  function RevokeToken(m: Tokens, id: Id, at: Time): Tokens {
    if id in m && m[id].revokedAt.None? then m[id := m[id].(revokedAt := Some(at))] else m
  }

  /** Every token bound to a session in `sids` revoked, all others untouched. */
  function RevokeTokensOf(m: Tokens, sids: set<Id>, at: Time): Tokens {
    map id | id in m ::
      if m[id].session.Some? && m[id].session.value in sids && m[id].revokedAt.None? then m[id].(revokedAt := Some(at))
      else m[id]
  }

  /** The token stored under a hash, found by scanning the whole map. */
  predicate IsTokenFor(m: Tokens, hash: string, id: Id) {
    id in m && m[id].hash == hash
  }

  /** Ids and hashes of new records are random and so never seen before. */
  predicate FreshToken(m: Tokens, id: Id, hash: string) {
    id !in m && forall k | k in m :: m[k].hash != hash
  }

  // ---- authorization codes ----

  predicate FreshCode(m: Codes, id: Id, hash: string) {
    id !in m && forall k | k in m :: m[k].hash != hash
  }

  predicate CodeLater(a: Code, b: Code) {
    && b == a.(consumedAt := b.consumedAt)
    && (a.consumedAt.Some? ==> b.consumedAt == a.consumedAt)
  }

  function ConsumeCode(m: Codes, id: Id, at: Time): Codes {
    if id in m && m[id].consumedAt.None? then m[id := m[id].(consumedAt := Some(at))] else m
  }

  // ---- sessions ----

  predicate SessionLater(a: Session, b: Session) {
    && b == a.(revokedAt := b.revokedAt)
    && (a.revokedAt.Some? ==> b.revokedAt == a.revokedAt)
  }

  function RevokeSession(m: Sessions, id: Id, at: Time): Sessions {
    if id in m && m[id].revokedAt.None? then m[id := m[id].(revokedAt := Some(at))] else m
  }

  /** From `m` to `m'` the session `id` has ended: an unset revocation time is set, a set one stays, and no other record
      differs. */
  predicate SessionEnded(m: Sessions, m': Sessions, id: Id, at: Time) {
    && m'.Keys == m.Keys && id in m
    && m'[id] == m[id].(revokedAt := if m[id].revokedAt.None? then Some(at) else m[id].revokedAt)
    && forall k | k in m && k != id :: m'[k] == m[k]
  }

  lemma RevokingEnds(m: Sessions, id: Id, at: Time)
    ensures if id in m then SessionEnded(m, RevokeSession(m, id, at), id, at) else RevokeSession(m, id, at) == m
  {
  }

  /** From `m` to `m'` the unrevoked tokens of the sessions `sids` are revoked, and no other record differs. */
  predicate TokensEnded(m: Tokens, m': Tokens, sids: set<Id>, at: Time) {
    && m'.Keys == m.Keys
    && forall id | id in m ::
         m'[id] == if m[id].session.Some? && m[id].session.value in sids && m[id].revokedAt.None?
                   then m[id].(revokedAt := Some(at)) else m[id]
  }

  lemma RevokingTokensEnds(m: Tokens, sids: set<Id>, at: Time)
    ensures TokensEnded(m, RevokeTokensOf(m, sids, at), sids, at)
  {
  }

  /** A bulk revocation picks the user's sessions that are neither kept, revoked nor expired. */
  predicate Targeted(m: Sessions, id: Id, user: string, keep: Id, at: Time) {
    id in m && m[id].userId == user && id != keep && m[id].revokedAt.None? && at < m[id].expiresAt
  }

  function Targets(m: Sessions, user: string, keep: Id, at: Time): set<Id> {
    set id | id in m && Targeted(m, id, user, keep, at)
  }

  function RevokeSessions(m: Sessions, ids: set<Id>, at: Time): Sessions {
    map id | id in m :: if id in ids then m[id].(revokedAt := Some(at)) else m[id]
  }
}
