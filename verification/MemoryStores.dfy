/** The in-memory stores of refresh tokens, authorization codes and sessions. */
module MemoryStores {
  import opened Domain
  import opened StoreSpec

  datatype StoreError = NotFound | NilRecord | EmptyHash

  /** Which of a handler's store calls fail for reasons of their own; a call that fails has no effect. */
  datatype Faults = Faults(lookup: bool, consume: bool, revoke: bool, store: bool)

  const NO_FAULTS := Faults(false, false, false, false)

  // ---- the hash index of the refresh token store ----

  /** The index names exactly the stored tokens, each under its own hash. */
  ghost predicate Indexed(tokens: Tokens, byHash: map<string, Id>) {
    && (forall id {:trigger tokens[id].hash} | id in tokens :: tokens[id].hash in byHash && byHash[tokens[id].hash] == id)
    && (forall h {:trigger byHash[h]} | h in byHash :: byHash[h] in tokens && tokens[byHash[h]].hash == h)
  }

  /** What a linear scan for a hash finds. */
  ghost function Scan(tokens: Tokens, hash: string): Option<Token> {
    if exists id :: IsTokenFor(tokens, hash, id) then
      var id :| IsTokenFor(tokens, hash, id);
      Some(tokens[id])
    else None
  }

  lemma ScanFinds(tokens: Tokens, hash: string)
    ensures Scan(tokens, hash).Some? ==> exists id :: IsTokenFor(tokens, hash, id) && Scan(tokens, hash).value == tokens[id]
  {
  }

  function Lookup(tokens: Tokens, byHash: map<string, Id>, hash: string): Option<Token> {
    if hash in byHash && byHash[hash] in tokens then Some(tokens[byHash[hash]]) else None
  }

  /** Looking a hash up in the index finds what a scan of all tokens finds. */
  lemma IndexIsScan(tokens: Tokens, byHash: map<string, Id>, hash: string)
    requires Indexed(tokens, byHash)
    ensures Lookup(tokens, byHash, hash) == Scan(tokens, hash)
  {
    if exists id :: IsTokenFor(tokens, hash, id) {
      var id :| IsTokenFor(tokens, hash, id);
      assert tokens[id].hash == hash;
    } else if hash in byHash {
      assert IsTokenFor(tokens, hash, byHash[hash]);
    }
  }

  /** Storing keeps the index exact if and only if the id is new or keeps its hash, and the hash is new or keeps its id. */
  lemma StoringKeepsIndex(tokens: Tokens, byHash: map<string, Id>, t: Token)
    requires Indexed(tokens, byHash)
    ensures Indexed(tokens[t.id := t], byHash[t.hash := t.id]) <==>
              (t.id in tokens ==> tokens[t.id].hash == t.hash) && (t.hash in byHash ==> byHash[t.hash] == t.id)
  {
    var tokens', byHash' := tokens[t.id := t], byHash[t.hash := t.id];
    if t.id in tokens && tokens[t.id].hash != t.hash {
      assert byHash'[tokens[t.id].hash] == t.id;
      assert tokens'[byHash'[tokens[t.id].hash]].hash != tokens[t.id].hash;
    } else if t.hash in byHash && byHash[t.hash] != t.id {
      assert tokens'[byHash[t.hash]].hash == t.hash;
    }
  }

  /** A token store whose records only moved forward is indexed by the same index. */
  lemma MovingOnKeepsIndex(tokens: Tokens, tokens': Tokens, byHash: map<string, Id>)
    requires Indexed(tokens, byHash) && tokens'.Keys == tokens.Keys
    requires forall id {:trigger tokens'[id].hash} | id in tokens :: tokens'[id].hash == tokens[id].hash
    ensures Indexed(tokens', byHash)
  {
  }

  class RefreshTokenStore {
    var tokens: Tokens
    var byHash: map<string, Id>

    /** Records sit under their own id, and nothing is ever deleted, so what the index names is stored. */
    ghost predicate Valid()
      reads this
    {
      && (forall id {:trigger tokens[id].id} | id in tokens :: tokens[id].id == id)
      && (forall h {:trigger byHash[h]} | h in byHash :: byHash[h] in tokens)
    }

    constructor ()
      ensures Valid() && tokens == map[] && byHash == map[] && Indexed(tokens, byHash)
    {
      tokens, byHash := map[], map[];
    }

    method Store(t: Option<Token>) returns (err: Option<StoreError>)
      requires Valid()
      modifies this
      ensures Valid()
      ensures err == if t.None? then Some(NilRecord) else if t.value.hash == "" then Some(EmptyHash) else None
      ensures err.Some? ==> tokens == old(tokens) && byHash == old(byHash)
      ensures err.None? ==> tokens == old(tokens)[t.value.id := t.value] && byHash == old(byHash)[t.value.hash := t.value.id]
      ensures err.None? && old(Indexed(tokens, byHash)) && FreshToken(old(tokens), t.value.id, t.value.hash) ==> Indexed(tokens, byHash)
    {
      if t.None? {
        return Some(NilRecord);
      }
      if t.value.hash == "" {
        return Some(EmptyHash);
      }
      ghost var before, index := tokens, byHash;
      tokens := tokens[t.value.id := t.value];
      byHash := byHash[t.value.hash := t.value.id];
      if Indexed(before, index) {
        StoringKeepsIndex(before, index, t.value);
      }
      return None;
    }

    method FindByHash(hash: string) returns (r: Option<Token>)
      requires Valid()
      ensures r == Lookup(tokens, byHash, hash)
      ensures Indexed(tokens, byHash) ==> r == Scan(tokens, hash)
    {
      if Indexed(tokens, byHash) {
        IndexIsScan(tokens, byHash, hash);
      }
      if hash !in byHash {
        return None;
      }
      return Some(tokens[byHash[hash]]);
    }

    method FindByID(id: Id) returns (r: Option<Token>)
      ensures r == if id in tokens then Some(tokens[id]) else None
    {
      if id !in tokens {
        return None;
      }
      return Some(tokens[id]);
    }

    /** The compare-and-set: true for the one call that finds the token unconsumed. */
    method MarkConsumed(id: Id, at: Time) returns (won: bool, err: Option<StoreError>)
      requires Valid()
      modifies this`tokens
      ensures Valid() && (old(Indexed(tokens, byHash)) ==> Indexed(tokens, byHash))
      ensures tokens == ConsumeToken(old(tokens), id, at)
      ensures won <==> id in old(tokens) && old(tokens)[id].consumedAt.None?
      ensures tokens == if won then old(tokens)[id := old(tokens)[id].(consumedAt := Some(at))] else old(tokens)
      ensures err == if id in old(tokens) then None else Some(NotFound)
    {
      if id !in tokens {
        return false, Some(NotFound);
      }
      var t := tokens[id];
      if t.consumedAt.Some? {
        return false, None;
      }
      tokens := tokens[id := t.(consumedAt := Some(at))];
      return true, None;
    }

    method Revoke(id: Id, at: Time) returns (err: Option<StoreError>)
      requires Valid()
      modifies this`tokens
      ensures Valid() && (old(Indexed(tokens, byHash)) ==> Indexed(tokens, byHash))
      ensures tokens == RevokeToken(old(tokens), id, at)
      ensures tokens == if id in old(tokens) && old(tokens)[id].revokedAt.None?
                        then old(tokens)[id := old(tokens)[id].(revokedAt := Some(at))] else old(tokens)
      ensures err == if id in old(tokens) then None else Some(NotFound)
    {
      if id !in tokens {
        return Some(NotFound);
      }
      var t := tokens[id];
      if t.revokedAt.Some? {
        return None;
      }
      tokens := tokens[id := t.(revokedAt := Some(at))];
      return None;
    }

    /** One pass over the map, revoking in place what belongs to the session. */
    method RevokeBySessionID(sid: Id, at: Time)
      requires Valid()
      modifies this`tokens
      ensures Valid() && (old(Indexed(tokens, byHash)) ==> Indexed(tokens, byHash))
      ensures tokens == RevokeTokensOf(old(tokens), {sid}, at) && TokensEnded(old(tokens), tokens, {sid}, at)
    {
      ghost var before := tokens;
      ghost var goal := RevokeTokensOf(before, {sid}, at);
      var todo := tokens.Keys;
      while todo != {}
        invariant todo <= tokens.Keys == before.Keys
        invariant forall id | id in before :: tokens[id] == if id in todo then before[id] else goal[id]
        decreases todo
      {
        var id :| id in todo;
        var t := tokens[id];
        if t.session.Some? && t.session.value == sid && t.revokedAt.None? {
          tokens := tokens[id := t.(revokedAt := Some(at))];
        }
        todo := todo - {id};
      }
      assert tokens == goal;
    }
  }

  // ---- the hash index of the code store ----

  ghost predicate CodesIndexed(codes: Codes, byHash: map<string, Id>) {
    && (forall id {:trigger codes[id].hash} | id in codes :: codes[id].hash in byHash && byHash[codes[id].hash] == id)
    && (forall h {:trigger byHash[h]} | h in byHash :: byHash[h] in codes && codes[byHash[h]].hash == h)
  }

  predicate IsCodeFor(codes: Codes, hash: string, id: Id) {
    id in codes && codes[id].hash == hash
  }

  ghost function ScanCodes(codes: Codes, hash: string): (c: Option<Code>)
    ensures c.Some? ==> exists id :: IsCodeFor(codes, hash, id) && c.value == codes[id]
  {
    if exists id :: IsCodeFor(codes, hash, id) then
      var id :| IsCodeFor(codes, hash, id);
      Some(codes[id])
    else None
  }

  function CodeUnder(codes: Codes, byHash: map<string, Id>, hash: string): Option<Code> {
    if hash in byHash && byHash[hash] in codes then Some(codes[byHash[hash]]) else None
  }

  lemma CodeIndexIsScan(codes: Codes, byHash: map<string, Id>, hash: string)
    requires CodesIndexed(codes, byHash)
    ensures CodeUnder(codes, byHash, hash) == ScanCodes(codes, hash)
  {
    if exists id :: IsCodeFor(codes, hash, id) {
      var id :| IsCodeFor(codes, hash, id);
      assert codes[id].hash == hash;
    } else if hash in byHash {
      assert IsCodeFor(codes, hash, byHash[hash]);
    }
  }

  /** Storing keeps the index exact if and only if the id is new or keeps its hash, and the hash is new or keeps its id. */
  lemma StoringKeepsCodeIndex(codes: Codes, byHash: map<string, Id>, c: Code)
    requires CodesIndexed(codes, byHash)
    ensures CodesIndexed(codes[c.id := c], byHash[c.hash := c.id]) <==>
              (c.id in codes ==> codes[c.id].hash == c.hash) && (c.hash in byHash ==> byHash[c.hash] == c.id)
  {
    var codes', byHash' := codes[c.id := c], byHash[c.hash := c.id];
    if c.id in codes && codes[c.id].hash != c.hash {
      assert byHash'[codes[c.id].hash] == c.id;
      assert codes'[byHash'[codes[c.id].hash]].hash != codes[c.id].hash;
    } else if c.hash in byHash && byHash[c.hash] != c.id {
      assert codes'[byHash[c.hash]].hash == c.hash;
    }
  }

  class AuthorizationCodeStore {
    var codes: Codes
    var byHash: map<string, Id>

    ghost predicate Valid()
      reads this
    {
      && (forall id {:trigger codes[id].id} | id in codes :: codes[id].id == id)
      && (forall h {:trigger byHash[h]} | h in byHash :: byHash[h] in codes)
    }

    constructor ()
      ensures Valid() && codes == map[] && byHash == map[] && CodesIndexed(codes, byHash)
    {
      codes, byHash := map[], map[];
    }

    method Store(c: Option<Code>) returns (err: Option<StoreError>)
      requires Valid()
      modifies this
      ensures Valid()
      ensures err == if c.None? then Some(NilRecord) else if c.value.hash == "" then Some(EmptyHash) else None
      ensures err.Some? ==> codes == old(codes) && byHash == old(byHash)
      ensures err.None? ==> codes == old(codes)[c.value.id := c.value] && byHash == old(byHash)[c.value.hash := c.value.id]
      ensures err.None? && old(CodesIndexed(codes, byHash)) && FreshCode(old(codes), c.value.id, c.value.hash) ==> CodesIndexed(codes, byHash)
    {
      if c.None? {
        return Some(NilRecord);
      }
      if c.value.hash == "" {
        return Some(EmptyHash);
      }
      ghost var before, index := codes, byHash;
      codes := codes[c.value.id := c.value];
      byHash := byHash[c.value.hash := c.value.id];
      if CodesIndexed(before, index) {
        StoringKeepsCodeIndex(before, index, c.value);
      }
      return None;
    }

    method FindByHash(hash: string) returns (r: Option<Code>)
      requires Valid()
      ensures r == CodeUnder(codes, byHash, hash)
      ensures CodesIndexed(codes, byHash) ==> r == ScanCodes(codes, hash)
    {
      if CodesIndexed(codes, byHash) {
        CodeIndexIsScan(codes, byHash, hash);
      }
      if hash !in byHash {
        return None;
      }
      return Some(codes[byHash[hash]]);
    }

    method MarkConsumed(id: Id, at: Time) returns (won: bool, err: Option<StoreError>)
      requires Valid()
      modifies this`codes
      ensures Valid() && (old(CodesIndexed(codes, byHash)) ==> CodesIndexed(codes, byHash))
      ensures codes == ConsumeCode(old(codes), id, at)
      ensures won <==> id in old(codes) && old(codes)[id].consumedAt.None?
      ensures codes == if won then old(codes)[id := old(codes)[id].(consumedAt := Some(at))] else old(codes)
      ensures err == if id in old(codes) then None else Some(NotFound)
    {
      if id !in codes {
        return false, Some(NotFound);
      }
      var c := codes[id];
      if c.consumedAt.Some? {
        return false, None;
      }
      codes := codes[id := c.(consumedAt := Some(at))];
      return true, None;
    }
  }

  class SessionStore {
    var sessions: Sessions

    constructor ()
      ensures sessions == map[]
    {
      sessions := map[];
    }

    method Find(id: Id) returns (r: Option<Session>)
      ensures r == if id in sessions then Some(sessions[id]) else None
    {
      if id !in sessions {
        return None;
      }
      return Some(sessions[id]);
    }

    method Store(s: Option<Session>) returns (err: Option<StoreError>)
      modifies this
      ensures err == if s.None? then Some(NilRecord) else None
      ensures sessions == if s.None? then old(sessions) else old(sessions)[s.value.id := s.value]
    {
      if s.None? {
        return Some(NilRecord);
      }
      sessions := sessions[s.value.id := s.value];
      return None;
    }

    method Revoke(id: Id, at: Time) returns (err: Option<StoreError>)
      modifies this
      ensures sessions == RevokeSession(old(sessions), id, at)
      ensures if id in old(sessions) then SessionEnded(old(sessions), sessions, id, at) else sessions == old(sessions)
      ensures err == if id in old(sessions) then None else Some(NotFound)
    {
      if id !in sessions {
        return Some(NotFound);
      }
      var s := sessions[id];
      if s.revokedAt.Some? {
        return None;
      }
      sessions := sessions[id := s.(revokedAt := Some(at))];
      return None;
    }

    /** One pass over the map; the ids come back without repetition, in the order the map was walked. */
    method RevokeByUserIDExcept(user: string, keep: Id, at: Time) returns (revoked: seq<Id>)
      modifies this
      ensures sessions == RevokeSessions(old(sessions), Targets(old(sessions), user, keep, at), at)
      ensures forall id :: id in revoked <==> id in Targets(old(sessions), user, keep, at)
      ensures sessions.Keys == old(sessions).Keys && forall id | id in sessions ::
                sessions[id] == if id in revoked then old(sessions)[id].(revokedAt := Some(at)) else old(sessions)[id]
      ensures forall id :: id in revoked <==>
                && id in old(sessions) && id != keep && old(sessions)[id].userId == user
                && old(sessions)[id].revokedAt.None? && at < old(sessions)[id].expiresAt
      ensures forall i, j | 0 <= i < j < |revoked| :: revoked[i] != revoked[j]
    {
      ghost var before := sessions;
      ghost var goal := RevokeSessions(before, Targets(before, user, keep, at), at);
      revoked := [];
      var todo := sessions.Keys;
      while todo != {}
        invariant todo <= sessions.Keys == before.Keys
        invariant forall id | id in before :: sessions[id] == if id in todo then before[id] else goal[id]
        invariant forall id :: id in revoked <==> id in Targets(before, user, keep, at) && id !in todo
        invariant forall i, j | 0 <= i < j < |revoked| :: revoked[i] != revoked[j]
        decreases todo
      {
        var id :| id in todo;
        var s := sessions[id];
        todo := todo - {id};
        if s.userId == user && id != keep && s.revokedAt.None? && at < s.expiresAt {
          sessions := sessions[id := s.(revokedAt := Some(at))];
          assert id !in revoked;
          revoked := revoked + [id];
        }
      }
      assert sessions == goal;
    }
  }
}
