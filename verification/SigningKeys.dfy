/** The signing key store and the manager that rotates the active key. */
module SigningKeys {
  import opened Domain

  datatype SigningKey = SigningKey(kid: string, publicKey: string, createdAt: Time, isActive: bool, retiredAt: Option<Time>) {
    function Retired(at: Time): SigningKey {
      this.(isActive := false, retiredAt := Some(at))
    }
  }

  type Keys = map<string, SigningKey>

  predicate IsActive(keys: Keys, kid: string) {
    kid in keys && keys[kid].isActive
  }

  function ActiveKids(keys: Keys): set<string> {
    set kid | kid in keys && IsActive(keys, kid)
  }

  /** What a verifier of tokens is shown: every key, active or retired, under its id. */
  function Published(keys: Keys): set<(string, string)> {
    set kid | kid in keys :: (kid, keys[kid].publicKey)
  }

  datatype KeyError = NilKey | EmptyKeyId

  class SigningKeyStore {
    var keys: Keys
    var order: seq<string>

    /** `order` lists each stored key once. */
    ghost predicate Valid()
      reads this
    {
      && (forall kid :: kid in keys <==> kid in order)
      && (forall i, j | 0 <= i < j < |order| :: order[i] != order[j])
      && (forall kid | kid in keys :: keys[kid].kid == kid && kid != "")
    }

    constructor ()
      ensures Valid() && keys == map[]
    {
      keys, order := map[], [];
    }

    /** The active key stored first, if any is active. */
    method GetActive() returns (k: Option<SigningKey>)
      requires Valid()
      ensures k.None? <==> ActiveKids(keys) == {}
      ensures k.Some? ==> IsActive(keys, k.value.kid) && k.value == keys[k.value.kid]
      ensures k.Some? ==> exists i | 0 <= i < |order| ::
                order[i] == k.value.kid && forall j | 0 <= j < i :: !IsActive(keys, order[j])
    {
      for i := 0 to |order|
        invariant forall j | 0 <= j < i :: !IsActive(keys, order[j])
      {
        if keys[order[i]].isActive {
          assert order[i] in ActiveKids(keys);
          return Some(keys[order[i]]);
        }
      }
      return None;
    }

    method GetAll() returns (all: seq<SigningKey>)
      requires Valid()
      ensures |all| == |order| && forall i | 0 <= i < |all| :: all[i] == keys[order[i]]
    {
      all := [];
      for i := 0 to |order|
        invariant |all| == i && forall j | 0 <= j < i :: all[j] == keys[order[j]]
      {
        all := all + [keys[order[i]]];
      }
    }

    method Store(k: Option<SigningKey>) returns (err: Option<KeyError>)
      requires Valid()
      modifies this
      ensures Valid()
      ensures err == if k.None? then Some(NilKey) else if k.value.kid == "" then Some(EmptyKeyId) else None
      ensures keys == if err.None? then old(keys)[k.value.kid := k.value] else old(keys)
      ensures order == if err.None? && k.value.kid !in old(keys) then old(order) + [k.value.kid] else old(order)
    {
      if k.None? {
        return Some(NilKey);
      }
      if k.value.kid == "" {
        return Some(EmptyKeyId);
      }
      if k.value.kid !in keys {
        order := order + [k.value.kid];
      }
      keys := keys[k.value.kid := k.value];
      return None;
    }
  }

  // ---- the key manager ----

  /** A new key pair under a random id. */
  method GenerateActive(store: SigningKeyStore, kid: string, publicKey: string, now: Time) returns (k: SigningKey)
    requires store.Valid() && kid != ""
    modifies store
    ensures store.Valid() && k == SigningKey(kid, publicKey, now, true, None)
    ensures store.keys == old(store.keys)[kid := k]
  {
    k := SigningKey(kid, publicKey, now, true, None);
    var _ := store.Store(Some(k));
  }

  /** Which of the manager's store calls fail: the read, the write of a new key, the write that retires the old one. */
  datatype Faults = Faults(read: bool, store: bool, retire: bool)

  /** The active key if there is one; a new one is made only when the store says that none is active. */
  method EnsureActiveKey(store: SigningKeyStore, kid: string, publicKey: string, now: Time, faults: Faults)
    returns (k: Option<SigningKey>)
    requires store.Valid() && kid != ""
    modifies store
    ensures store.Valid()
    ensures k.None? <==> faults.read || (ActiveKids(old(store.keys)) == {} && faults.store)
    ensures k.Some? ==> IsActive(store.keys, k.value.kid) && store.keys[k.value.kid] == k.value
    ensures store.keys == if k.Some? && ActiveKids(old(store.keys)) == {} then old(store.keys)[kid := k.value] else old(store.keys)
    ensures k.Some? && ActiveKids(old(store.keys)) == {} ==> k.value == SigningKey(kid, publicKey, now, true, None)
  {
    if faults.read {
      return None;
    }
    var active := store.GetActive();
    if active.Some? {
      return active;
    }
    if faults.store {
      return None;
    }
    var made := GenerateActive(store, kid, publicKey, now);
    return Some(made);
  }

  /** Stores the new key first and then retires the key that was active before. A failure in between is an error that
      leaves both keys active. */
  method Rotate(store: SigningKeyStore, kid: string, publicKey: string, now: Time, faults: Faults)
    returns (answer: Option<SigningKey>, ghost previous: Option<SigningKey>)
    requires store.Valid() && kid != "" && kid !in store.keys
    modifies store
    ensures store.Valid()
    ensures !faults.read ==> (previous.None? <==> ActiveKids(old(store.keys)) == {})
    ensures previous.Some? ==> IsActive(old(store.keys), previous.value.kid) && previous.value == old(store.keys)[previous.value.kid]
    ensures answer == if Fails(previous, faults) then None else Some(SigningKey(kid, publicKey, now, true, None))
    ensures store.keys == Rotated(old(store.keys), previous, SigningKey(kid, publicKey, now, true, None), now, faults)
    ensures faults.read || faults.store ==> store.keys == old(store.keys)
    ensures !faults.read && !faults.store ==>
              var grown := old(store.keys)[kid := SigningKey(kid, publicKey, now, true, None)];
              store.keys == if previous.None? || faults.retire then grown
                            else
                              var k := previous.value;
                              grown[k.kid := SigningKey(k.kid, k.publicKey, k.createdAt, false, Some(now))]
  {
    previous := None;
    if faults.read {
      return None, None;
    }
    var active := store.GetActive();
    previous := active;
    if faults.store {
      return None, previous;
    }
    var next := GenerateActive(store, kid, publicKey, now);
    if active.Some? {
      if faults.retire {
        return None, previous;
      }
      var _ := store.Store(Some(active.value.Retired(now)));
    }
    return Some(next), previous;
  }

  predicate Fails(previous: Option<SigningKey>, faults: Faults) {
    faults.read || faults.store || (previous.Some? && faults.retire)
  }

  function Rotated(keys: Keys, previous: Option<SigningKey>, next: SigningKey, now: Time, faults: Faults): Keys {
    if faults.read || faults.store then keys
    else if previous.None? || faults.retire then keys[next.kid := next]
    else keys[next.kid := next][previous.value.kid := previous.value.Retired(now)]
  }

  method PublicJWKSet(store: SigningKeyStore) returns (jwks: set<(string, string)>)
    requires store.Valid()
    ensures jwks == Published(store.keys)
    ensures forall kid, publicKey :: (kid, publicKey) in jwks <==> kid in store.keys && store.keys[kid].publicKey == publicKey
  {
    var all := store.GetAll();
    jwks := {};
    for i := 0 to |all|
      invariant jwks == set j | 0 <= j < i :: (all[j].kid, all[j].publicKey)
    {
      jwks := jwks + {(all[i].kid, all[i].publicKey)};
    }
    assert forall kid | kid in store.keys :: exists j | 0 <= j < |all| :: store.order[j] == kid && all[j] == store.keys[kid];
  }
}
