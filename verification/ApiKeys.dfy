/** The API-key store: an index from key hashes to key ids, and the key records. */
module ApiKeys {
  import opened Prelude

  type KeyId = string
  type RawKey = string

  /** The salted hash of a raw key, taken to be injective. */
  datatype Hash = Hash(raw: RawKey)

  datatype KeyRecord = KeyRecord(id: KeyId, user: string, hash: Hash, scopes: seq<string>, lastUsed: Option<int>,
    active: bool)

  datatype Grant = Grant(id: KeyId, user: string, scopes: seq<string>)

  ghost predicate RecordFits(k: KeyRecord, raw: RawKey, grant: Grant, revoked: set<KeyId>) {
    && k.id == grant.id && k.user == grant.user && k.scopes == grant.scopes && k.hash == Hash(raw)
    && (k.active <==> k.id !in revoked)
  }

  ghost predicate Tied(store: map<KeyId, KeyRecord>, rawIndex: map<Hash, KeyId>, issued: map<RawKey, Grant>,
      revoked: set<KeyId>) {
    && (forall raw :: raw in issued <==> Hash(raw) in rawIndex)
    && (forall raw :: raw in issued ==> rawIndex[Hash(raw)] == issued[raw].id && issued[raw].id in store)
    && (forall raw :: raw in issued ==> RecordFits(store[issued[raw].id], raw, issued[raw], revoked))
    && (forall id :: id in store ==> store[id].hash.raw in issued && issued[store[id].hash.raw].id == id)
    && revoked <= store.Keys
  }

  lemma OneMoreKey(store: map<KeyId, KeyRecord>, rawIndex: map<Hash, KeyId>, issued: map<RawKey, Grant>,
                   revoked: set<KeyId>, raw: RawKey, k: KeyRecord)
    requires Tied(store, rawIndex, issued, revoked) && raw !in issued
    requires k.id !in store && k.hash == Hash(raw) && k.active
    ensures Tied(store[k.id := k], rawIndex[k.hash := k.id], issued[raw := Grant(k.id, k.user, k.scopes)], revoked)
  {}

  class KeyStore {
    var store: map<KeyId, KeyRecord>
    var rawIndex: map<Hash, KeyId>
    /** What was handed out for each raw key, and which keys were revoked. */
    ghost var issued: map<RawKey, Grant>
    ghost var revoked: set<KeyId>

    /** Index and store mention the same keys, and every record is what was handed out. */
    ghost predicate Valid()
      reads this
    {
      Tied(store, rawIndex, issued, revoked)
    }

    constructor ()
      ensures Valid() && issued == map[] && revoked == {}
    {
      store, rawIndex, issued, revoked := map[], map[], map[], {};
    }

    /** A new key; without scopes it may read.  Neither its id nor its raw key has been used before. */
    method CreateApiKey(user: string, scopes: seq<string>, id: KeyId, raw: RawKey) returns (grant: Grant)
      requires Valid() && id !in store && raw !in issued
      modifies this
      ensures Valid() && revoked == old(revoked) && issued == old(issued)[raw := grant]
      ensures grant == Grant(id, user, if scopes == [] then ["read"] else scopes)
    {
      var granted := if scopes == [] then ["read"] else scopes;
      grant := Grant(id, user, granted);
      OneMoreKey(store, rawIndex, issued, revoked, raw, KeyRecord(id, user, Hash(raw), granted, None, true));
      hide Tied;
      store := store[id := KeyRecord(id, user, Hash(raw), granted, None, true)];
      rawIndex := rawIndex[Hash(raw) := id];
      issued := issued[raw := grant];
    }

    /** A key is good for its own user and scopes from its creation until its revocation, and for nothing else. */
    method ValidateApiKey(raw: RawKey, now: int) returns (grant: Option<Grant>)
      requires Valid()
      modifies this`store
      ensures Valid()
      ensures grant == if raw in issued && issued[raw].id !in revoked then Some(issued[raw]) else None
      ensures store.Keys == old(store.Keys)
      ensures forall id :: id in store ==>
        store[id] == if grant.Some? && id == grant.value.id then old(store[id]).(lastUsed := Some(now))
          else old(store[id])
    {
      if Hash(raw) !in rawIndex {
        return None;
      }
      var id := rawIndex[Hash(raw)];
      if id !in store || !store[id].active {
        return None;
      }
      store := store[id := store[id].(lastUsed := Some(now))];
      return Some(Grant(store[id].id, store[id].user, store[id].scopes));
    }

    /** Revocation is for good: the set of revoked keys only grows. */
    method RevokeApiKey(id: KeyId) returns (known: bool)
      requires Valid()
      modifies this
      ensures Valid() && issued == old(issued)
      ensures known <==> exists raw :: raw in issued && issued[raw].id == id
      ensures revoked == if known then old(revoked) + {id} else old(revoked)
    {
      if id !in store {
        return false;
      }
      assert store[id].hash.raw in issued;
      store := store[id := store[id].(active := false)];
      revoked := revoked + {id};
      return true;
    }
  }
}
