/** The keyed container `ol.TileCache` as the canvas source uses it:
    `containsKey`, `get`, `set`, `canExpireCache` and `expireCache`. Its
    capacity test and its choice of entries to evict are an injected
    policy; the container itself only ever evicts, never adds or rebinds,
    when it expires. */
module TileCache {

  type Key = string

  /** The container's eviction policy: whether it is over capacity, and
      which keys it evicts given the entries and the keys in use. */
  datatype Policy<!V> = Policy(
    canExpire: map<Key, V> -> bool,
    evict: (map<Key, V>, set<Key>) -> set<Key>)

  datatype Cache<!V> = Cache(entries: map<Key, V>, policy: Policy<V>)

  /** `new ol.TileCache()`: empty. */
  function NewCache<V>(policy: Policy<V>): (c: Cache<V>)
    ensures c.entries == map[] && c.policy == policy
  {
    Cache(map[], policy)
  }

  /** `containsKey(key)`: whether some tile is stored under `key`. */
  function ContainsKey<V>(c: Cache<V>, key: Key): (b: bool)
    ensures b <==> key in c.entries.Keys
  {
    key in c.entries
  }

  /** `get(key)`: the tile stored under `key`. */
  function Get<V>(c: Cache<V>, key: Key): (v: V)
    requires ContainsKey(c, key)
    ensures key in c.entries && v == c.entries[key]
  {
    c.entries[key]
  }

  /** `set(key, value)`: afterwards `get(key)` answers `value`, and every
      other entry is as before. */
  function Set<V>(c: Cache<V>, key: Key, value: V): (r: Cache<V>)
    ensures ContainsKey(r, key) && Get(r, key) == value
    ensures r.entries.Keys == c.entries.Keys + {key}
    ensures forall k :: k in c.entries && k != key ==> r.entries[k] == c.entries[k]
    ensures r.policy == c.policy
  {
    Cache(c.entries[key := value], c.policy)
  }

  /** Whether the container is over capacity, by its own policy. */
  function CanExpireCache<V>(c: Cache<V>): (b: bool)
    ensures b <==> c.policy.canExpire(c.entries)
  {
    c.policy.canExpire(c.entries)
  }

  /** `expireCache(usedTiles)`: drops the entries the policy chooses and
      keeps every other entry unchanged. */
  function ExpireCache<V>(c: Cache<V>, usedTiles: set<Key>): (r: Cache<V>)
    ensures r.entries.Keys == c.entries.Keys - c.policy.evict(c.entries, usedTiles)
    ensures forall k :: k in r.entries ==> k in c.entries && r.entries[k] == c.entries[k]
    ensures r.policy == c.policy
  {
    Cache(c.entries - c.policy.evict(c.entries, usedTiles), c.policy)
  }
}
