/**
 * The cache: a memcache or memcached client seen as a map from key to value and
 * expiration. The two clients agree on `get`, `add`, `replace` and `delete`.
 */
module Cache {
  import opened Php

  /** A cached value with the expiration it was stored with. */
  datatype Entry<V> = Entry(value: V, ttl: int)

  type Entries<V> = map<string, Entry<V>>

  /** The entries after `add`: it stores only when the key is absent and never overwrites. */
  function Added<V>(m: Entries<V>, key: string, value: V, ttl: int): (r: Entries<V>)
    ensures r.Keys == m.Keys + {key}
    ensures key in m ==> r == m
    ensures key !in m ==> r[key] == Entry(value, ttl)
    ensures forall k :: k in m && k != key ==> r[k] == m[k]
  {
    if key in m then m else m[key := Entry(value, ttl)]
  }

  /** The entries after `replace`: it stores only when the key is present. */
  function Replaced<V>(m: Entries<V>, key: string, value: V, ttl: int): (r: Entries<V>)
    ensures r.Keys == m.Keys
    ensures key in m ==> r[key] == Entry(value, ttl)
    ensures forall k :: k in m && k != key ==> r[k] == m[k]
  {
    if key in m then m[key := Entry(value, ttl)] else m
  }

  /** The entries after `delete`. */
  function Removed<V>(m: Entries<V>, key: string): (r: Entries<V>)
    ensures r.Keys == m.Keys - {key}
    ensures forall k :: k in r ==> r[k] == m[k]
  {
    m - {key}
  }

  /** `replace`, then `add` when `replace` reported no entry, always leaves exactly the new entry for the key. */
  lemma {:induction false} ReplaceElseAdd<V>(m: Entries<V>, key: string, value: V, ttl: int)
    ensures (if key in m then Replaced(m, key, value, ttl) else Added(m, key, value, ttl))
            == m[key := Entry(value, ttl)]
  {
    var r := if key in m then Replaced(m, key, value, ttl) else Added(m, key, value, ttl);
    assert r.Keys == m[key := Entry(value, ttl)].Keys;
    forall k | k in r ensures r[k] == m[key := Entry(value, ttl)][k] {
      if k == key {
        assert r[k] == Entry(value, ttl);
      }
    }
  }

  /**
   * A cache client holding strings. Each cache method takes `fail`: the call throws,
   * and the entries stay as they were.
   */
  class Client {
    var entries: Entries<string>

    constructor (initial: Entries<string>)
      ensures entries == initial
    {
      entries := initial;
    }

    /** `get`: the cached value, or None (FALSE) on a miss. */
    method Get(key: string, fail: bool) returns (r: Reply<Option<string>>)
      ensures fail ==> r == Thrown
      ensures !fail ==> r.Ok? && (r.value.Some? <==> key in entries)
      ensures !fail && key in entries ==> r.value.value == entries[key].value
    {
      if fail {
        r := Thrown;
      } else if key in entries {
        r := Ok(Some(entries[key].value));
      } else {
        r := Ok(None);
      }
    }

    /** `add`: reports whether it stored the value. */
    method Add(key: string, value: string, ttl: int, fail: bool) returns (r: Reply<bool>)
      modifies this
      ensures r == if fail then Thrown else Ok(key !in old(entries))
      ensures entries == if fail then old(entries) else Added(old(entries), key, value, ttl)
    {
      if fail {
        r := Thrown;
      } else {
        r := Ok(key !in entries);
        entries := Added(entries, key, value, ttl);
      }
    }

    /** `replace`: reports whether an entry existed and was replaced. */
    method Replace(key: string, value: string, ttl: int, fail: bool) returns (r: Reply<bool>)
      modifies this
      ensures r == if fail then Thrown else Ok(key in old(entries))
      ensures entries == if fail then old(entries) else Replaced(old(entries), key, value, ttl)
    {
      if fail {
        r := Thrown;
      } else {
        r := Ok(key in entries);
        entries := Replaced(entries, key, value, ttl);
      }
    }

    /** `delete`: reports whether an entry existed. */
    method Delete(key: string, fail: bool) returns (r: Reply<bool>)
      modifies this
      ensures r == if fail then Thrown else Ok(key in old(entries))
      ensures entries == if fail then old(entries) else Removed(old(entries), key)
    {
      if fail {
        r := Thrown;
      } else {
        r := Ok(key in entries);
        entries := Removed(entries, key);
      }
    }
  }
}
