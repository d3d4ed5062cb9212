/** A cache whose entries expire. Keys are strings; instants are integers. */
module TtlCache {
  import opened Wrappers

  datatype Entry<V> = Entry(v: V, exp: int)

  type Table<V> = map<string, Entry<V>>

  // The live entry of a key, if any, and the table without it if it has expired.
  function Get<V>(t: Table<V>, ttl: int, key: string, now: int): (Table<V>, Option<V>) {
    if ttl <= 0 || key !in t then (t, None)
    else if now > t[key].exp then (t - {key}, None)
    else (t, Some(t[key].v))
  }

  function Set<V>(t: Table<V>, ttl: int, key: string, v: V, now: int): Table<V> {
    if ttl <= 0 then t else t[key := Entry(v, now + ttl)]
  }

  class Cache<V(==)> {
    const ttl: int
    var m: Table<V>

    constructor (ttl: int)
      ensures this.ttl == ttl && m == map[]
    {
      this.ttl := ttl;
      m := map[];
    }

    method Lookup(key: string, now: int) returns (v: Option<V>)
      modifies this
      ensures (m, v) == Get(old(m), ttl, key, now)
    {
      if ttl <= 0 || key !in m {
        return None;
      }
      var e := m[key];
      if now > e.exp {
        m := m - {key};
        return None;
      }
      v := Some(e.v);
    }

    method Store(key: string, v: V, now: int)
      modifies this
      ensures m == Set(old(m), ttl, key, v, now)
    {
      if ttl > 0 {
        m := m[key := Entry(v, now + ttl)];
      }
    }

    method Delete(key: string)
      modifies this
      ensures m == old(m) - {key}
    {
      m := m - {key};
    }
  }

  /** An entry lives until its time to live is over, and no other key is affected; a cache
      without a time to live has no entries. */
  lemma {:induction false} LivesForTtl<V>(
    t: Table<V>, ttl: int, key: string, v: V, at: int, other: string, now: int)
    ensures Get(Set(t, ttl, key, v, at), ttl, key, now).1 == if ttl > 0 && now <= at + ttl then Some(v) else None
    ensures other != key ==> Get(Set(t, ttl, key, v, at), ttl, other, now).1 == Get(t, ttl, other, now).1
    ensures Get(t, ttl, key, now).1.None? ==> ttl > 0 ==> key !in Get(t, ttl, key, now).0
  {
  }
}
