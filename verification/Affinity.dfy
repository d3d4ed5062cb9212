/** Sticky sessions: session keys to the account that served them last, with expiry. */
module Affinity {
  import opened Wrappers
  import opened Router

  datatype Entry = Entry(accountId: nat, expires: int)

  type Table = map<string, Entry>

  const DEFAULT_TTL: int := HOUR

  predicate Expired(t: Table, key: string, now: int) {
    key in t && now > t[key].expires
  }

  // The account of a live entry; an expired entry is dropped.
  function AccountFor(t: Table, key: string, now: int): (Table, Option<nat>) {
    if key == "" || key !in t then (t, None)
    else if Expired(t, key, now) then (t - {key}, None)
    else (t, Some(t[key].accountId))
  }

  function Stick(t: Table, ttl: int, key: string, id: nat, now: int): Table {
    if key == "" || id == NIL_ID then t else t[key := Entry(id, now + ttl)]
  }

  class SessionAffinity {
    const ttl: int
    var m: Table

    constructor (ttl: int)
      ensures m == map[]
      ensures this.ttl > 0
      ensures ttl > 0 ==> this.ttl == ttl
    {
      this.ttl := if ttl <= 0 then DEFAULT_TTL else ttl;
      m := map[];
    }

    method Get(key: string, now: int) returns (id: Option<nat>)
      modifies this
      ensures (m, id) == AccountFor(old(m), key, now)
    {
      if key == "" || key !in m {
        return None;
      }
      if now > m[key].expires {
        m := m - {key};
        return None;
      }
      id := Some(m[key].accountId);
    }

    method Set(key: string, id: nat, now: int)
      modifies this
      ensures m == Stick(old(m), ttl, key, id, now)
    {
      if key == "" || id == NIL_ID {
        return;
      }
      m := m[key := Entry(id, now + ttl)];
    }
  }

  /** A session sticks to its account for exactly the time to live, and to no other
      account or key. */
  lemma {:induction false} SticksForTtl(t: Table, ttl: int, key: string, id: nat, at: int, other: string, now: int)
    requires key != "" && id != NIL_ID
    ensures AccountFor(Stick(t, ttl, key, id, at), key, now).1 == if now <= at + ttl then Some(id) else None
    ensures other != key ==> AccountFor(Stick(t, ttl, key, id, at), other, now).1 == AccountFor(t, other, now).1
  {
  }

  /** A request without a session, and the nil account, stick to nothing. */
  lemma {:induction false} NobodySticks(t: Table, ttl: int, key: string, id: nat, now: int)
    ensures key == "" || id == NIL_ID ==> Stick(t, ttl, key, id, now) == t
    ensures AccountFor(t, "", now) == (t, None)
    ensures key in t && now > t[key].expires && key != "" ==> AccountFor(t, key, now).0 == t - {key}
  {
  }
}
