/** The store over its mutable tables and caches, proved against the functions of `Store`. */
module StoreEngine {
  import opened Wrappers
  import opened TtlCache
  import opened Store

  class GatewayStore {
    var routes: seq<Route>
    var keys: seq<KeyRow>
    const routeCache: Cache<Route>
    const authCache: Cache<AuthContext>

    constructor (routes: seq<Route>, keys: seq<KeyRow>, ttl: Ttl)
      ensures View() == Db(routes, keys, map[], map[]) && Ttls() == ttl
      ensures fresh(routeCache) && fresh(authCache)
    {
      this.routes, this.keys := routes, keys;
      routeCache := new Cache(ttl.route);
      authCache := new Cache(ttl.auth);
    }

    function View(): Db
      reads this, routeCache, authCache
    {
      Db(routes, keys, routeCache.m, authCache.m)
    }

    function Ttls(): Ttl {
      Ttl(authCache.ttl, routeCache.ttl)
    }

    method CreateRoute(r: Route, ok: bool, now: int) returns (res: Result<Route, StoreError>)
      modifies this, routeCache
      ensures (View(), res) == Store.CreateRoute(old(View()), Ttls(), r, ok, now)
    {
      var row := r.(strategy := if r.strategy == "" then "sequential" else r.strategy);
      if !ok {
        return Err(DbError);
      }
      if !Fresh(routes, row) {
        return Err(Conflict);
      }
      routes := routes + [row];
      routeCache.Store(RouteCacheKey(row.projectId, row.slug), row, now);
      res := Ok(row);
    }

    method GetRouteBySlug(
      p: Uuid, slug: string, ok: bool, now: int, later: int) returns (res: Result<Route, StoreError>)
      modifies routeCache
      ensures (View(), res) == Store.GetRouteBySlug(old(View()), Ttls(), p, slug, ok, now, later)
    {
      var key := RouteCacheKey(p, slug);
      var hit := routeCache.Lookup(key, now);
      if hit.Some? {
        return Ok(hit.value);
      }
      if !ok {
        return Err(DbError);
      }
      var row := FindRoute(routes, p, slug);
      if row.None? {
        return Err(NotFound);
      }
      routeCache.Store(key, row.value, later);
      res := Ok(row.value);
    }

    method UpdateRoute(p: Uuid, slug: string, strategy: string, config: string, model: string, ok: bool, now: int)
      returns (res: Result<Route, StoreError>)
      modifies this, routeCache
      ensures (View(), res) == Store.UpdateRoute(old(View()), Ttls(), p, slug, strategy, config, model, ok, now)
    {
      var strat := if strategy == "" then "sequential" else strategy;
      if !ok {
        return Err(DbError);
      }
      var found := FindRoute(routes, p, slug);
      if found.None? {
        return Err(NotFound);
      }
      var row := found.value.(strategy := strat, config := config, defaultModel := model);
      routes := Updated(routes, p, slug, strat, config, model);
      routeCache.Store(RouteCacheKey(p, slug), row, now);
      res := Ok(row);
    }

    method DeleteRoute(p: Uuid, slug: string, ok: bool, delOk: bool, now: int, later: int)
      returns (error: Option<StoreError>)
      modifies this, routeCache
      ensures (View(), error) == Store.DeleteRoute(old(View()), Ttls(), p, slug, ok, delOk, now, later)
    {
      var found := GetRouteBySlug(p, slug, ok, now, later);
      if found.Err? {
        return Some(found.error);
      }
      if !delOk {
        return Some(DbError);
      }
      var left := Without(routes, found.value.id, p);
      if |left| == |routes| {
        return Some(NotFound);
      }
      routes := left;
      routeCache.Delete(RouteCacheKey(p, slug));
      error := None;
    }

    method LookupByPlaintext(
      hash: string, ok: bool, now: int, later: int) returns (res: Result<AuthContext, StoreError>)
      modifies authCache
      ensures (View(), res) == LookupKey(old(View()), Ttls(), hash, ok, now, later)
    {
      var hit := authCache.Lookup(hash, now);
      if hit.Some? {
        return Ok(hit.value);
      }
      if !ok {
        return Err(DbError);
      }
      var row := FindKey(keys, hash);
      if row.None? {
        return Err(NotFound);
      }
      authCache.Store(hash, ContextOf(row.value), later);
      res := Ok(ContextOf(row.value));
    }

    method RevokeKey(p: Uuid, id: Uuid, ok: bool) returns (res: Result<string, StoreError>)
      modifies this, authCache
      ensures (View(), res) == Store.RevokeKey(old(View()), p, id, ok)
    {
      var hashes := Hashes(keys, ById(id, p));
      if !ok {
        return Err(DbError);
      }
      if hashes == [] {
        return Err(NotFound);
      }
      keys := Revoked(keys, ById(id, p));
      authCache.Delete(hashes[0]);
      res := Ok(hashes[0]);
    }

    // Evicts hash after hash as they are read; reading the `failAt`-th one fails.
    method Evict(hashes: seq<string>, failAt: Option<nat>) returns (n: nat, error: Option<StoreError>)
      modifies authCache
      ensures var failed := failAt.Some? && failAt.value < |hashes|;
        n == (if failed then failAt.value else |hashes|) && error == (if failed then Some(DbError) else None)
      ensures authCache.m == old(authCache.m) - Among(hashes[..n])
    {
      n := 0;
      while n < |hashes|
        invariant 0 <= n <= |hashes| && (failAt.Some? ==> n <= failAt.value)
        invariant authCache.m == old(authCache.m) - Among(hashes[..n])
      {
        if failAt == Some(n) {
          return n, Some(DbError);
        }
        assert hashes[..n + 1] == hashes[..n] + [hashes[n]];
        assert Among(hashes[..n + 1]) == Among(hashes[..n]) + {hashes[n]};
        authCache.Delete(hashes[n]);
        n := n + 1;
      }
      error := None;
    }

    /** Revokes every active key of a name and evicts their hashes. */
    method RevokeKeysByName(
      p: Uuid, name: string, ok: bool, failAt: Option<nat>) returns (n: nat, error: Option<StoreError>)
      modifies this, authCache
      ensures (View(), n, error) == Store.RevokeKeysByName(old(View()), p, name, ok, failAt)
    {
      if !ok {
        return 0, Some(DbError);
      }
      var hashes := Hashes(keys, ByName(p, name));
      keys := Revoked(keys, ByName(p, name));
      n, error := Evict(hashes, failAt);
    }
  }
}
