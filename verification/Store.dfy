/**
 The store's routes and keys with the caches in front of them. Tables are lists of rows;
 a statement that fails has no effect.
 */
module Store {
  import opened Wrappers
  import opened TtlCache

  const UUID_LENGTH: nat := 36

  // The canonical text of a UUID.
  type Uuid = s: string | |s| == UUID_LENGTH witness "00000000-0000-0000-0000-000000000000"

  datatype Route =
    Route(id: Uuid, projectId: Uuid, slug: string, strategy: string, config: string, defaultModel: string)

  datatype KeyRow = KeyRow(hash: string, id: Uuid, projectId: Uuid, name: string, prefix: string, active: bool)

  datatype AuthContext = AuthContext(keyId: Uuid, projectId: Uuid, name: string, prefix: string)

  // The two tables and the two caches.
  datatype Db = Db(routes: seq<Route>, keys: seq<KeyRow>, routeCache: Table<Route>, authCache: Table<AuthContext>)

  datatype Ttl = Ttl(auth: int, route: int)

  datatype StoreError = NotFound | DbError | Conflict

  function RouteCacheKey(projectId: Uuid, slug: string): string {
    projectId + "|" + slug
  }

  /** No two routes share a cache key: the project's part has a fixed length. */
  lemma {:induction false} RouteCacheKeyInjective(p: Uuid, s: string, q: Uuid, t: string)
    ensures RouteCacheKey(p, s) == RouteCacheKey(q, t) <==> p == q && s == t
  {
    var a, b := RouteCacheKey(p, s), RouteCacheKey(q, t);
    if a == b {
      assert p == a[..UUID_LENGTH] == b[..UUID_LENGTH] == q;
      assert s == a[UUID_LENGTH + 1..] == b[UUID_LENGTH + 1..] == t;
    }
  }

  // ---------------------------------------------------------------------------
  // Routes
  // ---------------------------------------------------------------------------

  predicate Named(r: Route, projectId: Uuid, slug: string) {
    r.projectId == projectId && r.slug == slug
  }

  // SELECT ... WHERE project_id = ? AND slug = ?
  function FindRoute(routes: seq<Route>, projectId: Uuid, slug: string): (r: Option<Route>)
    ensures r.Some? ==> r.value in routes && Named(r.value, projectId, slug)
    ensures r.None? ==> forall i :: 0 <= i < |routes| ==> !Named(routes[i], projectId, slug)
  {
    if routes == [] then None
    else if Named(routes[0], projectId, slug) then Some(routes[0])
    else FindRoute(routes[1..], projectId, slug)
  }

  // The primary key, and the unique (project, slug).
  predicate UniqueRoutes(routes: seq<Route>) {
    forall i, j :: 0 <= i < j < |routes| ==>
      routes[i].id != routes[j].id && !Named(routes[j], routes[i].projectId, routes[i].slug)
  }

  function Fresh(routes: seq<Route>, r: Route): bool {
    forall i :: 0 <= i < |routes| ==> routes[i].id != r.id && !Named(routes[i], r.projectId, r.slug)
  }

  function CreateRoute(db: Db, ttl: Ttl, r: Route, ok: bool, now: int): (Db, Result<Route, StoreError>) {
    var row := r.(strategy := if r.strategy == "" then "sequential" else r.strategy);
    if !ok then (db, Err(DbError))
    else if !Fresh(db.routes, row) then (db, Err(Conflict))
    else
      (db.(routes := db.routes + [row],
           routeCache := Set(db.routeCache, ttl.route, RouteCacheKey(row.projectId, row.slug), row, now)),
       Ok(row))
  }

  // `now` is read by the cache, `later` when the row is cached.
  function GetRouteBySlug(db: Db, ttl: Ttl, p: Uuid, slug: string, ok: bool, now: int, later: int)
    : (Db, Result<Route, StoreError>)
  {
    var key := RouteCacheKey(p, slug);
    var (cache, hit) := Get(db.routeCache, ttl.route, key, now);
    if hit.Some? then (db.(routeCache := cache), Ok(hit.value))
    else
      var row := FindRoute(db.routes, p, slug);
      if !ok then (db.(routeCache := cache), Err(DbError))
      else if row.None? then (db.(routeCache := cache), Err(NotFound))
      else (db.(routeCache := Set(cache, ttl.route, key, row.value, later)), Ok(row.value))
  }

  // UPDATE routes ... WHERE project_id = ? AND slug = ?
  function Updated(
    routes: seq<Route>, p: Uuid, slug: string, strategy: string, config: string, model: string): (out: seq<Route>)
    ensures |out| == |routes|
  {
    seq(|routes|, i requires 0 <= i < |routes| =>
      if Named(routes[i], p, slug) then routes[i].(strategy := strategy, config := config, defaultModel := model)
      else routes[i])
  }

  function UpdateRoute(
    db: Db, ttl: Ttl, p: Uuid, slug: string, strategy: string, config: string, model: string, ok: bool, now: int)
    : (Db, Result<Route, StoreError>)
  {
    var strat := if strategy == "" then "sequential" else strategy;
    if !ok then (db, Err(DbError))
    else if FindRoute(db.routes, p, slug).None? then (db, Err(NotFound))
    else
      var row := FindRoute(db.routes, p, slug).value.(strategy := strat, config := config, defaultModel := model);
      (db.(routes := Updated(db.routes, p, slug, strat, config, model),
           routeCache := Set(db.routeCache, ttl.route, RouteCacheKey(p, slug), row, now)),
       Ok(row))
  }

  // DELETE FROM routes WHERE id = ? AND project_id = ?
  function Without(routes: seq<Route>, id: Uuid, p: Uuid): seq<Route> {
    if routes == [] then []
    else (if routes[0].id == id && routes[0].projectId == p then [] else [routes[0]]) + Without(routes[1..], id, p)
  }

  function DeleteRoute(db: Db, ttl: Ttl, p: Uuid, slug: string, ok: bool, delOk: bool, now: int, later: int)
    : (Db, Option<StoreError>)
  {
    var (db', found) := GetRouteBySlug(db, ttl, p, slug, ok, now, later);
    if found.Err? then (db', Some(found.error))
    else if !delOk then (db', Some(DbError))
    else
      var left := Without(db'.routes, found.value.id, p);
      if |left| == |db'.routes| then (db', Some(NotFound))
      else (db'.(routes := left, routeCache := db'.routeCache - {RouteCacheKey(p, slug)}), None)
  }

  // Every cached route, live or expired, is the row it was read from.
  ghost predicate RouteCacheAgrees(db: Db) {
    && UniqueRoutes(db.routes)
    && forall p: Uuid, slug: string :: RouteCacheKey(p, slug) in db.routeCache ==>
         FindRoute(db.routes, p, slug) == Some(db.routeCache[RouteCacheKey(p, slug)].v)
  }

  lemma {:induction false} FindRouteAt(routes: seq<Route>, i: nat)
    requires UniqueRoutes(routes) && i < |routes|
    ensures FindRoute(routes, routes[i].projectId, routes[i].slug) == Some(routes[i])
  {
    var r := FindRoute(routes, routes[i].projectId, routes[i].slug);
    if r.Some? {
      var j :| 0 <= j < |routes| && routes[j] == r.value;
      assert i == j;
    }
  }

  lemma {:induction false} FindRouteIs(routes: seq<Route>, p: Uuid, slug: string, r: Route)
    requires UniqueRoutes(routes) && r in routes && Named(r, p, slug)
    ensures FindRoute(routes, p, slug) == Some(r)
  {
    var i :| 0 <= i < |routes| && routes[i] == r;
    FindRouteAt(routes, i);
  }

  lemma {:induction false} NoRouteNamed(routes: seq<Route>, p: Uuid, slug: string)
    requires forall i :: 0 <= i < |routes| ==> !Named(routes[i], p, slug)
    ensures FindRoute(routes, p, slug) == None
  {
    var r := FindRoute(routes, p, slug);
  }

  // A route added, or none: what a lookup then finds.
  lemma {:induction false} FindAfterAppend(routes: seq<Route>, row: Route, p: Uuid, slug: string)
    requires UniqueRoutes(routes) && Fresh(routes, row)
    ensures UniqueRoutes(routes + [row])
    ensures FindRoute(routes + [row], p, slug) == if Named(row, p, slug) then Some(row) else FindRoute(routes, p, slug)
  {
    var more := routes + [row];
    assert UniqueRoutes(more);
    assert more[|routes|] == row;
    if Named(row, p, slug) {
      FindRouteIs(more, p, slug, row);
    } else if FindRoute(routes, p, slug).Some? {
      var r := FindRoute(routes, p, slug).value;
      assert r in more;
      FindRouteIs(more, p, slug, r);
    } else {
      assert forall i :: 0 <= i < |more| ==> !Named(more[i], p, slug);
      NoRouteNamed(more, p, slug);
    }
  }

  lemma {:induction false} FindAfterUpdate(
    routes: seq<Route>, p: Uuid, slug: string, strategy: string, config: string, model: string, q: Uuid, t: string)
    requires UniqueRoutes(routes) && FindRoute(routes, p, slug).Some?
    ensures var out := Updated(routes, p, slug, strategy, config, model);
      && UniqueRoutes(out)
      && FindRoute(out, q, t) ==
         if q == p && t == slug
         then Some(FindRoute(routes, p, slug).value.(strategy := strategy, config := config, defaultModel := model))
         else FindRoute(routes, q, t)
  {
    var out := Updated(routes, p, slug, strategy, config, model);
    assert UniqueRoutes(out);
    var was := FindRoute(routes, q, t);
    if was.Some? {
      var i :| 0 <= i < |routes| && routes[i] == was.value;
      assert out[i] in out && Named(out[i], q, t);
      FindRouteIs(out, q, t, out[i]);
    } else {
      assert forall i :: 0 <= i < |out| ==> !Named(out[i], q, t);
      NoRouteNamed(out, q, t);
    }
  }

  lemma {:induction false} WithoutKeeps(routes: seq<Route>, id: Uuid, p: Uuid)
    ensures forall r :: r in Without(routes, id, p) <==> r in routes && !(r.id == id && r.projectId == p)
    ensures UniqueRoutes(routes) ==> UniqueRoutes(Without(routes, id, p))
  {
    if routes != [] {
      var rest := Without(routes[1..], id, p);
      WithoutKeeps(routes[1..], id, p);
      assert routes == [routes[0]] + routes[1..];
      if UniqueRoutes(routes) {
        assert UniqueRoutes(routes[1..]) by {
          assert forall i :: 0 <= i < |routes[1..]| ==> routes[1..][i] == routes[i + 1];
        }
        forall j | 0 <= j < |rest|
          ensures routes[0].id != rest[j].id && !Named(rest[j], routes[0].projectId, routes[0].slug)
        {
          assert rest[j] in routes[1..];
          var k :| 0 <= k < |routes[1..]| && routes[1..][k] == rest[j];
          assert routes[k + 1] == rest[j];
        }
      }
    }
  }

  lemma {:induction false} CreateAgrees(db: Db, ttl: Ttl, r: Route, ok: bool, now: int)
    requires RouteCacheAgrees(db)
    ensures RouteCacheAgrees(CreateRoute(db, ttl, r, ok, now).0)
  {
    var row := r.(strategy := if r.strategy == "" then "sequential" else r.strategy);
    var db' := CreateRoute(db, ttl, r, ok, now).0;
    if ok && Fresh(db.routes, row) {
      FindAfterAppend(db.routes, row, row.projectId, row.slug);
      forall p: Uuid, slug: string | RouteCacheKey(p, slug) in db'.routeCache
        ensures FindRoute(db'.routes, p, slug) == Some(db'.routeCache[RouteCacheKey(p, slug)].v)
      {
        FindAfterAppend(db.routes, row, p, slug);
        RouteCacheKeyInjective(p, slug, row.projectId, row.slug);
      }
    }
  }

  lemma {:induction false} GetAgrees(db: Db, ttl: Ttl, p: Uuid, slug: string, ok: bool, now: int, later: int)
    requires RouteCacheAgrees(db)
    ensures RouteCacheAgrees(GetRouteBySlug(db, ttl, p, slug, ok, now, later).0)
    ensures GetRouteBySlug(db, ttl, p, slug, ok, now, later).0.routes == db.routes
    ensures GetRouteBySlug(db, ttl, p, slug, ok, now, later).1.Ok? ==>
              FindRoute(db.routes, p, slug) == Some(GetRouteBySlug(db, ttl, p, slug, ok, now, later).1.value)
  {
    var db' := GetRouteBySlug(db, ttl, p, slug, ok, now, later).0;
    forall q: Uuid, t: string | RouteCacheKey(q, t) in db'.routeCache
      ensures FindRoute(db'.routes, q, t) == Some(db'.routeCache[RouteCacheKey(q, t)].v)
    {
      RouteCacheKeyInjective(p, slug, q, t);
    }
  }

  lemma {:induction false} UpdateAgrees(
    db: Db, ttl: Ttl, p: Uuid, slug: string, strategy: string, config: string, model: string, ok: bool, now: int)
    requires RouteCacheAgrees(db) && (ttl.route > 0 || db.routeCache == map[])
    ensures RouteCacheAgrees(UpdateRoute(db, ttl, p, slug, strategy, config, model, ok, now).0)
  {
    var strat := if strategy == "" then "sequential" else strategy;
    var db' := UpdateRoute(db, ttl, p, slug, strategy, config, model, ok, now).0;
    if ok && FindRoute(db.routes, p, slug).Some? {
      FindAfterUpdate(db.routes, p, slug, strat, config, model, p, slug);
      forall q: Uuid, t: string | RouteCacheKey(q, t) in db'.routeCache
        ensures FindRoute(db'.routes, q, t) == Some(db'.routeCache[RouteCacheKey(q, t)].v)
      {
        FindAfterUpdate(db.routes, p, slug, strat, config, model, q, t);
        RouteCacheKeyInjective(p, slug, q, t);
      }
    }
  }

  lemma {:induction false} DeleteAgrees(
    db: Db, ttl: Ttl, p: Uuid, slug: string, ok: bool, delOk: bool, now: int, later: int)
    requires RouteCacheAgrees(db)
    ensures RouteCacheAgrees(DeleteRoute(db, ttl, p, slug, ok, delOk, now, later).0)
  {
    var (mid, found) := GetRouteBySlug(db, ttl, p, slug, ok, now, later);
    GetAgrees(db, ttl, p, slug, ok, now, later);
    var db' := DeleteRoute(db, ttl, p, slug, ok, delOk, now, later).0;
    if found.Ok? && delOk && |Without(mid.routes, found.value.id, p)| != |mid.routes| {
      WithoutKeeps(mid.routes, found.value.id, p);
      forall q: Uuid, t: string | RouteCacheKey(q, t) in db'.routeCache
        ensures FindRoute(db'.routes, q, t) == Some(db'.routeCache[RouteCacheKey(q, t)].v)
      {
        RouteCacheKeyInjective(p, slug, q, t);
        OtherRouteStays(mid.routes, found.value, q, t);
      }
    }
  }

  lemma {:induction false} OtherRouteStays(routes: seq<Route>, r: Route, q: Uuid, t: string)
    requires UniqueRoutes(routes) && r in routes && !Named(r, q, t) && FindRoute(routes, q, t).Some?
    ensures FindRoute(Without(routes, r.id, r.projectId), q, t) == FindRoute(routes, q, t)
  {
    var row := FindRoute(routes, q, t).value;
    WithoutKeeps(routes, r.id, r.projectId);
    var i :| 0 <= i < |routes| && routes[i] == row;
    var j :| 0 <= j < |routes| && routes[j] == r;
    assert i != j;
    assert row.id != r.id;
    FindRouteIs(Without(routes, r.id, r.projectId), q, t, row);
  }

  // What happens to the routes of a running gateway.
  datatype RouteEvent =
    | Create(r: Route, ok: bool, now: int)
    | Lookup(p: Uuid, slug: string, ok: bool, now: int, later: int)
    | Update(p: Uuid, slug: string, strategy: string, config: string, model: string, ok: bool, now: int)
    | Delete(p: Uuid, slug: string, ok: bool, delOk: bool, now: int, later: int)

  function Happen(db: Db, ttl: Ttl, e: RouteEvent): Db {
    match e
    case Create(r, ok, now) => CreateRoute(db, ttl, r, ok, now).0
    case Lookup(p, slug, ok, now, later) => GetRouteBySlug(db, ttl, p, slug, ok, now, later).0
    case Update(p, slug, strategy, config, model, ok, now) =>
      UpdateRoute(db, ttl, p, slug, strategy, config, model, ok, now).0
    case Delete(p, slug, ok, delOk, now, later) => DeleteRoute(db, ttl, p, slug, ok, delOk, now, later).0
  }

  function Run(db: Db, ttl: Ttl, events: seq<RouteEvent>): Db {
    if events == [] then db
    else Happen(Run(db, ttl, events[..|events| - 1]), ttl, events[|events| - 1])
  }

  // A cache that is switched off stays empty.
  lemma {:induction false} OffStaysEmpty(db: Db, ttl: Ttl, events: seq<RouteEvent>)
    requires ttl.route <= 0 && db.routeCache == map[]
    ensures Run(db, ttl, events).routeCache == map[]
  {
    if events != [] {
      OffStaysEmpty(db, ttl, events[..|events| - 1]);
    }
  }

  /** Every event keeps the cache in agreement with the routes table. */
  lemma {:induction false} RunsAgree(db: Db, ttl: Ttl, events: seq<RouteEvent>)
    requires UniqueRoutes(db.routes) && db.routeCache == map[]
    ensures RouteCacheAgrees(Run(db, ttl, events))
  {
    if events != [] {
      var before := events[..|events| - 1];
      var mid := Run(db, ttl, before);
      RunsAgree(db, ttl, before);
      if ttl.route <= 0 {
        OffStaysEmpty(db, ttl, before);
      }
      match events[|events| - 1]
      case Create(r, ok, now) => CreateAgrees(mid, ttl, r, ok, now);
      case Lookup(p, slug, ok, now, later) => GetAgrees(mid, ttl, p, slug, ok, now, later);
      case Update(p, slug, strategy, config, model, ok, now) =>
        UpdateAgrees(mid, ttl, p, slug, strategy, config, model, ok, now);
      case Delete(p, slug, ok, delOk, now, later) => DeleteAgrees(mid, ttl, p, slug, ok, delOk, now, later);
    }
  }

  /** In every run of creates, lookups, updates and deletes, at whatever instants, a lookup
      answers as it would with no cache; only a database that does not answer is hidden. */
  lemma {:induction false} LookupIgnoresCache(
    db: Db, ttl: Ttl, events: seq<RouteEvent>, p: Uuid, slug: string, now: int, later: int)
    requires UniqueRoutes(db.routes) && db.routeCache == map[]
    ensures var s := Run(db, ttl, events);
      GetRouteBySlug(s, ttl, p, slug, true, now, later).1
      == GetRouteBySlug(s.(routeCache := map[]), ttl, p, slug, true, now, later).1
  {
    var s := Run(db, ttl, events);
    RunsAgree(db, ttl, events);
    GetAgrees(s, ttl, p, slug, true, now, later);
  }

  // ---------------------------------------------------------------------------
  // Keys. A key is known by its hash; distinct keys have distinct hashes.
  // ---------------------------------------------------------------------------

  function ContextOf(k: KeyRow): AuthContext {
    AuthContext(k.id, k.projectId, k.name, k.prefix)
  }

  // SELECT ... WHERE key_hash = ? AND revoked_at IS NULL
  function FindKey(keys: seq<KeyRow>, hash: string): (k: Option<KeyRow>)
    ensures k.Some? ==> k.value in keys && k.value.hash == hash && k.value.active
    ensures k.None? ==> forall i :: 0 <= i < |keys| ==> !(keys[i].hash == hash && keys[i].active)
  {
    if keys == [] then None
    else if keys[0].hash == hash && keys[0].active then Some(keys[0])
    else FindKey(keys[1..], hash)
  }

  function LookupKey(
    db: Db, ttl: Ttl, hash: string, ok: bool, now: int, later: int): (Db, Result<AuthContext, StoreError>)
  {
    var (cache, hit) := Get(db.authCache, ttl.auth, hash, now);
    if hit.Some? then (db.(authCache := cache), Ok(hit.value))
    else
      var row := FindKey(db.keys, hash);
      if !ok then (db.(authCache := cache), Err(DbError))
      else if row.None? then (db.(authCache := cache), Err(NotFound))
      else
        var ac := ContextOf(row.value);
        (db.(authCache := Set(cache, ttl.auth, hash, ac, later)), Ok(ac))
  }

  // The primary key, and the unique hash.
  predicate UniqueKeys(keys: seq<KeyRow>) {
    forall i, j :: 0 <= i < j < |keys| ==> keys[i].id != keys[j].id && keys[i].hash != keys[j].hash
  }

  predicate FreshKey(keys: seq<KeyRow>, k: KeyRow) {
    forall i :: 0 <= i < |keys| ==> keys[i].id != k.id && keys[i].hash != k.hash
  }

  function CreateKey(db: Db, k: KeyRow, ok: bool): (Db, Option<StoreError>) {
    if !ok then (db, Some(DbError))
    else if !FreshKey(db.keys, k) then (db, Some(Conflict))
    else (db.(keys := db.keys + [k.(active := true)]), None)
  }

  // The rows that an UPDATE ... SET revoked_at touches, and the table afterwards.
  function ById(id: Uuid, p: Uuid): KeyRow -> bool {
    (k: KeyRow) => k.id == id && k.projectId == p && k.active
  }

  function ByName(p: Uuid, name: string): KeyRow -> bool {
    (k: KeyRow) => k.projectId == p && k.name == name && k.active
  }

  function Hashes(keys: seq<KeyRow>, hit: KeyRow -> bool): seq<string> {
    if keys == [] then [] else (if hit(keys[0]) then [keys[0].hash] else []) + Hashes(keys[1..], hit)
  }

  function Revoked(keys: seq<KeyRow>, hit: KeyRow -> bool): (out: seq<KeyRow>)
    ensures |out| == |keys|
  {
    seq(|keys|, i requires 0 <= i < |keys| => if hit(keys[i]) then keys[i].(active := false) else keys[i])
  }

  function RevokeKey(db: Db, p: Uuid, id: Uuid, ok: bool): (Db, Result<string, StoreError>) {
    var hashes := Hashes(db.keys, ById(id, p));
    if !ok then (db, Err(DbError))
    else if hashes == [] then (db, Err(NotFound))
    else (db.(keys := Revoked(db.keys, ById(id, p)), authCache := db.authCache - {hashes[0]}), Ok(hashes[0]))
  }

  // Reads the returned hashes one by one; reading the `failAt`-th one may fail.
  function RevokeKeysByName(
    db: Db, p: Uuid, name: string, ok: bool, failAt: Option<nat>): (Db, nat, Option<StoreError>)
  {
    var hashes := Hashes(db.keys, ByName(p, name));
    if !ok then (db, 0, Some(DbError))
    else
      var failed := failAt.Some? && failAt.value < |hashes|;
      var n := if failed then failAt.value else |hashes|;
      (db.(keys := Revoked(db.keys, ByName(p, name)), authCache := db.authCache - Among(hashes[..n])),
       n, if failed then Some(DbError) else None)
  }

  function Among(hashes: seq<string>): set<string> {
    set h | h in hashes
  }

  // No lookup of this hash can succeed any more.
  predicate Dead(db: Db, hash: string) {
    && hash !in db.authCache
    && (exists i :: 0 <= i < |db.keys| && db.keys[i].hash == hash)
    && (forall i :: 0 <= i < |db.keys| ==> db.keys[i].hash == hash ==> !db.keys[i].active)
  }

  lemma {:induction false} HashesAre(keys: seq<KeyRow>, hit: KeyRow -> bool)
    ensures forall h :: h in Hashes(keys, hit) <==> exists i :: 0 <= i < |keys| && hit(keys[i]) && keys[i].hash == h
  {
    if keys != [] {
      HashesAre(keys[1..], hit);
      forall h
        ensures h in Hashes(keys, hit) <==> exists i :: 0 <= i < |keys| && hit(keys[i]) && keys[i].hash == h
      {
        if h in Hashes(keys[1..], hit) {
          var i :| 0 <= i < |keys[1..]| && hit(keys[1..][i]) && keys[1..][i].hash == h;
          assert hit(keys[i + 1]) && keys[i + 1].hash == h;
        }
        if exists i :: 0 <= i < |keys| && hit(keys[i]) && keys[i].hash == h {
          var i :| 0 <= i < |keys| && hit(keys[i]) && keys[i].hash == h;
          assert i > 0 ==> keys[1..][i - 1] == keys[i];
        }
      }
    }
  }

  // A returned hash belongs to a row that is revoked now.
  lemma {:induction false} ReturnedIsRevoked(keys: seq<KeyRow>, hit: KeyRow -> bool, hash: string)
    requires UniqueKeys(keys) && hash in Hashes(keys, hit)
    ensures exists i :: 0 <= i < |keys| && Revoked(keys, hit)[i].hash == hash
    ensures forall i :: 0 <= i < |keys| && Revoked(keys, hit)[i].hash == hash ==> !Revoked(keys, hit)[i].active
  {
    HashesAre(keys, hit);
    var i :| 0 <= i < |keys| && hit(keys[i]) && keys[i].hash == hash;
    assert Revoked(keys, hit)[i].hash == hash;
  }

  lemma {:induction false} RevokeKeyKills(db: Db, p: Uuid, id: Uuid, ok: bool)
    requires UniqueKeys(db.keys) && RevokeKey(db, p, id, ok).1.Ok?
    ensures Dead(RevokeKey(db, p, id, ok).0, RevokeKey(db, p, id, ok).1.value)
  {
    var hashes := Hashes(db.keys, ById(id, p));
    ReturnedIsRevoked(db.keys, ById(id, p), hashes[0]);
  }

  // A row comes before the failure to read the returned hashes.
  predicate ReadBefore(failAt: Option<nat>, i: nat) {
    failAt.None? || i < failAt.value
  }

  lemma {:induction false} EvictedExactly(db: Db, p: Uuid, name: string, failAt: Option<nat>, i: nat)
    requires UniqueKeys(db.keys) && i < |Hashes(db.keys, ByName(p, name))|
    ensures var (db', n, err) := RevokeKeysByName(db, p, name, true, failAt);
      var hash := Hashes(db.keys, ByName(p, name))[i];
      && (hash in db'.authCache <==> hash in db.authCache && !ReadBefore(failAt, i))
      && (hash in db'.authCache ==> db'.authCache[hash] == db.authCache[hash])
      && (err.None? ==> ReadBefore(failAt, i))
  {
    var hashes := Hashes(db.keys, ByName(p, name));
    UniqueHashes(db.keys, ByName(p, name));
    var n := RevokeKeysByName(db, p, name, true, failAt).1;
    assert hashes[i] in hashes[..n] <==> i < n by {
      if i < n {
        assert hashes[..n][i] == hashes[i];
      }
    }
  }

  /** RevokeKeysByName kills exactly the keys whose hash it read: all of them when it
      succeeds; when reading fails, those after the failure stay in the cache. */
  lemma {:induction false} RevokeByNameKillsExactly(db: Db, p: Uuid, name: string, failAt: Option<nat>, i: nat)
    requires UniqueKeys(db.keys) && i < |Hashes(db.keys, ByName(p, name))|
    ensures var (db', _, err) := RevokeKeysByName(db, p, name, true, failAt);
      var hash := Hashes(db.keys, ByName(p, name))[i];
      && (Dead(db', hash) <==> ReadBefore(failAt, i) || hash !in db.authCache)
      && (err.None? ==> ReadBefore(failAt, i))
  {
    ReturnedIsRevoked(db.keys, ByName(p, name), Hashes(db.keys, ByName(p, name))[i]);
    EvictedExactly(db, p, name, failAt, i);
  }

  /** A key revoked by name still authenticates exactly when its hash comes after the
      failure and its entry in the cache is still live. */
  lemma {:induction false} RevokedStillAuthenticatesExactly(
    db: Db, ttl: Ttl, p: Uuid, name: string, failAt: Option<nat>, i: nat, answered: bool, now: int, later: int)
    requires UniqueKeys(db.keys) && i < |Hashes(db.keys, ByName(p, name))|
    ensures var db' := RevokeKeysByName(db, p, name, true, failAt).0;
      var hash := Hashes(db.keys, ByName(p, name))[i];
      LookupKey(db', ttl, hash, answered, now, later).1.Ok?
      <==> !ReadBefore(failAt, i) && Get(db.authCache, ttl.auth, hash, now).1.Some?
  {
    var db' := RevokeKeysByName(db, p, name, true, failAt).0;
    var hash := Hashes(db.keys, ByName(p, name))[i];
    ReturnedIsRevoked(db.keys, ByName(p, name), hash);
    EvictedExactly(db, p, name, failAt, i);
    assert FindKey(db'.keys, hash).None?;
  }

  predicate HashesDistinct(hashes: seq<string>) {
    forall i, j :: 0 <= i < j < |hashes| ==> hashes[i] != hashes[j]
  }

  lemma {:induction false} UniqueHashes(keys: seq<KeyRow>, hit: KeyRow -> bool)
    requires UniqueKeys(keys)
    ensures HashesDistinct(Hashes(keys, hit))
  {
    if keys != [] {
      var rest := Hashes(keys[1..], hit);
      UniqueHashes(keys[1..], hit);
      HashesAre(keys[1..], hit);
      forall j | 0 <= j < |rest|
        ensures rest[j] != keys[0].hash
      {
        assert rest[j] in rest;
        var i :| 0 <= i < |keys[1..]| && hit(keys[1..][i]) && keys[1..][i].hash == rest[j];
        assert keys[i + 1].hash == rest[j];
      }
    }
  }

  datatype KeyEvent =
    | CreateK(k: KeyRow, ok: bool)
    | LookupK(hash: string, ok: bool, now: int, later: int)
    | RevokeK(p: Uuid, id: Uuid, ok: bool)
    | RevokeNamed(p: Uuid, name: string, ok: bool, failAt: Option<nat>)

  function KeyHappen(db: Db, ttl: Ttl, e: KeyEvent): Db {
    match e
    case CreateK(k, ok) => CreateKey(db, k, ok).0
    case LookupK(hash, ok, now, later) => LookupKey(db, ttl, hash, ok, now, later).0
    case RevokeK(p, id, ok) => RevokeKey(db, p, id, ok).0
    case RevokeNamed(p, name, ok, failAt) => RevokeKeysByName(db, p, name, ok, failAt).0
  }

  function KeyRun(db: Db, ttl: Ttl, events: seq<KeyEvent>): Db {
    if events == [] then db
    else KeyHappen(KeyRun(db, ttl, events[..|events| - 1]), ttl, events[|events| - 1])
  }

  lemma {:induction false} DeadStaysDead(db: Db, ttl: Ttl, e: KeyEvent, hash: string)
    requires Dead(db, hash)
    ensures Dead(KeyHappen(db, ttl, e), hash)
  {
    var db' := KeyHappen(db, ttl, e);
    var i :| 0 <= i < |db.keys| && db.keys[i].hash == hash;
    match e
    case CreateK(k, ok) => assert db'.keys[i].hash == hash;
    case LookupK(h, ok, now, later) =>
    case RevokeK(p, id, ok) => assert db'.keys[i].hash == hash;
    case RevokeNamed(p, name, ok, failAt) => assert db'.keys[i].hash == hash;
  }

  lemma {:induction false} DeadForEver(db: Db, ttl: Ttl, events: seq<KeyEvent>, hash: string)
    requires Dead(db, hash)
    ensures Dead(KeyRun(db, ttl, events), hash)
  {
    if events != [] {
      DeadForEver(db, ttl, events[..|events| - 1], hash);
      DeadStaysDead(KeyRun(db, ttl, events[..|events| - 1]), ttl, events[|events| - 1], hash);
    }
  }

  /** Once RevokeKey has returned, no lookup of that key ever succeeds, whatever happens
      afterwards and at whatever instants. */
  lemma {:induction false} RevokedNeverAuthenticates(
    db: Db, ttl: Ttl, p: Uuid, id: Uuid, ok: bool, events: seq<KeyEvent>, answered: bool, now: int, later: int)
    requires UniqueKeys(db.keys) && RevokeKey(db, p, id, ok).1.Ok?
    ensures LookupKey(KeyRun(RevokeKey(db, p, id, ok).0, ttl, events), ttl, RevokeKey(db, p, id, ok).1.value,
                      answered, now, later).1.Err?
  {
    RevokeKeyKills(db, p, id, ok);
    DeadForEver(RevokeKey(db, p, id, ok).0, ttl, events, RevokeKey(db, p, id, ok).1.value);
  }

  /** Once RevokeKeysByName has returned without error, no key of that name that was active
      ever authenticates again. */
  lemma {:induction false} RevokedNameNeverAuthenticates(
    db: Db, ttl: Ttl, p: Uuid, name: string, failAt: Option<nat>, events: seq<KeyEvent>, i: nat, answered: bool,
    now: int, later: int)
    requires UniqueKeys(db.keys) && i < |db.keys| && ByName(p, name)(db.keys[i])
    requires RevokeKeysByName(db, p, name, true, failAt).2.None?
    ensures LookupKey(KeyRun(RevokeKeysByName(db, p, name, true, failAt).0, ttl, events), ttl, db.keys[i].hash,
                      answered, now, later).1.Err?
  {
    var hashes := Hashes(db.keys, ByName(p, name));
    HashesAre(db.keys, ByName(p, name));
    assert db.keys[i].hash in hashes;
    var j :| 0 <= j < |hashes| && hashes[j] == db.keys[i].hash;
    RevokeByNameKillsExactly(db, p, name, failAt, j);
    DeadForEver(RevokeKeysByName(db, p, name, true, failAt).0, ttl, events, db.keys[i].hash);
  }

  /** A run in which it does: the key is created and looked up, revoking it by name fails
      on the first hash, and a lookup within the time to live succeeds. */
  lemma {:induction false} RevokedKeyAuthenticates(k: KeyRow, ttl: Ttl, now: int)
    requires ttl.auth > 0
    ensures var created := CreateKey(Db([], [], map[], map[]), k, true).0;
      var cached := LookupKey(created, ttl, k.hash, true, now, now).0;
      var revoked := RevokeKeysByName(cached, k.projectId, k.name, true, Some(0)).0;
      && (forall i :: 0 <= i < |revoked.keys| ==> !revoked.keys[i].active)
      && LookupKey(revoked, ttl, k.hash, true, now + ttl.auth, now + ttl.auth).1.Ok?
  {
    var created := CreateKey(Db([], [], map[], map[]), k, true).0;
    var cached := LookupKey(created, ttl, k.hash, true, now, now).0;
    assert cached.keys == [k.(active := true)];
    assert Hashes(cached.keys, ByName(k.projectId, k.name)) == [k.hash];
    RevokedStillAuthenticatesExactly(
      cached, ttl, k.projectId, k.name, Some(0), 0, true, now + ttl.auth, now + ttl.auth);
  }

  // ---------------------------------------------------------------------------
  // Who a key authenticates
  // ---------------------------------------------------------------------------

  // The context is that of the row with this hash.
  predicate Identifies(keys: seq<KeyRow>, hash: string, ac: AuthContext) {
    exists i :: 0 <= i < |keys| && keys[i].hash == hash && ac.keyId == keys[i].id
      && ac.projectId == keys[i].projectId && ac.name == keys[i].name && ac.prefix == keys[i].prefix
  }

  ghost predicate AuthCacheAgrees(db: Db) {
    forall h :: h in db.authCache ==> Identifies(db.keys, h, db.authCache[h].v)
  }

  lemma {:induction false} LookupIdentifies(db: Db, ttl: Ttl, hash: string, ok: bool, now: int, later: int)
    requires AuthCacheAgrees(db)
    ensures var (db', res) := LookupKey(db, ttl, hash, ok, now, later);
      AuthCacheAgrees(db') && db'.keys == db.keys && (res.Ok? ==> Identifies(db.keys, hash, res.value))
  {
  }

  lemma {:induction false} MoreKeysIdentify(keys: seq<KeyRow>, more: seq<KeyRow>, hash: string, ac: AuthContext)
    requires Identifies(keys, hash, ac) && |keys| <= |more|
    requires forall i :: 0 <= i < |keys| ==> more[i] == keys[i].(active := more[i].active)
    ensures Identifies(more, hash, ac)
  {
    var i :| 0 <= i < |keys| && keys[i].hash == hash && ac.keyId == keys[i].id
      && ac.projectId == keys[i].projectId && ac.name == keys[i].name && ac.prefix == keys[i].prefix;
    assert more[i].hash == hash;
  }

  lemma {:induction false} KeyEventAgrees(db: Db, ttl: Ttl, e: KeyEvent)
    requires AuthCacheAgrees(db)
    ensures AuthCacheAgrees(KeyHappen(db, ttl, e))
  {
    var db' := KeyHappen(db, ttl, e);
    if e.LookupK? {
      LookupIdentifies(db, ttl, e.hash, e.ok, e.now, e.later);
    } else {
      forall h | h in db'.authCache
        ensures Identifies(db'.keys, h, db'.authCache[h].v)
      {
        MoreKeysIdentify(db.keys, db'.keys, h, db.authCache[h].v);
      }
    }
  }

  /** In every run a key that authenticates does so as the row of its hash: with that row's
      id, project, name and prefix, whether the answer comes from the cache or not. */
  lemma {:induction false} AuthenticatesAsItsRow(
    db: Db, ttl: Ttl, events: seq<KeyEvent>, hash: string, ok: bool, now: int, later: int)
    requires AuthCacheAgrees(db)
    ensures var after := KeyRun(db, ttl, events);
      var res := LookupKey(after, ttl, hash, ok, now, later).1;
      AuthCacheAgrees(after) && (res.Ok? ==> Identifies(after.keys, hash, res.value))
    decreases |events|
  {
    if events != [] {
      var before := events[..|events| - 1];
      AuthenticatesAsItsRow(db, ttl, before, hash, ok, now, later);
      KeyEventAgrees(KeyRun(db, ttl, before), ttl, events[|events| - 1]);
    }
    LookupIdentifies(KeyRun(db, ttl, events), ttl, hash, ok, now, later);
  }

  // ---------------------------------------------------------------------------
  // What each call does to tables and caches
  // ---------------------------------------------------------------------------

  /** A row that was looked up is answered from the cache until its time to live is over,
      even when the table cannot be read; and no expired entry stays. */
  lemma {:induction false} LookedUpRouteIsCached(
    db: Db, ttl: Ttl, p: Uuid, slug: string, ok: bool, now: int, later: int, at: int, later2: int)
    ensures var (db', res) := GetRouteBySlug(db, ttl, p, slug, ok, now, later);
      var key := RouteCacheKey(p, slug);
      && db'.routes == db.routes && db'.keys == db.keys && db'.authCache == db.authCache
      && (ttl.route > 0 && key in db'.routeCache ==>
            db'.routeCache[key].exp >= now || (res.Ok? && db'.routeCache[key].exp == later + ttl.route))
      && (ttl.route > 0 && res.Ok? && Get(db.routeCache, ttl.route, key, now).1.None? && at <= later + ttl.route ==>
            GetRouteBySlug(db', ttl, p, slug, false, at, later2).1 == res)
  {
  }

  /** What is not in the cache is read from the table: its row, unless there is none or the
      table cannot be read. */
  lemma {:induction false} MissesAreRead(
    db: Db, ttl: Ttl, p: Uuid, slug: string, hash: string, ok: bool, now: int, later: int, i: nat)
    ensures Get(db.routeCache, ttl.route, RouteCacheKey(p, slug), now).1.None? ==>
      var res := GetRouteBySlug(db, ttl, p, slug, ok, now, later).1;
      && (!ok ==> res == Err(DbError))
      && (ok && (forall j :: 0 <= j < |db.routes| ==> !Named(db.routes[j], p, slug)) ==> res == Err(NotFound))
      && (ok && UniqueRoutes(db.routes) && i < |db.routes| && Named(db.routes[i], p, slug) ==> res == Ok(db.routes[i]))
    ensures Get(db.authCache, ttl.auth, hash, now).1.None? ==>
      var res := LookupKey(db, ttl, hash, ok, now, later).1;
      && (!ok ==> res == Err(DbError))
      && (ok && (forall j :: 0 <= j < |db.keys| ==> !(db.keys[j].hash == hash && db.keys[j].active)) ==>
            res == Err(NotFound))
      && (ok && i < |db.keys| && db.keys[i].hash == hash && db.keys[i].active ==>
            res.Ok? && Identifies(db.keys, hash, res.value))
  {
    if UniqueRoutes(db.routes) && i < |db.routes| && Named(db.routes[i], p, slug) {
      var found := FindRoute(db.routes, p, slug);
      var k :| 0 <= k < |db.routes| && db.routes[k] == found.value;
      assert k == i;
    }
  }

  lemma {:induction false} LookedUpKeyIsCached(
    db: Db, ttl: Ttl, hash: string, ok: bool, now: int, later: int, at: int, later2: int)
    ensures var (db', res) := LookupKey(db, ttl, hash, ok, now, later);
      && db'.routes == db.routes && db'.keys == db.keys && db'.routeCache == db.routeCache
      && (ttl.auth > 0 && hash in db'.authCache ==>
            db'.authCache[hash].exp >= now || (res.Ok? && db'.authCache[hash].exp == later + ttl.auth))
      && (ttl.auth > 0 && res.Ok? && Get(db.authCache, ttl.auth, hash, now).1.None? && at <= later + ttl.auth ==>
            LookupKey(db', ttl, hash, false, at, later2).1 == res)
  {
  }

  /** A key is created, active, unless the table cannot be written or has its id or hash. */
  lemma {:induction false} CreatesKeyExactly(db: Db, k: KeyRow, ok: bool)
    ensures var (db', err) := CreateKey(db, k, ok);
      var taken := exists i :: 0 <= i < |db.keys| && (db.keys[i].id == k.id || db.keys[i].hash == k.hash);
      && (err == None <==> ok && !taken) && (ok && taken ==> err == Some(Conflict)) && (!ok ==> err == Some(DbError))
      && db' == db.(keys := if ok && !taken then db.keys + [k.(active := true)] else db.keys)
  {
  }

  // The row is this project's active key with this id.
  predicate IsKey(k: KeyRow, p: Uuid, id: Uuid) {
    k.active && k.projectId == p && k.id == id
  }

  /** RevokeKey makes exactly this project's active key of that id inactive, and evicts its
      hash; it fails when the table cannot be written or has no such key. */
  lemma {:induction false} RevokesExactly(db: Db, p: Uuid, id: Uuid, ok: bool)
    requires UniqueKeys(db.keys)
    ensures var (db', res) := RevokeKey(db, p, id, ok);
      && |db'.keys| == |db.keys| && db'.routes == db.routes && db'.routeCache == db.routeCache
      && (!ok ==> res == Err(DbError) && db' == db)
      && (ok && !(exists i :: 0 <= i < |db.keys| && IsKey(db.keys[i], p, id)) ==> res == Err(NotFound) && db' == db)
      && (forall i :: ok && 0 <= i < |db.keys| && IsKey(db.keys[i], p, id) ==>
            && res == Ok(db.keys[i].hash) && db'.authCache == db.authCache - {db.keys[i].hash}
            && db'.keys == db.keys[i := db.keys[i].(active := false)])
  {
    var hit := ById(id, p);
    var hashes := Hashes(db.keys, hit);
    HashesAre(db.keys, hit);
    assert forall k :: hit(k) <==> IsKey(k, p, id);
    forall i | ok && 0 <= i < |db.keys| && IsKey(db.keys[i], p, id)
      ensures hashes == [db.keys[i].hash]
      ensures Revoked(db.keys, hit) == db.keys[i := db.keys[i].(active := false)]
    {
      OneHash(db.keys, hit, i);
      assert forall j :: 0 <= j < |db.keys| && j != i ==> db.keys[j].id != db.keys[i].id;
    }
    if hashes != [] {
      assert hashes[0] in hashes;
    }
  }

  lemma {:induction false} OneHash(keys: seq<KeyRow>, hit: KeyRow -> bool, i: nat)
    requires i < |keys| && hit(keys[i]) && forall j :: 0 <= j < |keys| && j != i ==> !hit(keys[j])
    ensures Hashes(keys, hit) == [keys[i].hash]
  {
    if i == 0 {
      NoHash(keys[1..], hit);
      assert forall j :: 0 <= j < |keys| - 1 ==> keys[1..][j] == keys[j + 1];
    } else {
      assert forall j :: 0 <= j < |keys| - 1 ==> keys[1..][j] == keys[j + 1];
      OneHash(keys[1..], hit, i - 1);
    }
  }

  lemma {:induction false} NoHash(keys: seq<KeyRow>, hit: KeyRow -> bool)
    ensures (forall j :: 0 <= j < |keys| ==> !hit(keys[j])) ==> Hashes(keys, hit) == []
  {
    if keys != [] {
      NoHash(keys[1..], hit);
      assert forall j :: 0 <= j < |keys| - 1 ==> keys[1..][j] == keys[j + 1];
    }
  }

  // The row is an active key of this project and name.
  predicate IsNamed(k: KeyRow, p: Uuid, name: string) {
    k.active && k.projectId == p && k.name == name
  }

  /** RevokeKeysByName makes exactly this project's active keys of that name inactive, and
      counts the hashes it read: all of them, unless reading fails before. */
  lemma {:induction false} RevokesNameExactly(db: Db, p: Uuid, name: string, ok: bool, failAt: Option<nat>)
    ensures var (db', n, err) := RevokeKeysByName(db, p, name, ok, failAt);
      var all := |Hashes(db.keys, ByName(p, name))|;
      && |db'.keys| == |db.keys| && db'.routes == db.routes && db'.routeCache == db.routeCache
      && (!ok ==> db' == db && n == 0 && err == Some(DbError))
      && (ok ==>
            && (failAt.Some? && failAt.value < all ==> n == failAt.value && err == Some(DbError))
            && (failAt.None? || failAt.value >= all ==> n == all && err == None)
            && forall i :: 0 <= i < |db.keys| ==>
                 db'.keys[i] == db.keys[i].(active := db.keys[i].active && !IsNamed(db.keys[i], p, name)))
  {
    assert forall k :: ByName(p, name)(k) <==> IsNamed(k, p, name);
  }

  // The row with this strategy, or sequential for want of one.
  predicate HasStrategy(row: Route, strategy: string) {
    if strategy == "" then row.strategy == "sequential" else row.strategy == strategy
  }

  // The routes have the same id, or the same slug in one project.
  predicate Collides(a: Route, b: Route) {
    a.id == b.id || (a.projectId == b.projectId && a.slug == b.slug)
  }

  /** A route is created as given, unless the table cannot be written or has its id, or its
      slug in the project. */
  lemma {:induction false} CreatesRouteExactly(db: Db, ttl: Ttl, r: Route, ok: bool, now: int)
    ensures var (db', res) := CreateRoute(db, ttl, r, ok, now);
      var taken := exists i :: 0 <= i < |db.routes| && Collides(db.routes[i], r);
      && db'.keys == db.keys && db'.authCache == db.authCache
      && (!ok ==> res == Err(DbError)) && (ok && taken ==> res == Err(Conflict))
      && (!ok || taken ==> db' == db)
      && (ok && !taken ==>
            && res.Ok? && HasStrategy(res.value, r.strategy) && res.value == r.(strategy := res.value.strategy)
            && db'.routes == db.routes + [res.value])
  {
  }

  /** A route is updated in place, and answered as it is now; nothing else changes. */
  lemma {:induction false} UpdatesRouteExactly(
    db: Db, ttl: Ttl, p: Uuid, slug: string, strategy: string, config: string, model: string, ok: bool, now: int,
    i: nat)
    requires UniqueRoutes(db.routes)
    requires i < |db.routes| && db.routes[i].projectId == p && db.routes[i].slug == slug
    ensures var (db', res) := UpdateRoute(db, ttl, p, slug, strategy, config, model, ok, now);
      && db'.keys == db.keys && db'.authCache == db.authCache
      && (!ok ==> res == Err(DbError) && db' == db)
      && (ok ==>
            && res.Ok? && HasStrategy(res.value, strategy) && res.value.config == config
            && res.value.defaultModel == model
            && res.value.id == db.routes[i].id && res.value.projectId == p && res.value.slug == slug
            && db'.routes == db.routes[i := res.value])
  {
    if ok {
      var (db', res) := UpdateRoute(db, ttl, p, slug, strategy, config, model, ok, now);
      var found := FindRoute(db.routes, p, slug);
      assert Named(db.routes[i], p, slug);
      var k :| 0 <= k < |db.routes| && db.routes[k] == found.value;
      assert k == i;
      forall j | 0 <= j < |db.routes|
        ensures db'.routes[j] == db.routes[i := res.value][j]
      {
        assert j != i ==> !Named(db.routes[j], p, slug);
      }
      assert db'.routes == db.routes[i := res.value];
    }
  }

  lemma {:induction false} WithoutOne(routes: seq<Route>, id: Uuid, p: Uuid, i: nat)
    requires UniqueRoutes(routes) && i < |routes| && routes[i].id == id && routes[i].projectId == p
    ensures Without(routes, id, p) == routes[..i] + routes[i + 1..]
  {
    if i == 0 {
      WithoutNone(routes[1..], id, p);
      assert routes[..0] + routes[1..] == routes[1..];
    } else {
      WithoutOne(routes[1..], id, p, i - 1);
      assert routes[..i] + routes[i + 1..] == [routes[0]] + (routes[1..][..i - 1] + routes[1..][i..]);
    }
  }

  lemma {:induction false} WithoutNone(routes: seq<Route>, id: Uuid, p: Uuid)
    requires forall j :: 0 <= j < |routes| ==> routes[j].id != id
    ensures Without(routes, id, p) == routes
  {
    if routes != [] {
      WithoutNone(routes[1..], id, p);
      assert [routes[0]] + routes[1..] == routes;
    }
  }

  /** Deleting a route takes exactly its row out of the table and its entry out of the cache;
      it fails without effect on the table when the route is not found, or the table cannot
      be written. */
  lemma {:induction false} DeletesRouteExactly(
    db: Db, ttl: Ttl, p: Uuid, slug: string, ok: bool, delOk: bool, now: int, later: int, i: nat)
    requires RouteCacheAgrees(db)
    ensures var (db', err) := DeleteRoute(db, ttl, p, slug, ok, delOk, now, later);
      var (looked, found) := GetRouteBySlug(db, ttl, p, slug, ok, now, later);
      && (found.Err? ==> err == Some(found.error) && db' == looked)
      && (found.Ok? && !delOk ==> err == Some(DbError) && db' == looked)
      && (found.Ok? && delOk && i < |db.routes| && Named(db.routes[i], p, slug) ==>
            && err == None && db'.routes == db.routes[..i] + db.routes[i + 1..]
            && RouteCacheKey(p, slug) !in db'.routeCache)
  {
    var (looked, found) := GetRouteBySlug(db, ttl, p, slug, ok, now, later);
    if found.Ok? && delOk && i < |db.routes| && Named(db.routes[i], p, slug) {
      assert found.value in db.routes && Named(found.value, p, slug) by {
        FoundIsRow(db, ttl, p, slug, ok, now, later);
      }
      var k :| 0 <= k < |db.routes| && db.routes[k] == found.value;
      assert k == i;
      WithoutOne(db.routes, found.value.id, p, i);
    }
  }

  lemma {:induction false} FoundIsRow(db: Db, ttl: Ttl, p: Uuid, slug: string, ok: bool, now: int, later: int)
    requires RouteCacheAgrees(db) && GetRouteBySlug(db, ttl, p, slug, ok, now, later).1.Ok?
    ensures var found := GetRouteBySlug(db, ttl, p, slug, ok, now, later).1.value;
            found in db.routes && Named(found, p, slug)
  {
  }
}
