/**
 One whole request: the listing of a route's usable accounts, the choice between a
 sequential pass and a race, and the fallback routes.
 */
module Routing {
  import opened Wrappers
  import opened Text
  import opened Arith
  import opened Router
  import opened Cooldown
  import opened AccountModel
  import opened Affinity
  import opened Ttft
  import opened Dispatch
  import opened DispatchLaws
  import opened Race

  datatype Route = Route(
    id: nat,
    slug: string,
    strategy: Strategy,
    cfg: PickConfig,
    defaultModel: string,
    fallbackSlugs: seq<string>,
    allowOAuth: bool)

  // The request, with its session key resolved. `keep` is the account filter, if any.
  datatype Request = Request(
    body: Body,
    sessionKey: string,
    keep: Option<Account -> bool>,
    ttl: int,
    inspect: string -> Verdict)

  // What the environment decides during one dispatch to a route.
  datatype Visit = Visit(
    listed: bool,
    listAt: int,
    poolListed: bool,
    cooldownKnown: bool,
    emptyAt: int,
    waitAt: int,
    stickyAt: int,
    turns: nat -> Turn,
    arrivals: nat -> seq<nat>,
    cancelledAt: Option<nat>,
    cut: Option<nat>,
    stickAt: int)

  ghost predicate ValidVisit(v: Visit) {
    forall n :: Arrivals(v.arrivals(n), n)
  }

  // The accounts attached to each route, in position order.
  type Pools = nat -> seq<Account>

  ghost predicate DistinctPools(pools: Pools) {
    forall route :: DistinctIds(pools(route))
  }

  function Usable(cooldown: map<nat, int>, now: int): Account -> bool {
    (a: Account) => a.id !in cooldown || cooldown[a.id] < now
  }

  // The attached accounts that are not cooling down.
  function ListRouteAccounts(pools: Pools, cooldown: map<nat, int>, route: nat, now: int): seq<Account> {
    Filter(pools(route), Usable(cooldown, now))
  }

  // The soonest cooldown still in the future.
  function EarliestCooldown(accounts: seq<Account>, cooldown: map<nat, int>, now: int): Option<int> {
    if accounts == [] then None
    else
      var n := |accounts| - 1;
      var id := accounts[n].id;
      var earliest := EarliestCooldown(accounts[..n], cooldown, now);
      if id in cooldown && cooldown[id] > now && (earliest.None? || cooldown[id] < earliest.value)
      then Some(cooldown[id]) else earliest
  }

  // Whole seconds to wait, rounded up to the millisecond, within [1, 3600].
  function RetryAfterSeconds(until: int, now: int): int {
    var sec := (until - now + 999_000_000) / SECOND;
    if sec < 1 then 1 else if sec > 3600 then 3600 else sec
  }

  /** The soonest cooldown is one that lies ahead, and none lies ahead before it. */
  lemma {:induction false} EarliestCooldownIsSoonest(accounts: seq<Account>, cooldown: map<nat, int>, now: int)
    ensures var e := EarliestCooldown(accounts, cooldown, now);
      && (e.Some? ==>
            && e.value > now
            && exists i :: 0 <= i < |accounts| && accounts[i].id in cooldown && cooldown[accounts[i].id] == e.value)
      && (forall i :: 0 <= i < |accounts| && accounts[i].id in cooldown && cooldown[accounts[i].id] > now ==>
            e.Some? && e.value <= cooldown[accounts[i].id])
  {
    if accounts != [] {
      var n := |accounts| - 1;
      EarliestCooldownIsSoonest(accounts[..n], cooldown, now);
      assert forall i :: 0 <= i < n ==> accounts[..n][i] == accounts[i];
    }
  }

  // The wait is told in full: within the hour, and no rest below a millisecond is lost.
  predicate ToldInFull(wait: int) {
    wait <= 3600 * SECOND && (wait < SECOND || wait % SECOND == 0 || wait % SECOND >= 1_000_000)
  }

  // The wait is told with a little to spare, so that it is over on arrival.
  predicate ToldWithSpare(wait: int) {
    wait < 3600 * SECOND && (wait < SECOND || wait % SECOND >= 1_000_000)
  }

  /** The seconds told lie in [1, 3600] and are less than a second too many. They cover the
      wait exactly when it is told in full. A client that waits so long finds the account
      usable exactly when they exceed the wait: an account is not listed at the very
      instant at which its cooldown ends. */
  lemma {:induction false} RetryAfterCoversExactly(until: int, now: int)
    ensures 1 <= RetryAfterSeconds(until, now) <= 3600
    ensures now + RetryAfterSeconds(until, now) * SECOND >= until <==> ToldInFull(until - now)
    ensures now + RetryAfterSeconds(until, now) * SECOND > until <==> ToldWithSpare(until - now)
    ensures RetryAfterSeconds(until, now) > 1 ==> (RetryAfterSeconds(until, now) - 1) * SECOND < until - now
  {
    var d := until - now;
    DividedParts(d, SECOND);
    if d % SECOND >= 1_000_000 {
      QuotientOf(d + 999_000_000, d / SECOND + 1, d % SECOND - 1_000_000, SECOND);
    } else {
      QuotientOf(d + 999_000_000, d / SECOND, d % SECOND + 999_000_000, SECOND);
    }
  }

  /** Each way of falling short, for an account with this cooldown at instant 0: two hours,
      which are cut to one; ten seconds, at whose end it is not listed yet; and a nanosecond
      more, which is rounded away. */
  lemma {:induction false} WaitsFallShort(a: Account, cooldown: int)
    requires cooldown in {2 * HOUR, 10 * SECOND, 10 * SECOND + 1}
    ensures var arrival := RetryAfterSeconds(cooldown, 0) * SECOND;
      !Usable(map[a.id := cooldown], arrival)(a) && (arrival >= cooldown <==> cooldown == 10 * SECOND)
  {
    RetryAfterCoversExactly(cooldown, 0);
  }

  function Refusal(status: int, error: string, header: RetryAfter): DispatchResult {
    DispatchResult(status, error, NIL_ID, "", header, None, 0, Sequential, "", false, [])
  }

  // The answer when no account can be used.
  function EmptyAccountsResult(rq: Request, route: Route, pools: Pools, v: Visit, cooldown: map<nat, int>): Outcome {
    if rq.keep.Some? then Answer(Some(Refusal(400, "no_accounts", Absent)))
    else if !v.poolListed then Failure("list pool")
    else if pools(route.id) == [] then Answer(Some(Refusal(400, "no_accounts", Absent)))
    else
      var earliest := EarliestCooldown(pools(route.id), cooldown, v.emptyAt);
      var sec := if v.cooldownKnown && earliest.Some? then RetryAfterSeconds(earliest.value, v.waitAt) else 30;
      Answer(Some(Refusal(503, "no_usable_accounts", Seconds(sec))))
  }

  function Candidates(pools: Pools, rq: Request, route: Route, v: Visit, cooldown: map<nat, int>): seq<Account> {
    var listed := ListRouteAccounts(pools, cooldown, route.id, v.listAt);
    if rq.keep.Some? then Filter(listed, rq.keep.value) else listed
  }

  function PassOf(rq: Request, route: Route, stickyTo: Option<nat>): Pass {
    Pass(route.id, route.strategy, route.cfg, BodyFor(rq.body, route.defaultModel), rq.sessionKey, stickyTo, rq.ttl,
         rq.inspect)
  }

  lemma {:induction false} CandidatesAreUsable(pools: Pools, rq: Request, route: Route, v: Visit, w: World)
    requires DistinctPools(pools)
    ensures DistinctIds(Candidates(pools, rq, route, v, w.cooldown))
    ensures forall a :: a in Candidates(pools, rq, route, v, w.cooldown) ==>
              a in pools(route.id) && (a.id !in w.cooldown || w.cooldown[a.id] < v.listAt)
  {
    var differ := (a: Account, b: Account) => a.id != b.id;
    var listed := ListRouteAccounts(pools, w.cooldown, route.id, v.listAt);
    FilterMembers(pools(route.id), Usable(w.cooldown, v.listAt));
    FilterKeepsOrder(pools(route.id), Usable(w.cooldown, v.listAt), differ);
    if rq.keep.Some? {
      FilterMembers(listed, rq.keep.value);
      FilterKeepsOrder(listed, rq.keep.value, differ);
    }
  }

  function ServablePool(accounts: seq<Account>, rq: Request, route: Route): (pool: seq<Account>)
    requires DistinctIds(accounts)
    ensures DistinctIds(pool)
    ensures forall a :: a in pool ==> a in accounts
  {
    PoolIsServableOrWhole(accounts, ServableTest(ModelOf(rq.body), route.defaultModel));
    FilterServable(accounts, rq.body, route.defaultModel)
  }

  // A dispatch is answered before any call, or goes to a pool of servable seats.
  datatype Opening = Early(run: Run) | Open(world: World, stickyTo: Option<nat>, pool: seq<Account>)

  function OpenRoute(pools: Pools, rq: Request, route: Route, v: Visit, w: World): (o: Opening)
    requires DistinctPools(pools)
    ensures o.Open? ==> DistinctIds(o.pool)
    ensures o.Open? ==> o.world == w.(sticky := o.world.sticky)
    ensures o.Open? ==> forall a :: a in o.pool ==> a.id !in w.cooldown || w.cooldown[a.id] < v.listAt
    ensures o.Early? ==> o.run.calls == [] && o.run.world == w
  {
    if !v.listed then Early(Run(w, Failure("list accounts"), []))
    else
      var accounts := Candidates(pools, rq, route, v, w.cooldown);
      CandidatesAreUsable(pools, rq, route, v, w);
      if accounts == [] then Early(Run(w, EmptyAccountsResult(rq, route, pools, v, w.cooldown), []))
      else
        var (sticky, stickyTo) := AccountFor(w.sticky, rq.sessionKey, v.stickyAt);
        Open(w.(sticky := sticky), stickyTo, ServablePool(accounts, rq, route))
  }

  /** A dispatch that goes on to a pool drops the session's entry if it has expired, and else
      prefers the account it names; a listing that fails ends the request. */
  lemma {:induction false} OpensWithSession(pools: Pools, rq: Request, route: Route, v: Visit, w: World)
    requires DistinctPools(pools)
    ensures var o := OpenRoute(pools, rq, route, v, w);
      && (!v.listed ==> o == Early(Run(w, Failure("list accounts"), [])))
      && (o.Open? ==>
            var key := rq.sessionKey;
            if key == "" || key !in w.sticky then o.stickyTo == None && o.world == w
            else if v.stickyAt > w.sticky[key].expires then
              o.stickyTo == None && o.world == w.(sticky := w.sticky - {key})
            else o.stickyTo == Some(w.sticky[key].accountId) && o.world == w)
  {
    if v.listed && Candidates(pools, rq, route, v, w.cooldown) != [] {
      var (sticky, stickyTo) := AccountFor(w.sticky, rq.sessionKey, v.stickyAt);
      assert OpenRoute(pools, rq, route, v, w).world == w.(sticky := sticky);
    }
  }

  // Every account of the route cools down beyond this instant.
  predicate AllCoolBeyond(accounts: seq<Account>, cooldown: map<nat, int>, now: int) {
    forall i :: 0 <= i < |accounts| ==> accounts[i].id in cooldown && cooldown[accounts[i].id] > now
  }

  // No account of the route has a cooldown that lies ahead.
  predicate AllCooledBy(accounts: seq<Account>, cooldown: map<nat, int>, now: int) {
    forall i :: 0 <= i < |accounts| && accounts[i].id in cooldown ==> cooldown[accounts[i].id] <= now
  }

  // The answer is nobody's: no account was called.
  predicate NamesNobody(res: DispatchResult) {
    && res.accountId == NIL_ID && res.model == "" && res.stream.None? && res.attempts == 0
    && res.sessionKey == "" && !res.stickyHit && res.failovers == []
  }

  /** A dispatch that finds no account asks the client to change the request when a filter
      excludes the accounts or the route has none; else every account of the route is
      cooling down, and the client is told to come back within the hour. */
  lemma {:induction false} EmptyAnswer(pools: Pools, rq: Request, route: Route, v: Visit, w: World)
    requires DistinctPools(pools) && v.listed && Candidates(pools, rq, route, v, w.cooldown) == []
    ensures OpenRoute(pools, rq, route, v, w).Early?
    ensures var o := OpenRoute(pools, rq, route, v, w).run.outcome;
      && (o.Failure? <==> rq.keep.None? && !v.poolListed) && (o.Failure? ==> o == Failure("list pool"))
      && (o.Answer? ==>
            o.result.Some? &&
            var res := o.result.value;
            && NamesNobody(res)
            && (res.status == 400 <==> rq.keep.Some? || pools(route.id) == [])
            && (res.status == 400 ==> res.error == "no_accounts" && res.retryAfter == Absent)
            && (res.status != 400 ==>
                  && res.status == 503 && res.error == "no_usable_accounts"
                  && res.retryAfter.Seconds? && 1 <= res.retryAfter.n <= 3600
                  && (!v.cooldownKnown || AllCooledBy(pools(route.id), w.cooldown, v.emptyAt) ==>
                        res.retryAfter.n == 30)
                  && forall a :: a in pools(route.id) ==> a.id in w.cooldown && w.cooldown[a.id] >= v.listAt))
  {
    var o := OpenRoute(pools, rq, route, v, w).run.outcome;
    if o.Answer? && rq.keep.None? && pools(route.id) != [] {
      var earliest := EarliestCooldown(pools(route.id), w.cooldown, v.emptyAt);
      EarliestCooldownIsSoonest(pools(route.id), w.cooldown, v.emptyAt);
      if earliest.Some? {
        RetryAfterCoversExactly(earliest.value, v.waitAt);
      }
      FilterMembers(pools(route.id), Usable(w.cooldown, v.listAt));
      forall a | a in pools(route.id)
        ensures a.id in w.cooldown && w.cooldown[a.id] >= v.listAt
      {
        assert a !in ListRouteAccounts(pools, w.cooldown, route.id, v.listAt);
      }
    }
  }

  lemma {:induction false} NobodyLeft(accounts: seq<Account>, p: Account -> bool)
    requires forall a :: a in accounts ==> !p(a)
    ensures Filter(accounts, p) == []
  {
    if accounts != [] {
      NobodyLeft(accounts[..|accounts| - 1], p);
    }
  }

  /** While every account of the route cools down, a client that waits as told finds an
      account listed exactly when the wait for the soonest one is told with some to spare. */
  lemma {:induction false} WaitFreesAnAccountExactly(
    pools: Pools, rq: Request, route: Route, v: Visit, cooldown: map<nat, int>)
    requires rq.keep.None? && v.poolListed && v.cooldownKnown
    requires pools(route.id) != [] && AllCoolBeyond(pools(route.id), cooldown, v.emptyAt)
    ensures var o := EmptyAccountsResult(rq, route, pools, v, cooldown);
      var soonest := EarliestCooldown(pools(route.id), cooldown, v.emptyAt);
      && soonest.Some? && o.Answer? && o.result.Some? && o.result.value.retryAfter.Seconds?
      && var arrival := v.waitAt + o.result.value.retryAfter.n * SECOND;
         (ListRouteAccounts(pools, cooldown, route.id, arrival) != [] <==> ToldWithSpare(soonest.value - v.waitAt))
  {
    var accounts := pools(route.id);
    EarliestCooldownIsSoonest(accounts, cooldown, v.emptyAt);
    assert accounts[0].id in cooldown;
    var until := EarliestCooldown(accounts, cooldown, v.emptyAt).value;
    var arrival := v.waitAt + RetryAfterSeconds(until, v.waitAt) * SECOND;
    RetryAfterCoversExactly(until, v.waitAt);
    var listed := ListRouteAccounts(pools, cooldown, route.id, arrival);
    FilterMembers(accounts, Usable(cooldown, arrival));
    if arrival > until {
      var i :| 0 <= i < |accounts| && accounts[i].id in cooldown && cooldown[accounts[i].id] == until;
      assert accounts[i] in listed;
    } else {
      assert forall a :: a in accounts ==> !Usable(cooldown, arrival)(a);
      NobodyLeft(accounts, Usable(cooldown, arrival));
    }
  }

  function DispatchSequential(pools: Pools, rq: Request, route: Route, v: Visit, w: World): Run
    requires DistinctPools(pools)
  {
    match OpenRoute(pools, rq, route, v, w)
    case Early(run) => run
    case Open(w', stickyTo, pool) => RunPass(PassOf(rq, route, stickyTo), pool, v.turns, w')
  }

  // One dispatch to a route; `again` serves the sequential dispatch, without the account
  // filter, that replaces a race without racers.
  function DispatchRoute(pools: Pools, rq: Request, route: Route, v: Visit, again: Visit, w: World): Run
    requires DistinctPools(pools) && ValidVisit(v)
  {
    if route.strategy != Parallel then DispatchSequential(pools, rq, route, v, w)
    else
      match OpenRoute(pools, rq, route, v, w)
      case Early(run) => run
      case Open(w', stickyTo, pool) =>
        var racers := FilterParallel(pool, route.allowOAuth);
        if racers == [] then
          DispatchSequential(pools, rq.(keep := None), route.(strategy := Sequential), again, w')
        else RaceOver(rq, route, stickyTo, racers, v, w')
  }

  function RaceOver(rq: Request, route: Route, stickyTo: Option<nat>, racers: seq<Account>, v: Visit, w: World): Run
    requires ValidVisit(v)
  {
    var seats := if stickyTo.Some? then PreferAccount(racers, stickyTo.value) else racers;
    var env := RaceEnv(v.arrivals(|seats|), v.cancelledAt, v.cut, v.stickAt);
    RunRace(PassOf(rq, route, stickyTo), seats, v.turns, env, w)
  }

  // The call goes to a seat with the request's body, rewritten for the seat and the route,
  // and is answered as the environment answers that body.
  predicate SentTo(rq: Request, route: Route, turns: nat -> Turn, i: nat, c: Call) {
    && c.body == ApplyAccountModel(rq.body, c.account, route.defaultModel)
    && c.outcome == turns(i).call(c.account, c.body)
    && c.stored == turns(i).stored && c.cooldownAt == turns(i).cooldownAt
  }

  /** A pass serves its request on its route: its settings, session, sticky account and
      inspection, and for each seat the body it is to be sent. */
  lemma {:induction false} PassServes(rq: Request, route: Route, stickyTo: Option<nat>, a: Account)
    ensures var p := PassOf(rq, route, stickyTo);
      && p.routeId == route.id && p.strategy == route.strategy && p.cfg == route.cfg
      && p.sessionKey == rq.sessionKey && p.stickyTo == stickyTo && p.ttl == rq.ttl && p.inspect == rq.inspect
      && p.bodyFor(a) == ApplyAccountModel(rq.body, a, route.defaultModel)
  {
  }

  /** Every call of a sequential dispatch is so made. */
  lemma {:induction false} DispatchSends(pools: Pools, rq: Request, route: Route, v: Visit, w: World, i: nat)
    requires DistinctPools(pools) && i < |DispatchSequential(pools, rq, route, v, w).calls|
    ensures SentTo(rq, route, v.turns, i, DispatchSequential(pools, rq, route, v, w).calls[i])
  {
    var o := OpenRoute(pools, rq, route, v, w);
    var p := PassOf(rq, route, o.stickyTo);
    var run := RunPass(p, o.pool, v.turns, o.world);
    PassEndsWell(p, o.pool, v.turns, o.world);
    PassServes(rq, route, o.stickyTo, run.calls[i].account);
    assert run.calls[i] == CallOf(p, run.calls[i].account, v.turns(i));
  }

  lemma {:induction false} CallIsSent(
    rq: Request, route: Route, stickyTo: Option<nat>, turns: nat -> Turn, i: nat, a: Account)
    ensures var c := CallOf(PassOf(rq, route, stickyTo), a, turns(i)); c.account == a && SentTo(rq, route, turns, i, c)
  {
    PassServes(rq, route, stickyTo, a);
  }

  /** And of a race: one to each seat, the sticky one first. */
  lemma {:induction false} RaceSends(
    rq: Request, route: Route, stickyTo: Option<nat>, racers: seq<Account>, v: Visit, w: World)
    requires ValidVisit(v)
    ensures var calls := RaceOver(rq, route, stickyTo, racers, v, w).calls;
      var seats := PreferAccount(racers, if stickyTo.Some? then stickyTo.value else NIL_ID);
      && |calls| == |seats|
      && forall i :: 0 <= i < |seats| ==> calls[i].account == seats[i] && SentTo(rq, route, v.turns, i, calls[i])
  {
    var seats := PreferAccount(racers, if stickyTo.Some? then stickyTo.value else NIL_ID);
    var env := RaceEnv(v.arrivals(|seats|), v.cancelledAt, v.cut, v.stickAt);
    EverySeatIsCalled(PassOf(rq, route, stickyTo), seats, v.turns, env, w);
    forall i | 0 <= i < |seats|
      ensures var c := CallOf(PassOf(rq, route, stickyTo), seats[i], v.turns(i));
              c.account == seats[i] && SentTo(rq, route, v.turns, i, c)
    {
      CallIsSent(rq, route, stickyTo, v.turns, i, seats[i]);
    }
  }

  // The account may race: it is not on OAuth, or that is allowed.
  predicate MayRace(a: Account, allowOAuth: bool) {
    allowOAuth || Lower(a.authType) != Lower("oauth")
  }

  ghost predicate AreRacers(pool: seq<Account>, allowOAuth: bool, racers: seq<Account>) {
    forall a :: a in racers <==> a in pool && MayRace(a, allowOAuth)
  }

  lemma {:induction false} RacersMayRace(pool: seq<Account>, allowOAuth: bool)
    ensures AreRacers(pool, allowOAuth, FilterParallel(pool, allowOAuth))
    ensures FilterParallel(pool, allowOAuth) == [] <==> forall a :: a in pool ==> !MayRace(a, allowOAuth)
  {
    var racers := FilterParallel(pool, allowOAuth);
    forall a
      ensures a in racers <==> a in pool && MayRace(a, allowOAuth)
    {
      RacersAre(pool, allowOAuth, a);
    }
    if racers != [] {
      assert racers[0] in racers;
    }
  }

  /** A route that does not race is dispatched to seat by seat. One that does races its seats
      that may; for want of any it is dispatched to seat by seat, without the account filter. */
  lemma {:induction false} DispatchesByStrategy(
    pools: Pools, rq: Request, route: Route, v: Visit, again: Visit, w: World)
    requires DistinctPools(pools) && ValidVisit(v)
    ensures route.strategy != Parallel ==>
              DispatchRoute(pools, rq, route, v, again, w) == DispatchSequential(pools, rq, route, v, w)
    ensures route.strategy == Parallel ==>
      match OpenRoute(pools, rq, route, v, w)
      case Early(run) => DispatchRoute(pools, rq, route, v, again, w) == run
      case Open(w', stickyTo, pool) =>
        if forall a :: a in pool ==> !MayRace(a, route.allowOAuth) then
          DispatchRoute(pools, rq, route, v, again, w)
          == DispatchSequential(pools, rq.(keep := None), route.(strategy := Sequential), again, w')
        else
          exists racers: seq<Account> ::
            AreRacers(pool, route.allowOAuth, racers)
            && DispatchRoute(pools, rq, route, v, again, w) == RaceOver(rq, route, stickyTo, racers, v, w')
  {
    var o := OpenRoute(pools, rq, route, v, w);
    if o.Open? {
      RacersMayRace(o.pool, route.allowOAuth);
    }
  }

  // ---------------------------------------------------------------------------
  // Fallback routes
  // ---------------------------------------------------------------------------

  // The result ends the request: a status that is neither zero nor retryable.
  predicate Conclusive(res: Option<DispatchResult>) {
    res.Some? && res.value.status > 0 && !IsRetryableStatus(res.value.status)
  }

  // The k-th fallback slug is empty, the route's own, or not found.
  predicate Skipped(route: Route, find: nat -> Option<Route>, k: nat) {
    || k >= |route.fallbackSlugs|
    || route.fallbackSlugs[k] == "" || route.fallbackSlugs[k] == route.slug
    || find(k).None?
  }

  // A visit to the k-th fallback, if its slug names another route that can be found.
  type Visitor = (nat, World) -> Option<Run>

  // `find(k)` is what the lookup of the k-th slug returns.
  function VisitorOf(pools: Pools, rq: Request, route: Route, find: nat -> Option<Route>, visits: nat -> Visit): Visitor
    requires DistinctPools(pools) && forall i :: ValidVisit(visits(i))
  {
    (k: nat, w: World) =>
      if Skipped(route, find, k) then None
      else Some(DispatchRoute(pools, rq, find(k).value, visits(2 * k), visits(2 * k + 1), w))
  }

  /** A fallback is visited exactly when its slug is not empty, not the route's own, and
      found; the visit is a dispatch to the route found. */
  lemma {:induction false} VisitsExactly(
    pools: Pools, rq: Request, route: Route, find: nat -> Option<Route>, visits: nat -> Visit, k: nat, w: World)
    requires DistinctPools(pools) && forall i :: ValidVisit(visits(i))
    ensures var visitor := VisitorOf(pools, rq, route, find, visits);
      var visit := visitor(k, w);
      && (k >= |route.fallbackSlugs| || find(k).None? ==> visit.None?)
      && (k < |route.fallbackSlugs| && find(k).Some? ==>
            var slug := route.fallbackSlugs[k];
            && (slug == "" || slug == route.slug ==> visit.None?)
            && (slug != "" && slug != route.slug ==>
                  visit == Some(DispatchRoute(pools, rq, find(k).value, visits(2 * k), visits(2 * k + 1), w))))
  {
    var visitor := VisitorOf(pools, rq, route, find, visits);
    if Skipped(route, find, k) {
      assert visitor(k, w) == None;
    }
  }

  // What is returned after a conclusive fallback: only the attempts of the last result add up.
  function Joined(res: DispatchResult, last: Option<DispatchResult>): DispatchResult {
    res.(attempts := res.attempts + if last.Some? then last.value.attempts else 0)
  }

  // Tries the fallbacks from the k-th to the n-th.
  function Fallbacks(visit: Visitor, n: nat, k: nat, so: Run): Run
    requires k <= n && so.outcome.Answer?
    decreases n - k
  {
    if k == n then so
    else if visit(k, so.world).None? then Fallbacks(visit, n, k + 1, so)
    else
      var run := visit(k, so.world).value;
      var calls := so.calls + run.calls;
      match run.outcome
      case Failure(e) => Run(run.world, Failure(e), calls)
      case Answer(res) =>
        if Conclusive(res) then Run(run.world, Answer(Some(Joined(res.value, so.outcome.result))), calls)
        else Fallbacks(visit, n, k + 1, Run(run.world, Answer(if res.Some? then res else so.outcome.result), calls))
  }

  function DispatchWithFallbacks(
    pools: Pools, rq: Request, route: Route, v: Visit, again: Visit,
    find: nat -> Option<Route>, visits: nat -> Visit, w: World): Run
    requires DistinctPools(pools) && ValidVisit(v) && forall i :: ValidVisit(visits(i))
  {
    var run := DispatchRoute(pools, rq, route, v, again, w);
    if run.outcome.Failure? || Conclusive(run.outcome.result) then run
    else Fallbacks(VisitorOf(pools, rq, route, find, visits), |route.fallbackSlugs|, 0, run)
  }

  // A dispatch after which no further route is tried.
  predicate Settles(run: Run) {
    run.outcome.Failure? || Conclusive(run.outcome.result)
  }

  /** A request goes on to the next fallback exactly after a result that is absent, or has
      no status, or one for which another seat is tried. */
  lemma {:induction false} SettlesByStatus(run: Run)
    ensures Settles(run)
       <==> run.outcome.Failure?
            || (run.outcome.result.Some? && run.outcome.result.value.status > 0
                && !TriesNext(run.outcome.result.value.status))
  {
  }

  // The dispatches that the fallbacks make, in order.
  function Visited(visit: Visitor, n: nat, k: nat, w: World): seq<Run>
    requires k <= n
    decreases n - k
  {
    if k == n then []
    else if visit(k, w).None? then Visited(visit, n, k + 1, w)
    else
      var run := visit(k, w).value;
      [run] + if Settles(run) then [] else Visited(visit, n, k + 1, run.world)
  }

  function AllCalls(runs: seq<Run>): seq<Call> {
    if runs == [] then [] else runs[0].calls + AllCalls(runs[1..])
  }

  // The last result among these dispatches, or an earlier one.
  function LastOf(earlier: Option<DispatchResult>, runs: seq<Run>): Option<DispatchResult> {
    if runs == [] then earlier
    else
      var o := runs[|runs| - 1].outcome;
      if o.Answer? && o.result.Some? then o.result else LastOf(earlier, runs[..|runs| - 1])
  }

  lemma {:induction false} LastOfRest(earlier: Option<DispatchResult>, first: Run, rest: seq<Run>)
    requires first.outcome.Answer?
    ensures LastOf(earlier, [first] + rest)
         == LastOf(if first.outcome.result.Some? then first.outcome.result else earlier, rest)
  {
    var runs := [first] + rest;
    if rest == [] {
      assert runs[..|runs| - 1] == [];
    } else {
      LastOfRest(earlier, first, rest[..|rest| - 1]);
      assert runs[..|runs| - 1] == [first] + rest[..|rest| - 1];
    }
  }

  /** The fallbacks stop at the first dispatch that settles the request, and return its
      result, or else the last result there was; they make exactly the calls of the
      dispatches up to there. */
  lemma {:induction false} FallbacksStopAtFirstConclusive(visit: Visitor, n: nat, k: nat, so: Run)
    requires k <= n && so.outcome.Answer?
    ensures var runs := Visited(visit, n, k, so.world);
      var final := Fallbacks(visit, n, k, so);
      && (forall i :: 0 <= i < |runs| - 1 ==> !Settles(runs[i]))
      && final.calls == so.calls + AllCalls(runs)
      && final.outcome ==
         if runs == [] || !Settles(runs[|runs| - 1]) then Answer(LastOf(so.outcome.result, runs))
         else
           match runs[|runs| - 1].outcome
           case Failure(e) => Failure(e)
           case Answer(res) => Answer(Some(Joined(res.value, LastOf(so.outcome.result, runs[..|runs| - 1]))))
    decreases n - k
  {
    if k == n {
      assert so.calls + [] == so.calls;
    } else if visit(k, so.world).None? {
      FallbacksStopAtFirstConclusive(visit, n, k + 1, so);
    } else {
      var run := visit(k, so.world).value;
      var calls := so.calls + run.calls;
      if Settles(run) {
        assert [run] + [] == [run] && [run][..0] == [];
        assert AllCalls([run]) == run.calls + [] == run.calls;
      } else {
        var rest := Visited(visit, n, k + 1, run.world);
        var last := if run.outcome.result.Some? then run.outcome.result else so.outcome.result;
        FallbacksStopAtFirstConclusive(visit, n, k + 1, Run(run.world, Answer(last), calls));
        AfterOneMore(so, run, rest);
        LastOfRest(so.outcome.result, run, rest);
        if rest != [] {
          LastOfRest(so.outcome.result, run, rest[..|rest| - 1]);
          assert ([run] + rest)[..|rest|] == [run] + rest[..|rest| - 1];
        }
      }
    }
  }

  lemma {:induction false} AfterOneMore(so: Run, run: Run, rest: seq<Run>)
    ensures (so.calls + run.calls) + AllCalls(rest) == so.calls + AllCalls([run] + rest)
    ensures !Settles(run) && (forall i :: 0 <= i < |rest| - 1 ==> !Settles(rest[i])) ==>
              forall i :: 0 <= i < |[run] + rest| - 1 ==> !Settles(([run] + rest)[i])
  {
    assert ([run] + rest)[1..] == rest;
  }

  // ---------------------------------------------------------------------------
  // What the attempts of a result count
  // ---------------------------------------------------------------------------

  // A dispatch whose result, if it has one, counts the calls it made.
  predicate CountsOwn(run: Run) {
    run.outcome.Answer? && run.outcome.result.Some? ==> run.outcome.result.value.attempts == |run.calls|
  }

  predicate HasResult(run: Run) {
    run.outcome.Answer? && run.outcome.result.Some?
  }

  // The calls of all dispatches but the last one that has a result.
  function Missed(runs: seq<Run>): nat {
    if runs == [] then 0
    else
      var n := |runs| - 1;
      if HasResult(runs[n]) then |AllCalls(runs[..n])| else |runs[n].calls| + Missed(runs[..n])
  }

  lemma {:induction false} AllCallsSnoc(runs: seq<Run>, run: Run)
    ensures AllCalls(runs + [run]) == AllCalls(runs) + run.calls
    decreases |runs|
  {
    if runs == [] {
      assert [run][1..] == [] && run.calls + [] == run.calls && runs + [run] == [run];
    } else {
      AllCallsSnoc(runs[1..], run);
      assert (runs + [run])[0] == runs[0] && (runs + [run])[1..] == runs[1..] + [run];
      assert runs[0].calls + (AllCalls(runs[1..]) + run.calls) == runs[0].calls + AllCalls(runs[1..]) + run.calls;
    }
  }

  // The last result counts its own dispatch and misses all others.
  lemma {:induction false} LastCountsOwn(runs: seq<Run>)
    requires EachCountsOwn(runs)
    ensures var last := LastOf(None, runs);
      (if last.Some? then last.value.attempts else 0) + Missed(runs) == |AllCalls(runs)|
  {
    if runs != [] {
      var n := |runs| - 1;
      assert runs == runs[..n] + [runs[n]];
      AllCallsSnoc(runs[..n], runs[n]);
      LastCountsOwn(runs[..n]);
    }
  }

  // Is the i-th of these dispatches the last one that has a result?
  predicate IsLastResult(runs: seq<Run>, i: int) {
    0 <= i < |runs| && HasResult(runs[i]) && forall j :: i < j < |runs| ==> !HasResult(runs[j])
  }

  predicate OthersQuiet(runs: seq<Run>) {
    forall i :: 0 <= i < |runs| && !IsLastResult(runs, i) ==> runs[i].calls == []
  }

  predicate AllQuiet(runs: seq<Run>) {
    forall i :: 0 <= i < |runs| ==> runs[i].calls == []
  }

  lemma {:induction false} NoCallsExactly(runs: seq<Run>)
    ensures |AllCalls(runs)| == 0 <==> AllQuiet(runs)
    decreases |runs|
  {
    if runs != [] {
      NoCallsExactly(runs[1..]);
      assert forall i :: 0 < i < |runs| ==> runs[i] == runs[1..][i - 1];
      if AllQuiet(runs) {
        assert AllQuiet(runs[1..]);
      }
    }
  }

  lemma {:induction false} QuietSnoc(runs: seq<Run>, run: Run)
    ensures HasResult(run) ==> (OthersQuiet(runs + [run]) <==> AllQuiet(runs))
    ensures !HasResult(run) ==> (OthersQuiet(runs + [run]) <==> OthersQuiet(runs) && run.calls == [])
  {
    var more := runs + [run];
    assert more[|runs|] == run;
    assert forall i :: 0 <= i < |runs| ==> more[i] == runs[i];
    forall i | 0 <= i < |runs|
      ensures IsLastResult(more, i) <==> !HasResult(run) && IsLastResult(runs, i)
    {
    }
    assert IsLastResult(more, |runs|) <==> HasResult(run);
  }

  lemma {:induction false} MissedNoneExactly(runs: seq<Run>)
    ensures Missed(runs) == 0 <==> OthersQuiet(runs)
  {
    if runs != [] {
      var n := |runs| - 1;
      assert runs == runs[..n] + [runs[n]];
      QuietSnoc(runs[..n], runs[n]);
      NoCallsExactly(runs[..n]);
      MissedNoneExactly(runs[..n]);
    }
  }

  // All dispatches of a request whose primary route was not conclusive.
  function Dispatches(visit: Visitor, n: nat, so: Run): seq<Run> {
    [so] + Visited(visit, n, 0, so.world)
  }

  // The dispatches apart from the one that settled the request, if one did.
  function Unsettled(runs: seq<Run>): seq<Run> {
    if runs != [] && Settles(runs[|runs| - 1]) then runs[..|runs| - 1] else runs
  }

  // Every call is one of the settling dispatch, or of the last dispatch before it that has a result.
  predicate EveryCallCounted(runs: seq<Run>) {
    OthersQuiet(Unsettled(runs))
  }

  lemma {:induction false} LastOfNone(so: Run, runs: seq<Run>)
    requires so.outcome.Answer?
    ensures LastOf(None, [so] + runs) == LastOf(so.outcome.result, runs)
  {
    LastOfRest(None, so, runs);
  }

  // A conclusive dispatch adds the last result's attempts to its own.
  lemma {:induction false} JoinedAttempts(before: seq<Run>, last: Run)
    requires EachCountsOwn(before) && CountsOwn(last) && HasResult(last)
    ensures Joined(last.outcome.result.value, LastOf(None, before)).attempts + Missed(before)
         == |AllCalls(before + [last])|
  {
    LastCountsOwn(before);
    AllCallsSnoc(before, last);
  }

  // The dispatches before the one that settled the request, and those of an unsettled one.
  lemma {:induction false} UnsettledIs(so: Run, visited: seq<Run>)
    requires !Settles(so)
    ensures var n := |visited|;
      if n > 0 && Settles(visited[n - 1])
      then Unsettled([so] + visited) == [so] + visited[..n - 1]
           && [so] + visited == ([so] + visited[..n - 1]) + [visited[n - 1]]
      else Unsettled([so] + visited) == [so] + visited
  {
    var runs := [so] + visited;
    assert runs[|runs| - 1] == if visited == [] then so else visited[|visited| - 1];
  }

  lemma {:induction false} FewerCountOwn(runs: seq<Run>, run: Run)
    requires EachCountsOwn(runs + [run])
    ensures EachCountsOwn(runs) && CountsOwn(run)
  {
    assert (runs + [run])[|runs|] == run;
    assert forall i :: 0 <= i < |runs| ==> (runs + [run])[i] == runs[i];
  }

  /** The attempts of a request's result are the calls made if and only if every dispatch
      but the conclusive one, and the last one before it that has a result, made no call. */
  lemma {:induction false} AttemptsCountCallsExactly(visit: Visitor, n: nat, so: Run)
    requires !Settles(so)
    requires EachCountsOwn(Dispatches(visit, n, so))
    requires HasResult(Fallbacks(visit, n, 0, so))
    ensures var final := Fallbacks(visit, n, 0, so);
      final.outcome.result.value.attempts == |final.calls| <==> EveryCallCounted(Dispatches(visit, n, so))
  {
    var visited := Visited(visit, n, 0, so.world);
    FallbacksStopAtFirstConclusive(visit, n, 0, so);
    UnsettledIs(so, visited);
    assert ([so] + visited)[1..] == visited;
    var counted := Unsettled([so] + visited);
    MissedNoneExactly(counted);
    if counted == [so] + visited {
      LastOfNone(so, visited);
      LastCountsOwn(counted);
    } else {
      var m := |visited| - 1;
      FewerCountOwn(counted, visited[m]);
      LastOfNone(so, visited[..m]);
      JoinedAttempts(counted, visited[m]);
    }
  }

  /** Every dispatch counts its own calls, sequential or raced. */
  lemma {:induction false} DispatchCountsOwn(pools: Pools, rq: Request, route: Route, v: Visit, again: Visit, w: World)
    requires DistinctPools(pools) && ValidVisit(v)
    ensures CountsOwn(DispatchRoute(pools, rq, route, v, again, w))
  {
    var o := OpenRoute(pools, rq, route, v, w);
    if route.strategy != Parallel {
      SequentialCountsOwn(pools, rq, route, v, w);
    } else if o.Open? {
      var racers := FilterParallel(o.pool, route.allowOAuth);
      if racers == [] {
        SequentialCountsOwn(pools, rq.(keep := None), route.(strategy := Sequential), again, o.world);
      } else {
        RaceCountsOwn(rq, route, o.stickyTo, racers, v, o.world);
      }
    }
  }

  lemma {:induction false} SequentialCountsOwn(pools: Pools, rq: Request, route: Route, v: Visit, w: World)
    requires DistinctPools(pools)
    ensures CountsOwn(DispatchSequential(pools, rq, route, v, w))
  {
    var o := OpenRoute(pools, rq, route, v, w);
    if o.Open? {
      PassEndsWell(PassOf(rq, route, o.stickyTo), o.pool, v.turns, o.world);
    }
  }

  lemma {:induction false} RaceCountsOwn(
    rq: Request, route: Route, stickyTo: Option<nat>, racers: seq<Account>, v: Visit, w: World)
    requires ValidVisit(v)
    ensures CountsOwn(RaceOver(rq, route, stickyTo, racers, v, w))
  {
    var seats := if stickyTo.Some? then PreferAccount(racers, stickyTo.value) else racers;
    var p := PassOf(rq, route, stickyTo);
    var calls := CallsOf(p, seats, v.turns);
    DrainCountsRacers(p, |seats|, Messages(p, calls, v.arrivals(|seats|)), v.cancelledAt, None);
  }

  predicate EachCountsOwn(runs: seq<Run>) {
    forall i :: 0 <= i < |runs| ==> CountsOwn(runs[i])
  }

  lemma {:induction false} OneMoreCountsOwn(run: Run, rest: seq<Run>)
    requires CountsOwn(run) && EachCountsOwn(rest)
    ensures EachCountsOwn([run]) && EachCountsOwn([run] + rest)
  {
    var runs := [run] + rest;
    forall i | 0 <= i < |runs|
      ensures CountsOwn(runs[i])
    {
      assert i > 0 ==> runs[i] == rest[i - 1];
    }
  }

  ghost predicate AllCountOwn(visit: Visitor) {
    forall k: nat, w :: visit(k, w).Some? ==> CountsOwn(visit(k, w).value)
  }

  lemma {:induction false} VisitedCountOwn(visit: Visitor, n: nat, k: nat, w: World)
    requires k <= n && AllCountOwn(visit)
    ensures EachCountsOwn(Visited(visit, n, k, w))
    decreases n - k
  {
    if k < n {
      if visit(k, w).None? {
        VisitedCountOwn(visit, n, k + 1, w);
      } else {
        var run := visit(k, w).value;
        var rest := Visited(visit, n, k + 1, run.world);
        VisitedCountOwn(visit, n, k + 1, run.world);
        OneMoreCountsOwn(run, rest);
        assert [run] + [] == [run];
      }
    }
  }

  lemma {:induction false} VisitsCountOwn(
    pools: Pools, rq: Request, route: Route, find: nat -> Option<Route>, visits: nat -> Visit)
    requires DistinctPools(pools) && forall i :: ValidVisit(visits(i))
    ensures AllCountOwn(VisitorOf(pools, rq, route, find, visits))
  {
    var visit := VisitorOf(pools, rq, route, find, visits);
    forall k: nat, w | visit(k, w).Some?
      ensures CountsOwn(visit(k, w).value)
    {
      assert !Skipped(route, find, k);
      DispatchCountsOwn(pools, rq, find(k).value, visits(2 * k), visits(2 * k + 1), w);
    }
  }

  lemma {:induction false} FallbackAttemptsExactly(visit: Visitor, n: nat, so: Run)
    requires !Settles(so) && CountsOwn(so) && AllCountOwn(visit)
    requires HasResult(Fallbacks(visit, n, 0, so))
    ensures var final := Fallbacks(visit, n, 0, so);
      final.outcome.result.value.attempts == |final.calls| <==> EveryCallCounted(Dispatches(visit, n, so))
  {
    VisitedCountOwn(visit, n, 0, so.world);
    OneMoreCountsOwn(so, Visited(visit, n, 0, so.world));
    AttemptsCountCallsExactly(visit, n, so);
  }

  /** For the engine's own dispatches: the attempts of a request's result are the calls made
      if and only if no dispatch made a call but the conclusive one, and the last one
      before it that has a result. */
  lemma {:induction false} RequestAttemptsExactly(
    pools: Pools, rq: Request, route: Route, v: Visit, again: Visit,
    find: nat -> Option<Route>, visits: nat -> Visit, w: World)
    requires DistinctPools(pools) && ValidVisit(v) && forall i :: ValidVisit(visits(i))
    requires !Settles(DispatchRoute(pools, rq, route, v, again, w))
    requires HasResult(DispatchWithFallbacks(pools, rq, route, v, again, find, visits, w))
    ensures var final := DispatchWithFallbacks(pools, rq, route, v, again, find, visits, w);
      var primary := DispatchRoute(pools, rq, route, v, again, w);
      var visit := VisitorOf(pools, rq, route, find, visits);
      final.outcome.result.value.attempts == |final.calls|
      <==> EveryCallCounted(Dispatches(visit, |route.fallbackSlugs|, primary))
  {
    DispatchCountsOwn(pools, rq, route, v, again, w);
    VisitsCountOwn(pools, rq, route, find, visits);
    FallbackAttemptsExactly(VisitorOf(pools, rq, route, find, visits), |route.fallbackSlugs|,
                            DispatchRoute(pools, rq, route, v, again, w));
  }
}
