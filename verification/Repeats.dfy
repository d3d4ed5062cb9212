/**
 Whether one request calls an account twice: within a route, across the primary route and
 its fallbacks, with repeated slugs and shared accounts.
 */
module Repeats {
  import opened Wrappers
  import opened Router
  import opened Cooldown
  import opened AccountModel
  import opened Ttft
  import opened Dispatch
  import opened DispatchLaws
  import opened Routing

  // ---------------------------------------------------------------------------
  // No call after a firm call
  // ---------------------------------------------------------------------------

  // The vendor replied with a status, and the store took the cooldown that a soft failure
  // asks for, from `t0` on.
  predicate Firm(c: Call, t0: int) {
    c.outcome.Answered? && c.outcome.reply.status >= 0 && c.stored && c.cooldownAt >= t0
  }

  // When the k-th fallback lists its accounts.
  function ListAt(visits: nat -> Visit, k: nat): int {
    visits(2 * k).listAt
  }

  ghost predicate ListedBefore(visits: nat -> Visit, n: nat, end: int) {
    forall k :: 0 <= k < n ==> ListAt(visits, k) < end
  }

  ghost predicate NoFallbackRaces(route: Route, find: nat -> Option<Route>) {
    forall k :: 0 <= k < |route.fallbackSlugs| && find(k).Some? ==> find(k).value.strategy != Parallel
  }

  // Every account called firmly so far is cooling down until a second after `t0`.
  ghost predicate AllCool(w: World, calls: seq<Call>, t0: int) {
    forall i :: 0 <= i < |calls| && Firm(calls[i], t0) ==>
      calls[i].account.id in w.cooldown && w.cooldown[calls[i].account.id] >= t0 + SECOND
  }

  // After a firm call to an account no other call goes to it.
  predicate FirmOnce(calls: seq<Call>, t0: int) {
    forall i, j :: 0 <= i < j < |calls| && Firm(calls[i], t0) ==> calls[i].account.id != calls[j].account.id
  }

  predicate EachOnce(calls: seq<Call>) {
    forall i, j :: 0 <= i < j < |calls| ==> calls[i].account.id != calls[j].account.id
  }

  predicate Apart(first: seq<Call>, second: seq<Call>, t0: int) {
    forall i, j :: 0 <= i < |first| && 0 <= j < |second| && Firm(first[i], t0) ==>
      first[i].account.id != second[j].account.id
  }

  // A sequential dispatch calls nobody who is cooling down, calls nobody twice, and when
  // its result is not conclusive leaves everybody it called firmly cooling down.
  ghost predicate Considerate(w: World, earlier: seq<Call>, t0: int, run: Run) {
    && EachOnce(run.calls) && Apart(earlier, run.calls, t0)
    && (run.outcome.Answer? && !Conclusive(run.outcome.result) ==>
          AllCool(run.world, earlier, t0) && AllCool(run.world, run.calls, t0))
  }

  // A firm call that led on left its account cooling down.
  lemma {:induction false} FirmCallsCool(
    p: Pass, pool: seq<Account>, turns: nat -> Turn, w0: World, run: Run, t0: int, n: nat, winner: Option<nat>)
    requires n <= |run.calls| && CallsOk(p, pool, turns, run.calls)
    requires AllLedOn(p.inspect, run.calls[..n]) && MarksExact(p, turns, w0, run.world, run.calls[..n], winner)
    ensures AllCool(run.world, run.calls[..n], t0)
  {
    var calls := run.calls[..n];
    forall i | 0 <= i < |calls| && Firm(calls[i], t0)
      ensures calls[i].account.id in run.world.cooldown
      ensures run.world.cooldown[calls[i].account.id] >= t0 + SECOND
    {
      assert calls[i] == run.calls[i] == CallOf(p, calls[i].account, turns(i));
      assert LedOn(p.inspect, calls[i]);
      assert Marked(run.world, calls[i], turns(i));
    }
  }

  lemma {:induction false} EarlierStayCool(
    p: Pass, turns: nat -> Turn, w0: World, run: Run, t0: int, n: nat, winner: Option<nat>, earlier: seq<Call>)
    requires n <= |run.calls| && MarksExact(p, turns, w0, run.world, run.calls[..n], winner)
    requires winner.Some? ==> n < |run.calls| && run.calls[n].account.id == winner.value
    requires AllCool(w0, earlier, t0) && Apart(earlier, run.calls, t0)
    ensures AllCool(run.world, earlier, t0)
  {
    var calls := run.calls[..n];
    forall i | 0 <= i < |earlier| && Firm(earlier[i], t0)
      ensures earlier[i].account.id in run.world.cooldown
      ensures run.world.cooldown[earlier[i].account.id] >= t0 + SECOND
    {
      var id := earlier[i].account.id;
      assert forall k :: 0 <= k < n ==> calls[k] == run.calls[k];
      assert winner != Some(id) && !SoftFailedId(p.inspect, calls, id);
      assert SameFor(w0, run.world, id);
    }
  }

  // A last call that was not conclusive, though neither soft nor silent, was not firm.
  lemma {:induction false} WonLeavesCool(
    p: Pass, pool: seq<Account>,
    turns: nat -> Turn, w0: World, run: Run, res: DispatchResult, t0: int, earlier: seq<Call>)
    requires CallsOk(p, pool, turns, run.calls) && WonOk(p, turns, w0, run, res) && !Conclusive(Some(res))
    requires AllCool(w0, earlier, t0) && Apart(earlier, run.calls, t0)
    ensures AllCool(run.world, earlier, t0) && AllCool(run.world, run.calls, t0)
  {
    var n := |run.calls| - 1;
    var winner := Some(run.calls[n].account.id);
    FirmCallsCool(p, pool, turns, w0, run, t0, n, winner);
    EarlierStayCool(p, turns, w0, run, t0, n, winner, earlier);
    assert !Firm(run.calls[n], t0);
    assert forall i :: 0 <= i < n ==> run.calls[..n][i] == run.calls[i];
  }

  lemma {:induction false} ExhaustedLeavesCool(
    p: Pass, pool: seq<Account>, turns: nat -> Turn, w0: World, run: Run, t0: int, earlier: seq<Call>)
    requires CallsOk(p, pool, turns, run.calls) && ExhaustedOk(p, pool, turns, w0, run)
    requires AllCool(w0, earlier, t0) && Apart(earlier, run.calls, t0)
    ensures AllCool(run.world, earlier, t0) && AllCool(run.world, run.calls, t0)
  {
    var n := |run.calls|;
    assert run.calls[..n] == run.calls;
    FirmCallsCool(p, pool, turns, w0, run, t0, n, None);
    EarlierStayCool(p, turns, w0, run, t0, n, None, earlier);
  }

  lemma {:induction false} PassIsConsiderate(
    p: Pass, pool: seq<Account>, turns: nat -> Turn, w: World, t0: int, earlier: seq<Call>)
    requires DistinctIds(pool) && AllCool(w, earlier, t0)
    requires forall a :: a in pool ==> a.id !in w.cooldown || w.cooldown[a.id] < t0 + SECOND
    ensures Considerate(w, earlier, t0, RunPass(p, pool, turns, w))
  {
    var run := RunPass(p, pool, turns, w);
    PassEndsWell(p, pool, turns, w);
    RunIsConsiderate(p, pool, turns, w, run, t0, earlier);
  }

  lemma {:induction false} RunIsConsiderate(
    p: Pass, pool: seq<Account>, turns: nat -> Turn, w: World, run: Run, t0: int, earlier: seq<Call>)
    requires RunOk(p, pool, turns, w, run) && AllCool(w, earlier, t0)
    requires forall a :: a in pool ==> a.id !in w.cooldown || w.cooldown[a.id] < t0 + SECOND
    ensures Considerate(w, earlier, t0, run)
  {
    assert Apart(earlier, run.calls, t0);
    if run.outcome.Answer? && !Conclusive(run.outcome.result) {
      if run.outcome.result.Some? && !IsSoftFail(run.outcome.result.value.status) {
        WonLeavesCool(p, pool, turns, w, run, run.outcome.result.value, t0, earlier);
      } else {
        ExhaustedLeavesCool(p, pool, turns, w, run, t0, earlier);
      }
    }
  }

  /** A sequential dispatch that lists its accounts within a second of `t0` is considerate,
      whatever its seats answer. */
  lemma {:induction false} DispatchIsConsiderate(
    pools: Pools, rq: Request, route: Route, v: Visit, w: World, t0: int, earlier: seq<Call>)
    requires DistinctPools(pools) && v.listAt < t0 + SECOND && AllCool(w, earlier, t0)
    ensures Considerate(w, earlier, t0, DispatchSequential(pools, rq, route, v, w))
  {
    var o := OpenRoute(pools, rq, route, v, w);
    if o.Open? {
      PassIsConsiderate(PassOf(rq, route, o.stickyTo), o.pool, v.turns, o.world, t0, earlier);
    }
  }

  lemma {:induction false} FirmOnceJoined(first: seq<Call>, second: seq<Call>, t0: int)
    requires FirmOnce(first, t0) && EachOnce(second) && Apart(first, second, t0)
    ensures FirmOnce(first + second, t0)
  {
    var all := first + second;
    forall i, j | 0 <= i < j < |all| && Firm(all[i], t0)
      ensures all[i].account.id != all[j].account.id
    {
      if i < |first| <= j {
        assert first[i].account.id != second[j - |first|].account.id;
      }
    }
  }

  lemma {:induction false} AllCoolJoined(w: World, first: seq<Call>, second: seq<Call>, t0: int)
    requires AllCool(w, first, t0) && AllCool(w, second, t0)
    ensures AllCool(w, first + second, t0)
  {
  }

  // Every visit calls only accounts that are not cooling down, and leaves those it called
  // firmly cooling down.
  ghost predicate AllConsiderate(visit: Visitor, t0: int) {
    forall k: nat, w, earlier ::
      AllCool(w, earlier, t0) && visit(k, w).Some? ==> Considerate(w, earlier, t0, visit(k, w).value)
  }

  lemma {:induction false} FallbacksCallOnce(visit: Visitor, n: nat, k: nat, so: Run, t0: int)
    requires AllConsiderate(visit, t0)
    requires k <= n && so.outcome.Answer?
    requires FirmOnce(so.calls, t0) && AllCool(so.world, so.calls, t0)
    ensures FirmOnce(Fallbacks(visit, n, k, so).calls, t0)
    decreases n - k
  {
    if k < n {
      if visit(k, so.world).None? {
        FallbacksCallOnce(visit, n, k + 1, so, t0);
      } else {
        var run := visit(k, so.world).value;
        FirmOnceJoined(so.calls, run.calls, t0);
        if run.outcome.Answer? && !Conclusive(run.outcome.result) {
          AllCoolJoined(run.world, so.calls, run.calls, t0);
          var last := if run.outcome.result.Some? then run.outcome.result else so.outcome.result;
          FallbacksCallOnce(visit, n, k + 1, Run(run.world, Answer(last), so.calls + run.calls), t0);
        }
      }
    }
  }

  lemma {:induction false} VisitIsDispatch(
    pools: Pools, rq: Request, route: Route, find: nat -> Option<Route>, visits: nat -> Visit, k: nat, w: World)
    requires DistinctPools(pools) && forall i :: ValidVisit(visits(i))
    requires !Skipped(route, find, k) && find(k).value.strategy != Parallel
    ensures VisitorOf(pools, rq, route, find, visits)(k, w)
         == Some(DispatchSequential(pools, rq, find(k).value, visits(2 * k), w))
  {
  }

  // A fallback that is visited is not skipped, and does not race.
  lemma {:induction false} VisitedFallback(
    pools: Pools, rq: Request, route: Route, find: nat -> Option<Route>, visits: nat -> Visit, k: nat, w: World)
    requires DistinctPools(pools) && (forall i :: ValidVisit(visits(i))) && NoFallbackRaces(route, find)
    requires VisitorOf(pools, rq, route, find, visits)(k, w).Some?
    ensures k < |route.fallbackSlugs| && find(k).Some?
    ensures VisitorOf(pools, rq, route, find, visits)(k, w)
         == Some(DispatchSequential(pools, rq, find(k).value, visits(2 * k), w))
  {
    assert !Skipped(route, find, k);
    VisitIsDispatch(pools, rq, route, find, visits, k, w);
  }

  lemma {:induction false} VisitsAreConsiderate(
    pools: Pools, rq: Request, route: Route, find: nat -> Option<Route>, visits: nat -> Visit, t0: int)
    requires DistinctPools(pools) && forall i :: ValidVisit(visits(i))
    requires ListedBefore(visits, |route.fallbackSlugs|, t0 + SECOND) && NoFallbackRaces(route, find)
    ensures AllConsiderate(VisitorOf(pools, rq, route, find, visits), t0)
  {
    var visit := VisitorOf(pools, rq, route, find, visits);
    forall k: nat, w, earlier | AllCool(w, earlier, t0) && visit(k, w).Some?
      ensures Considerate(w, earlier, t0, visit(k, w).value)
    {
      VisitedFallback(pools, rq, route, find, visits, k, w);
      assert ListAt(visits, k) < t0 + SECOND;
      DispatchIsConsiderate(pools, rq, find(k).value, visits(2 * k), w, t0, earlier);
    }
  }

  /** When no route races and all listings are within a second of `t0`, an account is called
      again in one request only after a call to it that was not firm: that gave no reply or
      no status, or whose cooldown the store rejected or dated before `t0`. This holds
      within a route and across the primary route and all fallbacks, repeated slugs and
      shared accounts included. */
  lemma {:induction false} NoCallAfterFirmCall(
    pools: Pools, rq: Request, route: Route, v: Visit, again: Visit,
    find: nat -> Option<Route>, visits: nat -> Visit, w: World, t0: int)
    requires DistinctPools(pools) && ValidVisit(v) && (forall i :: ValidVisit(visits(i)))
    requires v.listAt < t0 + SECOND && ListedBefore(visits, |route.fallbackSlugs|, t0 + SECOND)
    requires route.strategy != Parallel && NoFallbackRaces(route, find)
    ensures FirmOnce(DispatchWithFallbacks(pools, rq, route, v, again, find, visits, w).calls, t0)
  {
    DispatchIsConsiderate(pools, rq, route, v, w, t0, []);
    VisitsAreConsiderate(pools, rq, route, find, visits, t0);
    var run := DispatchSequential(pools, rq, route, v, w);
    if run.outcome.Answer? && !Conclusive(run.outcome.result) {
      FallbacksCallOnce(VisitorOf(pools, rq, route, find, visits), |route.fallbackSlugs|, 0, run, t0);
    }
  }

  /** So no account is called twice when all calls made but the last are firm. */
  lemma {:induction false} NoAccountCalledTwice(
    pools: Pools, rq: Request, route: Route, v: Visit, again: Visit,
    find: nat -> Option<Route>, visits: nat -> Visit, w: World, t0: int)
    requires DistinctPools(pools) && ValidVisit(v) && (forall i :: ValidVisit(visits(i)))
    requires v.listAt < t0 + SECOND && ListedBefore(visits, |route.fallbackSlugs|, t0 + SECOND)
    requires route.strategy != Parallel && NoFallbackRaces(route, find)
    requires var calls := DispatchWithFallbacks(pools, rq, route, v, again, find, visits, w).calls;
      forall i :: 0 <= i < |calls| - 1 ==> Firm(calls[i], t0)
    ensures EachOnce(DispatchWithFallbacks(pools, rq, route, v, again, find, visits, w).calls)
  {
    NoCallAfterFirmCall(pools, rq, route, v, again, find, visits, w, t0);
  }

  // ---------------------------------------------------------------------------
  // Exactly which accounts are called again
  // ---------------------------------------------------------------------------

  predicate Free(cooldown: map<nat, int>, id: nat, now: int) {
    id !in cooldown || cooldown[id] < now
  }

  predicate FirmTo(calls: seq<Call>, id: nat, t0: int) {
    exists i :: 0 <= i < |calls| && calls[i].account.id == id && Firm(calls[i], t0)
  }

  // Cooldowns are counted from `t0` on.
  predicate Dated(calls: seq<Call>, t0: int) {
    forall i :: 0 <= i < |calls| ==> calls[i].cooldownAt >= t0
  }

  predicate SameCooldown(w: World, w': World, id: nat) {
    && (id in w'.cooldown <==> id in w.cooldown)
    && (id in w.cooldown ==> w'.cooldown[id] == w.cooldown[id])
  }

  // An account called firmly is cooling down; any other has the cooldown it had.
  predicate CooldownExact(w0: World, w: World, calls: seq<Call>, t0: int, id: nat) {
    if FirmTo(calls, id, t0) then id in w.cooldown && w.cooldown[id] >= t0 + SECOND else SameCooldown(w0, w, id)
  }

  ghost predicate CooldownsExact(w0: World, w: World, calls: seq<Call>, t0: int) {
    forall id: nat :: CooldownExact(w0, w, calls, t0, id)
  }

  // The calls that led on decide the cooldown of everybody but the winner.
  lemma {:induction false} LedOnExact(
    p: Pass, pool: seq<Account>, turns: nat -> Turn, w0: World, run: Run, t0: int, n: nat, winner: Option<nat>, id: nat)
    requires n <= |run.calls| && CallsOk(p, pool, turns, run.calls) && Dated(run.calls, t0)
    requires AllLedOn(p.inspect, run.calls[..n]) && MarksExact(p, turns, w0, run.world, run.calls[..n], winner)
    requires winner != Some(id)
    ensures CooldownExact(w0, run.world, run.calls[..n], t0, id)
  {
    var calls := run.calls[..n];
    assert forall i :: 0 <= i < n ==> calls[i] == run.calls[i];
    if SoftFailedId(p.inspect, calls, id) {
      var i :| 0 <= i < n && calls[i].account.id == id && SoftFailover(p.inspect, calls[i]).Some?;
      assert run.calls[i] == CallOf(p, run.calls[i].account, turns(i));
      assert Marked(run.world, calls[i], turns(i));
      assert Firm(calls[i], t0) <==> turns(i).stored;
    } else {
      assert SameFor(w0, run.world, id);
      assert forall i :: 0 <= i < n ==> LedOn(p.inspect, calls[i]);
    }
  }

  lemma {:induction false} ExhaustedExact(
    p: Pass, pool: seq<Account>, turns: nat -> Turn, w0: World, run: Run, t0: int, id: nat)
    requires CallsOk(p, pool, turns, run.calls) && Dated(run.calls, t0) && ExhaustedOk(p, pool, turns, w0, run)
    ensures CooldownExact(w0, run.world, run.calls, t0, id)
  {
    var n := |run.calls|;
    assert run.calls[..n] == run.calls;
    LedOnExact(p, pool, turns, w0, run, t0, n, None, id);
  }

  // A last call that was not conclusive, though neither soft nor silent, was not firm.
  lemma {:induction false} WonExact(
    p: Pass, pool: seq<Account>, turns: nat -> Turn, w0: World, run: Run, res: DispatchResult, t0: int, id: nat)
    requires CallsOk(p, pool, turns, run.calls) && Dated(run.calls, t0)
    requires WonOk(p, turns, w0, run, res) && !Conclusive(Some(res))
    ensures CooldownExact(w0, run.world, run.calls, t0, id)
  {
    var n := |run.calls| - 1;
    var last := run.calls[n].account.id;
    assert !Firm(run.calls[n], t0);
    if id == last {
      assert forall i :: 0 <= i < n ==> run.calls[i].account.id != id;
    } else {
      LedOnExact(p, pool, turns, w0, run, t0, n, Some(last), id);
      assert run.calls == run.calls[..n] + [run.calls[n]];
      FirmToJoined(run.calls[..n], [run.calls[n]], id, t0);
    }
  }

  lemma {:induction false} FirmToJoined(first: seq<Call>, second: seq<Call>, id: nat, t0: int)
    ensures FirmTo(first + second, id, t0) <==> FirmTo(first, id, t0) || FirmTo(second, id, t0)
  {
    var all := first + second;
    if FirmTo(first, id, t0) {
      var i :| 0 <= i < |first| && first[i].account.id == id && Firm(first[i], t0);
      assert all[i] == first[i];
    }
    if FirmTo(second, id, t0) {
      var i :| 0 <= i < |second| && second[i].account.id == id && Firm(second[i], t0);
      assert all[|first| + i] == second[i];
    }
  }

  lemma {:induction false} RunCooldownsExact(
    p: Pass, pool: seq<Account>, turns: nat -> Turn, w: World, run: Run, t0: int)
    requires RunOk(p, pool, turns, w, run) && Dated(run.calls, t0) && !Settles(run)
    ensures CooldownsExact(w, run.world, run.calls, t0)
  {
    forall id: nat
      ensures CooldownExact(w, run.world, run.calls, t0, id)
    {
      if run.outcome.result.Some? && !IsSoftFail(run.outcome.result.value.status) {
        WonExact(p, pool, turns, w, run, run.outcome.result.value, t0, id);
      } else {
        ExhaustedExact(p, pool, turns, w, run, t0, id);
      }
    }
  }

  // Nobody is left to be called: there is no result, or a retryable one.
  predicate Exhausts(run: Run) {
    run.outcome.Answer? && (run.outcome.result.None? || IsSoftFail(run.outcome.result.value.status))
  }

  // The dispatch would try this account of its route, were it not cooling down.
  predicate Offers(pools: Pools, rq: Request, route: Route, v: Visit, w: World, a: Account) {
    && a in pools(route.id) && (rq.keep.Some? ==> rq.keep.value(a))
    && var servable := ServableTest(ModelOf(rq.body), route.defaultModel);
       servable(a) || NoneServable(Routing.Candidates(pools, rq, route, v, w.cooldown), servable)
  }

  // The candidates are the accounts of the route that are free and pass the filter.
  lemma {:induction false} CandidatesExactly(pools: Pools, rq: Request, route: Route, v: Visit, w: World, a: Account)
    ensures a in Routing.Candidates(pools, rq, route, v, w.cooldown)
       <==> a in pools(route.id) && Free(w.cooldown, a.id, v.listAt) && (rq.keep.Some? ==> rq.keep.value(a))
  {
    var usable := Usable(w.cooldown, v.listAt);
    FilterMembers(pools(route.id), usable);
    assert usable(a) <==> Free(w.cooldown, a.id, v.listAt);
    if rq.keep.Some? {
      FilterMembers(ListRouteAccounts(pools, w.cooldown, route.id, v.listAt), rq.keep.value);
    }
  }

  // The seats of a dispatch, none when it is answered early.
  function Seats(pools: Pools, rq: Request, route: Route, v: Visit, w: World): seq<Account>
    requires DistinctPools(pools)
  {
    match OpenRoute(pools, rq, route, v, w)
    case Early(_) => []
    case Open(_, _, pool) => pool
  }

  lemma {:induction false} SeatsExactly(pools: Pools, rq: Request, route: Route, v: Visit, w: World, a: Account)
    requires DistinctPools(pools) && v.listed
    ensures a in Seats(pools, rq, route, v, w)
       <==> Offers(pools, rq, route, v, w, a) && Free(w.cooldown, a.id, v.listAt)
  {
    var candidates := Routing.Candidates(pools, rq, route, v, w.cooldown);
    CandidatesExactly(pools, rq, route, v, w, a);
    CandidatesAreUsable(pools, rq, route, v, w);
    PoolIsServableOrWhole(candidates, ServableTest(ModelOf(rq.body), route.defaultModel));
  }

  // What one dispatch does in the world `w`: it calls some of its free offers and nobody
  // twice, all of them when it is exhausted, and leaves exactly the firm calls cooling down.
  ghost predicate VisitExact(offers: Account -> bool, w: World, run: Run, t0: int, now: int) {
    && EachOnce(run.calls)
    && (forall i :: 0 <= i < |run.calls| ==>
          offers(run.calls[i].account) && Free(w.cooldown, run.calls[i].account.id, now))
    && (Exhausts(run) ==> forall a :: offers(a) && Free(w.cooldown, a.id, now) ==> Called(run.calls, a.id))
    && (!Settles(run) && Dated(run.calls, t0) ==> CooldownsExact(w, run.world, run.calls, t0))
  }

  function OfferOf(pools: Pools, rq: Request, route: Route, v: Visit, w: World): Account -> bool {
    (a: Account) => Offers(pools, rq, route, v, w, a)
  }

  lemma {:induction false} EarlyIsExact(pools: Pools, rq: Request, route: Route, v: Visit, w: World, t0: int)
    requires DistinctPools(pools) && OpenRoute(pools, rq, route, v, w).Early?
    ensures VisitExact(OfferOf(pools, rq, route, v, w), w, OpenRoute(pools, rq, route, v, w).run, t0, v.listAt)
  {
    var run := OpenRoute(pools, rq, route, v, w).run;
    assert forall id: nat :: CooldownExact(w, run.world, [], t0, id);
    if v.listed {
      forall a
        ensures a !in Seats(pools, rq, route, v, w)
        ensures !(Offers(pools, rq, route, v, w, a) && Free(w.cooldown, a.id, v.listAt))
      {
        SeatsExactly(pools, rq, route, v, w, a);
      }
    }
  }

  lemma {:induction false} RunIsExact(
    p: Pass, pool: seq<Account>,
    turns: nat -> Turn, w: World, w': World, run: Run, offers: Account -> bool, t0: int, now: int)
    requires RunOk(p, pool, turns, w', run) && w'.cooldown == w.cooldown
    requires forall a :: a in pool <==> offers(a) && Free(w.cooldown, a.id, now)
    ensures VisitExact(offers, w, run, t0, now)
  {
    if !Settles(run) && Dated(run.calls, t0) {
      RunCooldownsExact(p, pool, turns, w', run, t0);
      forall id: nat
        ensures CooldownExact(w, run.world, run.calls, t0, id)
      {
        assert CooldownExact(w', run.world, run.calls, t0, id);
      }
    }
  }

  /** Every sequential dispatch is exact, whatever its seats answer. */
  lemma {:induction false} DispatchIsExact(pools: Pools, rq: Request, route: Route, v: Visit, w: World, t0: int)
    requires DistinctPools(pools)
    ensures VisitExact(OfferOf(pools, rq, route, v, w), w, DispatchSequential(pools, rq, route, v, w), t0, v.listAt)
  {
    var o := OpenRoute(pools, rq, route, v, w);
    if o.Early? {
      EarlyIsExact(pools, rq, route, v, w, t0);
    } else {
      var p := PassOf(rq, route, o.stickyTo);
      PassEndsWell(p, o.pool, v.turns, o.world);
      var offers := OfferOf(pools, rq, route, v, w);
      forall a
        ensures a in o.pool <==> offers(a) && Free(w.cooldown, a.id, v.listAt)
      {
        SeatsExactly(pools, rq, route, v, w, a);
      }
      RunIsExact(p, o.pool, v.turns, w, o.world, RunPass(p, o.pool, v.turns, o.world), offers, t0, v.listAt);
    }
  }

  // What was done before the k-th fallback, unless the request was settled earlier.
  function SoFar(visit: Visitor, k: nat, so: Run): (g: Option<Run>)
    requires so.outcome.Answer?
    ensures g.Some? ==> g.value.outcome.Answer?
  {
    if k == 0 then Some(so)
    else
      var g := SoFar(visit, k - 1, so);
      if g.None? || visit(k - 1, g.value.world).None? then g
      else
        var run := visit(k - 1, g.value.world).value;
        if Settles(run) then None else Some(GoneOn(g.value, run))
  }

  function GoneOn(g: Run, run: Run): (next: Run)
    requires g.outcome.Answer? && run.outcome.Answer?
    ensures next.outcome.Answer?
  {
    Run(run.world, if run.outcome.result.Some? then run.outcome else g.outcome, g.calls + run.calls)
  }

  // The fallbacks go on from there.
  lemma {:induction false} SoFarLeadsOn(visit: Visitor, n: nat, k: nat, so: Run)
    requires so.outcome.Answer? && k <= n && SoFar(visit, k, so).Some?
    ensures Fallbacks(visit, n, 0, so) == Fallbacks(visit, n, k, SoFar(visit, k, so).value)
  {
    if k > 0 {
      SoFarLeadsOn(visit, n, k - 1, so);
    }
  }

  // What holds of all calls so far, relative to the world `w0` at the start of the request:
  // exactly those called firmly have cooled down, and everybody called was free.
  ghost predicate History(w0: World, g: Run, t0: int, now: int) {
    Dated(g.calls, t0) ==>
      && CooldownsExact(w0, g.world, g.calls, t0)
      && forall i :: 0 <= i < |g.calls| ==> Free(w0.cooldown, g.calls[i].account.id, now)
  }

  lemma {:induction false} DatedParts(first: seq<Call>, second: seq<Call>, t0: int)
    requires Dated(first + second, t0)
    ensures Dated(first, t0) && Dated(second, t0)
  {
    var all := first + second;
    assert forall i :: 0 <= i < |first| ==> all[i] == first[i];
    assert forall i :: 0 <= i < |second| ==> all[|first| + i] == second[i];
  }

  // An account that is free now was free at the start and was not called firmly.
  lemma {:induction false} FreeExactly(w0: World, g: Run, t0: int, now: int, id: nat)
    requires CooldownsExact(w0, g.world, g.calls, t0) && now < t0 + SECOND
    ensures Free(g.world.cooldown, id, now) <==> Free(w0.cooldown, id, now) && !FirmTo(g.calls, id, t0)
  {
    assert CooldownExact(w0, g.world, g.calls, t0, id);
  }

  lemma {:induction false} ExactJoined(w0: World, g: Run, run: Run, t0: int)
    requires CooldownsExact(w0, g.world, g.calls, t0) && CooldownsExact(g.world, run.world, run.calls, t0)
    ensures CooldownsExact(w0, run.world, g.calls + run.calls, t0)
  {
    forall id: nat
      ensures CooldownExact(w0, run.world, g.calls + run.calls, t0, id)
    {
      FirmToJoined(g.calls, run.calls, id, t0);
      assert CooldownExact(w0, g.world, g.calls, t0, id) && CooldownExact(g.world, run.world, run.calls, t0, id);
    }
  }

  lemma {:induction false} HistoryGoesOn(
    w0: World, g: Run, run: Run, offers: Account -> bool, t0: int, listAt: int, now: int)
    requires g.outcome.Answer? && !Settles(run) && History(w0, g, t0, now)
    requires VisitExact(offers, g.world, run, t0, listAt) && listAt <= now < t0 + SECOND
    ensures History(w0, GoneOn(g, run), t0, now)
  {
    var next := GoneOn(g, run);
    if Dated(next.calls, t0) {
      DatedParts(g.calls, run.calls, t0);
      ExactJoined(w0, g, run, t0);
      forall i | 0 <= i < |next.calls|
        ensures Free(w0.cooldown, next.calls[i].account.id, now)
      {
        if i >= |g.calls| {
          assert next.calls[i] == run.calls[i - |g.calls|];
          FreeExactly(w0, g, t0, now, next.calls[i].account.id);
        }
      }
    }
  }

  // The accounts that the k-th fallback offers, and when it lists them.
  type Offering = (nat, World) -> (Account -> bool)

  ghost predicate AllVisitsExact(visit: Visitor, offering: Offering, at: nat -> int, t0: int) {
    forall k: nat, w :: visit(k, w).Some? ==> VisitExact(offering(k, w), w, visit(k, w).value, t0, at(k))
  }

  lemma {:induction false} HistoryKept(
    visit: Visitor, offering: Offering, at: nat -> int, k: nat, so: Run, w0: World, t0: int, now: int)
    requires AllVisitsExact(visit, offering, at, t0) && so.outcome.Answer? && SoFar(visit, k, so).Some?
    requires (forall i: nat :: i < k ==> at(i) <= now) && now < t0 + SECOND && History(w0, so, t0, now)
    ensures History(w0, SoFar(visit, k, so).value, t0, now)
  {
    if k > 0 {
      HistoryKept(visit, offering, at, k - 1, so, w0, t0, now);
      var g := SoFar(visit, k - 1, so).value;
      if visit(k - 1, g.world).Some? {
        HistoryGoesOn(w0, g, visit(k - 1, g.world).value, offering(k - 1, g.world), t0, at(k - 1), now);
      }
    }
  }

  // Who is called by a dispatch that is exhausted, in terms of all calls before it.
  lemma {:induction false} AgainExactly(
    w0: World, g: Run, run: Run, offers: Account -> bool, t0: int, now: int, a: Account)
    requires History(w0, g, t0, now) && Dated(g.calls, t0) && now < t0 + SECOND
    requires VisitExact(offers, g.world, run, t0, now) && Exhausts(run) && offers(a)
    ensures Called(run.calls, a.id) <==> Free(w0.cooldown, a.id, now) && !FirmTo(g.calls, a.id, t0)
    ensures Called(g.calls, a.id) ==> (Called(run.calls, a.id) <==> !FirmTo(g.calls, a.id, t0))
  {
    FreeExactly(w0, g, t0, now, a.id);
    if Called(run.calls, a.id) {
      var i :| 0 <= i < |run.calls| && run.calls[i].account.id == a.id;
      assert Free(g.world.cooldown, run.calls[i].account.id, now);
    }
  }

  function OfferingOf(pools: Pools, rq: Request, find: nat -> Option<Route>, visits: nat -> Visit): Offering {
    (k: nat, w: World) =>
      if find(k).None? then (a: Account) => false else OfferOf(pools, rq, find(k).value, visits(2 * k), w)
  }

  function Listings(visits: nat -> Visit): nat -> int {
    (k: nat) => ListAt(visits, k)
  }

  lemma {:induction false} FallbackVisitsAreExact(
    pools: Pools, rq: Request, route: Route, find: nat -> Option<Route>, visits: nat -> Visit, t0: int)
    requires DistinctPools(pools) && (forall i :: ValidVisit(visits(i))) && NoFallbackRaces(route, find)
    ensures AllVisitsExact(VisitorOf(pools, rq, route, find, visits), OfferingOf(pools, rq, find, visits),
                           Listings(visits), t0)
  {
    var visit := VisitorOf(pools, rq, route, find, visits);
    var offering := OfferingOf(pools, rq, find, visits);
    forall k: nat, w | visit(k, w).Some?
      ensures VisitExact(offering(k, w), w, visit(k, w).value, t0, Listings(visits)(k))
    {
      VisitedFallback(pools, rq, route, find, visits, k, w);
      DispatchIsExact(pools, rq, find(k).value, visits(2 * k), w, t0);
    }
  }

  // The part of a request before its k-th fallback, unless it was settled earlier.
  function Earlier(
    pools: Pools, rq: Request, route: Route, v: Visit, again: Visit,
    find: nat -> Option<Route>, visits: nat -> Visit, w: World, k: nat): Option<Run>
    requires DistinctPools(pools) && ValidVisit(v) && forall i :: ValidVisit(visits(i))
  {
    var run := DispatchRoute(pools, rq, route, v, again, w);
    if Settles(run) then None else SoFar(VisitorOf(pools, rq, route, find, visits), k, run)
  }

  lemma {:induction false} PrimaryHistory(
    pools: Pools, rq: Request, route: Route, v: Visit, w: World, t0: int, now: int)
    requires DistinctPools(pools) && v.listAt <= now < t0 + SECOND
    ensures var run := DispatchSequential(pools, rq, route, v, w);
            EachOnce(run.calls) && (!Settles(run) ==> History(w, run, t0, now))
  {
    DispatchIsExact(pools, rq, route, v, w, t0);
  }

  /** When no route races, and the listings and cooldowns are dated within a second of `t0`:
      a fallback that ends exhausted calls an account it offers if and only if the account
      was free at the start and no call to it so far was firm. So an account that was called
      is called again if and only if it was not called firmly. */
  lemma {:induction false} CalledAgainExactly(
    pools: Pools, rq: Request, route: Route, v: Visit, again: Visit,
    find: nat -> Option<Route>, visits: nat -> Visit, w: World, t0: int, k: nat, a: Account)
    requires DistinctPools(pools) && ValidVisit(v) && forall i :: ValidVisit(visits(i))
    requires route.strategy != Parallel && NoFallbackRaces(route, find) && !Skipped(route, find, k)
    requires v.listAt <= ListAt(visits, k) < t0 + SECOND && ListedBefore(visits, k, ListAt(visits, k) + 1)
    requires var g := Earlier(pools, rq, route, v, again, find, visits, w, k);
      && g.Some? && Dated(g.value.calls, t0)
      && Exhausts(DispatchSequential(pools, rq, find(k).value, visits(2 * k), g.value.world))
      && Offers(pools, rq, find(k).value, visits(2 * k), g.value.world, a)
    ensures var g := Earlier(pools, rq, route, v, again, find, visits, w, k).value;
      var run := DispatchSequential(pools, rq, find(k).value, visits(2 * k), g.world);
      && (Called(run.calls, a.id) <==> Free(w.cooldown, a.id, ListAt(visits, k)) && !FirmTo(g.calls, a.id, t0))
      && (Called(g.calls, a.id) ==> (Called(run.calls, a.id) <==> !FirmTo(g.calls, a.id, t0)))
  {
    var now := ListAt(visits, k);
    var visit := VisitorOf(pools, rq, route, find, visits);
    var so := DispatchSequential(pools, rq, route, v, w);
    PrimaryHistory(pools, rq, route, v, w, t0, now);
    FallbackVisitsUpTo(pools, rq, route, find, visits, so, w, t0, now, k);
    var g := SoFar(visit, k, so).value;
    DispatchIsExact(pools, rq, find(k).value, visits(2 * k), g.world, t0);
    AgainExactly(w, g, DispatchSequential(pools, rq, find(k).value, visits(2 * k), g.world),
                 OfferOf(pools, rq, find(k).value, visits(2 * k), g.world), t0, now, a);
  }

  lemma {:induction false} FallbackVisitsUpTo(
    pools: Pools, rq: Request, route: Route, find: nat -> Option<Route>, visits: nat -> Visit,
    so: Run, w: World, t0: int, now: int, k: nat)
    requires DistinctPools(pools) && (forall i :: ValidVisit(visits(i))) && NoFallbackRaces(route, find)
    requires now < t0 + SECOND && ListedBefore(visits, k, now + 1)
    requires so.outcome.Answer? && SoFar(VisitorOf(pools, rq, route, find, visits), k, so).Some?
    requires History(w, so, t0, now)
    ensures History(w, SoFar(VisitorOf(pools, rq, route, find, visits), k, so).value, t0, now)
  {
    FallbackVisitsAreExact(pools, rq, route, find, visits, t0);
    HistoryKept(VisitorOf(pools, rq, route, find, visits), OfferingOf(pools, rq, find, visits), Listings(visits),
                k, so, w, t0, now);
  }

  // A request goes on from what was done before its k-th fallback.
  lemma {:induction false} EarlierLeadsOn(
    pools: Pools, rq: Request, route: Route, v: Visit, again: Visit,
    find: nat -> Option<Route>, visits: nat -> Visit, w: World, k: nat)
    requires DistinctPools(pools) && ValidVisit(v) && forall i :: ValidVisit(visits(i))
    requires k <= |route.fallbackSlugs| && Earlier(pools, rq, route, v, again, find, visits, w, k).Some?
    ensures DispatchWithFallbacks(pools, rq, route, v, again, find, visits, w)
         == Fallbacks(VisitorOf(pools, rq, route, find, visits), |route.fallbackSlugs|, k,
                      Earlier(pools, rq, route, v, again, find, visits, w, k).value)
  {
    SoFarLeadsOn(VisitorOf(pools, rq, route, find, visits), |route.fallbackSlugs|, k,
                 DispatchRoute(pools, rq, route, v, again, w));
  }

  // The k-th fallback offers an account that was called, and never firmly.
  ghost predicate RepeatsAt(visit: Visitor, offering: Offering, so: Run, t0: int, k: nat)
    requires so.outcome.Answer?
  {
    var g := SoFar(visit, k, so);
    && g.Some? && visit(k, g.value.world).Some?
    && exists a :: offering(k, g.value.world)(a) && Called(g.value.calls, a.id) && !FirmTo(g.value.calls, a.id, t0)
  }

  ghost predicate NoRepeatBefore(visit: Visitor, offering: Offering, so: Run, t0: int, n: nat)
    requires so.outcome.Answer?
  {
    forall k: nat :: k < n ==> !RepeatsAt(visit, offering, so, t0, k)
  }

  // None of the first n fallbacks settles the request, or leaves a seat out.
  predicate AllExhaust(visit: Visitor, so: Run, n: nat)
    requires so.outcome.Answer?
  {
    && SoFar(visit, n, so).Some?
    && forall k: nat :: k < n && SoFar(visit, k, so).Some? && visit(k, SoFar(visit, k, so).value.world).Some? ==>
         Exhausts(visit(k, SoFar(visit, k, so).value.world).value)
  }

  ghost predicate InOrder(at: nat -> int, n: nat, first: int, end: int) {
    && first < end
    && (forall i: nat :: i < n ==> first <= at(i) < end)
    && (forall i: nat, j: nat :: i < j < n ==> at(i) <= at(j))
  }

  predicate Disjoint(first: seq<Call>, second: seq<Call>) {
    forall i, j :: 0 <= i < |first| && 0 <= j < |second| ==> first[i].account.id != second[j].account.id
  }

  lemma {:induction false} EachOnceJoined(first: seq<Call>, second: seq<Call>)
    ensures EachOnce(first + second) <==> EachOnce(first) && EachOnce(second) && Disjoint(first, second)
  {
    var all := first + second;
    assert forall i :: 0 <= i < |first| ==> all[i] == first[i];
    assert forall i :: 0 <= i < |second| ==> all[|first| + i] == second[i];
    if EachOnce(all) {
      forall i, j | 0 <= i < |first| && 0 <= j < |second|
        ensures first[i].account.id != second[j].account.id
      {
        assert all[i].account.id != all[|first| + j].account.id;
      }
      forall i, j | 0 <= i < j < |second|
        ensures second[i].account.id != second[j].account.id
      {
        assert all[|first| + i].account.id != all[|first| + j].account.id;
      }
    }
  }

  lemma {:induction false} DisjointExactly(
    w0: World, g: Run, run: Run, offers: Account -> bool, t0: int, now: int)
    requires History(w0, g, t0, now) && Dated(g.calls, t0) && now < t0 + SECOND
    requires VisitExact(offers, g.world, run, t0, now) && Exhausts(run)
    ensures Disjoint(g.calls, run.calls)
       <==> forall a :: !(offers(a) && Called(g.calls, a.id) && !FirmTo(g.calls, a.id, t0))
  {
    forall a | offers(a) && Called(g.calls, a.id)
      ensures Called(run.calls, a.id) <==> !FirmTo(g.calls, a.id, t0)
    {
      AgainExactly(w0, g, run, offers, t0, now, a);
    }
    if i, j :| 0 <= i < |g.calls| && 0 <= j < |run.calls| && g.calls[i].account.id == run.calls[j].account.id {
      var a := run.calls[j].account;
      assert offers(a) && Called(g.calls, a.id) && Called(run.calls, a.id);
    }
  }

  lemma {:induction false} RepeatsAtExactly(
    visit: Visitor, offering: Offering, k: nat, so: Run, w0: World, t0: int, now: int)
    requires so.outcome.Answer? && SoFar(visit, k, so).Some?
    requires var g := SoFar(visit, k, so).value;
      && History(w0, g, t0, now) && Dated(g.calls, t0) && now < t0 + SECOND
      && visit(k, g.world).Some? && Exhausts(visit(k, g.world).value)
      && VisitExact(offering(k, g.world), g.world, visit(k, g.world).value, t0, now)
    ensures var g := SoFar(visit, k, so).value;
      var run := visit(k, g.world).value;
      EachOnce(g.calls + run.calls) <==> EachOnce(g.calls) && !RepeatsAt(visit, offering, so, t0, k)
  {
    var g := SoFar(visit, k, so).value;
    var run := visit(k, g.world).value;
    EachOnceJoined(g.calls, run.calls);
    DisjointExactly(w0, g, run, offering(k, g.world), t0, now);
  }

  lemma {:induction false} OneMoreFallback(visit: Visitor, offering: Offering, so: Run, t0: int, k: nat)
    requires so.outcome.Answer?
    ensures NoRepeatBefore(visit, offering, so, t0, k + 1)
       <==> NoRepeatBefore(visit, offering, so, t0, k) && !RepeatsAt(visit, offering, so, t0, k)
  {
  }

  lemma {:induction false} RepeatsExactly(
    visit: Visitor, offering: Offering, at: nat -> int, n: nat, so: Run, w0: World, t0: int, first: int)
    requires AllVisitsExact(visit, offering, at, t0) && InOrder(at, n, first, t0 + SECOND)
    requires so.outcome.Answer? && EachOnce(so.calls)
    requires forall now :: first <= now < t0 + SECOND ==> History(w0, so, t0, now)
    requires AllExhaust(visit, so, n) && Dated(SoFar(visit, n, so).value.calls, t0)
    ensures EachOnce(SoFar(visit, n, so).value.calls) <==> NoRepeatBefore(visit, offering, so, t0, n)
  {
    if n > 0 {
      var k := n - 1;
      var g := SoFar(visit, k, so).value;
      OneMoreFallback(visit, offering, so, t0, k);
      if visit(k, g.world).Some? {
        DatedParts(g.calls, visit(k, g.world).value.calls, t0);
        RepeatsExactly(visit, offering, at, k, so, w0, t0, first);
        HistoryKept(visit, offering, at, k, so, w0, t0, at(k));
        RepeatsAtExactly(visit, offering, k, so, w0, t0, at(k));
      } else {
        RepeatsExactly(visit, offering, at, k, so, w0, t0, first);
      }
    }
  }

  /** When, besides, no dispatch settles the request or leaves a seat out: the request calls
      no account twice if and only if no fallback offers an account that was called before
      and never firmly. */
  lemma {:induction false} NoAccountCalledTwiceExactly(
    pools: Pools, rq: Request, route: Route, v: Visit, again: Visit,
    find: nat -> Option<Route>, visits: nat -> Visit, w: World, t0: int)
    requires DistinctPools(pools) && ValidVisit(v) && forall i :: ValidVisit(visits(i))
    requires route.strategy != Parallel && NoFallbackRaces(route, find)
    requires InOrder(Listings(visits), |route.fallbackSlugs|, v.listAt, t0 + SECOND)
    requires var so := DispatchRoute(pools, rq, route, v, again, w);
      && !Settles(so) && AllExhaust(VisitorOf(pools, rq, route, find, visits), so, |route.fallbackSlugs|)
    requires Dated(DispatchWithFallbacks(pools, rq, route, v, again, find, visits, w).calls, t0)
    ensures EachOnce(DispatchWithFallbacks(pools, rq, route, v, again, find, visits, w).calls)
       <==> NoRepeatBefore(VisitorOf(pools, rq, route, find, visits), OfferingOf(pools, rq, find, visits),
                           DispatchRoute(pools, rq, route, v, again, w), t0, |route.fallbackSlugs|)
  {
    var n := |route.fallbackSlugs|;
    var visit := VisitorOf(pools, rq, route, find, visits);
    var so := DispatchSequential(pools, rq, route, v, w);
    SoFarLeadsOn(visit, n, n, so);
    DispatchIsExact(pools, rq, route, v, w, t0);
    FallbackVisitsAreExact(pools, rq, route, find, visits, t0);
    RepeatsExactly(visit, OfferingOf(pools, rq, find, visits), Listings(visits), n, so, w, t0, v.listAt);
  }

  // ---------------------------------------------------------------------------
  // Two routes of one seat each, both rate-limited
  // ---------------------------------------------------------------------------

  // A route with one seat, which is not cooling down, has this seat as its pool.
  lemma {:induction false} OnlySeatIsPool(pools: Pools, rq: Request, route: Route, v: Visit, w: World, a: Account)
    requires DistinctPools(pools) && v.listed && pools(route.id) == [a] && rq.keep.None?
    requires a.id !in w.cooldown
    ensures var o := OpenRoute(pools, rq, route, v, w); o.Open? && o.pool == [a]
  {
    var usable := Usable(w.cooldown, v.listAt);
    FilterOne(a, usable);
    assert ListRouteAccounts(pools, w.cooldown, route.id, v.listAt) == Filter([a], usable) == [a];
    OneServable(a, rq, route);
  }

  lemma {:induction false} FilterOne(a: Account, p: Account -> bool)
    ensures Filter([a], p) == if p(a) then [a] else []
  {
    assert [a][..0] == [];
  }

  lemma {:induction false} OneServable(a: Account, rq: Request, route: Route)
    ensures ServablePool([a], rq, route) == [a]
  {
    FilterOne(a, ServableTest(ModelOf(rq.body), route.defaultModel));
  }

  predicate RateLimited(o: CallOutcome) {
    o.Answered? && o.reply.status == 429
  }

  ghost predicate AlwaysLimited(turns: nat -> Turn) {
    forall i, a, body :: RateLimited(turns(i).call(a, body))
  }

  // The one seat was called once, and the result says so. Its own cooldown changed only if
  // the store took it; no other cooldown changed.
  ghost predicate CalledOnce(a: Account, stored: bool, w: World, run: Run) {
    && |run.calls| == 1 && run.calls[0].account == a
    && run.outcome.Answer? && run.outcome.result.Some?
    && run.outcome.result.value.status == 429 && run.outcome.result.value.attempts == 1
    && (forall id: nat :: id != a.id || !stored ==> SameCooldown(w, run.world, id))
  }

  lemma {:induction false} LimitedCallLeadsOn(inspect: string -> Verdict, calls: seq<Call>)
    requires |calls| == 1 && RateLimited(calls[0].outcome)
    ensures |Failovers(inspect, calls)| == 1 && Failovers(inspect, calls)[0].status == 429
    ensures SoftFailover(inspect, calls[0]).Some?
  {
    var entry := EntryOf(inspect);
    assert entry(calls[0]).Some?;
    assert calls[..0] == [] && Collect(entry, []) == [];
    assert Collect(entry, calls) == [entry(calls[0]).value];
  }

  lemma {:induction false} TwoCallsRepeat(calls: seq<Call>, a: Account)
    ensures |calls| >= 2 && (forall i :: 0 <= i < |calls| ==> calls[i].account == a) ==> !EachOnce(calls)
  {
    if |calls| >= 2 && forall i :: 0 <= i < |calls| ==> calls[i].account == a {
      assert calls[0].account.id == calls[1].account.id;
    }
  }

  lemma {:induction false} LimitedSeatIsCalledOnce(p: Pass, a: Account, turns: nat -> Turn, w: World, run: Run)
    requires RunOk(p, [a], turns, w, run) && AlwaysLimited(turns)
    ensures CalledOnce(a, turns(0).stored, w, run)
  {
    assert a in [a];
    assert |run.calls| >= 1 && run.calls[0] == CallOf(p, a, turns(0));
    TwoCallsRepeat(run.calls, a);
    LimitedCallLeadsOn(p.inspect, run.calls);
    assert ExhaustedOk(p, [a], turns, w, run);
    forall id: nat | id != a.id || !turns(0).stored
      ensures SameCooldown(w, run.world, id)
    {
      assert id != a.id ==> SameFor(w, run.world, id);
    }
  }

  lemma {:induction false} LimitedDispatch(pools: Pools, rq: Request, route: Route, v: Visit, w: World, a: Account)
    requires DistinctPools(pools) && v.listed && pools(route.id) == [a] && rq.keep.None?
    requires a.id !in w.cooldown && AlwaysLimited(v.turns)
    ensures CalledOnce(a, v.turns(0).stored, w, DispatchSequential(pools, rq, route, v, w))
  {
    OnlySeatIsPool(pools, rq, route, v, w, a);
    var o := OpenRoute(pools, rq, route, v, w);
    var p := PassOf(rq, route, o.stickyTo);
    PassEndsWell(p, [a], v.turns, o.world);
    var run := RunPass(p, [a], v.turns, o.world);
    LimitedSeatIsCalledOnce(p, a, v.turns, o.world, run);
    CalledOnceFrom(a, v.turns(0).stored, w, o.world, run);
  }

  lemma {:induction false} CalledOnceFrom(a: Account, stored: bool, w: World, w': World, run: Run)
    requires CalledOnce(a, stored, w', run) && w'.cooldown == w.cooldown
    ensures CalledOnce(a, stored, w, run)
  {
    forall id: nat | id != a.id || !stored
      ensures SameCooldown(w, run.world, id)
    {
      assert SameCooldown(w', run.world, id);
    }
  }

  // Two calls in turn, of which the result counts the second.
  predicate TwoCalls(run: Run, a: Account, b: Account) {
    && |run.calls| == 2 && run.calls[0].account == a && run.calls[1].account == b
    && run.outcome.Answer? && run.outcome.result.Some? && run.outcome.result.value.attempts == 1
  }

  lemma {:induction false} OneCallEach(
    visit: Visitor, so: Run, run: Run, a: Account, b: Account, storedA: bool, storedB: bool, w: World)
    requires CalledOnce(a, storedA, w, so) && CalledOnce(b, storedB, so.world, run)
    requires visit(0, so.world) == Some(run)
    ensures !Settles(so) && TwoCalls(Fallbacks(visit, 1, 0, so), a, b)
  {
    assert !Conclusive(run.outcome.result);
  }

  // A request over two such routes: the seat `b` of the fallback is free when it is visited.
  ghost predicate TwoLimitedSeats(
    pools: Pools, rq: Request, route: Route, v: Visit,
    find: nat -> Option<Route>, visits: nat -> Visit, w: World, a: Account, b: Account)
  {
    && DistinctPools(pools) && ValidVisit(v) && (forall i :: ValidVisit(visits(i)))
    && route.strategy != Parallel && |route.fallbackSlugs| == 1 && !Skipped(route, find, 0)
    && find(0).value.strategy != Parallel && rq.keep.None?
    && pools(route.id) == [a] && pools(find(0).value.id) == [b]
    && v.listed && visits(0).listed && a.id !in w.cooldown && b.id !in w.cooldown
    && AlwaysLimited(v.turns) && AlwaysLimited(visits(0).turns)
  }

  lemma {:induction false} LimitedRequest(
    pools: Pools, rq: Request, route: Route, v: Visit, again: Visit,
    find: nat -> Option<Route>, visits: nat -> Visit, w: World, a: Account, b: Account)
    requires TwoLimitedSeats(pools, rq, route, v, find, visits, w, a, b)
    requires b.id != a.id || !v.turns(0).stored
    ensures TwoCalls(DispatchWithFallbacks(pools, rq, route, v, again, find, visits, w), a, b)
  {
    LimitedDispatch(pools, rq, route, v, w, a);
    var first := DispatchSequential(pools, rq, route, v, w);
    assert SameCooldown(w, first.world, b.id);
    VisitIsDispatch(pools, rq, route, find, visits, 0, first.world);
    LimitedDispatch(pools, rq, find(0).value, visits(0), first.world, b);
    OneCallEach(VisitorOf(pools, rq, route, find, visits), first,
                DispatchSequential(pools, rq, find(0).value, visits(0), first.world), a, b,
                v.turns(0).stored, visits(0).turns(0).stored, w);
  }

  /** Two seats on two routes, both answering 429: two calls are made, and the result says
      one attempt. */
  lemma {:induction false} TwoCallsOneAttempt(
    pools: Pools, rq: Request, route: Route, v: Visit, again: Visit,
    find: nat -> Option<Route>, visits: nat -> Visit, w: World, a: Account, b: Account)
    requires TwoLimitedSeats(pools, rq, route, v, find, visits, w, a, b) && a.id != b.id
    ensures var final := DispatchWithFallbacks(pools, rq, route, v, again, find, visits, w);
      && |final.calls| == 2
      && final.outcome.Answer? && final.outcome.result.Some? && final.outcome.result.value.attempts == 1
  {
    LimitedRequest(pools, rq, route, v, again, find, visits, w, a, b);
  }

  /** One seat shared by two routes, answering 429: when the store rejects its cooldown, which
      nobody notices, it is called again. */
  lemma {:induction false} RejectedCooldownCallsAgain(
    pools: Pools, rq: Request, route: Route, v: Visit, again: Visit,
    find: nat -> Option<Route>, visits: nat -> Visit, w: World, a: Account)
    requires TwoLimitedSeats(pools, rq, route, v, find, visits, w, a, a) && !v.turns(0).stored
    ensures var calls := DispatchWithFallbacks(pools, rq, route, v, again, find, visits, w).calls;
      |calls| == 2 && calls[0].account == calls[1].account == a && !EachOnce(calls)
  {
    LimitedRequest(pools, rq, route, v, again, find, visits, w, a, a);
  }
}
