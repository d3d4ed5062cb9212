/**
 The dispatcher over its mutable state: the account store, the selector and the session
 table. Each method is proved against the functions of `Dispatch`, `Race` and `Routing`.
 */
module DispatchEngine {
  import opened Wrappers
  import opened Text
  import opened Router
  import opened Cooldown
  import opened AccountModel
  import opened Affinity
  import opened SelectorState
  import opened Candidates
  import opened Ttft
  import opened Dispatch
  import opened Race
  import opened Routing

  class AccountStore {
    var cooldown: map<nat, int>
    var health: map<nat, Health>

    constructor ()
      ensures cooldown == map[] && health == map[]
    {
      cooldown, health := map[], map[];
    }

    method SetCooldown(id: nat, until: int, ok: bool)
      modifies this
      ensures cooldown == if ok then old(cooldown)[id := until] else old(cooldown)
      ensures health == if ok then old(health)[id := CoolingDown] else old(health)
    {
      if ok {
        cooldown, health := cooldown[id := until], health[id := CoolingDown];
      }
    }

    method MarkAccountHealthy(id: nat, ok: bool)
      modifies this
      ensures cooldown == if ok then old(cooldown) - {id} else old(cooldown)
      ensures health == if ok then old(health)[id := Healthy] else old(health)
    {
      if ok {
        cooldown, health := cooldown - {id}, health[id := Healthy];
      }
    }
  }

  // The servable seats, or all of them when none is.
  method FilterServableAccounts(accounts: seq<Account>, servable: Account -> bool) returns (pool: seq<Account>)
    ensures pool == KeepServable(accounts, servable)
  {
    var out: seq<Account> := [];
    for i := 0 to |accounts|
      invariant out == Filter(accounts[..i], servable)
    {
      assert accounts[..i + 1][..i] == accounts[..i];
      if servable(accounts[i]) {
        out := out + [accounts[i]];
      }
    }
    assert accounts[..|accounts|] == accounts;
    pool := if out == [] then accounts else out;
  }

  method FilterParallelAccounts(accounts: seq<Account>, allowOAuth: bool) returns (out: seq<Account>)
    ensures out == FilterParallel(accounts, allowOAuth)
  {
    if allowOAuth {
      return accounts;
    }
    out := [];
    for i := 0 to |accounts|
      invariant out == Filter(accounts[..i], IsNotOAuth())
    {
      assert accounts[..i + 1][..i] == accounts[..i];
      if !EqualFold(accounts[i].authType, "oauth") {
        out := out + [accounts[i]];
      }
    }
    assert accounts[..|accounts|] == accounts;
  }

  method EarliestRouteCooldown(accounts: seq<Account>, cooldown: map<nat, int>, now: int) returns (until: Option<int>)
    ensures until == EarliestCooldown(accounts, cooldown, now)
  {
    until := None;
    for i := 0 to |accounts|
      invariant until == EarliestCooldown(accounts[..i], cooldown, now)
    {
      assert accounts[..i + 1][..i] == accounts[..i];
      var id := accounts[i].id;
      if id in cooldown && cooldown[id] > now && (until.None? || cooldown[id] < until.value) {
        until := Some(cooldown[id]);
      }
    }
    assert accounts[..|accounts|] == accounts;
  }

  class Engine {
    const store: AccountStore
    const selector: Selector
    const affinity: SessionAffinity

    constructor (store: AccountStore, selector: Selector, affinity: SessionAffinity)
      ensures this.store == store && this.selector == selector && this.affinity == affinity
    {
      this.store, this.selector, this.affinity := store, selector, affinity;
    }

    ghost function View(): World
      reads store, selector, affinity
    {
      World(store.cooldown, store.health, selector.View(), affinity.m)
    }

    // A soft failure: the seat is marked and cooled down.
    method NotePenalty(id: nat, t: Turn, cooldown: int)
      modifies store, selector
      ensures View() == Penalise(old(View()), id, t, cooldown)
    {
      selector.NoteSoftFail(id, t.failAt);
      store.SetCooldown(id, t.cooldownAt + cooldown, t.stored);
    }

    // A success: the seat is in use again and the session sticks to it.
    method NoteSuccess(p: Pass, a: Account, t: Turn)
      requires p.ttl == affinity.ttl
      modifies store, selector, affinity
      ensures View() == Succeed(old(View()), p, a, t)
    {
      selector.ClearSoftFail(a.id);
      store.MarkAccountHealthy(a.id, t.stored);
      affinity.Set(p.sessionKey, a.id, t.stickAt);
    }

    // A successful status: peek at the stream, if there is one, before committing to it.
    method Commit(p: Pass, a: Account, attempts: nat, t: Turn, r: Reply) returns (attempted: Attempted)
      requires IsSuccessStatus(r.status) && p.ttl == affinity.ttl
      modifies store, selector, affinity
      ensures (View(), attempted) == JudgeReply(old(View()), p, a, attempts, t, r)
    {
      var res := ResultOf(p, a, attempts, r);
      if r.stream.Some? {
        var rc := new Reader(r.stream.value);
        var out, cause := AwaitCommit(p.inspect, rc);
        if out == null {
          NotePenalty(a.id, t, CooldownForStatus(BAD_GATEWAY, 0, t.beyond));
          return SoftFailed(TtftFailure(p, a, attempts, r, cause.value));
        }
        res := res.(stream := Some(out.View()));
      }
      NoteSuccess(p, a, t);
      attempted := Finished(res);
    }

    /** One seat: call it and judge its reply, exactly as `Attempt` says. */
    method TrySeat(p: Pass, a: Account, attempts: nat, t: Turn, o: CallOutcome) returns (attempted: Attempted)
      requires p.ttl == affinity.ttl
      modifies store, selector, affinity
      ensures (View(), attempted) == Attempt(old(View()), p, a, attempts, t, o)
    {
      if o.CallError? {
        return Aborted(o.error);
      }
      if o.NoReply? {
        return Silent;
      }
      var r := o.reply;
      var res := ResultOf(p, a, attempts, r);
      if IsRetryableStatus(r.status) || r.status == 0 {
        NotePenalty(a.id, t, CooldownFromHeaders(r.status, r.retryAfter, 0, t.headerAt, t.beyond));
        return SoftFailed(res);
      }
      if IsSuccessStatus(r.status) {
        attempted := Commit(p, a, attempts, t, r);
        return;
      }
      selector.ClearSoftFail(a.id);
      attempted := Finished(res.(stream := if r.stream.Some? then Some(Replay("", 0, r.stream.value)) else None));
    }

    // Picks a seat among those not tried yet.
    method PickSeat(p: Pass, candidates: seq<Account>, t: Turn) returns (a: Account)
      requires candidates != [] && DistinctIds(candidates)
      modifies selector
      ensures (selector.View(), a) == Choose(p, old(selector.View()), candidates, t)
    {
      PreferStickyKeeps(p, candidates);
      var ordered := candidates;
      if p.stickyTo.Some? && p.stickyTo.value != NIL_ID {
        ordered := Prefer(candidates, p.stickyTo.value);
      }
      var pick := selector.PickWithConfig(p.routeId, p.strategy, ordered, p.cfg, t.pickAt, t.scoreAt);
      a := pick.value;
    }

    // One turn: pick a seat among the candidates and try it.
    method PickAndTry(p: Pass, turns: nat -> Turn, candidates: seq<Account>, n: nat)
      returns (a: Account, attempted: Attempted)
      requires candidates != [] && DistinctIds(candidates) && p.ttl == affinity.ttl
      modifies store, selector, affinity
      ensures var (sel, picked) := ChooserOf(p, turns)(old(View()).sel, candidates, n);
        && a == picked
        && Trial(View(), CallOf(p, a, turns(n)), attempted) == TrierOf(p, turns)(old(View()).(sel := sel), a, n)
    {
      a := PickSeat(p, candidates, turns(n));
      attempted := TrySeat(p, a, n + 1, turns(n), turns(n).call(a, p.bodyFor(a)));
    }

    /** The failover loop over one pool does what `RunPass` says. */
    method RunLoop(p: Pass, pool: seq<Account>, turns: nat -> Turn) returns (outcome: Outcome, ghost calls: seq<Call>)
      requires DistinctIds(pool) && p.ttl == affinity.ttl
      modifies store, selector, affinity
      ensures Run(View(), outcome, calls) == RunPass(p, pool, turns, old(View()))
    {
      var tried: set<nat> := {};
      var last: Option<DispatchResult> := None;
      var failovers: seq<Failover> := [];
      var attempts := 0;
      calls := [];
      ghost var choose, attempt := ChooserOf(p, turns), TrierOf(p, turns);
      ChooserIsSound(p, turns);
      ghost var target := RunPass(p, pool, turns, View());
      while true
        invariant attempts == |calls|
        invariant target == Loop(p, choose, attempt, pool, Progress(View(), tried, last, failovers, calls))
        decreases |Exclude(pool, tried)|
      {
        ExcludeExact(pool, tried);
        ghost var g := Progress(View(), tried, last, failovers, calls);
        var candidates := ExcludeTried(pool, tried);
        if candidates == [] {
          outcome := Answer(Final(p, last, attempts, failovers));
          return;
        }
        ghost var step := TakeTurn(p, choose, attempt, pool, g);
        var a, attempted := PickAndTry(p, turns, candidates, attempts);
        calls := calls + [CallOf(p, a, turns(attempts))];
        tried := tried + {a.id};
        attempts := attempts + 1;
        assert step == After(g, a, Trial(View(), calls[|calls| - 1], attempted));
        match attempted {
          case Aborted(e) =>
            return Failure(e), calls;
          case Silent =>
          case SoftFailed(res) =>
            last := Some(res);
            failovers := failovers + [FailoverOf(a, res)];
          case Finished(res) =>
            return Answer(Some(res.(failovers := failovers))), calls;
        }
      }
    }

    // One racer: call the seat, peek at its stream, and send one message.
    method RunRacer(inspect: string -> Verdict, a: Account, o: CallOutcome) returns (m: Raced)
      ensures m == Racer(inspect, a, o)
    {
      if o.CallError? {
        return RacedError;
      }
      if o.NoReply? {
        return RacedResult(RaceFailure(a, "empty"));
      }
      var r := o.reply;
      if IsSuccessStatus(r.status) && r.stream.Some? {
        var rc := new Reader(r.stream.value);
        var out, cause := AwaitCommit(inspect, rc);
        if out == null {
          return RacedResult(RaceFailure(a, "ttft_failed"));
        }
        return RacedResult(RaceReply(r, Some(out.View())));
      }
      m := RacedResult(RaceReply(r, None));
    }

    // Receives messages until one settles the race, all are in, or the client leaves.
    method DrainChannel(p: Pass, messages: seq<Raced>, cancelledAt: Option<nat>) returns (outcome: Outcome)
      ensures outcome == Drain(p, |messages|, messages, cancelledAt, None)
    {
      var last: Option<DispatchResult> := None;
      var i := 0;
      while i < |messages|
        invariant 0 <= i <= |messages|
        invariant cancelledAt.Some? ==> i <= cancelledAt.value
        invariant Drain(p, |messages|, messages, cancelledAt, None)
               == Drain(p, |messages|, messages[i..],
                        if cancelledAt.Some? then Some(cancelledAt.value - i) else None, last)
      {
        assert messages[i..][0] == messages[i] && messages[i..][1..] == messages[i + 1..];
        if cancelledAt == Some(i) {
          return Failure("context canceled");
        }
        var m := messages[i];
        i := i + 1;
        if m.RacedError? {
          continue;
        }
        last := Some(m.res);
        if Decides(m) {
          return Answer(Some(Crowned(p, |messages|, m.res)));
        }
      }
      outcome := Answer(if last.Some? then Some(Signed(p, |messages|, last.value)) else None);
    }

    /** A race over the seats does what `RunRace` says. */
    method DispatchParallel(p: Pass, seats: seq<Account>, turns: nat -> Turn, env: RaceEnv)
      returns (outcome: Outcome, ghost calls: seq<Call>)
      requires Arrivals(env.order, |seats|) && p.ttl == affinity.ttl
      modifies affinity
      ensures Run(View(), outcome, calls) == RunRace(p, seats, turns, env, old(View()))
    {
      calls := CallsOf(p, seats, turns);
      var messages: seq<Raced> := [];
      for i := 0 to |env.order|
        invariant messages == Messages(p, calls, env.order)[..i]
        invariant View() == old(View())
      {
        var k := env.order[i];
        var c := CallOf(p, seats[k], turns(k));
        var m := RunRacer(p.inspect, seats[k], c.outcome);
        messages := messages + [m];
      }
      assert messages == Messages(p, calls, env.order);
      outcome := DrainChannel(p, messages, env.cancelledAt);
      outcome := CutOutcome(outcome, env.cut);
      if outcome.Answer? && outcome.result.Some? && IsSuccessStatus(outcome.result.value.status) {
        affinity.Set(p.sessionKey, outcome.result.value.accountId, env.stickAt);
      }
    }

    method EmptyResult(pools: Pools, rq: Request, route: Route, v: Visit) returns (o: Outcome)
      ensures o == EmptyAccountsResult(rq, route, pools, v, store.cooldown)
    {
      if rq.keep.Some? {
        return Answer(Some(Refusal(400, "no_accounts", Absent)));
      }
      if !v.poolListed {
        return Failure("list pool");
      }
      if pools(route.id) == [] {
        return Answer(Some(Refusal(400, "no_accounts", Absent)));
      }
      var retryAfter := 30;
      if v.cooldownKnown {
        var until := EarliestRouteCooldown(pools(route.id), store.cooldown, v.emptyAt);
        if until.Some? {
          retryAfter := RetryAfterSeconds(until.value, v.waitAt);
        }
      }
      o := Answer(Some(Refusal(503, "no_usable_accounts", Seconds(retryAfter))));
    }

    // Lists the usable accounts of a route; `early` answers the request at once.
    method Open(pools: Pools, rq: Request, route: Route, v: Visit)
      returns (early: Option<Outcome>, stickyTo: Option<nat>, pool: seq<Account>)
      requires DistinctPools(pools)
      modifies affinity
      ensures match OpenRoute(pools, rq, route, v, old(View()))
        case Early(run) => early == Some(run.outcome) && View() == run.world
        case Open(w, to, seats) => early == None && View() == w && stickyTo == to && pool == seats
    {
      early, stickyTo, pool := None, None, [];
      if !v.listed {
        early := Some(Failure("list accounts"));
        return;
      }
      var accounts := Routing.Candidates(pools, rq, route, v, store.cooldown);
      CandidatesAreUsable(pools, rq, route, v, View());
      if accounts == [] {
        var o := EmptyResult(pools, rq, route, v);
        early := Some(o);
        return;
      }
      pool := FilterServableAccounts(accounts, ServableTest(ModelOf(rq.body), route.defaultModel));
      stickyTo := affinity.Get(rq.sessionKey, v.stickyAt);
    }

    method Sequentially(pools: Pools, rq: Request, route: Route, v: Visit)
      returns (outcome: Outcome, ghost calls: seq<Call>)
      requires DistinctPools(pools) && rq.ttl == affinity.ttl
      modifies store, selector, affinity
      ensures Run(View(), outcome, calls) == DispatchSequential(pools, rq, route, v, old(View()))
    {
      var early, stickyTo, pool := Open(pools, rq, route, v);
      if early.Some? {
        return early.value, [];
      }
      outcome, calls := RunLoop(PassOf(rq, route, stickyTo), pool, v.turns);
    }

    /** One dispatch to a route, sequential or parallel, does what `DispatchRoute` says. */
    method Dispatch(pools: Pools, rq: Request, route: Route, v: Visit, again: Visit)
      returns (outcome: Outcome, ghost calls: seq<Call>)
      requires DistinctPools(pools) && ValidVisit(v) && rq.ttl == affinity.ttl
      modifies store, selector, affinity
      ensures Run(View(), outcome, calls) == DispatchRoute(pools, rq, route, v, again, old(View()))
    {
      if route.strategy != Parallel {
        outcome, calls := Sequentially(pools, rq, route, v);
        return;
      }
      var early, stickyTo, pool := Open(pools, rq, route, v);
      if early.Some? {
        return early.value, [];
      }
      var racers := FilterParallelAccounts(pool, route.allowOAuth);
      if racers == [] {
        outcome, calls := Sequentially(pools, rq.(keep := None), route.(strategy := Sequential), again);
        return;
      }
      if stickyTo.Some? {
        racers := Prefer(racers, stickyTo.value);
      }
      outcome, calls := DispatchParallel(
        PassOf(rq, route, stickyTo), racers, v.turns, RaceEnv(v.arrivals(|racers|), v.cancelledAt, v.cut, v.stickAt));
    }

    /** A whole request over the primary route and its fallbacks does what
        `DispatchWithFallbacks` of `Routing` says. */
    method DispatchRequest(
      pools: Pools, rq: Request, route: Route, v: Visit, again: Visit, find: nat -> Option<Route>, visits: nat -> Visit)
      returns (outcome: Outcome, ghost calls: seq<Call>)
      requires DistinctPools(pools) && ValidVisit(v) && (forall i :: ValidVisit(visits(i))) && rq.ttl == affinity.ttl
      modifies store, selector, affinity
      ensures Run(View(), outcome, calls)
           == DispatchWithFallbacks(pools, rq, route, v, again, find, visits, old(View()))
    {
      outcome, calls := Dispatch(pools, rq, route, v, again);
      if outcome.Failure? || Conclusive(outcome.result) {
        return;
      }
      outcome, calls := TryFallbacks(
        pools, rq, route, find, visits, VisitorOf(pools, rq, route, find, visits), outcome, calls);
    }

    // Tries the fallback routes in order until a result is conclusive.
    method TryFallbacks(
      pools: Pools, rq: Request, route: Route, find: nat -> Option<Route>, visits: nat -> Visit,
      ghost visit: Visitor, first: Outcome, ghost called: seq<Call>)
      returns (outcome: Outcome, ghost calls: seq<Call>)
      requires DistinctPools(pools) && (forall i :: ValidVisit(visits(i))) && rq.ttl == affinity.ttl
      requires visit == VisitorOf(pools, rq, route, find, visits) && first.Answer?
      modifies store, selector, affinity
      ensures Run(View(), outcome, calls)
           == Fallbacks(visit, |route.fallbackSlugs|, 0, Run(old(View()), first, called))
    {
      outcome, calls := first, called;
      ghost var target := Fallbacks(visit, |route.fallbackSlugs|, 0, Run(View(), first, called));
      for k := 0 to |route.fallbackSlugs|
        invariant outcome.Answer?
        invariant target == Fallbacks(visit, |route.fallbackSlugs|, k, Run(View(), outcome, calls))
      {
        var o, more := VisitFallback(pools, rq, route, find, visits, k, visit);
        if o.None? {
          continue;
        }
        if o.value.Failure? {
          return o.value, calls + more;
        }
        if Conclusive(o.value.result) {
          return Answer(Some(Joined(o.value.result.value, outcome.result))), calls + more;
        }
        if o.value.result.Some? {
          outcome := o.value;
        }
        calls := calls + more;
      }
    }

    // The k-th fallback: skipped when its slug is empty, the route's own, or not found.
    method VisitFallback(
      pools: Pools, rq: Request, route: Route, find: nat -> Option<Route>, visits: nat -> Visit, k: nat,
      ghost visit: Visitor)
      returns (o: Option<Outcome>, ghost calls: seq<Call>)
      requires DistinctPools(pools) && (forall i :: ValidVisit(visits(i))) && rq.ttl == affinity.ttl
      requires k < |route.fallbackSlugs| && visit == VisitorOf(pools, rq, route, find, visits)
      modifies store, selector, affinity
      ensures match visit(k, old(View()))
        case None => o == None && View() == old(View())
        case Some(run) => o.Some? && Run(View(), o.value, calls) == run
    {
      if Skipped(route, find, k) {
        return None, [];
      }
      var outcome, more := Dispatch(pools, rq, find(k).value, visits(2 * k), visits(2 * k + 1));
      return Some(outcome), more;
    }
  }
}
