/**
 The selector over its mutable state: the round-robin counters, the random source and
 the record of soft failures. Each loop is proved against the functions of `Router`.
 */
module SelectorState {
  import opened Wrappers
  import opened Router
  import opened RandSource

  // The selector's fields as one value.
  datatype Sel = Sel(rr: map<nat, nat>, draws: nat, softFail: map<nat, int>)

  // One pick: the account chosen and the selector afterwards. `now` is read when the
  // fresh accounts are put first, `later` when steward scores the seats.
  function Pick(sel: Sel, route: nat, strategy: Strategy, accounts: seq<Account>, cfg: PickConfig, now: int, later: int)
    : (r: (Sel, Account))
    requires accounts != []
    ensures r.1 in accounts
    ensures r.0.softFail == sel.softFail
  {
    var s := PreferFresh(accounts, sel.softFail, now);
    PreferFreshKeeps(accounts, sel.softFail, now);
    match strategy
    case RoundRobin =>
      var c := Counter(sel.rr, route);
      (sel.(rr := sel.rr[route := c + 1]), s[c % |s|])
    case Weighted =>
      (sel.(draws := sel.draws + 1), s[WeightedPick(s, Draw(sel.draws + 1, TotalWeight(s)))])
    case QuotaAware => (sel, s[QuotaPick(s)])
    case ResetSoon => (sel, s[ResetSoonPick(s, cfg)])
    case Steward => (sel, s[StewardPick(s, cfg, sel.softFail, later)])
    case _ => (sel, s[0])
  }

  lemma {:induction false} PreferFreshKeeps(accounts: seq<Account>, softFail: map<nat, int>, now: int)
    ensures |PreferFresh(accounts, softFail, now)| == |accounts|
    ensures forall a :: a in PreferFresh(accounts, softFail, now) <==> a in accounts
  {
    FilterSplits(accounts, FreshTest(softFail, now), StaleTest(softFail, now));
  }

  class Selector {
    var rr: map<nat, nat>
    var draws: nat
    var softFail: map<nat, int>

    constructor (seed: nat)
      ensures View() == Sel(map[], seed, map[])
    {
      rr, draws, softFail := map[], seed, map[];
    }

    function View(): Sel
      reads this
    {
      Sel(rr, draws, softFail)
    }

    method NoteSoftFail(id: nat, now: int)
      modifies this
      ensures View() == old(View()).(softFail := old(softFail)[id := now])
    {
      softFail := softFail[id := now];
    }

    method ClearSoftFail(id: nat)
      modifies this
      ensures View() == old(View()).(softFail := old(softFail) - {id})
    {
      softFail := softFail - {id};
    }

    method Intn(total: nat) returns (r: nat)
      requires total > 0
      modifies this`draws
      ensures View() == old(View()).(draws := old(draws) + 1)
      ensures r == Draw(old(draws) + 1, total)
    {
      draws := draws + 1;
      r := Draw(draws, total);
    }

    method PreferFreshAccounts(accounts: seq<Account>, now: int) returns (out: seq<Account>)
      ensures out == PreferFresh(accounts, softFail, now)
    {
      if |accounts| < 2 {
        return accounts;
      }
      var isFresh, isStale: seq<Account> := [], [];
      for i := 0 to |accounts|
        invariant isFresh == Filter(accounts[..i], FreshTest(softFail, now))
        invariant isStale == Filter(accounts[..i], StaleTest(softFail, now))
      {
        assert accounts[..i + 1][..i] == accounts[..i];
        if RecentlyFailed(softFail, accounts[i].id, now) {
          isStale := isStale + [accounts[i]];
        } else {
          isFresh := isFresh + [accounts[i]];
        }
      }
      assert accounts[..|accounts|] == accounts;
      out := isFresh + isStale;
    }

    method PickQuotaAware(accounts: seq<Account>) returns (best: nat)
      requires accounts != []
      ensures best == QuotaPick(accounts)
    {
      best := 0;
      var bestPct := QuotaPct(accounts[0]);
      assert accounts[..1] == [accounts[0]];
      for i := 1 to |accounts|
        invariant best == QuotaPick(accounts[..i]) && bestPct == QuotaPct(accounts[best])
      {
        assert accounts[..i + 1][..i] == accounts[..i];
        var p := QuotaPct(accounts[i]);
        if p > bestPct {
          best, bestPct := i, p;
        } else if p == bestPct && EarlierReset(accounts[i], accounts[best]) {
          best := i;
        }
      }
      assert accounts[..|accounts|] == accounts;
    }

    method PickResetSoon(accounts: seq<Account>, cfg: PickConfig) returns (pick: nat)
      requires accounts != []
      ensures pick == ResetSoonPick(accounts, cfg)
    {
      var best: Option<nat> := None;
      for i := 0 to |accounts|
        invariant best == SoonestReset(accounts[..i], cfg.window, cfg.minRemainingPct)
        invariant best.Some? ==> best.value < i && WindowQuota(accounts[best.value], cfg.window).1.Some?
      {
        assert accounts[..i + 1][..i] == accounts[..i];
        var (pct, reset) := WindowQuota(accounts[i], cfg.window);
        if pct >= cfg.minRemainingPct && reset.Some? {
          if best.None? {
            best := Some(i);
          } else {
            var bestReset := WindowQuota(accounts[best.value], cfg.window).1;
            if bestReset.None? || reset.value < bestReset.value {
              best := Some(i);
            }
          }
        }
      }
      assert accounts[..|accounts|] == accounts;
      if best.Some? {
        return best.value;
      }
      pick := PickQuotaAware(accounts);
    }

    method PickSteward(accounts: seq<Account>, cfg: PickConfig, now: int) returns (best: nat)
      requires accounts != []
      ensures best == StewardPick(accounts, cfg, softFail, now)
    {
      var score := Scorer(cfg, softFail, now);
      best := 0;
      var bestScore := score(accounts[0]);
      assert accounts[..1] == [accounts[0]];
      for i := 1 to |accounts|
        invariant best == FirstHighest(accounts[..i], score) && bestScore == score(accounts[best])
      {
        assert accounts[..i + 1][..i] == accounts[..i];
        var thisScore := score(accounts[i]);
        if thisScore > bestScore {
          best, bestScore := i, thisScore;
        }
      }
      assert accounts[..|accounts|] == accounts;
    }

    method PickWeighted(accounts: seq<Account>) returns (pick: nat)
      requires accounts != []
      modifies this`draws
      ensures View() == old(View()).(draws := old(draws) + 1)
      ensures pick == WeightedPick(accounts, Draw(old(draws) + 1, TotalWeight(accounts)))
    {
      var total := 0;
      for i := 0 to |accounts|
        invariant total + TotalWeight(accounts[i..]) == TotalWeight(accounts)
      {
        assert accounts[i..][0] == accounts[i] && accounts[i..][1..] == accounts[i + 1..];
        total := total + WeightOf(accounts[i]);
      }
      var r: nat := Intn(total);
      ghost var draw := r;
      for i := 0 to |accounts|
        invariant WeightedScan(accounts, draw)
               == (var rest := WeightedScan(accounts[i..], r);
                   if rest.None? then None else Some(rest.value + i))
      {
        assert accounts[i..][0] == accounts[i] && accounts[i..][1..] == accounts[i + 1..];
        if r < WeightOf(accounts[i]) {
          return i;
        }
        r := r - WeightOf(accounts[i]);
      }
      pick := |accounts| - 1;
    }

    method PickRoundRobin(route: nat, accounts: seq<Account>) returns (pick: nat)
      requires accounts != []
      modifies this`rr
      ensures View() == old(View()).(rr := old(rr)[route := Counter(old(rr), route) + 1])
      ensures pick == Counter(old(rr), route) % |accounts|
    {
      if route !in rr {
        rr := rr[route := 0];
      }
      var n := rr[route];
      rr := rr[route := n + 1];
      pick := n % |accounts|;
    }

    /** One pick by any strategy does what `Pick` says; no account means no pick. */
    method PickWithConfig(route: nat, strategy: Strategy, accounts: seq<Account>, cfg: PickConfig, now: int, later: int)
      returns (pick: Option<Account>)
      modifies this
      ensures accounts == [] ==> pick == None && View() == old(View())
      ensures accounts != [] ==>
        (View(), pick) == (var p := Pick(old(View()), route, strategy, accounts, cfg, now, later); (p.0, Some(p.1)))
    {
      if accounts == [] {
        return None;
      }
      var s := PreferFreshAccounts(accounts, now);
      PreferFreshKeeps(accounts, softFail, now);
      var i := 0;
      match strategy {
        case RoundRobin => i := PickRoundRobin(route, s);
        case Weighted => i := PickWeighted(s);
        case QuotaAware => i := PickQuotaAware(s);
        case ResetSoon => i := PickResetSoon(s, cfg);
        case Steward => i := PickSteward(s, cfg, later);
        case _ =>
      }
      pick := Some(s[i]);
    }
  }
}
