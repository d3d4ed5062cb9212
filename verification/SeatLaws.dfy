/**
 Which seat the dispatcher chooses, strategy by strategy, in terms of the candidates, the
 sticky account and the selector's state.
 */
module SeatLaws {
  import opened Router
  import opened RandSource
  import opened SelectorState
  import opened Dispatch

  // The seats in seat order: fresh before recently failed, then the sticky account, then
  // list position.
  ghost predicate InSeatOrder(seats: seq<Account>, sticky: nat, softFail: map<nat, int>, now: int, s: seq<Account>) {
    && |s| == |seats|
    && (forall a :: a in s <==> a in seats)
    && (forall i, j :: 0 <= i < j < |s| ==> SeatBefore(seats, sticky, softFail, now, s[i], s[j]))
  }

  // How many draws go to the seats before the k-th.
  function DrawsBefore(s: seq<Account>, k: nat): nat
    requires k <= |s|
  {
    if k == 0 then 0 else DrawsBefore(s, k - 1) + if s[k - 1].weight > 0 then s[k - 1].weight else 1
  }

  // The draw falls to the k-th seat, which has as many draws as its weight says.
  predicate DrawnAt(s: seq<Account>, d: nat, k: nat) {
    k < |s| && DrawsBefore(s, k) <= d < DrawsBefore(s, k + 1)
  }

  // The n-th draw falls to the k-th seat, which is `a`.
  predicate DrawnOf(s: seq<Account>, n: nat, k: nat, a: Account) {
    DrawsBefore(s, |s|) > 0 && DrawnAt(s, Draw(n, DrawsBefore(s, |s|)), k) && s[k] == a
  }

  // The seat that each strategy picks of the seats, and the selector afterwards.
  ghost predicate PicksBy(
    strategy: Strategy, seats: seq<Account>, sticky: nat, cfg: PickConfig, route: nat, sel: Sel, now: int, later: int,
    sel': Sel, a: Account)
  {
    a in seats &&
    match strategy
    case QuotaAware =>
      sel' == sel && forall b :: b in seats && b != a ==> QuotaPrefers(seats, sticky, sel.softFail, now, a, b)
    case ResetSoon =>
      sel' == sel &&
      forall b :: b in seats && b != a ==>
        if NoneEligible(seats, cfg) then QuotaPrefers(seats, sticky, sel.softFail, now, a, b)
        else ResetPrefers(seats, sticky, sel.softFail, now, cfg, a, b)
    case Steward =>
      sel' == sel &&
      forall b :: b in seats && b != a ==> MeritPrefers(seats, sticky, sel.softFail, now, cfg, later, a, b)
    case Weighted =>
      var n := sel.draws + 1;
      sel' == sel.(draws := n) &&
      exists s: seq<Account>, k: nat :: InSeatOrder(seats, sticky, sel.softFail, now, s) && DrawnOf(s, n, k, a)
    case RoundRobin =>
      var c := if route in sel.rr then sel.rr[route] else 0;
      sel' == sel.(rr := sel.rr[route := c + 1]) &&
      exists s: seq<Account> :: InSeatOrder(seats, sticky, sel.softFail, now, s) && s != [] && s[c % |s|] == a
    case Sequential =>
      sel' == sel && forall b :: b in seats && b != a ==> SeatBefore(seats, sticky, sel.softFail, now, a, b)
    case Parallel =>
      sel' == sel && forall b :: b in seats && b != a ==> SeatBefore(seats, sticky, sel.softFail, now, a, b)
  }

  lemma {:induction false} TotalOfNext(s: seq<Account>, a: Account)
    ensures TotalWeight(s + [a]) == TotalWeight(s) + WeightOf(a)
  {
    if s == [] {
      assert s + [a] == [a] && [a][1..] == [];
    } else {
      TotalOfNext(s[1..], a);
      assert (s + [a])[0] == s[0] && (s + [a])[1..] == s[1..] + [a];
    }
  }

  lemma {:induction false} DrawsBeforeIs(s: seq<Account>, k: nat)
    requires k <= |s|
    ensures DrawsBefore(s, k) == TotalWeight(s[..k])
  {
    if k > 0 {
      DrawsBeforeIs(s, k - 1);
      TotalOfNext(s[..k - 1], s[k - 1]);
      assert s[..k] == s[..k - 1] + [s[k - 1]];
    }
  }

  lemma {:induction false} WeightedFallsTo(s: seq<Account>, d: nat)
    requires s != [] && d < TotalWeight(s)
    ensures DrawsBefore(s, |s|) == TotalWeight(s) && DrawnAt(s, d, WeightedPick(s, d))
  {
    var k := WeightedPick(s, d);
    WeightedNeverFallsThrough(s, d);
    WeightedShare(s, d, k);
    DrawsBeforeIs(s, k);
    DrawsBeforeIs(s, |s|);
    assert s[..|s|] == s;
  }

  lemma {:induction false} FirstIsFirst(
    seats: seq<Account>, sticky: nat, softFail: map<nat, int>, now: int, s: seq<Account>)
    requires InSeatOrder(seats, sticky, softFail, now, s) && s != []
    ensures forall b :: b in seats && b != s[0] ==> SeatBefore(seats, sticky, softFail, now, s[0], b)
  {
    forall b | b in seats && b != s[0]
      ensures SeatBefore(seats, sticky, softFail, now, s[0], b)
    {
      assert b in s;
      var k :| 0 <= k < |s| && s[k] == b;
    }
  }

  lemma {:induction false} QuotaPicksBest(seats: seq<Account>, sticky: nat, softFail: map<nat, int>, now: int)
    requires DistinctIds(seats) && !HasId(seats, NIL_ID) && Candidates(seats, sticky, softFail, now) != []
    ensures var s := Candidates(seats, sticky, softFail, now);
      forall b :: b in seats && b != s[QuotaPick(s)] ==> QuotaPrefers(seats, sticky, softFail, now, s[QuotaPick(s)], b)
  {
    var s := Candidates(seats, sticky, softFail, now);
    forall b | b in seats && b != s[QuotaPick(s)]
      ensures QuotaPrefers(seats, sticky, softFail, now, s[QuotaPick(s)], b)
    {
      QuotaPickIsUniqueMinimum(seats, sticky, softFail, now, b);
    }
  }

  lemma {:induction false} ResetSoonPicksBest(
    seats: seq<Account>, sticky: nat, softFail: map<nat, int>, now: int, cfg: PickConfig)
    requires DistinctIds(seats) && !HasId(seats, NIL_ID) && Candidates(seats, sticky, softFail, now) != []
    ensures var s := Candidates(seats, sticky, softFail, now);
      var a := s[ResetSoonPick(s, cfg)];
      forall b :: b in seats && b != a ==>
        if NoneEligible(seats, cfg) then QuotaPrefers(seats, sticky, softFail, now, a, b)
        else ResetPrefers(seats, sticky, softFail, now, cfg, a, b)
  {
    var s := Candidates(seats, sticky, softFail, now);
    var a := s[ResetSoonPick(s, cfg)];
    forall b | b in seats && b != a
      ensures if NoneEligible(seats, cfg) then QuotaPrefers(seats, sticky, softFail, now, a, b)
              else ResetPrefers(seats, sticky, softFail, now, cfg, a, b)
    {
      ResetSoonPickIsUniqueMinimum(seats, sticky, softFail, now, cfg, b);
    }
  }

  // A higher score, or as high a one and an earlier place.
  predicate MeritPrefers(
    seats: seq<Account>, sticky: nat, softFail: map<nat, int>, now: int, cfg: PickConfig, later: int,
    a: Account, b: Account)
  {
    || Merit(a, cfg, softFail, later) > Merit(b, cfg, softFail, later)
    || (Merit(a, cfg, softFail, later) == Merit(b, cfg, softFail, later)
        && SeatBefore(seats, sticky, softFail, now, a, b))
  }

  lemma {:induction false} StewardPicksBest(
    seats: seq<Account>, sticky: nat, softFail: map<nat, int>, now: int, s: seq<Account>, cfg: PickConfig, later: int)
    requires InSeatOrder(seats, sticky, softFail, now, s) && s != []
    ensures var a := s[StewardPick(s, cfg, softFail, later)];
      forall b :: b in seats && b != a ==> MeritPrefers(seats, sticky, softFail, now, cfg, later, a, b)
  {
    var r := StewardPick(s, cfg, softFail, later);
    StewardPickIsFirstHighest(s, cfg, softFail, later);
    ScoreIs(s[r], cfg, softFail, later);
    forall b | b in seats && b != s[r]
      ensures MeritPrefers(seats, sticky, softFail, now, cfg, later, s[r], b)
    {
      assert b in s;
      var k :| 0 <= k < |s| && s[k] == b;
      ScoreIs(b, cfg, softFail, later);
    }
  }

  // The seats as `Choose` hands them to `Pick`.
  lemma {:induction false} StickyIsPreferred(p: Pass, seats: seq<Account>)
    ensures PreferSticky(p, seats) == PreferAccount(seats, StickyOf(p))
  {
  }

  ghost predicate Listed(seats: seq<Account>, sticky: nat, softFail: map<nat, int>, now: int, s: seq<Account>) {
    && DistinctIds(seats) && !HasId(seats, NIL_ID) && s == Candidates(seats, sticky, softFail, now)
    && s != [] && InSeatOrder(seats, sticky, softFail, now, s)
  }

  lemma {:induction false} BestIsPicked(
    strategy: Strategy, seats: seq<Account>, sticky: nat, cfg: PickConfig, route: nat, sel: Sel, now: int, later: int,
    s: seq<Account>)
    requires Listed(seats, sticky, sel.softFail, now, s) && strategy in {QuotaAware, ResetSoon, Steward}
    ensures var i := if strategy == QuotaAware then QuotaPick(s)
                     else if strategy == ResetSoon then ResetSoonPick(s, cfg)
                     else StewardPick(s, cfg, sel.softFail, later);
            PicksBy(strategy, seats, sticky, cfg, route, sel, now, later, sel, s[i])
  {
    match strategy
    case QuotaAware => QuotaPicksBest(seats, sticky, sel.softFail, now);
    case ResetSoon => ResetSoonPicksBest(seats, sticky, sel.softFail, now, cfg);
    case Steward => StewardPicksBest(seats, sticky, sel.softFail, now, s, cfg, later);
  }

  lemma {:induction false} NextIsPicked(
    strategy: Strategy, seats: seq<Account>, sticky: nat, cfg: PickConfig, route: nat, sel: Sel, now: int, later: int,
    s: seq<Account>)
    requires Listed(seats, sticky, sel.softFail, now, s)
    ensures var c := Counter(sel.rr, route);
            PicksBy(RoundRobin, seats, sticky, cfg, route, sel, now, later, sel.(rr := sel.rr[route := c + 1]),
                    s[c % |s|])
    ensures strategy in {Sequential, Parallel} ==>
              PicksBy(strategy, seats, sticky, cfg, route, sel, now, later, sel, s[0])
  {
    FirstIsFirst(seats, sticky, sel.softFail, now, s);
  }

  lemma {:induction false} DrawIsPicked(
    seats: seq<Account>, sticky: nat, cfg: PickConfig, route: nat, sel: Sel, now: int, later: int, s: seq<Account>)
    requires Listed(seats, sticky, sel.softFail, now, s)
    ensures PicksBy(Weighted, seats, sticky, cfg, route, sel, now, later, sel.(draws := sel.draws + 1),
                    s[WeightedPick(s, Draw(sel.draws + 1, TotalWeight(s)))])
  {
    var d := Draw(sel.draws + 1, TotalWeight(s));
    WeightedFallsTo(s, d);
    assert DrawnOf(s, sel.draws + 1, WeightedPick(s, d), s[WeightedPick(s, d)]);
  }

  lemma {:induction false} PickFromList(
    sel: Sel, route: nat, strategy: Strategy, seats: seq<Account>, sticky: nat, cfg: PickConfig, now: int, later: int)
    requires Listed(seats, sticky, sel.softFail, now, Candidates(seats, sticky, sel.softFail, now))
    ensures var list := PreferAccount(seats, sticky);
      list != [] &&
      var (sel', a) := Pick(sel, route, strategy, list, cfg, now, later);
      PicksBy(strategy, seats, sticky, cfg, route, sel, now, later, sel', a)
  {
    var s := Candidates(seats, sticky, sel.softFail, now);
    match strategy
    case RoundRobin => NextIsPicked(strategy, seats, sticky, cfg, route, sel, now, later, s);
    case Weighted => DrawIsPicked(seats, sticky, cfg, route, sel, now, later, s);
    case Sequential => NextIsPicked(strategy, seats, sticky, cfg, route, sel, now, later, s);
    case Parallel => NextIsPicked(strategy, seats, sticky, cfg, route, sel, now, later, s);
    case _ => BestIsPicked(strategy, seats, sticky, cfg, route, sel, now, later, s);
  }

  function StickyOf(p: Pass): nat {
    if p.stickyTo.Some? then p.stickyTo.value else NIL_ID
  }

  /** The seat the dispatcher chooses among the seats not tried yet, for every strategy,
      sticky account and state of the selector. */
  lemma {:induction false} ChoosesBy(p: Pass, sel: Sel, seats: seq<Account>, t: Turn)
    requires seats != [] && DistinctIds(seats) && !HasId(seats, NIL_ID)
    ensures var (sel', a) := Choose(p, sel, seats, t);
      PicksBy(p.strategy, seats, StickyOf(p), p.cfg, p.routeId, sel, t.pickAt, t.scoreAt, sel', a)
  {
    StickyIsPreferred(p, seats);
    CandidatesInSeatOrder(seats, StickyOf(p), sel.softFail, t.pickAt);
    assert seats[0] in Candidates(seats, StickyOf(p), sel.softFail, t.pickAt);
    PickFromList(sel, p.routeId, p.strategy, seats, StickyOf(p), p.cfg, t.pickAt, t.scoreAt);
  }

  lemma {:induction false} UntriedHaveNoNil(pool: seq<Account>, tried: set<nat>)
    requires DistinctIds(pool) && !HasId(pool, NIL_ID)
    ensures DistinctIds(Exclude(pool, tried)) && !HasId(Exclude(pool, tried), NIL_ID)
  {
    ExcludeExact(pool, tried);
    var seats := Exclude(pool, tried);
    forall i | 0 <= i < |seats|
      ensures seats[i].id != NIL_ID
    {
      assert seats[i] in pool;
    }
  }

  // The account called next, and the selector afterwards.
  ghost predicate NextPick(p: Pass, seats: seq<Account>, sel: Sel, t: Turn, sel': Sel, a: Account) {
    PicksBy(p.strategy, seats, StickyOf(p), p.cfg, p.routeId, sel, t.pickAt, t.scoreAt, sel', a)
  }

  lemma {:induction false} TurnCallsChosen(
    p: Pass, choose: Chooser, attempt: Trier, pool: seq<Account>, g: Progress)
    requires DistinctIds(pool) && SoundChooser(choose) && Exclude(pool, g.tried) != []
    ensures var n := |g.calls|;
      var step := TakeTurn(p, choose, attempt, pool, g);
      var calls := if step.Stop? then step.run.calls else step.g.calls;
      var (sel, a) := choose(g.world.sel, Exclude(pool, g.tried), n);
      calls == g.calls + [attempt(g.world.(sel := sel), a, n).call]
  {
  }

  /** So it is in every turn of every run: the next call goes to the seat that the strategy
      picks of those not tried yet. */
  lemma {:induction false} TurnsChooseBy(p: Pass, pool: seq<Account>, turns: nat -> Turn, g: Progress)
    requires DistinctIds(pool) && !HasId(pool, NIL_ID) && SoundChooser(ChooserOf(p, turns))
    requires Exclude(pool, g.tried) != []
    ensures var n := |g.calls|;
      var step := TakeTurn(p, ChooserOf(p, turns), TrierOf(p, turns), pool, g);
      var calls := if step.Stop? then step.run.calls else step.g.calls;
      && |calls| == n + 1 && calls[..n] == g.calls
      && exists sel': Sel :: NextPick(p, Exclude(pool, g.tried), g.world.sel, turns(n), sel', calls[n].account)
  {
    var seats := Exclude(pool, g.tried);
    UntriedHaveNoNil(pool, g.tried);
    ChoosesBy(p, g.world.sel, seats, turns(|g.calls|));
    TurnCallsChosen(p, ChooserOf(p, turns), TrierOf(p, turns), pool, g);
    var (sel', a) := Choose(p, g.world.sel, seats, turns(|g.calls|));
    assert NextPick(p, seats, g.world.sel, turns(|g.calls|), sel', a);
  }
}
