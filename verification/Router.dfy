/**
 Seat selection: the seven strategies of the selector as functions of the candidate
 list, the selector's counters and the clock, and the cooldown arithmetic.
 Instants and durations are nanoseconds; percentages are real numbers.
 */
module Router {
  import opened Wrappers
  import opened Text
  import opened Arith

  // An account attached to a route. The id 0 stands for the nil UUID.
  datatype Account = Account(
    id: nat,
    vendor: string,
    authType: string,
    defaultModel: string,
    weight: int,
    quotaPct: Option<real>,
    quotaResetAt: Option<int>,
    quota5hPct: Option<real>,
    quota5hResetAt: Option<int>,
    quota7dPct: Option<real>,
    quota7dResetAt: Option<int>)

  const NIL_ID: nat := 0

  datatype Strategy = Sequential | RoundRobin | Weighted | QuotaAware | ResetSoon | Steward | Parallel

  // The route's selection settings, after defaults.
  datatype PickConfig = PickConfig(
    window: string,
    minRemainingPct: real,
    wRemaining: real,
    wUrgency: real,
    wSoftFail: real,
    preferOAuth: bool)

  const SECOND: int := 1_000_000_000
  const MINUTE: int := 60 * SECOND
  const HOUR: int := 60 * MINUTE
  const SOFT_FAIL_WINDOW: int := 30 * SECOND

  predicate DistinctIds(accounts: seq<Account>) {
    forall i, j :: 0 <= i < j < |accounts| ==> accounts[i].id != accounts[j].id
  }

  // ---------------------------------------------------------------------------
  // Candidate lists
  // ---------------------------------------------------------------------------

  // The elements that satisfy `p`, in order.
  function Filter<T>(s: seq<T>, p: T -> bool): seq<T> {
    if s == [] then []
    else Filter(s[..|s| - 1], p) + (if p(s[|s| - 1]) then [s[|s| - 1]] else [])
  }

  function Exclude(accounts: seq<Account>, tried: set<nat>): seq<Account> {
    Filter(accounts, Untried(tried))
  }

  function Untried(tried: set<nat>): Account -> bool {
    (a: Account) => a.id !in tried
  }

  function Named(id: nat): Account -> bool {
    (a: Account) => a.id == id
  }

  function NotNamed(id: nat): Account -> bool {
    (a: Account) => a.id != id
  }

  predicate HasId(accounts: seq<Account>, id: nat) {
    exists i :: 0 <= i < |accounts| && accounts[i].id == id
  }

  // Moves the account named `prefer` to the front when it is there.
  function PreferAccount(accounts: seq<Account>, prefer: nat): seq<Account> {
    if prefer == NIL_ID || |accounts| < 2 || !HasId(accounts, prefer) then accounts
    else
      var found := Filter(accounts, Named(prefer));
      var rest := Filter(accounts, NotNamed(prefer));
      if found == [] then accounts else [found[|found| - 1]] + rest
  }

  predicate RecentlyFailed(softFail: map<nat, int>, id: nat, now: int) {
    id in softFail && now - softFail[id] < SOFT_FAIL_WINDOW
  }

  // Accounts without a recent soft failure first.
  function PreferFresh(accounts: seq<Account>, softFail: map<nat, int>, now: int): seq<Account> {
    if |accounts| < 2 then accounts
    else
      Filter(accounts, FreshTest(softFail, now)) + Filter(accounts, StaleTest(softFail, now))
  }

  function FreshTest(softFail: map<nat, int>, now: int): Account -> bool {
    (a: Account) => !RecentlyFailed(softFail, a.id, now)
  }

  function StaleTest(softFail: map<nat, int>, now: int): Account -> bool {
    (a: Account) => RecentlyFailed(softFail, a.id, now)
  }

  lemma {:induction false} FilterMembers<T>(s: seq<T>, p: T -> bool)
    ensures forall x :: x in Filter(s, p) <==> x in s && p(x)
    ensures |Filter(s, p)| <= |s|
  {
    if s != [] {
      var n := |s| - 1;
      FilterMembers(s[..n], p);
      assert s == s[..n] + [s[n]];
      forall x
        ensures x in Filter(s, p) <==> x in s && p(x)
      {
        assert x in s <==> x in s[..n] || x == s[n];
      }
    }
  }

  lemma {:induction false} FilterAt<T>(s: seq<T>, p: T -> bool, i: nat)
    requires i < |Filter(s, p)|
    ensures p(Filter(s, p)[i])
    ensures exists k :: 0 <= k < |s| && s[k] == Filter(s, p)[i]
  {
    var n := |s| - 1;
    if i < |Filter(s[..n], p)| {
      FilterAt(s[..n], p, i);
      var k :| 0 <= k < n && s[..n][k] == Filter(s[..n], p)[i];
      assert s[k] == Filter(s, p)[i];
    } else {
      assert s[n] == Filter(s, p)[i];
    }
  }

  // Filtering keeps any relation that holds between earlier and later elements.
  lemma {:induction false} FilterKeepsOrder<T>(s: seq<T>, p: T -> bool, before: (T, T) -> bool)
    requires forall i, j :: 0 <= i < j < |s| ==> before(s[i], s[j])
    ensures var f := Filter(s, p); forall i, j :: 0 <= i < j < |f| ==> before(f[i], f[j])
  {
    if s != [] {
      var n := |s| - 1;
      FilterKeepsOrder(s[..n], p, before);
      var f0 := Filter(s[..n], p);
      var f := Filter(s, p);
      FilterMembers(s[..n], p);
      forall i, j | 0 <= i < j < |f|
        ensures before(f[i], f[j])
      {
        assert f[i] == f0[i];
        if j == |f0| {
          FilterAt(s[..n], p, i);
          var k :| 0 <= k < n && s[..n][k] == f0[i];
          assert before(s[k], s[n]);
        } else {
          assert f[j] == f0[j];
        }
      }
    }
  }

  // Both halves of a split together have the elements of the whole.
  lemma {:induction false} FilterSplits<T>(s: seq<T>, p: T -> bool, q: T -> bool)
    requires forall x :: p(x) <==> !q(x)
    ensures |Filter(s, p)| + |Filter(s, q)| == |s|
    ensures forall x :: x in s <==> x in Filter(s, p) || x in Filter(s, q)
  {
    FilterMembers(s, p);
    FilterMembers(s, q);
    if s != [] {
      FilterSplits(s[..|s| - 1], p, q);
    }
  }

  /** Exclude keeps exactly the untried accounts, each once. */
  lemma {:induction false} ExcludeExact(accounts: seq<Account>, tried: set<nat>)
    ensures forall a :: a in Exclude(accounts, tried) <==> a in accounts && a.id !in tried
    ensures DistinctIds(accounts) ==> DistinctIds(Exclude(accounts, tried))
  {
    var p := Untried(tried);
    FilterMembers(accounts, p);
    if DistinctIds(accounts) {
      FilterKeepsOrder(accounts, p, (a: Account, b: Account) => a.id != b.id);
    }
  }

  // ---------------------------------------------------------------------------
  // The order in which candidates reach a strategy
  // ---------------------------------------------------------------------------

  function PositionOf(accounts: seq<Account>, id: nat): int {
    if accounts == [] then -1
    else if accounts[0].id == id then 0
    else PositionOf(accounts[1..], id) + 1
  }

  lemma {:induction false} PositionOfAt(accounts: seq<Account>, i: nat)
    requires DistinctIds(accounts) && i < |accounts|
    ensures PositionOf(accounts, accounts[i].id) == i
  {
    if i > 0 {
      PositionOfAt(accounts[1..], i - 1);
    }
  }

  predicate StickyBefore(accounts: seq<Account>, sticky: nat, a: Account, b: Account) {
    if a.id == sticky then b.id != sticky
    else b.id != sticky && PositionOf(accounts, a.id) < PositionOf(accounts, b.id)
  }

  // Fresh before recently failed, then the sticky account, then list position.
  predicate SeatBefore(accounts: seq<Account>, sticky: nat, softFail: map<nat, int>, now: int, a: Account, b: Account) {
    var staleA := a.id in softFail && now - softFail[a.id] < 30 * SECOND;
    var staleB := b.id in softFail && now - softFail[b.id] < 30 * SECOND;
    if staleA == staleB then StickyBefore(accounts, sticky, a, b) else staleB
  }

  function Candidates(accounts: seq<Account>, sticky: nat, softFail: map<nat, int>, now: int): seq<Account> {
    PreferFresh(PreferAccount(accounts, sticky), softFail, now)
  }

  predicate ListedBefore(accounts: seq<Account>, a: Account, b: Account) {
    PositionOf(accounts, a.id) < PositionOf(accounts, b.id)
  }

  lemma {:induction false} ListedInOrder(accounts: seq<Account>)
    requires DistinctIds(accounts)
    ensures forall i, j :: 0 <= i < j < |accounts| ==> ListedBefore(accounts, accounts[i], accounts[j])
  {
    forall i, j | 0 <= i < j < |accounts|
      ensures ListedBefore(accounts, accounts[i], accounts[j])
    {
      PositionOfAt(accounts, i);
      PositionOfAt(accounts, j);
    }
  }

  lemma {:induction false} FoundOnce(accounts: seq<Account>, id: nat)
    requires DistinctIds(accounts) && HasId(accounts, id)
    ensures var found := Filter(accounts, Named(id));
            |found| == 1 && found[0].id == id
  {
    var same := Named(id);
    var found := Filter(accounts, same);
    FilterMembers(accounts, same);
    FilterKeepsOrder(accounts, same, (a: Account, b: Account) => a.id != b.id);
    var k :| 0 <= k < |accounts| && accounts[k].id == id;
    assert accounts[k] in found;
    FilterAt(accounts, same, 0);
    if |found| > 1 {
      FilterAt(accounts, same, 1);
      assert false;
    }
  }

  lemma {:induction false} OthersInOrder(accounts: seq<Account>, id: nat)
    requires DistinctIds(accounts)
    ensures var rest := Filter(accounts, NotNamed(id));
      && (forall i :: 0 <= i < |rest| ==> rest[i].id != id)
      && (forall i, j :: 0 <= i < j < |rest| ==> ListedBefore(accounts, rest[i], rest[j]))
  {
    var other := NotNamed(id);
    var rest := Filter(accounts, other);
    ListedInOrder(accounts);
    FilterKeepsOrder(accounts, other, (a: Account, b: Account) => ListedBefore(accounts, a, b));
    FilterMembers(accounts, other);
    forall i | 0 <= i < |rest|
      ensures rest[i].id != id
    {
      assert rest[i] in rest;
    }
  }

  lemma {:induction false} StickyMovesToFront(accounts: seq<Account>, sticky: nat)
    requires DistinctIds(accounts) && sticky != NIL_ID && |accounts| >= 2 && HasId(accounts, sticky)
    ensures var s := PreferAccount(accounts, sticky);
      && (forall a :: a in s <==> a in accounts)
      && |s| == |accounts|
      && (forall i, j :: 0 <= i < j < |s| ==> StickyBefore(accounts, sticky, s[i], s[j]))
  {
    var same := Named(sticky);
    var other := NotNamed(sticky);
    var rest := Filter(accounts, other);
    FoundOnce(accounts, sticky);
    FilterSplits(accounts, same, other);
    OthersInOrder(accounts, sticky);
    var s := PreferAccount(accounts, sticky);
    assert s == Filter(accounts, same) + rest;
    forall i, j | 0 <= i < j < |s|
      ensures StickyBefore(accounts, sticky, s[i], s[j])
    {
      if i > 0 {
        assert ListedBefore(accounts, rest[i - 1], rest[j - 1]);
      }
    }
  }

  lemma {:induction false} PreferAccountOrder(accounts: seq<Account>, sticky: nat)
    requires DistinctIds(accounts) && !HasId(accounts, NIL_ID)
    ensures var s := PreferAccount(accounts, sticky);
      && (forall a :: a in s <==> a in accounts)
      && |s| == |accounts|
      && (forall i, j :: 0 <= i < j < |s| ==> StickyBefore(accounts, sticky, s[i], s[j]))
  {
    if sticky != NIL_ID && |accounts| >= 2 && HasId(accounts, sticky) {
      StickyMovesToFront(accounts, sticky);
    } else {
      ListedInOrder(accounts);
      forall i, j | 0 <= i < j < |accounts|
        ensures StickyBefore(accounts, sticky, accounts[i], accounts[j])
      {
        assert accounts[i].id == sticky || accounts[j].id == sticky ==> HasId(accounts, sticky);
        assert ListedBefore(accounts, accounts[i], accounts[j]);
      }
    }
  }

  /** The list a strategy sees has every candidate once, in seat order. */
  lemma {:induction false} CandidatesInSeatOrder(accounts: seq<Account>, sticky: nat, softFail: map<nat, int>, now: int)
    requires DistinctIds(accounts) && !HasId(accounts, NIL_ID)
    ensures var s := Candidates(accounts, sticky, softFail, now);
      && (forall a :: a in s <==> a in accounts)
      && |s| == |accounts|
      && (forall i, j :: 0 <= i < j < |s| ==> SeatBefore(accounts, sticky, softFail, now, s[i], s[j]))
  {
    var p := PreferAccount(accounts, sticky);
    PreferAccountOrder(accounts, sticky);
    if |p| >= 2 {
      var isFresh := FreshTest(softFail, now);
      var isStale := StaleTest(softFail, now);
      var before := (a: Account, b: Account) => StickyBefore(accounts, sticky, a, b);
      FilterSplits(p, isFresh, isStale);
      FilterMembers(p, isFresh);
      FilterMembers(p, isStale);
      FilterKeepsOrder(p, isFresh, before);
      FilterKeepsOrder(p, isStale, before);
      var f, t := Filter(p, isFresh), Filter(p, isStale);
      var s := Candidates(accounts, sticky, softFail, now);
      assert s == f + t;
      forall i, j | 0 <= i < j < |s|
        ensures SeatBefore(accounts, sticky, softFail, now, s[i], s[j])
      {
        if j < |f| {
          assert s[i] in f && s[j] in f && before(f[i], f[j]);
        } else if i < |f| {
          assert s[i] in f && s[j] in t;
        } else {
          assert s[i] in t && s[j] in t && before(t[i - |f|], t[j - |f|]);
        }
      }
    }
  }

  // ---------------------------------------------------------------------------
  // quota_aware
  // ---------------------------------------------------------------------------

  function QuotaPct(a: Account): real {
    if a.quotaPct.None? then -1.0 else a.quotaPct.value
  }

  predicate EarlierReset(a: Account, b: Account) {
    a.quotaResetAt.Some? && (b.quotaResetAt.None? || a.quotaResetAt.value < b.quotaResetAt.value)
  }

  // More remaining quota, or as much and an earlier reset.
  predicate QuotaBetter(a: Account, b: Account) {
    QuotaPct(a) > QuotaPct(b) || (QuotaPct(a) == QuotaPct(b) && EarlierReset(a, b))
  }

  function QuotaPick(accounts: seq<Account>): (best: nat)
    requires accounts != []
    ensures best < |accounts|
  {
    var n := |accounts| - 1;
    if n == 0 then 0
    else
      var best := QuotaPick(accounts[..n]);
      if QuotaBetter(accounts[n], accounts[best]) then n else best
  }

  /** The pick is beaten by nobody and beats everybody listed before it: it is the one
      best seat, the earliest listed among equals. */
  lemma {:induction false} QuotaPickIsFirstBest(accounts: seq<Account>)
    requires accounts != []
    ensures forall j :: 0 <= j < |accounts| ==> !QuotaBetter(accounts[j], accounts[QuotaPick(accounts)])
    ensures forall j :: 0 <= j < QuotaPick(accounts) ==> QuotaBetter(accounts[QuotaPick(accounts)], accounts[j])
  {
    var n := |accounts| - 1;
    if n > 0 {
      QuotaPickIsFirstBest(accounts[..n]);
      assert forall j :: 0 <= j < n ==> accounts[..n][j] == accounts[j];
    }
  }

  // The full preference order between two seats under quota_aware. An unknown quota counts
  // as -1, and an unknown reset comes last.
  predicate QuotaPrefers(
    accounts: seq<Account>, sticky: nat, softFail: map<nat, int>, now: int, a: Account, b: Account)
  {
    var leftA := if a.quotaPct.Some? then a.quotaPct.value else -1.0;
    var leftB := if b.quotaPct.Some? then b.quotaPct.value else -1.0;
    if leftA != leftB then leftA > leftB
    else if a.quotaResetAt == b.quotaResetAt then SeatBefore(accounts, sticky, softFail, now, a, b)
    else a.quotaResetAt.Some? && (b.quotaResetAt.Some? ==> a.quotaResetAt.value < b.quotaResetAt.value)
  }

  /** quota_aware picks the unique minimum of (remaining descending, reset ascending with
      unknown last, fresh before stale, sticky first, list position). */
  lemma {:induction false} QuotaPickIsUniqueMinimum(
    accounts: seq<Account>, sticky: nat, softFail: map<nat, int>, now: int, b: Account)
    requires DistinctIds(accounts) && !HasId(accounts, NIL_ID) && b in accounts
    ensures var s := Candidates(accounts, sticky, softFail, now);
      && s != []
      && var pick := s[QuotaPick(s)];
         && pick in accounts
         && (b != pick ==> QuotaPrefers(accounts, sticky, softFail, now, pick, b))
         && (b != pick ==> !QuotaPrefers(accounts, sticky, softFail, now, b, pick))
  {
    var s := Candidates(accounts, sticky, softFail, now);
    CandidatesInSeatOrder(accounts, sticky, softFail, now);
    QuotaPickIsFirstBest(s);
    assert b in s;
    var k :| 0 <= k < |s| && s[k] == b;
    assert s[QuotaPick(s)] in s;
    FirstBestPrefers(accounts, sticky, softFail, now, s, QuotaPick(s), k);
  }

  lemma {:induction false} SeatBeforeAsymmetric(
    accounts: seq<Account>, sticky: nat, softFail: map<nat, int>, now: int, a: Account, b: Account)
    requires SeatBefore(accounts, sticky, softFail, now, a, b)
    ensures !SeatBefore(accounts, sticky, softFail, now, b, a)
  {
  }

  lemma {:induction false} FirstBestPrefers(
    accounts: seq<Account>, sticky: nat, softFail: map<nat, int>, now: int, s: seq<Account>, r: nat, k: nat)
    requires r < |s| && k < |s|
    requires forall i, j :: 0 <= i < j < |s| ==> SeatBefore(accounts, sticky, softFail, now, s[i], s[j])
    requires forall j :: 0 <= j < |s| ==> !QuotaBetter(s[j], s[r])
    requires forall j :: 0 <= j < r ==> QuotaBetter(s[r], s[j])
    ensures s[k] != s[r] ==> QuotaPrefers(accounts, sticky, softFail, now, s[r], s[k])
    ensures s[k] != s[r] ==> !QuotaPrefers(accounts, sticky, softFail, now, s[k], s[r])
  {
    if k > r {
      SeatBeforeAsymmetric(accounts, sticky, softFail, now, s[r], s[k]);
    }
  }

  // ---------------------------------------------------------------------------
  // reset_soon
  // ---------------------------------------------------------------------------

  function WindowQuota(a: Account, window: string): (real, Option<int>) {
    if window in ["5h", "5hr", "five_hour"] && a.quota5hPct.Some? then (a.quota5hPct.value, a.quota5hResetAt)
    else if window !in ["5h", "5hr", "five_hour"] && a.quota7dPct.Some? then (a.quota7dPct.value, a.quota7dResetAt)
    else (QuotaPct(a), a.quotaResetAt)
  }

  predicate Eligible(a: Account, window: string, minRemaining: real) {
    var (pct, reset) := WindowQuota(a, window);
    pct >= minRemaining && reset.Some?
  }

  function ResetOf(a: Account, window: string): int {
    var reset := WindowQuota(a, window).1;
    if reset.Some? then reset.value else 0
  }

  // The first eligible seat with the earliest reset, if there is an eligible seat.
  function SoonestReset(accounts: seq<Account>, window: string, minRemaining: real): (best: Option<nat>)
    ensures best.Some? ==> best.value < |accounts|
  {
    if accounts == [] then None
    else
      var n := |accounts| - 1;
      var best := SoonestReset(accounts[..n], window, minRemaining);
      if !Eligible(accounts[n], window, minRemaining) then best
      else if best.None? || ResetOf(accounts[n], window) < ResetOf(accounts[best.value], window) then Some(n)
      else best
  }

  function ResetSoonPick(accounts: seq<Account>, cfg: PickConfig): (best: nat)
    requires accounts != []
    ensures best < |accounts|
  {
    var soonest := SoonestReset(accounts, cfg.window, cfg.minRemainingPct);
    if soonest.Some? then soonest.value else QuotaPick(accounts)
  }

  /** reset_soon returns the first earliest-reset eligible seat; it gives up exactly when
      no seat is eligible. */
  lemma {:induction false} SoonestResetIsFirstEarliest(accounts: seq<Account>, window: string, minRemaining: real)
    ensures var r := SoonestReset(accounts, window, minRemaining);
      && (r.None? <==> forall j :: 0 <= j < |accounts| ==> !Eligible(accounts[j], window, minRemaining))
      && (r.Some? ==>
            && Eligible(accounts[r.value], window, minRemaining)
            && (forall j :: 0 <= j < |accounts| && Eligible(accounts[j], window, minRemaining) ==>
                  ResetOf(accounts[r.value], window) <= ResetOf(accounts[j], window))
            && (forall j :: 0 <= j < r.value && Eligible(accounts[j], window, minRemaining) ==>
                  ResetOf(accounts[r.value], window) < ResetOf(accounts[j], window)))
  {
    if accounts != [] {
      var n := |accounts| - 1;
      SoonestResetIsFirstEarliest(accounts[..n], window, minRemaining);
      assert forall j :: 0 <= j < n ==> accounts[..n][j] == accounts[j];
      if !Eligible(accounts[n], window, minRemaining) && SoonestReset(accounts[..n], window, minRemaining).None? {
        assert SoonestReset(accounts, window, minRemaining).None?;
      } else {
        assert SoonestReset(accounts, window, minRemaining).Some?;
        if SoonestReset(accounts[..n], window, minRemaining).Some? {
          var k := SoonestReset(accounts[..n], window, minRemaining).value;
          assert accounts[..n][k] == accounts[k];
        } else {
          assert Eligible(accounts[n], window, minRemaining);
        }
      }
    }
  }

  // The seat's quota in the window is known to last, and its reset is known.
  predicate Qualifies(a: Account, cfg: PickConfig) {
    WindowQuota(a, cfg.window).0 >= cfg.minRemainingPct && WindowQuota(a, cfg.window).1.Some?
  }

  // The full preference order between two seats under reset_soon, while one is eligible.
  predicate ResetPrefers(
    accounts: seq<Account>, sticky: nat, softFail: map<nat, int>, now: int, cfg: PickConfig, a: Account, b: Account)
  {
    && Qualifies(a, cfg)
    && (Qualifies(b, cfg) ==>
          var resetA, resetB := WindowQuota(a, cfg.window).1.value, WindowQuota(b, cfg.window).1.value;
          resetA < resetB || (resetA == resetB && SeatBefore(accounts, sticky, softFail, now, a, b)))
  }

  predicate NoneEligible(accounts: seq<Account>, cfg: PickConfig) {
    forall a :: a in accounts ==> !Qualifies(a, cfg)
  }

  /** The quota of a window: the window's own when its percentage is known, else the
      general one, with -1 for an unknown percentage. */
  lemma {:induction false} WindowQuotaIs(a: Account, window: string)
    ensures var (pct, reset) := WindowQuota(a, window);
      var short := window == "5h" || window == "5hr" || window == "five_hour";
      && (short && a.quota5hPct.Some? ==> pct == a.quota5hPct.value && reset == a.quota5hResetAt)
      && (!short && a.quota7dPct.Some? ==> pct == a.quota7dPct.value && reset == a.quota7dResetAt)
      && ((if short then a.quota5hPct.None? else a.quota7dPct.None?) ==>
            && reset == a.quotaResetAt
            && (a.quotaPct.Some? ==> pct == a.quotaPct.value) && (a.quotaPct.None? ==> pct == -1.0))
  {
  }

  lemma {:induction false} FirstEarliestPrefers(
    accounts: seq<Account>, sticky: nat, softFail: map<nat, int>, now: int, cfg: PickConfig, s: seq<Account>, k: nat)
    requires forall i, j :: 0 <= i < j < |s| ==> SeatBefore(accounts, sticky, softFail, now, s[i], s[j])
    requires k < |s| && SoonestReset(s, cfg.window, cfg.minRemainingPct).Some?
    ensures var pick := s[ResetSoonPick(s, cfg)];
      s[k] != pick ==>
        && ResetPrefers(accounts, sticky, softFail, now, cfg, pick, s[k])
        && !ResetPrefers(accounts, sticky, softFail, now, cfg, s[k], pick)
  {
    var r := SoonestReset(s, cfg.window, cfg.minRemainingPct).value;
    SoonestResetIsFirstEarliest(s, cfg.window, cfg.minRemainingPct);
    if k > r {
      SeatBeforeAsymmetric(accounts, sticky, softFail, now, s[r], s[k]);
    }
  }

  /** reset_soon picks, while a seat is eligible, the unique minimum of (reset ascending,
      fresh before stale, sticky first, list position) among the eligible ones; otherwise
      the unique minimum of quota_aware. */
  lemma {:induction false} ResetSoonPickIsUniqueMinimum(
    accounts: seq<Account>, sticky: nat, softFail: map<nat, int>, now: int, cfg: PickConfig, b: Account)
    requires DistinctIds(accounts) && !HasId(accounts, NIL_ID) && b in accounts
    ensures var s := Candidates(accounts, sticky, softFail, now);
      && s != []
      && var pick := s[ResetSoonPick(s, cfg)];
         && pick in accounts
         && (b != pick ==>
               if NoneEligible(accounts, cfg)
               then QuotaPrefers(accounts, sticky, softFail, now, pick, b)
                    && !QuotaPrefers(accounts, sticky, softFail, now, b, pick)
               else ResetPrefers(accounts, sticky, softFail, now, cfg, pick, b)
                    && !ResetPrefers(accounts, sticky, softFail, now, cfg, b, pick))
  {
    var s := Candidates(accounts, sticky, softFail, now);
    CandidatesInSeatOrder(accounts, sticky, softFail, now);
    assert b in s;
    var k :| 0 <= k < |s| && s[k] == b;
    SoonestResetIsFirstEarliest(s, cfg.window, cfg.minRemainingPct);
    assert s[ResetSoonPick(s, cfg)] in s;
    if SoonestReset(s, cfg.window, cfg.minRemainingPct).None? {
      assert NoneEligible(accounts, cfg);
      QuotaPickIsUniqueMinimum(accounts, sticky, softFail, now, b);
    } else {
      FirstEarliestPrefers(accounts, sticky, softFail, now, cfg, s, k);
    }
  }

  // ---------------------------------------------------------------------------
  // steward
  // ---------------------------------------------------------------------------

  function Remaining(a: Account, window: string): real {
    var pct := WindowQuota(a, window).0;
    if pct >= 0.0 then pct / 100.0 else 0.0
  }

  function UrgencyAt(reset: int, now: int): real {
    var secs := (reset - now) as real / SECOND as real;
    var hours := (if secs < 60.0 then 60.0 else secs) / 3600.0;
    var u := 1.0 / (hours + 0.25);
    if u > 1.0 then 1.0 else u
  }

  function Urgency(a: Account, window: string, now: int): real {
    var reset := WindowQuota(a, window).1;
    if reset.None? then 0.0 else UrgencyAt(reset.value, now)
  }

  function Score(a: Account, cfg: PickConfig, softFail: map<nat, int>, now: int): real {
    var soft := if RecentlyFailed(softFail, a.id, now) then 1.0 else 0.0;
    cfg.wRemaining * Remaining(a, cfg.window) + cfg.wUrgency * Urgency(a, cfg.window, now)
    - cfg.wSoftFail * soft
    + (if cfg.preferOAuth && EqualFold(a.authType, "oauth") then 0.05 else 0.0)
  }

  function Scorer(cfg: PickConfig, softFail: map<nat, int>, now: int): Account -> real {
    (a: Account) => Score(a, cfg, softFail, now)
  }

  // The first of the elements with the highest score.
  function FirstHighest<T>(s: seq<T>, score: T -> real): (best: nat)
    requires s != []
    ensures best < |s|
  {
    var n := |s| - 1;
    if n == 0 then 0
    else
      var best := FirstHighest(s[..n], score);
      if score(s[n]) > score(s[best]) then n else best
  }

  function StewardPick(accounts: seq<Account>, cfg: PickConfig, softFail: map<nat, int>, now: int): (best: nat)
    requires accounts != []
    ensures best < |accounts|
  {
    FirstHighest(accounts, Scorer(cfg, softFail, now))
  }

  // What makes a seat score: its share of quota left, the inverse of the hours to its reset
  // plus a quarter, at most 1 and at least a minute away, no recent failure, and OAuth.
  function Merit(a: Account, cfg: PickConfig, softFail: map<nat, int>, now: int): real {
    var (pct, reset) := WindowQuota(a, cfg.window);
    (if pct > 0.0 then cfg.wRemaining * (pct / 100.0) else 0.0)
    + (if reset.None? then 0.0
       else if reset.value - now <= 45 * MINUTE then cfg.wUrgency
       else cfg.wUrgency * (HOUR as real / (reset.value - now + 15 * MINUTE) as real))
    - (if a.id in softFail && now - softFail[a.id] < 30 * SECOND then cfg.wSoftFail else 0.0)
    + (if cfg.preferOAuth && Lower(a.authType) == "oauth" then 0.05 else 0.0)
  }

  lemma {:induction false} UrgencyIs(reset: int, now: int)
    ensures UrgencyAt(reset, now)
         == if reset - now <= 45 * MINUTE then 1.0 else HOUR as real / (reset - now + 15 * MINUTE) as real
  {
    var h := HoursTo(reset, now);
    AtMostOne(h);
    assert UrgencyAt(reset, now) == if 1.0 / (h + 0.25) > 1.0 then 1.0 else 1.0 / (h + 0.25);
    if reset - now > 45 * MINUTE {
      var d := (reset - now) as real;
      assert h == d / HOUR as real;
      var x := HOUR as real / (d + 15 as real * MINUTE as real);
      assert (h + 0.25) * HOUR as real == d + 15 as real * MINUTE as real;
      assert x * (h + 0.25) == 1.0;
    }
  }

  /** The score, term by term. */
  lemma {:induction false} ScoreIs(a: Account, cfg: PickConfig, softFail: map<nat, int>, now: int)
    ensures Score(a, cfg, softFail, now) == Merit(a, cfg, softFail, now)
  {
    var reset := WindowQuota(a, cfg.window).1;
    if reset.Some? {
      UrgencyIs(reset.value, now);
    }
    assert Lower("oauth") == "oauth";
  }

  lemma {:induction false} FirstHighestIsFirst<T>(s: seq<T>, score: T -> real)
    requires s != []
    ensures var r := FirstHighest(s, score);
      && (forall j :: 0 <= j < |s| ==> score(s[j]) <= score(s[r]))
      && (forall j :: 0 <= j < r ==> score(s[j]) < score(s[r]))
  {
    var n := |s| - 1;
    if n > 0 {
      FirstHighestIsFirst(s[..n], score);
      assert forall j :: 0 <= j < n ==> s[..n][j] == s[j];
    }
  }

  /** steward picks the first seat with the highest score. */
  lemma {:induction false} StewardPickIsFirstHighest(
    accounts: seq<Account>, cfg: PickConfig, softFail: map<nat, int>, now: int)
    requires accounts != []
    ensures var r := StewardPick(accounts, cfg, softFail, now);
      && (forall j :: 0 <= j < |accounts| ==>
            Score(accounts[j], cfg, softFail, now) <= Score(accounts[r], cfg, softFail, now))
      && (forall j :: 0 <= j < r ==>
            Score(accounts[j], cfg, softFail, now) < Score(accounts[r], cfg, softFail, now))
  {
    var score := Scorer(cfg, softFail, now);
    FirstHighestIsFirst(accounts, score);
    assert forall a :: score(a) == Score(a, cfg, softFail, now);
  }

  // Same auth type and soft-fail state, as much quota left, and no later a reset.
  predicate Dominates(a: Account, b: Account, cfg: PickConfig, softFail: map<nat, int>, now: int) {
    var (pctA, resetA) := WindowQuota(a, cfg.window);
    var (pctB, resetB) := WindowQuota(b, cfg.window);
    && EqualFold(a.authType, "oauth") == EqualFold(b.authType, "oauth")
    && RecentlyFailed(softFail, a.id, now) == RecentlyFailed(softFail, b.id, now)
    && pctA >= pctB
    && (resetB.Some? ==> resetA.Some? && resetA.value <= resetB.value)
  }

  const SATURATION: int := 45 * MINUTE

  // The seat has quota left, and more of it than the other.
  predicate MoreQuota(a: Account, b: Account, cfg: PickConfig) {
    var pctA, pctB := WindowQuota(a, cfg.window).0, WindowQuota(b, cfg.window).0;
    pctA > 0.0 && pctA > pctB
  }

  // Only its reset is known, or it comes sooner and the other one's not within 45 minutes.
  predicate SoonerReset(a: Account, b: Account, cfg: PickConfig, now: int) {
    var resetA, resetB := WindowQuota(a, cfg.window).1, WindowQuota(b, cfg.window).1;
    && resetA.Some?
    && (resetB.Some? ==> resetA.value < resetB.value && resetB.value - now > SATURATION)
  }

  // A lead in quota or in reset that carries a weight.
  predicate VisiblyAhead(a: Account, b: Account, cfg: PickConfig, now: int) {
    || (cfg.wRemaining > 0.0 && MoreQuota(a, b, cfg))
    || (cfg.wUrgency > 0.0 && SoonerReset(a, b, cfg, now))
  }

  lemma {:induction false} DivideByLess(x: real, y: real)
    requires 0.0 < x <= y
    ensures 1.0 / y <= 1.0 / x
  {
    assert 1.0 / y - 1.0 / x == (x - y) / (x * y);
  }

  lemma {:induction false} SoonerIsMoreUrgent(r: int, s: int, now: int)
    requires r <= s
    ensures UrgencyAt(r, now) >= UrgencyAt(s, now) > 0.0
  {
    var secsR := (r - now) as real / SECOND as real;
    var secsS := (s - now) as real / SECOND as real;
    assert secsR <= secsS;
    var hoursR := (if secsR < 60.0 then 60.0 else secsR) / 3600.0;
    var hoursS := (if secsS < 60.0 then 60.0 else secsS) / 3600.0;
    assert 0.0 < hoursR <= hoursS;
    DivideByLess(hoursR + 0.25, hoursS + 0.25);
  }

  lemma {:induction false} DivideByStrictlyLess(x: real, y: real)
    requires 0.0 < x < y
    ensures 1.0 / y < 1.0 / x
  {
    var p, q := 1.0 / x, 1.0 / y;
    assert p > 0.0 && p * x == 1.0 && q * y == 1.0;
    assert (p - q) * y == p * (y - x);
    assert p * (y - x) > 0.0;
  }

  lemma {:induction false} AtMostOne(h: real)
    requires h > 0.0
    ensures 1.0 / (h + 0.25) >= 1.0 <==> h <= 0.75
  {
    var u := 1.0 / (h + 0.25);
    assert u * (h + 0.25) == 1.0;
  }

  function HoursTo(reset: int, now: int): real {
    var secs := (reset - now) as real / SECOND as real;
    (if secs < 60.0 then 60.0 else secs) / 3600.0
  }

  lemma {:induction false} HoursGrow(r: int, s: int, now: int)
    requires r <= s
    ensures 0.0 < HoursTo(r, now) <= HoursTo(s, now)
    ensures HoursTo(s, now) <= 0.75 <==> s - now <= SATURATION
    ensures s - now > SATURATION ==> (HoursTo(r, now) < HoursTo(s, now) <==> r < s)
  {
  }

  // Urgency tells two resets apart exactly when the later one is more than 45 minutes away.
  lemma {:induction false} MoreUrgentExactly(r: int, s: int, now: int)
    requires r <= s
    ensures UrgencyAt(r, now) > UrgencyAt(s, now) <==> r < s && s - now > SATURATION
  {
    var hr, hs := HoursTo(r, now), HoursTo(s, now);
    HoursGrow(r, s, now);
    AtMostOne(hr);
    AtMostOne(hs);
    if hr < hs {
      DivideByStrictlyLess(hr + 0.25, hs + 0.25);
    }
    assert UrgencyAt(r, now) == (if hr <= 0.75 then 1.0 else 1.0 / (hr + 0.25));
    assert UrgencyAt(s, now) == (if hs <= 0.75 then 1.0 else 1.0 / (hs + 0.25));
  }

  lemma {:induction false} ScaledGap(w: real, gap: real) returns (p: real)
    requires w >= 0.0 && gap >= 0.0
    ensures p == w * gap
    ensures p >= 0.0 && (p > 0.0 <==> w > 0.0 && gap > 0.0)
  {
    p := w * gap;
    if w == 0.0 {
      assert p == 0.0;
    } else if gap == 0.0 {
      assert p == 0.0;
    } else {
      assert p > 0.0;
    }
  }

  lemma {:induction false} DominatesPartwise(a: Account, b: Account, cfg: PickConfig, softFail: map<nat, int>, now: int)
    requires Dominates(a, b, cfg, softFail, now)
    ensures Remaining(a, cfg.window) >= Remaining(b, cfg.window)
    ensures Urgency(a, cfg.window, now) >= Urgency(b, cfg.window, now)
  {
    var resetA, resetB := WindowQuota(a, cfg.window).1, WindowQuota(b, cfg.window).1;
    if resetA.Some? {
      SoonerIsMoreUrgent(resetA.value, if resetB.Some? then resetB.value else resetA.value, now);
    }
  }

  // Which leads reach the score at all.
  lemma {:induction false} LeadsExactly(a: Account, b: Account, cfg: PickConfig, softFail: map<nat, int>, now: int)
    requires Dominates(a, b, cfg, softFail, now)
    ensures Remaining(a, cfg.window) > Remaining(b, cfg.window) <==> MoreQuota(a, b, cfg)
    ensures Urgency(a, cfg.window, now) > Urgency(b, cfg.window, now) <==> SoonerReset(a, b, cfg, now)
  {
    var resetA, resetB := WindowQuota(a, cfg.window).1, WindowQuota(b, cfg.window).1;
    if resetA.Some? {
      SoonerIsMoreUrgent(resetA.value, resetA.value, now);
      if resetB.Some? {
        MoreUrgentExactly(resetA.value, resetB.value, now);
      }
    }
  }

  // The part of the score that does not depend on quota.
  function Handicap(a: Account, cfg: PickConfig, softFail: map<nat, int>, now: int): real {
    (if cfg.preferOAuth && EqualFold(a.authType, "oauth") then 0.05 else 0.0)
    - cfg.wSoftFail * (if RecentlyFailed(softFail, a.id, now) then 1.0 else 0.0)
  }

  lemma {:induction false} ScoreParts(a: Account, cfg: PickConfig, softFail: map<nat, int>, now: int)
    ensures Score(a, cfg, softFail, now)
         == cfg.wRemaining * Remaining(a, cfg.window) + cfg.wUrgency * Urgency(a, cfg.window, now)
          + Handicap(a, cfg, softFail, now)
  {
  }

  lemma {:induction false} WeighedGap(wr: real, wu: real, ra: real, rb: real, ua: real, ub: real, rest: real)
    ensures (wr * ra + wu * ua + rest) - (wr * rb + wu * ub + rest) == wr * (ra - rb) + wu * (ua - ub)
  {
  }

  // The gap between two weighed sums, from the gaps between their parts.
  lemma {:induction false} WeighedGapSign(wr: real, wu: real, ra: real, rb: real, ua: real, ub: real, rest: real)
    returns (gap: real)
    requires wr >= 0.0 && wu >= 0.0 && ra >= rb && ua >= ub
    ensures gap == (wr * ra + wu * ua + rest) - (wr * rb + wu * ub + rest)
    ensures gap >= 0.0 && (gap > 0.0 <==> (wr > 0.0 && ra > rb) || (wu > 0.0 && ua > ub))
  {
    var x := ScaledGap(wr, ra - rb);
    var y := ScaledGap(wu, ua - ub);
    gap := x + y;
    WeighedGap(wr, wu, ra, rb, ua, ub, rest);
  }

  lemma {:induction false} WeighedSums(
    wr: real, wu: real, ra: real, rb: real, ua: real, ub: real, rest: real, a: real, b: real)
    requires wr >= 0.0 && wu >= 0.0 && ra >= rb && ua >= ub
    requires a == wr * ra + wu * ua + rest && b == wr * rb + wu * ub + rest
    ensures a >= b && (a > b <==> (wr > 0.0 && ra > rb) || (wu > 0.0 && ua > ub))
  {
    var gap := WeighedGapSign(wr, wu, ra, rb, ua, ub, rest);
    assert a - b == gap;
  }

  lemma {:induction false} PartsDecideScore(a: Account, b: Account, cfg: PickConfig, softFail: map<nat, int>, now: int)
    requires cfg.wRemaining >= 0.0 && cfg.wUrgency >= 0.0
    requires Dominates(a, b, cfg, softFail, now)
    ensures Score(a, cfg, softFail, now) >= Score(b, cfg, softFail, now)
    ensures Score(a, cfg, softFail, now) > Score(b, cfg, softFail, now) <==>
      || (cfg.wRemaining > 0.0 && Remaining(a, cfg.window) > Remaining(b, cfg.window))
      || (cfg.wUrgency > 0.0 && Urgency(a, cfg.window, now) > Urgency(b, cfg.window, now))
  {
    var ra, rb := Remaining(a, cfg.window), Remaining(b, cfg.window);
    var ua, ub := Urgency(a, cfg.window, now), Urgency(b, cfg.window, now);
    DominatesPartwise(a, b, cfg, softFail, now);
    ScoreParts(a, cfg, softFail, now);
    ScoreParts(b, cfg, softFail, now);
    WeighedSums(cfg.wRemaining, cfg.wUrgency, ra, rb, ua, ub, Handicap(a, cfg, softFail, now),
                Score(a, cfg, softFail, now), Score(b, cfg, softFail, now));
  }

  /** With non-negative weights, a seat that is beaten on remaining quota and on reset
      scores strictly less exactly when a lead that carries a weight is one the score sees. */
  lemma {:induction false} BeatenSeatScoresLess(
    a: Account, b: Account, cfg: PickConfig, softFail: map<nat, int>, now: int)
    requires cfg.wRemaining >= 0.0 && cfg.wUrgency >= 0.0
    requires Dominates(a, b, cfg, softFail, now)
    ensures Score(a, cfg, softFail, now) >= Score(b, cfg, softFail, now)
    ensures Score(a, cfg, softFail, now) > Score(b, cfg, softFail, now) <==> VisiblyAhead(a, b, cfg, now)
  {
    PartsDecideScore(a, b, cfg, softFail, now);
    LeadsExactly(a, b, cfg, softFail, now);
  }

  /** steward never picks a seat that is visibly beaten by another candidate. */
  lemma {:induction false} StewardNeverPicksBeaten(
    accounts: seq<Account>, cfg: PickConfig, softFail: map<nat, int>, now: int, a: Account)
    requires accounts != [] && a in accounts
    requires cfg.wRemaining >= 0.0 && cfg.wUrgency >= 0.0
    requires Dominates(a, accounts[StewardPick(accounts, cfg, softFail, now)], cfg, softFail, now)
    ensures !VisiblyAhead(a, accounts[StewardPick(accounts, cfg, softFail, now)], cfg, now)
  {
    StewardPickIsFirstHighest(accounts, cfg, softFail, now);
    BeatenSeatScoresLess(a, accounts[StewardPick(accounts, cfg, softFail, now)], cfg, softFail, now);
  }

  /** Of two seats of which the second beats the first, steward picks the first one exactly
      when no weight sees the lead: the weights are zero, the seat ahead has no quota left
      either, both resets are within 45 minutes, or they are the same. */
  lemma {:induction false} StewardPicksBeatenExactly(
    a: Account, b: Account, cfg: PickConfig, softFail: map<nat, int>, now: int)
    requires cfg.wRemaining >= 0.0 && cfg.wUrgency >= 0.0
    requires Dominates(a, b, cfg, softFail, now)
    ensures StewardPick([b, a], cfg, softFail, now) == 0 <==> !VisiblyAhead(a, b, cfg, now)
  {
    var pick := StewardPick([b, a], cfg, softFail, now);
    StewardPickIsFirstHighest([b, a], cfg, softFail, now);
    BeatenSeatScoresLess(a, b, cfg, softFail, now);
    assert [b, a][0] == b && [b, a][1] == a;
  }

  /** With zero weights the seat listed first is picked even when the second has more quota
      and an earlier reset. */
  lemma {:induction false} ZeroWeightsPickBeatenSeat(a: Account, b: Account, cfg: PickConfig, now: int)
    requires cfg.wRemaining == cfg.wUrgency == 0.0
    requires Dominates(a, b, cfg, map[], now)
    ensures StewardPick([b, a], cfg, map[], now) == 0
  {
    StewardPicksBeatenExactly(a, b, cfg, map[], now);
  }

  /** And with the default weights a seat of unknown quota that resets in 30 minutes is
      picked before one of known quota, of which nothing is left, that resets in 10. */
  lemma {:induction false} DefaultWeightsPickBeatenSeat(now: int)
    ensures var cfg := PickConfig("7d", 1.0, 0.3, 0.6, 0.1, true);
      var a := Account(1, "", "", "", 0, Some(0.0), Some(now + 10 * MINUTE), None, None, None, None);
      var b := Account(2, "", "", "", 0, None, Some(now + 30 * MINUTE), None, None, None, None);
      && WindowQuota(a, cfg.window) == (0.0, Some(now + 10 * MINUTE))
      && WindowQuota(b, cfg.window) == (-1.0, Some(now + 30 * MINUTE))
      && Dominates(a, b, cfg, map[], now) && StewardPick([b, a], cfg, map[], now) == 0
  {
    var cfg := PickConfig("7d", 1.0, 0.3, 0.6, 0.1, true);
    var a := Account(1, "", "", "", 0, Some(0.0), Some(now + 10 * MINUTE), None, None, None, None);
    var b := Account(2, "", "", "", 0, None, Some(now + 30 * MINUTE), None, None, None, None);
    StewardPicksBeatenExactly(a, b, cfg, map[], now);
  }

  // ---------------------------------------------------------------------------
  // weighted and round_robin
  // ---------------------------------------------------------------------------

  function WeightOf(a: Account): (w: nat)
    ensures w >= 1
  {
    if a.weight <= 0 then 1 else a.weight
  }

  function TotalWeight(accounts: seq<Account>): (total: nat)
    ensures total >= |accounts|
  {
    if accounts == [] then 0 else WeightOf(accounts[0]) + TotalWeight(accounts[1..])
  }

  // The seat in whose share the draw falls; none when the draw lies beyond all shares.
  function WeightedScan(accounts: seq<Account>, draw: nat): (seat: Option<nat>)
    ensures seat.Some? ==> seat.value < |accounts|
  {
    if accounts == [] then None
    else if draw < WeightOf(accounts[0]) then Some(0)
    else
      var rest := WeightedScan(accounts[1..], draw - WeightOf(accounts[0]));
      if rest.None? then None else Some(rest.value + 1)
  }

  function WeightedPick(accounts: seq<Account>, draw: nat): (seat: nat)
    requires accounts != []
    ensures seat < |accounts|
  {
    var seat := WeightedScan(accounts, draw);
    if seat.Some? then seat.value else |accounts| - 1
  }

  lemma {:induction false} WeightedShare(accounts: seq<Account>, draw: nat, i: nat)
    requires i < |accounts|
    ensures WeightedScan(accounts, draw) == Some(i)
            <==> TotalWeight(accounts[..i]) <= draw < TotalWeight(accounts[..i]) + WeightOf(accounts[i])
  {
    if i == 0 {
      assert accounts[..0] == [];
    } else {
      assert accounts[..i][0] == accounts[0] && accounts[..i][1..] == accounts[1..][..i - 1];
      if draw >= WeightOf(accounts[0]) {
        WeightedShare(accounts[1..], draw - WeightOf(accounts[0]), i - 1);
      }
    }
  }

  /** Every draw below the total lands in some share: the fallback to the last seat is
      never reached. */
  lemma {:induction false} WeightedNeverFallsThrough(accounts: seq<Account>, draw: nat)
    ensures WeightedScan(accounts, draw).Some? <==> draw < TotalWeight(accounts)
  {
    if accounts != [] && draw >= WeightOf(accounts[0]) {
      WeightedNeverFallsThrough(accounts[1..], draw - WeightOf(accounts[0]));
    }
  }

  lemma {:induction false} PrefixWeight(accounts: seq<Account>, i: nat)
    requires i < |accounts|
    ensures TotalWeight(accounts[..i]) + WeightOf(accounts[i]) <= TotalWeight(accounts)
  {
    if i > 0 {
      assert accounts[..i][0] == accounts[0] && accounts[..i][1..] == accounts[1..][..i - 1];
      PrefixWeight(accounts[1..], i - 1);
    }
  }

  function Interval(lo: nat, hi: nat): set<nat>
    requires lo <= hi
    decreases hi
  {
    if lo == hi then {} else Interval(lo, hi - 1) + {hi - 1}
  }

  lemma {:induction false} IntervalExact(lo: nat, hi: nat)
    requires lo <= hi
    ensures |Interval(lo, hi)| == hi - lo
    ensures forall d :: d in Interval(lo, hi) <==> lo <= d < hi
    decreases hi
  {
    if lo < hi {
      IntervalExact(lo, hi - 1);
    }
  }

  // The draws below the total that pick seat `i`.
  function DrawsFor(accounts: seq<Account>, i: nat): set<nat>
    requires accounts != []
  {
    set d: nat | d < TotalWeight(accounts) && WeightedPick(accounts, d) == i
  }

  /** Of the draws below the total, exactly max(1, weight) pick each seat. */
  lemma {:induction false} WeightedDistributionExact(accounts: seq<Account>, i: nat)
    requires i < |accounts|
    ensures |DrawsFor(accounts, i)| == if accounts[i].weight > 0 then accounts[i].weight else 1
  {
    var lo := TotalWeight(accounts[..i]);
    var hi := lo + WeightOf(accounts[i]);
    PrefixWeight(accounts, i);
    IntervalExact(lo, hi);
    forall d: nat
      ensures d in DrawsFor(accounts, i) <==> lo <= d < hi
    {
      WeightedNeverFallsThrough(accounts, d);
      WeightedShare(accounts, d, i);
    }
    assert DrawsFor(accounts, i) == Interval(lo, hi);
  }

  // The counter of a route before its next round-robin pick.
  function Counter(rr: map<nat, nat>, route: nat): nat {
    if route in rr then rr[route] else 0
  }

  // The seats picked on `route` by these round-robin picks; `picks` names the route of
  // each pick and `k` is the length of the candidate list.
  function SeatsPicked(rr: map<nat, nat>, picks: seq<nat>, route: nat, k: nat): seq<nat>
    requires k > 0
    decreases |picks|
  {
    if picks == [] then []
    else
      var c := Counter(rr, picks[0]);
      (if picks[0] == route then [c % k] else [])
      + SeatsPicked(rr[picks[0] := c + 1], picks[1..], route, k)
  }

  function Count(s: seq<nat>, x: nat): nat {
    if s == [] then 0 else Count(s[..|s| - 1], x) + (if s[|s| - 1] == x then 1 else 0)
  }

  // The seats start, start + 1, ... modulo k.
  function Cycle(start: nat, n: nat, k: nat): (s: seq<nat>)
    requires k > 0
    ensures |s| == n
  {
    seq(n, i requires 0 <= i < n => (start + i) % k)
  }

  /** Picks on other routes do not disturb a route's rotation. */
  lemma {:induction false} PicksOnOneRouteCycle(rr: map<nat, nat>, picks: seq<nat>, route: nat, k: nat)
    requires k > 0
    ensures var s := SeatsPicked(rr, picks, route, k);
            s == Cycle(Counter(rr, route), |s|, k)
    decreases |picks|
  {
    if picks != [] {
      var c := Counter(rr, picks[0]);
      var rr' := rr[picks[0] := c + 1];
      PicksOnOneRouteCycle(rr', picks[1..], route, k);
      var rest := SeatsPicked(rr', picks[1..], route, k);
      if picks[0] == route {
        var s := [c % k] + rest;
        forall i | 0 <= i < |s|
          ensures s[i] == (c + i) % k
        {
          if i > 0 {
            assert s[i] == rest[i - 1] == (c + 1 + (i - 1)) % k;
          }
        }
        assert s == Cycle(c, |s|, k);
      } else {
        assert Counter(rr', route) == Counter(rr, route);
        assert [] + rest == rest;
      }
    }
  }

  // How many of 0, 1, ..., m-1 are congruent to `seat` modulo k.
  function Hits(m: nat, seat: nat, k: nat): int
    requires k > 0
  {
    (m + k - 1 - seat) / k
  }

  lemma {:induction false} HitsStep(m: nat, seat: nat, k: nat)
    requires seat < k
    ensures Hits(m + 1, seat, k) == Hits(m, seat, k) + (if m % k == seat then 1 else 0)
  {
    var x := m + k - 1 - seat;
    var q, r := m / k, m % k;
    assert m == q * k + r;
    if r <= seat {
      assert x == q * k + (r + k - 1 - seat) && 0 <= r + k - 1 - seat < k;
      QuotientOf(x, q, r + k - 1 - seat, k);
      if r == seat {
        QuotientOf(x + 1, q + 1, 0, k);
      } else {
        QuotientOf(x + 1, q, r + k - seat, k);
      }
    } else {
      assert x == (q + 1) * k + (r - 1 - seat) by { assert (q + 1) * k == q * k + k; }
      QuotientOf(x, q + 1, r - 1 - seat, k);
      QuotientOf(x + 1, q + 1, r - seat, k);
    }
  }

  lemma {:induction false} CycleCount(start: nat, n: nat, k: nat, seat: nat)
    requires seat < k
    ensures Count(Cycle(start, n, k), seat) == Hits(start + n, seat, k) - Hits(start, seat, k)
  {
    if n > 0 {
      CycleCount(start, n - 1, k, seat);
      HitsStep(start + n - 1, seat, k);
      assert Cycle(start, n, k)[..n - 1] == Cycle(start, n - 1, k);
    }
  }

  /** Any N picks on one route over an unchanged list of k seats give each seat
      floor(N/k) or ceil(N/k) of them, whatever other routes do in between. */
  lemma {:induction false} RoundRobinFair(rr: map<nat, nat>, picks: seq<nat>, route: nat, k: nat, seat: nat)
    requires seat < k
    ensures var s := SeatsPicked(rr, picks, route, k);
            |s| / k <= Count(s, seat) <= (|s| + k - 1) / k
  {
    var s := SeatsPicked(rr, picks, route, k);
    PicksOnOneRouteCycle(rr, picks, route, k);
    CycleCount(Counter(rr, route), |s|, k, seat);
    QuotientSpread(Counter(rr, route) + k - 1 - seat, |s|, k);
  }
}
