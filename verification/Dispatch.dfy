/**
 The failover dispatcher: what one request does to the accounts of a route, as a
 function of the world and of everything the environment answers.
 */
module Dispatch {
  import opened Wrappers
  import opened Router
  import opened Cooldown
  import opened AccountModel
  import opened Affinity
  import opened SelectorState
  import opened Ttft

  // ---------------------------------------------------------------------------
  // Answers and results
  // ---------------------------------------------------------------------------

  // What a vendor call returns: an error, nothing at all, or a reply.
  datatype CallOutcome =
    | CallError(error: string)
    | NoReply
    | Answered(reply: Reply)

  datatype Reply = Reply(
    status: int,
    error: string,
    accountId: nat,
    model: string,
    retryAfter: RetryAfter,
    stream: Option<Stream>)

  datatype Failover = Failover(accountId: nat, status: int, error: string, model: string)

  // A result handed to the client. A stream that was not peeked at is a replay with an
  // empty prefix.
  datatype DispatchResult = DispatchResult(
    status: int,
    error: string,
    accountId: nat,
    model: string,
    retryAfter: RetryAfter,
    stream: Option<Replay>,
    attempts: nat,
    strategy: Strategy,
    sessionKey: string,
    stickyHit: bool,
    failovers: seq<Failover>)

  // Only a transport failure without a result ends the request with an error.
  datatype Outcome = Failure(error: string) | Answer(result: Option<DispatchResult>)

  // Everything the environment decides during one turn of the loop.
  datatype Turn = Turn(
    pickAt: int,
    scoreAt: int,
    failAt: int,
    headerAt: int,
    cooldownAt: int,
    stored: bool,
    stickAt: int,
    beyond: int,
    call: (Account, Body) -> CallOutcome)

  datatype Health = Healthy | CoolingDown

  // Shared state: cooldowns and health of accounts, the selector, the sticky sessions.
  datatype World = World(
    cooldown: map<nat, int>,
    health: map<nat, Health>,
    sel: Sel,
    sticky: Table)

  // What is fixed during one pass over a route's pool.
  datatype Pass = Pass(
    routeId: nat,
    strategy: Strategy,
    cfg: PickConfig,
    bodyFor: Account -> Body,
    sessionKey: string,
    stickyTo: Option<nat>,
    ttl: int,
    inspect: string -> Verdict)

  // ---------------------------------------------------------------------------
  // One attempt
  // ---------------------------------------------------------------------------

  function SetCooldown(w: World, id: nat, until: int, stored: bool): World {
    if stored then w.(cooldown := w.cooldown[id := until], health := w.health[id := CoolingDown]) else w
  }

  function MarkHealthy(w: World, id: nat, stored: bool): World {
    if stored then w.(cooldown := w.cooldown - {id}, health := w.health[id := Healthy]) else w
  }

  function NoteSoftFail(w: World, id: nat, at: int): World {
    w.(sel := w.sel.(softFail := w.sel.softFail[id := at]))
  }

  function ClearSoftFail(w: World, id: nat): World {
    w.(sel := w.sel.(softFail := w.sel.softFail - {id}))
  }

  // How an attempt ends: the request fails, the seat said nothing, the seat soft-failed,
  // or the request is over.
  datatype Attempted =
    | Aborted(error: string)
    | Silent
    | SoftFailed(result: DispatchResult)
    | Finished(result: DispatchResult)

  function ResultOf(p: Pass, a: Account, attempts: nat, r: Reply): DispatchResult {
    DispatchResult(r.status, r.error, r.accountId, r.model, r.retryAfter, None, attempts, p.strategy, p.sessionKey,
           p.stickyTo == Some(a.id), [])
  }

  function Penalise(w: World, id: nat, t: Turn, cooldown: int): World {
    SetCooldown(NoteSoftFail(w, id, t.failAt), id, t.cooldownAt + cooldown, t.stored)
  }

  function CauseText(c: Cause): string {
    match c
    case UnexpectedEof => "unexpected EOF"
    case ReadError => "read error"
  }

  const BAD_GATEWAY: int := 502

  function TtftFailure(p: Pass, a: Account, attempts: nat, r: Reply, cause: Cause): DispatchResult {
    ResultOf(p, a, attempts, r).(
      status := BAD_GATEWAY, error := CauseText(cause), accountId := a.id, stickyHit := false)
  }

  function Succeed(w: World, p: Pass, a: Account, t: Turn): World {
    var w' := MarkHealthy(ClearSoftFail(w, a.id), a.id, t.stored);
    w'.(sticky := Stick(w'.sticky, p.ttl, p.sessionKey, a.id, t.stickAt))
  }

  // A reply: soft failure, success (after the first token, for a stream), or hard error.
  function JudgeReply(w: World, p: Pass, a: Account, attempts: nat, t: Turn, r: Reply): (World, Attempted)
  {
    var res := ResultOf(p, a, attempts, r);
    if IsSoftFail(r.status) then
      (Penalise(w, a.id, t, CooldownFromHeaders(r.status, r.retryAfter, 0, t.headerAt, t.beyond)), SoftFailed(res))
    else if IsSuccessStatus(r.status) then
      if r.stream.None? then (Succeed(w, p, a, t), Finished(res))
      else
        match Await(p.inspect, "", r.stream.value)
        case Retry(cause) =>
          (Penalise(w, a.id, t, CooldownForStatus(BAD_GATEWAY, 0, t.beyond)),
           SoftFailed(TtftFailure(p, a, attempts, r, cause)))
        case Commit(prefix, rest) =>
          (Succeed(w, p, a, t), Finished(res.(stream := Some(Replay(prefix, 0, rest)))))
    else
      (ClearSoftFail(w, a.id),
       Finished(res.(stream := if r.stream.Some? then Some(Replay("", 0, r.stream.value)) else None)))
  }

  function Attempt(w: World, p: Pass, a: Account, attempts: nat, t: Turn, o: CallOutcome): (World, Attempted)
  {
    match o
    case CallError(e) => (w, Aborted(e))
    case NoReply => (w, Silent)
    case Answered(r) => JudgeReply(w, p, a, attempts, t, r)
  }

  function FailoverOf(a: Account, r: DispatchResult): Failover {
    Failover(a.id, r.status, r.error, r.model)
  }

  // ---------------------------------------------------------------------------
  // The loop
  // ---------------------------------------------------------------------------

  // The call made in one turn: to whom, what came back, and what became of the cooldown
  // that a soft failure asks for.
  datatype Call = Call(account: Account, body: Body, outcome: CallOutcome, stored: bool, cooldownAt: int)

  // What the loop carries from turn to turn; `calls` records the calls made.
  datatype Progress = Progress(
    world: World,
    tried: set<nat>,
    last: Option<DispatchResult>,
    failovers: seq<Failover>,
    calls: seq<Call>)

  datatype Run = Run(world: World, outcome: Outcome, calls: seq<Call>)

  // The result when no seat is left.
  function Final(
    p: Pass, last: Option<DispatchResult>, attempts: nat, failovers: seq<Failover>): Option<DispatchResult>
  {
    if last.None? then None
    else Some(last.value.(
      attempts := attempts, strategy := p.strategy, sessionKey := p.sessionKey, failovers := failovers))
  }

  function Exhausted(p: Pass, g: Progress): Option<DispatchResult> {
    Final(p, g.last, |g.calls|, g.failovers)
  }

  function PreferSticky(p: Pass, candidates: seq<Account>): seq<Account> {
    if p.stickyTo.Some? && p.stickyTo.value != NIL_ID then PreferAccount(candidates, p.stickyTo.value) else candidates
  }

  lemma {:induction false} PreferStickyKeeps(p: Pass, candidates: seq<Account>)
    requires DistinctIds(candidates) && candidates != []
    ensures forall a :: a in PreferSticky(p, candidates) <==> a in candidates
    ensures PreferSticky(p, candidates) != []
  {
    if p.stickyTo.Some? && p.stickyTo.value != NIL_ID && |candidates| >= 2 && HasId(candidates, p.stickyTo.value) {
      StickyMovesToFront(candidates, p.stickyTo.value);
    }
  }

  // ---------------------------------------------------------------------------
  // The loop, for any way of choosing a seat and of trying it
  // ---------------------------------------------------------------------------

  // The selector, the candidates and the number of the turn give the selector afterwards
  // and the seat.
  type Chooser = (Sel, seq<Account>, nat) -> (Sel, Account)

  // The world, the seat and the number of the turn give a trial of that seat.
  type Trier = (World, Account, nat) -> Trial

  datatype Trial = Trial(world: World, call: Call, attempted: Attempted)

  // A chooser picks a candidate and leaves the soft-fail marks alone.
  ghost predicate SoundChooser(choose: Chooser) {
    && (forall sel, seats, n :: seats != [] && DistinctIds(seats) ==> choose(sel, seats, n).1 in seats)
    && (forall sel, seats, n :: choose(sel, seats, n).0.softFail == sel.softFail)
  }

  datatype Step = Stop(run: Run) | Next(g: Progress)

  // What follows from a trial.
  function After(g: Progress, a: Account, t: Trial): (step: Step)
    ensures step.Next? ==> step.g.tried == g.tried + {a.id}
  {
    var calls := g.calls + [t.call];
    var tried := g.tried + {a.id};
    match t.attempted
    case Aborted(e) => Stop(Run(t.world, Failure(e), calls))
    case Finished(res) => Stop(Run(t.world, Answer(Some(res.(failovers := g.failovers))), calls))
    case Silent => Next(Progress(t.world, tried, g.last, g.failovers, calls))
    case SoftFailed(res) => Next(Progress(t.world, tried, Some(res), g.failovers + [FailoverOf(a, res)], calls))
  }

  // One turn: pick a seat that was not tried yet, and try it.
  function TakeTurn(p: Pass, choose: Chooser, attempt: Trier, pool: seq<Account>, g: Progress): (step: Step)
    requires DistinctIds(pool) && SoundChooser(choose)
    ensures step.Next? ==> |Exclude(pool, step.g.tried)| < |Exclude(pool, g.tried)|
  {
    ExcludeExact(pool, g.tried);
    var candidates := Exclude(pool, g.tried);
    if candidates == [] then Stop(Run(g.world, Answer(Exhausted(p, g)), g.calls))
    else
      var (sel, a) := choose(g.world.sel, candidates, |g.calls|);
      ExcludeShrinks(pool, g.tried, a);
      After(g, a, attempt(g.world.(sel := sel), a, |g.calls|))
  }

  // Trying one more seat leaves fewer candidates.
  lemma {:induction false} ExcludeShrinks(pool: seq<Account>, tried: set<nat>, a: Account)
    requires a in Exclude(pool, tried)
    ensures |Exclude(pool, tried + {a.id})| < |Exclude(pool, tried)|
  {
    ExcludeMonotone(pool, tried, tried + {a.id});
    ExcludeExact(pool, tried);
    ExcludeExact(pool, tried + {a.id});
    if |Exclude(pool, tried + {a.id})| == |Exclude(pool, tried)| {
      assert false;
    }
  }

  lemma {:induction false} ExcludeMonotone(pool: seq<Account>, tried: set<nat>, more: set<nat>)
    requires tried <= more
    ensures |Exclude(pool, more)| <= |Exclude(pool, tried)|
    ensures |Exclude(pool, more)| == |Exclude(pool, tried)| ==> Exclude(pool, more) == Exclude(pool, tried)
  {
    if pool != [] {
      ExcludeMonotone(pool[..|pool| - 1], tried, more);
    }
  }

  // Turn after turn until the request is over or no seat is left.
  function Loop(p: Pass, choose: Chooser, attempt: Trier, pool: seq<Account>, g: Progress): Run
    requires DistinctIds(pool) && SoundChooser(choose)
    decreases |Exclude(pool, g.tried)|
  {
    match TakeTurn(p, choose, attempt, pool, g)
    case Stop(run) => run
    case Next(g') => Loop(p, choose, attempt, pool, g')
  }

  function Start(w: World): Progress {
    Progress(w, {}, None, [], [])
  }

  // ---------------------------------------------------------------------------
  // The dispatcher's own way of choosing and trying
  // ---------------------------------------------------------------------------

  const NOBODY := Account(NIL_ID, "", "", "", 0, None, None, None, None, None, None)

  function Choose(p: Pass, sel: Sel, seats: seq<Account>, t: Turn): (r: (Sel, Account))
    ensures seats != [] && DistinctIds(seats) ==> r.1 in seats
    ensures r.0.softFail == sel.softFail
  {
    if seats == [] || !DistinctIds(seats) then (sel, NOBODY)
    else
      PreferStickyKeeps(p, seats);
      Pick(sel, p.routeId, p.strategy, PreferSticky(p, seats), p.cfg, t.pickAt, t.scoreAt)
  }

  function CallOf(p: Pass, a: Account, t: Turn): Call {
    Call(a, p.bodyFor(a), t.call(a, p.bodyFor(a)), t.stored, t.cooldownAt)
  }

  function Try(p: Pass, w: World, a: Account, n: nat, t: Turn): Trial {
    var c := CallOf(p, a, t);
    var (w', attempted) := Attempt(w, p, a, n + 1, t, c.outcome);
    Trial(w', c, attempted)
  }

  function ChooserOf(p: Pass, turns: nat -> Turn): Chooser {
    (sel: Sel, seats: seq<Account>, n: nat) => Choose(p, sel, seats, turns(n))
  }

  lemma {:induction false} ChooserIsSound(p: Pass, turns: nat -> Turn)
    ensures SoundChooser(ChooserOf(p, turns))
  {
    forall sel, seats, n
      ensures seats != [] && DistinctIds(seats) ==> ChooserOf(p, turns)(sel, seats, n).1 in seats
      ensures ChooserOf(p, turns)(sel, seats, n).0.softFail == sel.softFail
    {
      assert ChooserOf(p, turns)(sel, seats, n) == Choose(p, sel, seats, turns(n));
    }
  }

  function TrierOf(p: Pass, turns: nat -> Turn): Trier {
    (w: World, a: Account, n: nat) => Try(p, w, a, n, turns(n))
  }

  // The body each seat is sent.
  function BodyFor(body: Body, routeDefault: string): Account -> Body {
    (a: Account) => ApplyAccountModel(body, a, routeDefault)
  }

  // One pass over a pool of servable seats.
  function RunPass(p: Pass, pool: seq<Account>, turns: nat -> Turn, w: World): Run
    requires DistinctIds(pool)
  {
    ChooserIsSound(p, turns);
    Loop(p, ChooserOf(p, turns), TrierOf(p, turns), pool, Start(w))
  }
}
