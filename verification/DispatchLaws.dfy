/**
 What every pass over a pool guarantees, whatever the seats answer and however they are
 chosen.
 */
module DispatchLaws {
  import opened Wrappers
  import opened Router
  import opened Cooldown
  import opened Affinity
  import opened SelectorState
  import opened Ttft
  import opened Dispatch

  // ---------------------------------------------------------------------------
  // One trial, stated independently of how it is computed
  // ---------------------------------------------------------------------------

  // The statuses after which the next seat is tried: none at all, a dead or exhausted
  // account, and trouble at the vendor.
  predicate TriesNext(code: int) {
    code in {0, 401, 403, 429} || code >= 500
  }

  predicate Succeeds(code: int) {
    200 <= code < 300
  }

  // The entry that a call leaves in the failover list: a retryable or zero status, or a
  // stream that failed before its first token.
  function SoftFailover(inspect: string -> Verdict, c: Call): Option<Failover> {
    if !c.outcome.Answered? then None
    else
      var r := c.outcome.reply;
      if TriesNext(r.status) then Some(Failover(c.account.id, r.status, r.error, r.model))
      else if Succeeds(r.status) && r.stream.Some? && Await(inspect, "", r.stream.value).Retry? then
        var cause := Await(inspect, "", r.stream.value).cause;
        Some(Failover(c.account.id, 502, if cause.UnexpectedEof? then "unexpected EOF" else "read error", r.model))
      else None
  }

  // The stored cooldown and health of the account are untouched.
  predicate Spared(w: World, w': World, id: nat) {
    && (id in w'.cooldown <==> id in w.cooldown)
    && (id in w.cooldown ==> w'.cooldown[id] == w.cooldown[id])
    && (id in w'.health <==> id in w.health)
    && (id in w.health ==> w'.health[id] == w.health[id])
  }

  predicate SameFor(w: World, w': World, id: nat) {
    && Spared(w, w', id)
    && (id in w'.sel.softFail <==> id in w.sel.softFail)
    && (id in w.sel.softFail ==> w'.sel.softFail[id] == w.sel.softFail[id])
  }

  // How long a seat rests after such a status, for want of a Retry-After header.
  predicate RestsFor(code: int, d: int) {
    && (code == 0 ==> d == 5 * SECOND)
    && (code == 401 ==> d == 300 * SECOND)
    && (code == 403 ==> d == 1800 * SECOND)
    && (code == 429 ==> d == SECOND)
    && (code in {500, 502, 504} ==> d == 10 * SECOND)
    && (code >= 500 && code !in {500, 502, 504} ==> d == 30 * SECOND)
  }

  // The wait that is asked for, but at least a second and at most two hours.
  predicate Bounded(asked: int, d: int) {
    && (asked < SECOND ==> d == SECOND)
    && (asked > 7200 * SECOND ==> d == 7200 * SECOND)
    && (SECOND <= asked <= 7200 * SECOND ==> d == asked)
  }

  // How long a seat rests after this call. Seconds whose product overflows wrap.
  predicate CoolsFor(c: Call, t: Turn, d: int) {
    && SECOND <= d <= 7200 * SECOND
    && c.outcome.Answered?
    && var r := c.outcome.reply;
       if !TriesNext(r.status) then d == 10 * SECOND
       else
         match r.retryAfter
         case Seconds(n) =>
           if n < 0 then RestsFor(r.status, d) else n <= 9_223_372_036 ==> Bounded(n * SECOND, d)
         case HttpDate(at) => Bounded(at - t.headerAt, d)
         case _ => RestsFor(r.status, d)
  }

  // The seat carries a soft-fail mark and, if the store took it, a cooldown.
  predicate Marked(w: World, c: Call, t: Turn) {
    var id := c.account.id;
    && id in w.sel.softFail && w.sel.softFail[id] == t.failAt
    && (t.stored ==>
          && id in w.cooldown && CoolsFor(c, t, w.cooldown[id] - t.cooldownAt)
          && id in w.health && w.health[id] == CoolingDown)
  }

  ghost predicate OthersSame(w: World, w': World, id: nat) {
    forall other :: other != id ==> SameFor(w, w', other)
  }

  // A seat in use again: no soft-fail mark, and in good health if the store took it.
  predicate Cleared(w: World, id: nat, t: Turn) {
    && id !in w.sel.softFail
    && (t.stored ==> id !in w.cooldown && id in w.health && w.health[id] == Healthy)
  }

  // A finished request, in terms of the reply that finished it.
  predicate FinishedBy(r: Reply, res: DispatchResult) {
    && res.status == r.status && !TriesNext(res.status)
    && res.accountId == r.accountId && res.error == r.error && res.model == r.model
    && (res.stream.Some? <==> r.stream.Some?)
    && (res.stream.Some? ==>
          && res.stream.value.Valid()
          && res.stream.value.Unread() == Bytes(r.stream.value)
          && End(res.stream.value.rest) == End(r.stream.value))
  }

  // The result names the pass and the seat as they are: what the session key is, whether the
  // seat is the sticky one, and what the reply asked to wait.
  predicate Labelled(p: Pass, c: Call, sticky: bool, res: DispatchResult) {
    && res.strategy == p.strategy && res.sessionKey == p.sessionKey
    && (res.stickyHit <==> sticky && p.stickyTo == Some(c.account.id))
    && c.outcome.Answered? && res.retryAfter == c.outcome.reply.retryAfter
  }

  // What an attempt may do after the call `c`.
  ghost predicate AttemptOk(p: Pass, t: Turn, w: World, n: nat, c: Call, w': World, attempted: Attempted) {
    match attempted
    case Aborted(e) => c.outcome == CallError(e) && w' == w
    case Silent => c.outcome == NoReply && w' == w
    case SoftFailed(res) =>
      && SoftFailover(p.inspect, c) == Some(FailoverOf(c.account, res)) && TriesNext(res.status)
      && res.attempts == n + 1 && res.stream.None? && Labelled(p, c, TriesNext(c.outcome.reply.status), res)
      && res.accountId == (if TriesNext(c.outcome.reply.status) then c.outcome.reply.accountId else c.account.id)
      && Marked(w', c, t) && OthersSame(w, w', c.account.id) && w'.sticky == w.sticky
      && (!t.stored ==> Spared(w, w', c.account.id))
    case Finished(res) =>
      && c.outcome.Answered? && SoftFailover(p.inspect, c) == None
      && FinishedBy(c.outcome.reply, res) && Labelled(p, c, true, res)
      && res.attempts == n + 1
      && OthersSame(w, w', c.account.id)
      && (if Succeeds(res.status)
          then Cleared(w', c.account.id, t) && (!t.stored ==> Spared(w, w', c.account.id))
               && w'.sticky == Stick(w.sticky, p.ttl, p.sessionKey, c.account.id, t.stickAt)
          else w' == ClearSoftFail(w, c.account.id))
  }

  ghost predicate TrialOk(p: Pass, turns: nat -> Turn, w: World, a: Account, n: nat, t: Trial) {
    && t.call == CallOf(p, a, turns(n))
    && AttemptOk(p, turns(n), w, n, t.call, t.world, t.attempted)
  }

  lemma {:induction false} PenaliseMarks(w: World, c: Call, t: Turn, cooldown: int)
    requires CoolsFor(c, t, cooldown)
    ensures var w' := Penalise(w, c.account.id, t, cooldown);
      && Marked(w', c, t) && OthersSame(w, w', c.account.id) && w'.sticky == w.sticky
      && (!t.stored ==> Spared(w, w', c.account.id))
  {
  }

  lemma {:induction false} SoftCooldown(c: Call, t: Turn)
    requires c.outcome.Answered? && TriesNext(c.outcome.reply.status)
    ensures var r := c.outcome.reply;
            CoolsFor(c, t, CooldownFromHeaders(r.status, r.retryAfter, 0, t.headerAt, t.beyond))
  {
    var r := c.outcome.reply;
    SoftFailCooldownInRange(r.status, r.retryAfter, t.headerAt, t.beyond);
    FirstBackoff(t.beyond);
    if r.retryAfter.Seconds? && 0 <= r.retryAfter.n <= 9_223_372_036 {
      NoWrap(r.retryAfter.n * SECOND);
    }
  }

  lemma {:induction false} SucceedClears(w: World, p: Pass, a: Account, t: Turn)
    ensures var w' := Succeed(w, p, a, t);
      && Cleared(w', a.id, t) && OthersSame(w, w', a.id) && (!t.stored ==> Spared(w, w', a.id))
      && w'.sticky == Stick(w.sticky, p.ttl, p.sessionKey, a.id, t.stickAt)
  {
  }

  lemma {:induction false} SoftReplyOk(p: Pass, w: World, a: Account, n: nat, t: Turn, c: Call)
    requires c.account == a && c.outcome.Answered? && TriesNext(c.outcome.reply.status)
    ensures var (w', attempted) := JudgeReply(w, p, a, n + 1, t, c.outcome.reply);
            AttemptOk(p, t, w, n, c, w', attempted)
  {
    var r := c.outcome.reply;
    SoftCooldown(c, t);
    PenaliseMarks(w, c, t, CooldownFromHeaders(r.status, r.retryAfter, 0, t.headerAt, t.beyond));
  }

  lemma {:induction false} SuccessOk(p: Pass, w: World, a: Account, n: nat, t: Turn, c: Call)
    requires c.account == a && c.outcome.Answered? && Succeeds(c.outcome.reply.status)
    requires c.outcome.reply.stream.None?
    ensures var (w', attempted) := JudgeReply(w, p, a, n + 1, t, c.outcome.reply);
            AttemptOk(p, t, w, n, c, w', attempted)
  {
    SucceedClears(w, p, a, t);
  }

  lemma {:induction false} StreamOk(p: Pass, w: World, a: Account, n: nat, t: Turn, c: Call)
    requires c.account == a && c.outcome.Answered? && Succeeds(c.outcome.reply.status)
    requires c.outcome.reply.stream.Some?
    ensures var (w', attempted) := JudgeReply(w, p, a, n + 1, t, c.outcome.reply);
            AttemptOk(p, t, w, n, c, w', attempted)
  {
    var pieces := c.outcome.reply.stream.value;
    SucceedClears(w, p, a, t);
    CommitConserves(p.inspect, "", pieces);
    PenaliseMarks(w, c, t, 10 * SECOND);
    match Await(p.inspect, "", pieces)
    case Retry(_) =>
    case Commit(prefix, rest) => assert Replay(prefix, 0, rest).Unread() == Bytes(pieces);
  }

  lemma {:induction false} HardReplyOk(p: Pass, w: World, a: Account, n: nat, t: Turn, c: Call)
    requires c.account == a && c.outcome.Answered?
    requires !TriesNext(c.outcome.reply.status) && !Succeeds(c.outcome.reply.status)
    ensures var (w', attempted) := JudgeReply(w, p, a, n + 1, t, c.outcome.reply);
            AttemptOk(p, t, w, n, c, w', attempted)
  {
  }

  /** Every trial the dispatcher makes is such a trial. */
  lemma {:induction false} TryIsOk(p: Pass, turns: nat -> Turn, w: World, a: Account, n: nat)
    ensures TrialOk(p, turns, w, a, n, TrierOf(p, turns)(w, a, n))
  {
    var t := turns(n);
    var c := CallOf(p, a, t);
    TryOfCall(p, w, a, n, t, c);
  }

  lemma {:induction false} TryOfCall(p: Pass, w: World, a: Account, n: nat, t: Turn, c: Call)
    requires c.account == a
    ensures var (w', attempted) := Attempt(w, p, a, n + 1, t, c.outcome);
            AttemptOk(p, t, w, n, c, w', attempted)
  {
    if c.outcome.Answered? {
      if TriesNext(c.outcome.reply.status) {
        SoftReplyOk(p, w, a, n, t, c);
      } else if Succeeds(c.outcome.reply.status) {
        if c.outcome.reply.stream.Some? {
          StreamOk(p, w, a, n, t, c);
        } else {
          SuccessOk(p, w, a, n, t, c);
        }
      } else {
        HardReplyOk(p, w, a, n, t, c);
      }
    }
  }

  // ---------------------------------------------------------------------------
  // What every turn keeps
  // ---------------------------------------------------------------------------

  ghost predicate TrialsOk(p: Pass, turns: nat -> Turn, attempt: Trier) {
    forall w, a, n :: TrialOk(p, turns, w, a, n, attempt(w, a, n))
  }

  predicate Called(calls: seq<Call>, id: nat) {
    exists i :: 0 <= i < |calls| && calls[i].account.id == id
  }

  // Each call goes to a seat of the pool with the body meant for it, and no seat is called twice.
  ghost predicate CallsOk(p: Pass, pool: seq<Account>, turns: nat -> Turn, calls: seq<Call>) {
    && (forall i :: 0 <= i < |calls| ==> calls[i].account in pool && calls[i] == CallOf(p, calls[i].account, turns(i)))
    && (forall i, j :: 0 <= i < j < |calls| ==> calls[i].account.id != calls[j].account.id)
  }

  ghost predicate TriedOk(g: Progress) {
    forall id :: id in g.tried <==> Called(g.calls, id)
  }

  // The call led on to the next seat.
  predicate LedOn(inspect: string -> Verdict, c: Call) {
    c.outcome == NoReply || SoftFailover(inspect, c).Some?
  }

  predicate AllLedOn(inspect: string -> Verdict, calls: seq<Call>) {
    forall i :: 0 <= i < |calls| ==> LedOn(inspect, calls[i])
  }

  // The entries that `entry` finds, in call order.
  function Collect(entry: Call -> Option<Failover>, calls: seq<Call>): seq<Failover> {
    if calls == [] then []
    else
      var n := |calls| - 1;
      var f := entry(calls[n]);
      Collect(entry, calls[..n]) + (if f.Some? then [f.value] else [])
  }

  function EntryOf(inspect: string -> Verdict): Call -> Option<Failover> {
    (c: Call) => SoftFailover(inspect, c)
  }

  // The soft-failed calls, in call order.
  function Failovers(inspect: string -> Verdict, calls: seq<Call>): seq<Failover> {
    Collect(EntryOf(inspect), calls)
  }

  predicate SoftFailedId(inspect: string -> Verdict, calls: seq<Call>, id: nat) {
    exists i :: 0 <= i < |calls| && calls[i].account.id == id && SoftFailover(inspect, calls[i]).Some?
  }

  // The last result is the last failover's.
  predicate LastOk(g: Progress) {
    && (g.last.None? <==> g.failovers == [])
    && (g.last.Some? ==>
          var f := g.failovers[|g.failovers| - 1];
          TriesNext(g.last.value.status) && g.last.value.status == f.status && g.last.value.stream.None?
          && g.last.value.error == f.error && g.last.value.model == f.model)
  }

  // Exactly the soft-failed accounts are marked and cooled down; but for `winner`, no
  // other account changes.
  ghost predicate MarksExact(p: Pass, turns: nat -> Turn, w0: World, w: World, calls: seq<Call>, winner: Option<nat>) {
    && (forall id: nat :: winner != Some(id) && !SoftFailedId(p.inspect, calls, id) ==> SameFor(w0, w, id))
    && (forall i :: 0 <= i < |calls| && SoftFailover(p.inspect, calls[i]).Some? ==>
          && Marked(w, calls[i], turns(i))
          && (!turns(i).stored ==> Spared(w0, w, calls[i].account.id)))
  }

  ghost predicate WorldOk(p: Pass, turns: nat -> Turn, w0: World, w: World, calls: seq<Call>) {
    w.sticky == w0.sticky && MarksExact(p, turns, w0, w, calls, None)
  }

  ghost predicate Bookkept(p: Pass, pool: seq<Account>, turns: nat -> Turn, w0: World, g: Progress) {
    && CallsOk(p, pool, turns, g.calls)
    && TriedOk(g)
    && AllLedOn(p.inspect, g.calls)
    && g.failovers == Failovers(p.inspect, g.calls)
    && LastOk(g)
    && WorldOk(p, turns, w0, g.world, g.calls)
  }

  lemma {:induction false} CallKeepsCallsOk(p: Pass, pool: seq<Account>, turns: nat -> Turn, g: Progress, c: Call)
    requires CallsOk(p, pool, turns, g.calls) && TriedOk(g)
    requires c.account in pool && c.account.id !in g.tried && c == CallOf(p, c.account, turns(|g.calls|))
    ensures CallsOk(p, pool, turns, g.calls + [c])
    ensures forall id :: id in g.tried + {c.account.id} <==> Called(g.calls + [c], id)
  {
    var calls := g.calls + [c];
    forall i | 0 <= i < |g.calls|
      ensures calls[i].account.id != c.account.id
    {
      assert Called(g.calls, g.calls[i].account.id);
    }
    forall id
      ensures id in g.tried + {c.account.id} <==> Called(calls, id)
    {
      if Called(g.calls, id) {
        var i :| 0 <= i < |g.calls| && g.calls[i].account.id == id;
        assert calls[i].account.id == id;
      }
      assert calls[|g.calls|] == c;
    }
  }

  lemma {:induction false} SoftFailedIdSnoc(inspect: string -> Verdict, calls: seq<Call>, c: Call, id: nat)
    ensures SoftFailedId(inspect, calls + [c], id) <==>
      SoftFailedId(inspect, calls, id) || (c.account.id == id && SoftFailover(inspect, c).Some?)
  {
    var more := calls + [c];
    assert more[|calls|] == c;
    if SoftFailedId(inspect, calls, id) {
      var i :| 0 <= i < |calls| && calls[i].account.id == id && SoftFailover(inspect, calls[i]).Some?;
      assert more[i] == calls[i];
    }
  }

  lemma {:induction false} SilentKeepsWorldOk(
    p: Pass, turns: nat -> Turn, w0: World, w: World, calls: seq<Call>, c: Call)
    requires WorldOk(p, turns, w0, w, calls) && SoftFailover(p.inspect, c).None?
    ensures WorldOk(p, turns, w0, w, calls + [c])
  {
    forall id | !SoftFailedId(p.inspect, calls + [c], id)
      ensures SameFor(w0, w, id)
    {
      SoftFailedIdSnoc(p.inspect, calls, c, id);
    }
  }

  lemma {:induction false} SoftFailureKeepsWorldOk(
    p: Pass, turns: nat -> Turn, w0: World, w: World, calls: seq<Call>, c: Call, w': World)
    requires WorldOk(p, turns, w0, w, calls) && SoftFailover(p.inspect, c).Some?
    requires forall i :: 0 <= i < |calls| ==> calls[i].account.id != c.account.id
    requires Marked(w', c, turns(|calls|)) && OthersSame(w, w', c.account.id) && w'.sticky == w.sticky
    requires !turns(|calls|).stored ==> Spared(w, w', c.account.id)
    ensures WorldOk(p, turns, w0, w', calls + [c])
  {
    var more := calls + [c];
    forall id | !SoftFailedId(p.inspect, more, id)
      ensures SameFor(w0, w', id)
    {
      SoftFailedIdSnoc(p.inspect, calls, c, id);
      assert SameFor(w, w', id);
    }
    forall i | 0 <= i < |more| && SoftFailover(p.inspect, more[i]).Some?
      ensures Marked(w', more[i], turns(i))
      ensures !turns(i).stored ==> Spared(w0, w', more[i].account.id)
    {
      if i < |calls| {
        assert more[i] == calls[i];
        assert SameFor(w, w', calls[i].account.id);
      } else {
        assert !SoftFailedId(p.inspect, calls, c.account.id);
      }
    }
  }

  // Picking a seat moves only the selector's counters.
  lemma {:induction false} PickKeepsWorldOk(
    p: Pass, turns: nat -> Turn, w0: World, w: World, calls: seq<Call>, sel: Sel)
    requires WorldOk(p, turns, w0, w, calls) && sel.softFail == w.sel.softFail
    ensures WorldOk(p, turns, w0, w.(sel := sel), calls)
  {
    forall id | !SoftFailedId(p.inspect, calls, id)
      ensures SameFor(w0, w.(sel := sel), id)
    {
      assert SameFor(w0, w, id);
    }
  }

  // A trial after which the loop goes on keeps the books.
  lemma {:induction false} TrialKeepsBooks(
    p: Pass, pool: seq<Account>, turns: nat -> Turn, w0: World, g: Progress, a: Account, t: Trial)
    requires Bookkept(p, pool, turns, w0, g) && a in pool && a.id !in g.tried
    requires TrialOk(p, turns, g.world, a, |g.calls|, t) && After(g, a, t).Next?
    ensures Bookkept(p, pool, turns, w0, After(g, a, t).g)
  {
    CallKeepsCallsOk(p, pool, turns, g, t.call);
    var calls := g.calls + [t.call];
    assert calls[..|g.calls|] == g.calls;
    assert forall i :: 0 <= i < |g.calls| ==> calls[i] == g.calls[i];
    if t.attempted.Silent? {
      SilentKeepsWorldOk(p, turns, w0, g.world, g.calls, t.call);
    } else {
      forall i | 0 <= i < |g.calls|
        ensures g.calls[i].account.id != a.id
      {
        assert Called(g.calls, g.calls[i].account.id);
      }
      SoftFailureKeepsWorldOk(p, turns, w0, g.world, g.calls, t.call, t.world);
    }
  }

  // What a pass over the pool leads to, in terms of the calls made.
  ghost predicate RunOk(p: Pass, pool: seq<Account>, turns: nat -> Turn, w0: World, run: Run) {
    && CallsOk(p, pool, turns, run.calls)
    && match run.outcome
       case Failure(e) => FailedOk(p, turns, w0, run, e)
       case Answer(None) => ExhaustedOk(p, pool, turns, w0, run) && Failovers(p.inspect, run.calls) == []
       case Answer(Some(res)) =>
         if TriesNext(res.status) then ExhaustedOk(p, pool, turns, w0, run) && LastFailureOk(p, run, res)
         else WonOk(p, turns, w0, run, res)
  }

  // A transport failure in the last call.
  ghost predicate FailedOk(p: Pass, turns: nat -> Turn, w0: World, run: Run, e: string) {
    run.calls != [] &&
    var n := |run.calls| - 1;
    && run.calls[n].outcome == CallError(e)
    && AllLedOn(p.inspect, run.calls[..n])
    && WorldOk(p, turns, w0, run.world, run.calls[..n])
  }

  // Every seat was called, and each one soft-failed or said nothing.
  ghost predicate ExhaustedOk(p: Pass, pool: seq<Account>, turns: nat -> Turn, w0: World, run: Run) {
    && (forall a :: a in pool ==> Called(run.calls, a.id))
    && AllLedOn(p.inspect, run.calls)
    && WorldOk(p, turns, w0, run.world, run.calls)
  }

  ghost predicate LastFailureOk(p: Pass, run: Run, res: DispatchResult) {
    var f := Failovers(p.inspect, run.calls);
    && res.failovers == f && f != [] && res.attempts == |run.calls|
    && res.strategy == p.strategy && res.sessionKey == p.sessionKey && res.stream.None?
    && res.strategy == p.strategy && res.sessionKey == p.sessionKey && res.stream.None?
    && res.status == f[|f| - 1].status && res.error == f[|f| - 1].error && res.model == f[|f| - 1].model
  }

  // The last call finished the request; all before it led on.
  ghost predicate WonOk(p: Pass, turns: nat -> Turn, w0: World, run: Run, res: DispatchResult) {
    run.calls != [] &&
    var n := |run.calls| - 1;
    var last := run.calls[n];
    && last.outcome.Answered? && SoftFailover(p.inspect, last) == None
    && AllLedOn(p.inspect, run.calls[..n])
    && FinishedBy(last.outcome.reply, res) && Labelled(p, last, true, res)
    && res.failovers == Failovers(p.inspect, run.calls[..n]) && res.attempts == n + 1
    && MarksExact(p, turns, w0, run.world, run.calls[..n], Some(last.account.id))
    && (if Succeeds(res.status)
        then Cleared(run.world, last.account.id, turns(n))
             && (!turns(n).stored ==> Spared(w0, run.world, last.account.id))
             && run.world.sticky == Stick(w0.sticky, p.ttl, p.sessionKey, last.account.id, turns(n).stickAt)
        else run.world.sticky == w0.sticky && last.account.id !in run.world.sel.softFail
             && Spared(w0, run.world, last.account.id))
  }

  lemma {:induction false} WinnerKeepsMarks(
    p: Pass, turns: nat -> Turn, w0: World, w: World, calls: seq<Call>, winner: nat, w': World)
    requires MarksExact(p, turns, w0, w, calls, None) && OthersSame(w, w', winner)
    requires forall i :: 0 <= i < |calls| ==> calls[i].account.id != winner
    ensures MarksExact(p, turns, w0, w', calls, Some(winner))
  {
    forall i | 0 <= i < |calls| && SoftFailover(p.inspect, calls[i]).Some?
      ensures Marked(w', calls[i], turns(i))
      ensures !turns(i).stored ==> Spared(w0, w', calls[i].account.id)
    {
      assert SameFor(w, w', calls[i].account.id);
    }
    forall id | id != winner && !SoftFailedId(p.inspect, calls, id)
      ensures SameFor(w0, w', id)
    {
      assert SameFor(w, w', id);
    }
  }

  lemma {:induction false} NotYetCalled(p: Pass, calls: seq<Call>, id: nat)
    requires !Called(calls, id)
    ensures forall i :: 0 <= i < |calls| ==> calls[i].account.id != id
    ensures !SoftFailedId(p.inspect, calls, id)
  {
  }

  lemma {:induction false} WinEndsWell(
    p: Pass, turns: nat -> Turn, w0: World, g: Progress, t: Trial, res: DispatchResult)
    requires AllLedOn(p.inspect, g.calls) && g.failovers == Failovers(p.inspect, g.calls)
    requires WorldOk(p, turns, w0, g.world, g.calls) && !Called(g.calls, t.call.account.id)
    requires t.attempted == Finished(res)
    requires AttemptOk(p, turns(|g.calls|), g.world, |g.calls|, t.call, t.world, t.attempted)
    ensures var done := res.(failovers := g.failovers);
            WonOk(p, turns, w0, Run(t.world, Answer(Some(done)), g.calls + [t.call]), done)
  {
    var calls := g.calls + [t.call];
    var id := t.call.account.id;
    assert calls[..|g.calls|] == g.calls && calls[|g.calls|] == t.call;
    NotYetCalled(p, g.calls, id);
    WinnerKeepsMarks(p, turns, w0, g.world, g.calls, id, t.world);
    assert SameFor(w0, g.world, id);
  }

  // A trial that ends the loop ends it well.
  lemma {:induction false} TrialEndsWell(
    p: Pass, pool: seq<Account>, turns: nat -> Turn, w0: World, g: Progress, a: Account, t: Trial)
    requires Bookkept(p, pool, turns, w0, g) && a in pool && a.id !in g.tried
    requires TrialOk(p, turns, g.world, a, |g.calls|, t) && After(g, a, t).Stop?
    ensures RunOk(p, pool, turns, w0, After(g, a, t).run)
  {
    CallKeepsCallsOk(p, pool, turns, g, t.call);
    match t.attempted {
      case Finished(res) => WinEndsWell(p, turns, w0, g, t, res);
      case _ => AbortEndsWell(p, turns, w0, g, t);
    }
  }

  lemma {:induction false} AbortEndsWell(p: Pass, turns: nat -> Turn, w0: World, g: Progress, t: Trial)
    requires AllLedOn(p.inspect, g.calls) && WorldOk(p, turns, w0, g.world, g.calls)
    requires t.attempted.Aborted? && t.call.outcome == CallError(t.attempted.error) && t.world == g.world
    ensures var run := Run(t.world, Failure(t.attempted.error), g.calls + [t.call]);
            FailedOk(p, turns, w0, run, t.attempted.error)
  {
    assert (g.calls + [t.call])[..|g.calls|] == g.calls;
  }

  lemma {:induction false} ExhaustionEndsWell(p: Pass, pool: seq<Account>, turns: nat -> Turn, w0: World, g: Progress)
    requires Bookkept(p, pool, turns, w0, g) && Exclude(pool, g.tried) == []
    ensures RunOk(p, pool, turns, w0, Run(g.world, Answer(Exhausted(p, g)), g.calls))
  {
    ExcludeExact(pool, g.tried);
    forall a | a in pool
      ensures Called(g.calls, a.id)
    {
      assert a !in Exclude(pool, g.tried);
    }
  }

  /** Every turn keeps the books or ends the run well. */
  lemma {:induction false} TurnKeepsBooks(
    p: Pass, choose: Chooser, attempt: Trier, pool: seq<Account>, turns: nat -> Turn, w0: World, g: Progress)
    requires DistinctIds(pool) && SoundChooser(choose) && TrialsOk(p, turns, attempt)
    requires Bookkept(p, pool, turns, w0, g)
    ensures var step := TakeTurn(p, choose, attempt, pool, g);
      && (step.Stop? ==> RunOk(p, pool, turns, w0, step.run))
      && (step.Next? ==> Bookkept(p, pool, turns, w0, step.g))
  {
    ExcludeExact(pool, g.tried);
    var candidates := Exclude(pool, g.tried);
    if candidates == [] {
      ExhaustionEndsWell(p, pool, turns, w0, g);
    } else {
      var (sel, a) := choose(g.world.sel, candidates, |g.calls|);
      var picked := g.(world := g.world.(sel := sel));
      var t := attempt(picked.world, a, |g.calls|);
      PickKeepsWorldOk(p, turns, w0, g.world, g.calls, sel);
      assert TakeTurn(p, choose, attempt, pool, g) == After(picked, a, t);
      if After(picked, a, t).Next? {
        TrialKeepsBooks(p, pool, turns, w0, picked, a, t);
      } else {
        TrialEndsWell(p, pool, turns, w0, picked, a, t);
      }
    }
  }

  lemma {:induction false} LoopEndsWell(
    p: Pass, choose: Chooser, attempt: Trier, pool: seq<Account>, turns: nat -> Turn, w0: World, g: Progress)
    requires DistinctIds(pool) && SoundChooser(choose) && TrialsOk(p, turns, attempt)
    requires Bookkept(p, pool, turns, w0, g)
    ensures RunOk(p, pool, turns, w0, Loop(p, choose, attempt, pool, g))
    decreases |Exclude(pool, g.tried)|
  {
    TurnKeepsBooks(p, choose, attempt, pool, turns, w0, g);
    var step := TakeTurn(p, choose, attempt, pool, g);
    if step.Next? {
      LoopEndsWell(p, choose, attempt, pool, turns, w0, step.g);
    }
  }

  /** Every pass over a pool, for every strategy, chooser state and pattern of answers, is
      such a run. */
  lemma {:induction false} PassEndsWell(p: Pass, pool: seq<Account>, turns: nat -> Turn, w: World)
    requires DistinctIds(pool)
    ensures RunOk(p, pool, turns, w, RunPass(p, pool, turns, w))
  {
    ChooserIsSound(p, turns);
    forall w, a, n
      ensures TrialOk(p, turns, w, a, n, TrierOf(p, turns)(w, a, n))
    {
      TryIsOk(p, turns, w, a, n);
    }
    LoopEndsWell(p, ChooserOf(p, turns), TrierOf(p, turns), pool, turns, w, Start(w));
  }

  // ---------------------------------------------------------------------------
  // Consequences for the client
  // ---------------------------------------------------------------------------

  /** Failover is complete: each call goes to another seat of the pool, and a result is
      absent or retryable only after every seat of the pool soft-failed or said nothing. */
  lemma {:induction false} FailoverIsComplete(p: Pass, pool: seq<Account>, turns: nat -> Turn, w: World)
    requires DistinctIds(pool)
    ensures var run := RunPass(p, pool, turns, w);
      && (forall i :: 0 <= i < |run.calls| ==> run.calls[i].account in pool)
      && (forall i, j :: 0 <= i < j < |run.calls| ==> run.calls[i].account.id != run.calls[j].account.id)
      && (run.outcome.Answer? && (run.outcome.result.None? || TriesNext(run.outcome.result.value.status)) ==>
            AllLedOn(p.inspect, run.calls) && forall a :: a in pool ==> Called(run.calls, a.id))
  {
    PassEndsWell(p, pool, turns, w);
  }

  // The call makes the dispatcher go on: no reply, a status that asks for it, or a success
  // whose stream fails before its first token.
  predicate MovesOn(inspect: string -> Verdict, c: Call) {
    || c.outcome.NoReply?
    || (c.outcome.Answered? &&
        var r := c.outcome.reply;
        || TriesNext(r.status)
        || (Succeeds(r.status) && r.stream.Some? && Await(inspect, "", r.stream.value).Retry?))
  }

  lemma {:induction false} MovesOnExactly(inspect: string -> Verdict, c: Call)
    ensures LedOn(inspect, c) <==> MovesOn(inspect, c)
  {
  }

  // The run went on behind every call that makes it, while a seat was left, and stopped
  // behind every other.
  ghost predicate GoesOnByStatus(p: Pass, pool: seq<Account>, turns: nat -> Turn, run: Run) {
    forall i :: 0 <= i < |run.calls| ==>
      if MovesOn(p.inspect, run.calls[i]) then
        && (i == |run.calls| - 1 ==> forall a :: a in pool ==> Called(run.calls, a.id))
        && (run.calls[i].outcome.Answered? ==> Marked(run.world, run.calls[i], turns(i)))
      else i == |run.calls| - 1
  }

  // What the client is told, by the status of the last reply.
  predicate EndsByStatus(pool: seq<Account>, run: Run) {
    match run.outcome
    case Failure(e) => run.calls != [] && run.calls[|run.calls| - 1].outcome == CallError(e)
    case Answer(None) =>
      && (forall i :: 0 <= i < |pool| ==> Called(run.calls, pool[i].id))
      && (forall i :: 0 <= i < |run.calls| ==> run.calls[i].outcome.NoReply?)
    case Answer(Some(res)) =>
      if TriesNext(res.status) then forall i :: 0 <= i < |pool| ==> Called(run.calls, pool[i].id)
      else
        && run.calls != []
        && var last := run.calls[|run.calls| - 1];
           && last.outcome.Answered? && last.outcome.reply.status == res.status
           && (Succeeds(res.status) ==> last.account.id !in run.world.sel.softFail)
  }

  lemma {:induction false} NoFailoverMeansSilence(inspect: string -> Verdict, calls: seq<Call>, i: nat)
    requires AllLedOn(inspect, calls) && Failovers(inspect, calls) == [] && i < |calls|
    ensures calls[i].outcome.NoReply?
  {
    var n := |calls| - 1;
    if i < n {
      assert forall k :: 0 <= k < n ==> calls[..n][k] == calls[k];
      NoFailoverMeansSilence(inspect, calls[..n], i);
    } else {
      assert LedOn(inspect, calls[n]) && EntryOf(inspect)(calls[n]) == SoftFailover(inspect, calls[n]);
    }
  }

  lemma {:induction false} GoesOnInRun(p: Pass, pool: seq<Account>, turns: nat -> Turn, w: World, run: Run)
    requires RunOk(p, pool, turns, w, run)
    ensures GoesOnByStatus(p, pool, turns, run)
  {
    var n := |run.calls|;
    forall i | 0 <= i < n
      ensures MovesOn(p.inspect, run.calls[i]) && i == n - 1 ==> forall a :: a in pool ==> Called(run.calls, a.id)
      ensures MovesOn(p.inspect, run.calls[i]) && run.calls[i].outcome.Answered? ==>
                Marked(run.world, run.calls[i], turns(i))
      ensures !MovesOn(p.inspect, run.calls[i]) ==> i == n - 1
    {
      MovesOnExactly(p.inspect, run.calls[i]);
      if i < n - 1 {
        assert run.calls[..n - 1][i] == run.calls[i];
      }
    }
  }

  lemma {:induction false} EndsInRun(p: Pass, pool: seq<Account>, turns: nat -> Turn, w: World, run: Run)
    requires RunOk(p, pool, turns, w, run)
    ensures EndsByStatus(pool, run)
  {
    if run.outcome == Answer(None) {
      forall i | 0 <= i < |run.calls|
        ensures run.calls[i].outcome.NoReply?
      {
        NoFailoverMeansSilence(p.inspect, run.calls, i);
      }
    }
  }

  /** Failover by status: a seat that answers 401, 403, 429, 500 or more, or no status, is
      marked, rests, and is followed by another one while any is left; so is one whose
      stream fails at once. Any other answer ends the run there. A result of such a status
      comes only after the whole pool. */
  lemma {:induction false} RunsByStatus(p: Pass, pool: seq<Account>, turns: nat -> Turn, w: World)
    requires DistinctIds(pool)
    ensures var run := RunPass(p, pool, turns, w);
      GoesOnByStatus(p, pool, turns, run) && EndsByStatus(pool, run)
  {
    var run := RunPass(p, pool, turns, w);
    PassEndsWell(p, pool, turns, w);
    GoesOnInRun(p, pool, turns, w, run);
    EndsInRun(p, pool, turns, w, run);
  }

  function CalledIds(calls: seq<Call>): (ids: seq<nat>)
    ensures |ids| == |calls|
  {
    seq(|calls|, i requires 0 <= i < |calls| => calls[i].account.id)
  }

  function FailoverIds(failovers: seq<Failover>): (ids: seq<nat>)
    ensures |ids| == |failovers|
  {
    seq(|failovers|, i requires 0 <= i < |failovers| => failovers[i].accountId)
  }

  lemma {:induction false} CollectAll(entry: Call -> Option<Failover>, calls: seq<Call>)
    requires forall i :: 0 <= i < |calls| ==> entry(calls[i]).Some?
    ensures |Collect(entry, calls)| == |calls|
    ensures forall i :: 0 <= i < |calls| ==> Some(Collect(entry, calls)[i]) == entry(calls[i])
  {
    if calls != [] {
      CollectAll(entry, calls[..|calls| - 1]);
    }
  }

  lemma {:induction false} FailoversNameCalls(inspect: string -> Verdict, calls: seq<Call>)
    requires forall i :: 0 <= i < |calls| ==> SoftFailover(inspect, calls[i]).Some?
    ensures |Failovers(inspect, calls)| == |calls|
    ensures FailoverIds(Failovers(inspect, calls)) == CalledIds(calls)
    ensures forall i :: 0 <= i < |calls| ==> TriesNext(Failovers(inspect, calls)[i].status)
  {
    var f := Failovers(inspect, calls);
    CollectAll(EntryOf(inspect), calls);
    forall i | 0 <= i < |calls|
      ensures f[i].accountId == calls[i].account.id && TriesNext(f[i].status)
    {
      SoftFailoverNames(inspect, calls[i]);
    }
    assert FailoverIds(f) == CalledIds(calls);
  }

  lemma {:induction false} SoftFailoverNames(inspect: string -> Verdict, c: Call)
    ensures var f := SoftFailover(inspect, c);
            f.Some? ==> f.value.accountId == c.account.id && TriesNext(f.value.status)
  {
  }

  // No call of the pass goes without an answer.
  predicate NoneSilent(calls: seq<Call>) {
    forall i :: 0 <= i < |calls| ==> calls[i].outcome != NoReply
  }

  // The failover list names the first calls in call order: all of them but the last one,
  // or all of them when the result is itself a soft failure.
  predicate FailoverListOk(calls: seq<Call>, res: DispatchResult) {
    && res.attempts == |calls|
    && |res.failovers| == (if TriesNext(res.status) then res.attempts else res.attempts - 1)
    && FailoverIds(res.failovers) == CalledIds(calls)[..|res.failovers|]
    && (forall i :: 0 <= i < |res.failovers| ==> TriesNext(res.failovers[i].status))
  }

  lemma {:induction false} FailoverListOfRun(
    p: Pass, pool: seq<Account>, turns: nat -> Turn, w: World, run: Run, res: DispatchResult)
    requires RunOk(p, pool, turns, w, run) && NoneSilent(run.calls) && run.outcome == Answer(Some(res))
    ensures FailoverListOk(run.calls, res)
  {
    if TriesNext(res.status) {
      FailoversNameCalls(p.inspect, run.calls);
    } else {
      var before := run.calls[..|run.calls| - 1];
      assert forall i :: 0 <= i < |before| ==> before[i] == run.calls[i];
      FailoversNameCalls(p.inspect, before);
      assert CalledIds(run.calls)[..|before|] == CalledIds(before);
    }
  }

  /** The failover list names exactly the soft-failed seats in call order: all but the last
      call when the request was won or hit a hard error, every call otherwise. */
  lemma {:induction false} FailoverListExact(p: Pass, pool: seq<Account>, turns: nat -> Turn, w: World)
    requires DistinctIds(pool) && NoneSilent(RunPass(p, pool, turns, w).calls)
    requires RunPass(p, pool, turns, w).outcome.Answer? && RunPass(p, pool, turns, w).outcome.result.Some?
    ensures var run := RunPass(p, pool, turns, w); FailoverListOk(run.calls, run.outcome.result.value)
  {
    var run := RunPass(p, pool, turns, w);
    PassEndsWell(p, pool, turns, w);
    FailoverListOfRun(p, pool, turns, w, run, run.outcome.result.value);
  }

  // The seat called last is in use again and the session sticks to it; the seats called
  // before it are marked as they failed; every other account is as it was.
  ghost predicate WinnerTakesIt(p: Pass, turns: nat -> Turn, w: World, run: Run) {
    run.calls != [] &&
    var n := |run.calls| - 1;
    && Cleared(run.world, run.calls[n].account.id, turns(n))
    && (!turns(n).stored ==> Spared(w, run.world, run.calls[n].account.id))
    && run.world.sticky == Stick(w.sticky, p.ttl, p.sessionKey, run.calls[n].account.id, turns(n).stickAt)
    && MarksExact(p, turns, w, run.world, run.calls[..n], Some(run.calls[n].account.id))
  }

  predicate Succeeded(o: Outcome) {
    o.Answer? && o.result.Some? && Succeeds(o.result.value.status)
  }

  predicate HardError(o: Outcome) {
    o.Answer? && o.result.Some? && !Succeeds(o.result.value.status) && !TriesNext(o.result.value.status)
  }

  // No session sticks. The soft-failed seats are marked as they failed, and no other
  // account changes but the one that gave the hard error: it loses its soft-fail mark and
  // keeps its cooldown and health.
  ghost predicate NobodySticks(p: Pass, turns: nat -> Turn, w: World, run: Run) {
    && run.world.sticky == w.sticky
    && (if HardError(run.outcome) then
          run.calls != [] &&
          var last := run.calls[|run.calls| - 1].account.id;
          && MarksExact(p, turns, w, run.world, run.calls[..|run.calls| - 1], Some(last))
          && Spared(w, run.world, last) && last !in run.world.sel.softFail
        else MarksExact(p, turns, w, run.world, run.calls, None))
  }

  lemma {:induction false} FailureMarksNobody(p: Pass, turns: nat -> Turn, w: World, run: Run, e: string)
    requires FailedOk(p, turns, w, run, e)
    ensures MarksExact(p, turns, w, run.world, run.calls, None)
  {
    var n := |run.calls| - 1;
    assert run.calls == run.calls[..n] + [run.calls[n]];
    SilentKeepsWorldOk(p, turns, w, run.world, run.calls[..n], run.calls[n]);
  }

  lemma {:induction false} MarksOfRun(p: Pass, pool: seq<Account>, turns: nat -> Turn, w: World, run: Run)
    requires RunOk(p, pool, turns, w, run)
    ensures if Succeeded(run.outcome) then WinnerTakesIt(p, turns, w, run) else NobodySticks(p, turns, w, run)
  {
    if run.outcome.Failure? {
      FailureMarksNobody(p, turns, w, run, run.outcome.error);
    }
  }

  /** Health and stickiness change for the better only on success, and only for the winner;
      every other account is marked as it soft-failed, or is as it was. */
  lemma {:induction false} OnlyTheWinnerSticks(p: Pass, pool: seq<Account>, turns: nat -> Turn, w: World)
    requires DistinctIds(pool)
    ensures var run := RunPass(p, pool, turns, w);
      if Succeeded(run.outcome) then WinnerTakesIt(p, turns, w, run) else NobodySticks(p, turns, w, run)
  {
    PassEndsWell(p, pool, turns, w);
    MarksOfRun(p, pool, turns, w, RunPass(p, pool, turns, w));
  }

  /** No mixed streams: read with any sequence of buffer sizes, a stream handed to the
      client yields a beginning of the one stream that the last seat called delivered, and
      the whole of it when there are enough reads. No other seat contributes a byte. */
  lemma {:induction false} NoMixedStreams(
    p: Pass, pool: seq<Account>, turns: nat -> Turn, w: World, limits: seq<nat>)
    requires DistinctIds(pool)
    requires var o := RunPass(p, pool, turns, w).outcome;
             o.Answer? && o.result.Some? && o.result.value.stream.Some? && !TriesNext(o.result.value.status)
    ensures var run := RunPass(p, pool, turns, w);
      var stream := run.outcome.result.value.stream.value;
      run.calls != [] &&
      var reply := run.calls[|run.calls| - 1].outcome;
      && reply.Answered? && reply.reply.stream.Some? && stream.Valid()
      && run.outcome.result.value.accountId == reply.reply.accountId
      && var whole := Bytes(reply.reply.stream.value);
         && ReadAll(stream, limits).0 <= whole
         && (|limits| >= Left(stream) && (forall i :: 0 <= i < |limits| ==> limits[i] > 0) ==>
               ReadAll(stream, limits).0 == whole)
  {
    var stream := RunPass(p, pool, turns, w).outcome.result.value.stream.value;
    PassEndsWell(p, pool, turns, w);
    ReplayConserves(stream, limits);
    if |limits| >= Left(stream) && forall i :: 0 <= i < |limits| ==> limits[i] > 0 {
      ReplayFinishes(stream, limits);
    }
  }
}
