/**
 The parallel strategy: every seat is called at once, and the first answer that is not
 retryable wins.
 */
module Race {
  import opened Wrappers
  import opened Text
  import opened Router
  import opened Cooldown
  import opened Affinity
  import opened Ttft
  import opened Dispatch
  import opened DispatchLaws

  // What a racer sends: its error, or a result.
  datatype Raced = RacedError | RacedResult(res: DispatchResult)

  function FilterParallel(accounts: seq<Account>, allowOAuth: bool): seq<Account> {
    if allowOAuth then accounts else Filter(accounts, IsNotOAuth())
  }

  function IsNotOAuth(): Account -> bool {
    (a: Account) => !EqualFold(a.authType, "oauth")
  }

  function RaceFailure(a: Account, error: string): DispatchResult {
    DispatchResult(BAD_GATEWAY, error, a.id, "", Absent, None, 0, Parallel, "", false, [])
  }

  function RaceReply(r: Reply, stream: Option<Replay>): DispatchResult {
    DispatchResult(r.status, r.error, r.accountId, r.model, r.retryAfter, stream, 0, Parallel, "", false, [])
  }

  // The one message a racer sends. A closed stream counts as none.
  function Racer(inspect: string -> Verdict, a: Account, o: CallOutcome): Raced {
    match o
    case CallError(_) => RacedError
    case NoReply => RacedResult(RaceFailure(a, "empty"))
    case Answered(r) =>
      if !IsSuccessStatus(r.status) || r.stream.None? then RacedResult(RaceReply(r, None))
      else
        match Await(inspect, "", r.stream.value)
        case Retry(_) => RacedResult(RaceFailure(a, "ttft_failed"))
        case Commit(prefix, rest) => RacedResult(RaceReply(r, Some(Replay(prefix, 0, rest))))
  }

  // The message settles the race.
  predicate Decides(m: Raced) {
    m.RacedResult? && (IsSuccessStatus(m.res.status) || (m.res.status > 0 && !IsRetryableStatus(m.res.status)))
  }

  function Signed(p: Pass, racers: nat, res: DispatchResult): DispatchResult {
    res.(attempts := racers, strategy := Parallel, sessionKey := p.sessionKey)
  }

  // A winner is also told whether it was the sticky account.
  function Crowned(p: Pass, racers: nat, res: DispatchResult): DispatchResult {
    var signed := Signed(p, racers, res);
    if IsSuccessStatus(res.status) then
      signed.(stickyHit := p.stickyTo.Some? && p.stickyTo.value != NIL_ID && p.stickyTo.value == res.accountId)
    else signed
  }

  // Receives the messages in arrival order, up to the first that settles the race.
  // `cancelledAt` messages are received before the client's cancellation is noticed.
  function Drain(
    p: Pass, racers: nat, messages: seq<Raced>, cancelledAt: Option<nat>, last: Option<DispatchResult>): Outcome
  {
    if messages == [] then Answer(if last.Some? then Some(Signed(p, racers, last.value)) else None)
    else if cancelledAt == Some(0) then Failure("context canceled")
    else
      var cancelled := if cancelledAt.Some? then Some(cancelledAt.value - 1) else None;
      if Decides(messages[0]) then Answer(Some(Crowned(p, racers, messages[0].res)))
      else Drain(p, racers, messages[1..], cancelled, if messages[0].RacedResult? then Some(messages[0].res) else last)
  }

  // The message has a status that no other seat is tried for.
  predicate Settling(m: Raced) {
    m.RacedResult? && m.res.status > 0 && !TriesNext(m.res.status)
  }

  // The first message that settles the race, if any.
  function FirstDeciding(messages: seq<Raced>): (i: nat)
    ensures i <= |messages|
    ensures i < |messages| ==> Settling(messages[i])
    ensures forall k :: 0 <= k < i ==> !Settling(messages[k])
  {
    if messages == [] || Settling(messages[0]) then 0 else FirstDeciding(messages[1..]) + 1
  }

  // What the client is told of a result of the race: all racers count as attempts, and a
  // success tells whether it is the sticky account's.
  predicate Told(p: Pass, racers: nat, res: DispatchResult, told: DispatchResult) {
    && told.attempts == racers && told.strategy == Parallel && told.sessionKey == p.sessionKey
    && (Succeeds(res.status) ==> (told.stickyHit <==> res.accountId != NIL_ID && p.stickyTo == Some(res.accountId)))
    && (!Succeeds(res.status) ==> told.stickyHit == res.stickyHit)
    && told == res.(attempts := told.attempts, strategy := told.strategy, sessionKey := told.sessionKey,
                    stickyHit := told.stickyHit)
  }

  // The result that arrived last.
  function LastResult(messages: seq<Raced>): Option<DispatchResult> {
    if messages == [] then None
    else
      var m := messages[|messages| - 1];
      if m.RacedResult? then Some(m.res) else LastResult(messages[..|messages| - 1])
  }

  lemma {:induction false} LastResultOfTail(messages: seq<Raced>)
    requires messages != []
    ensures LastResult(messages) ==
      if LastResult(messages[1..]).Some? then LastResult(messages[1..])
      else if messages[0].RacedResult? then Some(messages[0].res) else None
  {
    if |messages| > 1 {
      var init := messages[..|messages| - 1];
      assert messages[1..][..|messages[1..]| - 1] == init[1..];
      LastResultOfTail(init);
    }
  }

  // The client's cancellation is noticed before the race is over.
  predicate LeavesEarly(cancelledAt: Option<nat>, messages: seq<Raced>) {
    cancelledAt.Some? && cancelledAt.value < |messages| && cancelledAt.value <= FirstDeciding(messages)
  }

  /** For every arrival order and every cancellation: unless the client leaves before, the
      race returns the first arrival that is not retryable, or the last result to arrive
      when there is none. */
  lemma {:induction false} DrainReturnsFirstDecisive(
    p: Pass, racers: nat, messages: seq<Raced>, cancelledAt: Option<nat>, last: Option<DispatchResult>)
    ensures var i := FirstDeciding(messages);
      Drain(p, racers, messages, cancelledAt, last) ==
        if LeavesEarly(cancelledAt, messages) then Failure("context canceled")
        else if i < |messages| then Answer(Some(Crowned(p, racers, messages[i].res)))
        else
          var final := if LastResult(messages).Some? then LastResult(messages) else last;
          Answer(if final.None? then None
                 else Some(final.value.(attempts := racers, strategy := Parallel, sessionKey := p.sessionKey)))
    ensures var i := FirstDeciding(messages);
      !LeavesEarly(cancelledAt, messages) && i < |messages| ==>
        Told(p, racers, messages[i].res, Crowned(p, racers, messages[i].res))
  {
    if messages != [] && cancelledAt != Some(0) {
      LastResultOfTail(messages);
      if !Decides(messages[0]) {
        DrainReturnsFirstDecisive(
          p, racers, messages[1..], if cancelledAt.Some? then Some(cancelledAt.value - 1) else None,
          if messages[0].RacedResult? then Some(messages[0].res) else last);
      }
    }
  }

  // Whatever the race returns counts all racers.
  lemma {:induction false} DrainCountsRacers(
    p: Pass, racers: nat, messages: seq<Raced>, cancelledAt: Option<nat>, last: Option<DispatchResult>)
    ensures var o := Drain(p, racers, messages, cancelledAt, last);
      o.Answer? && o.result.Some? ==> o.result.value.attempts == racers
  {
    DrainReturnsFirstDecisive(p, racers, messages, cancelledAt, last);
  }

  // ---------------------------------------------------------------------------
  // The winner's stream
  // ---------------------------------------------------------------------------

  // The end of the stream was read already.
  predicate EndRead(rest: Stream) {
    rest[0].data == "" && rest[0].status != More
  }

  // The message that this call leads to: an error for an error; a bad gateway for no reply,
  // or for a success whose stream fails at once; else the reply, without a stream unless
  // it succeeded.
  predicate Reports(inspect: string -> Verdict, c: Call, m: Raced) {
    match c.outcome
    case CallError(_) => m.RacedError?
    case NoReply => m.RacedResult? && Failed(c.account, "empty", m.res)
    case Answered(r) =>
      && m.RacedResult?
      && (if Succeeds(r.status) && r.stream.Some? then
            match Await(inspect, "", r.stream.value)
            case Retry(_) => Failed(c.account, "ttft_failed", m.res)
            case Commit(prefix, rest) => Replied(r, m.res) && m.res.stream == Some(Replay(prefix, 0, rest))
          else Replied(r, m.res) && m.res.stream.None?)
  }

  // A bad gateway at this account, with nothing of its own.
  predicate Failed(a: Account, error: string, res: DispatchResult) {
    && res.status == 502 && res.error == error && res.accountId == a.id && res.model == "" && res.stream.None?
    && res.retryAfter == Absent && Unsigned(res)
  }

  predicate Replied(r: Reply, res: DispatchResult) {
    && res.status == r.status && res.error == r.error && res.accountId == r.accountId && res.model == r.model
    && res.retryAfter == r.retryAfter && Unsigned(res)
  }

  // The racer itself counts no attempts, and knows of no session.
  predicate Unsigned(res: DispatchResult) {
    && res.attempts == 0 && res.strategy == Parallel && res.sessionKey == "" && !res.stickyHit && res.failovers == []
  }

  /** Every message that arrives in a race is its racer's. */
  lemma {:induction false} RacersReport(p: Pass, calls: seq<Call>, order: seq<nat>, i: nat)
    requires Arrivals(order, |calls|) && i < |order|
    ensures Reports(p.inspect, calls[order[i]], Messages(p, calls, order)[i])
  {
  }

  /** The racers are the seats of the pool, without those on OAuth unless it is allowed. */
  lemma {:induction false} RacersAre(accounts: seq<Account>, allowOAuth: bool, a: Account)
    ensures a in FilterParallel(accounts, allowOAuth)
       <==> a in accounts && (allowOAuth || Lower(a.authType) != Lower("oauth"))
  {
    FilterMembers(accounts, IsNotOAuth());
  }

  // Settling a race cancels every racer, the winner too. What the winner had not read is
  // cut off after `cut` more bytes, or had arrived already.
  function CutOff(rest: Stream, cut: Option<nat>): Stream {
    if cut.None? || EndRead(rest) then rest
    else
      var left := Bytes(rest);
      [Piece(if cut.value < |left| then left[..cut.value] else left, Broken)]
  }

  function CutResult(res: DispatchResult, cut: Option<nat>): DispatchResult {
    if res.stream.Some? && Delivery(res.stream.value.rest)
    then res.(stream := Some(res.stream.value.(rest := CutOff(res.stream.value.rest, cut)))) else res
  }

  function CutOutcome(o: Outcome, cut: Option<nat>): Outcome {
    if o.Answer? && o.result.Some? then Answer(Some(CutResult(o.result.value, cut))) else o
  }

  lemma {:induction false} CutOffIsPrefix(rest: Stream, cut: Option<nat>)
    ensures Bytes(CutOff(rest, cut)) <= Bytes(rest)
    ensures Bytes(CutOff(rest, cut)) == Bytes(rest) <==> cut.None? || cut.value >= |Bytes(rest)|
  {
    var pieces := CutOff(rest, cut);
    if EndRead(rest) {
      assert rest[1..] == [] && Bytes(rest) == "";
    } else if cut.Some? {
      assert pieces[1..] == [] && Bytes(pieces) == pieces[0].data;
    }
  }

  // The race as a whole. `order` lists the racers as their messages arrive.
  datatype RaceEnv = RaceEnv(order: seq<nat>, cancelledAt: Option<nat>, cut: Option<nat>, stickAt: int)

  predicate Arrivals(order: seq<nat>, n: nat) {
    && |order| == n
    && (forall i :: 0 <= i < n ==> order[i] < n)
    && (forall i, j :: 0 <= i < j < n ==> order[i] != order[j])
  }

  function CallsOf(p: Pass, seats: seq<Account>, turns: nat -> Turn): (calls: seq<Call>)
    ensures |calls| == |seats|
  {
    seq(|seats|, i requires 0 <= i < |seats| => CallOf(p, seats[i], turns(i)))
  }

  function Messages(p: Pass, calls: seq<Call>, order: seq<nat>): (messages: seq<Raced>)
    requires Arrivals(order, |calls|)
    ensures |messages| == |calls|
  {
    seq(|order|, i requires 0 <= i < |order| =>
      Racer(p.inspect, calls[order[i]].account, calls[order[i]].outcome))
  }

  function RunRace(p: Pass, seats: seq<Account>, turns: nat -> Turn, env: RaceEnv, w: World): Run
    requires Arrivals(env.order, |seats|)
  {
    var calls := CallsOf(p, seats, turns);
    var outcome := CutOutcome(Drain(p, |seats|, Messages(p, calls, env.order), env.cancelledAt, None), env.cut);
    Run(Settled(p, env, outcome, w), outcome, calls)
  }

  lemma {:induction false} EverySeatIsCalled(p: Pass, seats: seq<Account>, turns: nat -> Turn, env: RaceEnv, w: World)
    requires Arrivals(env.order, |seats|)
    ensures var calls := RunRace(p, seats, turns, env, w).calls;
      |calls| == |seats| && forall i :: 0 <= i < |seats| ==> calls[i] == CallOf(p, seats[i], turns(i))
  {
  }

  // Only a success sticks.
  function Settled(p: Pass, env: RaceEnv, outcome: Outcome, w: World): World {
    if outcome.Answer? && outcome.result.Some? && IsSuccessStatus(outcome.result.value.status)
    then w.(sticky := Stick(w.sticky, p.ttl, p.sessionKey, outcome.result.value.accountId, env.stickAt))
    else w
  }

  // Each call names the account it was made to.
  predicate NamesItself(c: Call) {
    c.outcome.Answered? ==> c.outcome.reply.accountId == c.account.id
  }

  // The result is this seat's: it names the seat, and its stream, if any, is a beginning
  // of the seat's own stream that holds at least what was read before the commit. It is the
  // whole stream exactly when the cut loses nothing.
  predicate WonBy(inspect: string -> Verdict, c: Call, cut: Option<nat>, res: DispatchResult) {
    && res.accountId == c.account.id
    && c.outcome.Answered? && res.status == c.outcome.reply.status && res.error == c.outcome.reply.error
    && (Succeeds(res.status) ==> (res.stream.Some? <==> c.outcome.reply.stream.Some?))
    && (res.stream.Some? ==>
          && c.outcome.Answered? && c.outcome.reply.stream.Some? && res.stream.value.Valid()
          && var whole := Bytes(c.outcome.reply.stream.value);
             var answer := Await(inspect, "", c.outcome.reply.stream.value);
             var got := res.stream.value.Unread();
             && answer.Commit? && answer.prefix <= got <= whole
             && (got == whole <==> cut.None? || cut.value >= |whole| - |answer.prefix|))
  }

  lemma {:induction false} RacerIsWonBy(p: Pass, racers: nat, c: Call, cut: Option<nat>)
    requires NamesItself(c) && Decides(Racer(p.inspect, c.account, c.outcome))
    ensures WonBy(p.inspect, c, cut, CutResult(Crowned(p, racers, Racer(p.inspect, c.account, c.outcome).res), cut))
  {
    if c.outcome.Answered? && c.outcome.reply.stream.Some? {
      var pieces := c.outcome.reply.stream.value;
      CommitConserves(p.inspect, "", pieces);
      var answer := Await(p.inspect, "", pieces);
      if answer.Commit? {
        assert answer.prefix + Bytes(answer.rest) == Bytes(pieces);
        CutOffIsPrefix(answer.rest, cut);
        assert Replay(answer.prefix, 0, CutOff(answer.rest, cut)).Unread()
            == answer.prefix + Bytes(CutOff(answer.rest, cut));
      }
    }
  }

  /** Unless the client leaves before, the winner of a race is one of its seats. The stream
      handed out is a beginning of that seat's and no other's, because settling the race
      cancels the winner as well; and the session sticks to that seat exactly when it
      succeeded. */
  lemma {:induction false} RaceWinnerIsOneSeat(p: Pass, seats: seq<Account>, turns: nat -> Turn, env: RaceEnv, w: World)
    requires Arrivals(env.order, |seats|)
    requires forall i :: 0 <= i < |seats| ==> NamesItself(CallOf(p, seats[i], turns(i)))
    requires var messages := Messages(p, CallsOf(p, seats, turns), env.order);
      FirstDeciding(messages) < |seats| && !LeavesEarly(env.cancelledAt, messages)
    ensures var run := RunRace(p, seats, turns, env, w);
      var c := run.calls[env.order[FirstDeciding(Messages(p, run.calls, env.order))]];
      && c.account in seats
      && run.outcome.Answer? && run.outcome.result.Some?
      && WonBy(p.inspect, c, env.cut, run.outcome.result.value)
      && run.world == if Succeeds(run.outcome.result.value.status)
                      then w.(sticky := Stick(w.sticky, p.ttl, p.sessionKey, c.account.id, env.stickAt)) else w
  {
    var calls := CallsOf(p, seats, turns);
    var messages := Messages(p, calls, env.order);
    DrainReturnsFirstDecisive(p, |seats|, messages, env.cancelledAt, None);
    var c := calls[env.order[FirstDeciding(messages)]];
    RacerIsWonBy(p, |seats|, c, env.cut);
  }

  lemma {:induction false} CommitsAtOnce(inspect: string -> Verdict, first: string, rest: Stream)
    requires first != "" && |first| <= READ_SIZE && inspect(first) == Committed
    ensures Delivery([Piece(first, More)] + rest)
    ensures Bytes([Piece(first, More)] + rest) == first + Bytes(rest)
    ensures Await(inspect, "", [Piece(first, More)] + rest) == Commit(first, rest)
  {
    var pieces := [Piece(first, More)] + rest;
    assert pieces[1..] == rest;
    assert "" + first == first;
  }

  lemma {:induction false} CutAtOnce(rest: Stream)
    requires Bytes(rest) != ""
    ensures CutOff(rest, Some(0)) == [Piece("", Broken)]
  {
    assert |rest| == 1 ==> rest[1..] == [];
  }

  // A race of one seat is settled by its message.
  lemma {:induction false} RaceOfOne(p: Pass, a: Account, turns: nat -> Turn, cut: Option<nat>, w: World)
    requires Decides(Racer(p.inspect, a, CallOf(p, a, turns(0)).outcome))
    ensures RunRace(p, [a], turns, RaceEnv([0], None, cut, 0), w).outcome
         == Answer(Some(CutResult(Crowned(p, 1, Racer(p.inspect, a, CallOf(p, a, turns(0)).outcome).res), cut)))
  {
    var messages := Messages(p, CallsOf(p, [a], turns), [0]);
    assert messages == [Racer(p.inspect, a, CallOf(p, a, turns(0)).outcome)];
    DrainReturnsFirstDecisive(p, 1, messages, None, None);
  }

  // A seat that answers 200 with this stream.
  function Streaming(a: Account, pieces: Stream): CallOutcome {
    Answered(Reply(200, "", a.id, "", Absent, Some(pieces)))
  }

  lemma {:induction false} WinnerLosesRest(
    p: Pass, a: Account, turns: nat -> Turn, first: string, rest: Stream, w: World)
    requires first != "" && |first| <= READ_SIZE && p.inspect(first) == Committed && Bytes(rest) != ""
    requires Delivery([Piece(first, More)] + rest)
    requires CallOf(p, a, turns(0)).outcome == Streaming(a, [Piece(first, More)] + rest)
    ensures var o := RunRace(p, [a], turns, RaceEnv([0], None, Some(0), 0), w).outcome;
      && o.Answer? && o.result.Some?
      && o.result.value.stream == Some(Replay(first, 0, [Piece("", Broken)]))
  {
    CommitsAtOnce(p.inspect, first, rest);
    CutAtOnce(rest);
    RaceOfOne(p, a, turns, Some(0), w);
  }

  /** A race of one seat whose stream says "Hel" and then "lo" hands out the first chunk
      alone, when the cancellation takes effect at once; so it is with every stream that
      goes on behind its first token. */
  lemma {:induction false} WinnerLosesItsStream(
    p: Pass, a: Account, turns: nat -> Turn, parse: Parser, w: World)
    requires p.inspect == Inspector(parse) && parse(FIRST_TEXT) == Some(ContentChunk("Hel"))
    requires CallOf(p, a, turns(0)).outcome
          == Streaming(a, [Piece(DataLine(FIRST_TEXT), More)] + [Piece(DataLine(SECOND_TEXT), Eof)])
    ensures var o := RunRace(p, [a], turns, RaceEnv([0], None, Some(0), 0), w).outcome;
      && o.Answer? && o.result.Some?
      && o.result.value.stream == Some(Replay(DataLine(FIRST_TEXT), 0, [Piece("", Broken)]))
  {
    ContentCommits(parse);
    WinnerLosesRest(p, a, turns, DataLine(FIRST_TEXT), [Piece(DataLine(SECOND_TEXT), Eof)], w);
  }

  lemma {:induction false} LastResultArrived(messages: seq<Raced>)
    ensures var last := LastResult(messages);
      last.Some? ==> exists i :: 0 <= i < |messages| && messages[i] == RacedResult(last.value)
  {
    if messages != [] {
      var n := |messages| - 1;
      if messages[n].RacedError? {
        LastResultArrived(messages[..n]);
        if LastResult(messages).Some? {
          var i :| 0 <= i < n && messages[..n][i] == RacedResult(LastResult(messages).value);
          assert messages[i] == RacedResult(LastResult(messages).value);
        }
      } else {
        assert messages[n] == RacedResult(LastResult(messages).value);
      }
    }
  }

  /** A race that nobody settles changes nothing, and its result is not a success. */
  lemma {:induction false} UnsettledRaceSticksNothing(
    p: Pass, seats: seq<Account>, turns: nat -> Turn, env: RaceEnv, w: World)
    requires Arrivals(env.order, |seats|)
    requires var messages := Messages(p, CallsOf(p, seats, turns), env.order);
      FirstDeciding(messages) == |seats| && !LeavesEarly(env.cancelledAt, messages)
    ensures var run := RunRace(p, seats, turns, env, w);
      && run.world == w && run.outcome.Answer?
      && (run.outcome.result.Some? ==>
            TriesNext(run.outcome.result.value.status) || run.outcome.result.value.status < 0)
  {
    var messages := Messages(p, CallsOf(p, seats, turns), env.order);
    DrainReturnsFirstDecisive(p, |seats|, messages, env.cancelledAt, None);
    LastResultArrived(messages);
  }

  // ---------------------------------------------------------------------------
  // The channel between racers and the drain
  // ---------------------------------------------------------------------------

  // A buffered channel for `n` racers: who sent, what is buffered, what was received.
  datatype Channel = Channel(n: nat, sent: set<nat>, buffer: seq<nat>, received: seq<nat>)

  datatype Event = Send(racer: nat) | Receive

  // A send waits while the buffer is full; a racer sends once and returns.
  predicate CanHappen(c: Channel, e: Event) {
    match e
    case Send(i) => i < c.n && i !in c.sent && |c.buffer| < c.n
    case Receive => c.buffer != []
  }

  function Happen(c: Channel, e: Event): Channel
    requires CanHappen(c, e)
  {
    match e
    case Send(i) => c.(sent := c.sent + {i}, buffer := c.buffer + [i])
    case Receive => c.(buffer := c.buffer[1..], received := c.received + [c.buffer[0]])
  }

  /** A racer that has not sent sends while there is room, behind what is there; what was
      sent first is received first. Nothing else changes. */
  lemma {:induction false} ChannelMoves(c: Channel, i: nat)
    ensures CanHappen(c, Send(i)) <==> i < c.n && i !in c.sent && |c.buffer| < c.n
    ensures CanHappen(c, Send(i)) ==>
      Happen(c, Send(i)) == Channel(c.n, c.sent + {i}, c.buffer + [i], c.received)
    ensures CanHappen(c, Receive) <==> |c.buffer| > 0
    ensures CanHappen(c, Receive) ==>
      Happen(c, Receive) == Channel(c.n, c.sent, c.buffer[1..], c.received + [c.buffer[0]])
  {
    assert |c.buffer| > 0 <==> c.buffer != [];
  }

  function Traffic(n: nat, events: seq<Event>): Option<Channel> {
    if events == [] then Some(Channel(n, {}, [], []))
    else
      var before := Traffic(n, events[..|events| - 1]);
      var e := events[|events| - 1];
      if before.None? || !CanHappen(before.value, e) then None else Some(Happen(before.value, e))
  }

  predicate ChannelOk(c: Channel) {
    && (forall i :: i in c.sent ==> i < c.n)
    && multiset(c.received + c.buffer) == multiset(c.sent)
  }

  lemma {:induction false} SubsetSize(s: set<nat>, n: nat)
    requires forall i :: i in s ==> i < n
    ensures |s| <= n
    ensures |s| == n ==> forall i :: 0 <= i < n ==> i in s
  {
    if n > 0 {
      SubsetSize(s - {n - 1}, n - 1);
    } else {
      assert s == {};
    }
  }

  lemma {:induction false} EventKeepsChannelOk(c: Channel, e: Event)
    requires ChannelOk(c) && CanHappen(c, e)
    ensures ChannelOk(Happen(c, e))
  {
    match e
    case Send(i) =>
      assert c.received + (c.buffer + [i]) == (c.received + c.buffer) + [i];
      assert multiset(c.sent + {i}) == multiset(c.sent) + multiset{i};
    case Receive =>
      assert (c.received + [c.buffer[0]]) + c.buffer[1..] == c.received + c.buffer;
  }

  lemma {:induction false} TrafficOk(n: nat, events: seq<Event>)
    requires Traffic(n, events).Some?
    ensures ChannelOk(Traffic(n, events).value) && Traffic(n, events).value.n == n
  {
    if events != [] {
      TrafficOk(n, events[..|events| - 1]);
      EventKeepsChannelOk(Traffic(n, events[..|events| - 1]).value, events[|events| - 1]);
    }
  }

  /** However sends and receives interleave, also when the drain has stopped receiving, a
      racer that has not sent yet can send at once. */
  lemma {:induction false} SendNeverBlocks(n: nat, events: seq<Event>, racer: nat)
    requires Traffic(n, events).Some? && racer < n && racer !in Traffic(n, events).value.sent
    ensures CanHappen(Traffic(n, events).value, Send(racer))
  {
    var c := Traffic(n, events).value;
    TrafficOk(n, events);
    SubsetSize(c.sent, n);
    assert |c.received + c.buffer| == |multiset(c.received + c.buffer)| == |multiset(c.sent)| == |c.sent|;
  }

  lemma {:induction false} OnceEach(s: seq<nat>, members: set<nat>, i: nat, j: nat)
    requires multiset(s) == multiset(members) && i < j < |s|
    ensures s[i] != s[j]
  {
    assert s == s[..i] + [s[i]] + s[i + 1..j] + [s[j]] + s[j + 1..];
    assert multiset(members)[s[i]] <= 1;
  }

  /** No message is received twice, and none from a racer that did not send. */
  lemma {:induction false} ReceivedOnce(n: nat, events: seq<Event>, i: nat, j: nat)
    requires Traffic(n, events).Some? && i < j < |Traffic(n, events).value.received|
    ensures var c := Traffic(n, events).value;
      c.received[i] != c.received[j] && c.received[i] in c.sent && c.received[j] in c.sent
  {
    var c := Traffic(n, events).value;
    TrafficOk(n, events);
    var all := c.received + c.buffer;
    OnceEach(all, c.sent, i, j);
    assert all[i] in multiset(all) && all[j] in multiset(all);
  }

  /** When all messages are in, they are an arrival order of the racers. */
  lemma {:induction false} AllReceivedIsAnArrivalOrder(n: nat, events: seq<Event>)
    requires Traffic(n, events).Some? && |Traffic(n, events).value.received| == n
    ensures Arrivals(Traffic(n, events).value.received, n)
  {
    var c := Traffic(n, events).value;
    TrafficOk(n, events);
    SubsetSize(c.sent, n);
    var all := c.received + c.buffer;
    assert |all| == |multiset(all)| == |multiset(c.sent)| == |c.sent|;
    assert all == c.received;
    forall i | 0 <= i < n
      ensures c.received[i] < n
    {
      assert all[i] in multiset(all);
    }
    forall i, j | 0 <= i < j < n
      ensures c.received[i] != c.received[j]
    {
      OnceEach(all, c.sent, i, j);
    }
  }
}
