/**
 Any number of callers refreshing the credential of one account: the steps of a call,
 taken one at a time under the account's lock, in every interleaving. Each call is
 shown to act as one indivisible `Refresh`, so what `OAuthRefresh` proves of sequences
 of calls holds of interleaved runs.
 */
module OAuthConcurrency {
  import opened Wrappers
  import opened Text
  import opened OAuthRefresh
  import opened OAuthTokens

  // Where the caller that holds the lock is, with its local variables.
  datatype Pc =
    | Entered
    | PuttingPending(p: Cred, outs: seq<PutOutcome>)
    | PendingPersisted(p: Cred, outs: seq<PutOutcome>)
    | PendingStuck(p: Cred, outs: seq<PutOutcome>)
    | Judging(p: Cred, outs: seq<PutOutcome>)
    | Reading(outs: seq<PutOutcome>)
    | Asking(outs: seq<PutOutcome>, readOk: bool, sent: string)
    | PuttingNew(env: Env, cred: Cred)
    | NewPersisted(env: Env, cred: Cred)
    | NewStuck(env: Env, cred: Cred)
    | Leaving(env: Env, result: Result<Cred, Failure>)

  datatype Holder = Free | Held(who: nat, held: Cred, pc: Pc)

  // `entry` is the account when the holder took the lock, `done` the finished calls.
  datatype System = System(
    account: Account,
    waiting: map<nat, Cred>,
    holder: Holder,
    entry: Account,
    done: seq<Call>)

  // One step of the lock holder, with the environment's answer where there is one.
  datatype Step =
    | TakePending
    | PutPending(o: PutOutcome)
    | ClearPending
    | StorePending
    | Judge
    | Read(ok: bool)
    | AskFor(reply: VendorReply)
    | PutNew(o: PutOutcome)
    | ClearNew
    | StoreNew

  datatype Event =
    | Arrive(who: nat, held: Cred)
    | Acquire(who: nat)
    | Act(step: Step)
    | Leave

  // The holder has a new credential to write.
  predicate Writing(pc: Pc) {
    pc.PuttingNew? || pc.NewPersisted? || pc.NewStuck?
  }

  predicate Fits(pc: Pc, step: Step) {
    match pc
    case Entered => step.TakePending?
    case PuttingPending(_, _) => step.PutPending?
    case PendingPersisted(_, _) => step.ClearPending?
    case PendingStuck(_, _) => step.StorePending?
    case Judging(_, _) => step.Judge?
    case Reading(_) => step.Read?
    case Asking(_, _, _) => step.AskFor?
    case PuttingNew(_, _) => step.PutNew?
    case NewPersisted(_, _) => step.ClearNew?
    case NewStuck(_, _) => step.StoreNew?
    case Leaving(_, _) => false
  }

  predicate Enabled(s: System, e: Event) {
    match e
    case Arrive(who, _) => who !in s.waiting && (s.holder.Free? || s.holder.who != who)
    case Acquire(who) => s.holder.Free? && who in s.waiting
    case Act(step) => s.holder.Held? && Fits(s.holder.pc, step)
    case Leave => s.holder.Held? && s.holder.pc.Leaving?
  }

  predicate LastAttempt(outs: seq<PutOutcome>, o: PutOutcome) {
    o.PutFail? && (o.cancelled || |outs| + 1 >= PUT_MAX_ATTEMPTS)
  }

  function AfterRead(a: Account, held: Cred, outs: seq<PutOutcome>, ok: bool): Pc {
    var current := LoadCredential(a.durable, ok);
    if current.Some? && CredsRotated(current.value, held) then
      Leaving(Env(outs, ok, Refused, []), Ok(current.value))
    else if Trim(TokenToSend(current, held)) == "" then
      Leaving(Env(outs, ok, Refused, []), Err(MissingRefreshToken))
    else
      Asking(outs, ok, TokenToSend(current, held))
  }

  // The lock holder's step: the account and the holder's position after it.
  function HolderStep(a: Account, held: Cred, pc: Pc, step: Step): (Account, Pc)
    requires Fits(pc, step)
  {
    match pc
    case Entered =>
      (a, if a.pending.Some? then PuttingPending(a.pending.value, []) else Reading([]))
    case PuttingPending(p, outs) =>
      (a.(durable := Written(a.durable, p, step.o)),
       if step.o.PutOk? then PendingPersisted(p, outs + [step.o])
       else if LastAttempt(outs, step.o) then PendingStuck(p, outs + [step.o])
       else PuttingPending(p, outs + [step.o]))
    case PendingPersisted(p, outs) => (a.(pending := None), Judging(p, outs))
    case PendingStuck(p, outs) => (a.(pending := Some(p)), Judging(p, outs))
    case Judging(p, outs) =>
      (a, if ReturnsPending(p, held) then Leaving(Env(outs, true, Refused, []), Ok(p)) else Reading(outs))
    case Reading(outs) => (a, AfterRead(a, held, outs, step.ok))
    case Asking(outs, readOk, sent) =>
      var a' := AskVendor(a, held, readOk, sent, step.reply);
      var env := Env(outs, readOk, step.reply, []);
      (a', if step.reply.Refused? then Leaving(env, Err(VendorRefused))
           else PuttingNew(env, a'.issued[|a.issued|]))
    case PuttingNew(env, c) =>
      var env' := env.(newPuts := env.newPuts + [step.o]);
      (a.(durable := Written(a.durable, c, step.o)),
       if step.o.PutOk? then NewPersisted(env', c)
       else if LastAttempt(env.newPuts, step.o) then NewStuck(env', c)
       else PuttingNew(env', c))
    case NewPersisted(env, c) => (a.(pending := None), Leaving(env, Ok(c)))
    case NewStuck(env, c) => (a.(pending := Some(c)), Leaving(env, Ok(c)))
  }

  function Do(s: System, e: Event): System
    requires Enabled(s, e)
  {
    match e
    case Arrive(who, held) => s.(waiting := s.waiting[who := held])
    case Acquire(who) =>
      s.(waiting := s.waiting - {who}, holder := Held(who, s.waiting[who], Entered), entry := s.account)
    case Act(step) =>
      var (a, pc) := HolderStep(s.account, s.holder.held, s.holder.pc, step);
      s.(account := a, holder := s.holder.(pc := pc))
    case Leave =>
      s.(holder := Free, done := s.done + [Call(s.holder.held, s.holder.pc.env, s.holder.pc.result)])
  }

  function Start(a0: Account): System {
    System(a0, map[], Free, a0, [])
  }

  // The state after these events, if each was possible when it happened.
  function Run(a0: Account, events: seq<Event>): Option<System> {
    if events == [] then Some(Start(a0))
    else
      var before := Run(a0, events[..|events| - 1]);
      var e := events[|events| - 1];
      if before.Some? && Enabled(before.value, e) then Some(Do(before.value, e)) else None
  }

  // ---------------------------------------------------------------------------
  // How far the holder's call has got, relative to the account it found.
  // ---------------------------------------------------------------------------

  // Only failures after which another attempt follows.
  predicate Tried(outs: seq<PutOutcome>) {
    |outs| < PUT_MAX_ATTEMPTS && forall i :: 0 <= i < |outs| ==> outs[i].PutFail? && !outs[i].cancelled
  }

  function AfterPending(entry: Account, outs: seq<PutOutcome>): Account {
    if entry.pending.Some? then Persist(entry, entry.pending.value, outs) else entry
  }

  predicate GoesOn(entry: Account, held: Cred) {
    entry.pending.Some? ==> !ReturnsPending(entry.pending.value, held)
  }

  predicate MustAsk(a: Account, held: Cred, readOk: bool, sent: string) {
    var current := LoadCredential(a.durable, readOk);
    && !(current.Some? && CredsRotated(current.value, held))
    && sent == TokenToSend(current, held)
    && Trim(sent) != ""
  }

  function Asked(entry: Account, held: Cred, env: Env): Account {
    var mid := AfterPending(entry, env.pendingPuts);
    AskVendor(mid, held, env.readOk, TokenToSend(LoadCredential(mid.durable, env.readOk), held), env.vendor)
  }

  // Everything up to the first attempt to write the new credential `c`.
  predicate GotNew(entry: Account, held: Cred, env: Env, c: Cred) {
    var mid := AfterPending(entry, env.pendingPuts);
    && GoesOn(entry, held)
    && MustAsk(mid, held, env.readOk, TokenToSend(LoadCredential(mid.durable, env.readOk), held))
    && env.vendor.Issued?
    && c == Asked(entry, held, env).issued[|mid.issued|]
  }

  predicate Wrote(d0: Secret, c: Cred, outs: seq<PutOutcome>, d: Secret, ok: bool) {
    |outs| <= PUT_MAX_ATTEMPTS && PutWithRetry(d0, c, outs) == (d, ok)
  }

  predicate Agrees(entry: Account, a: Account, held: Cred, pc: Pc) {
    match pc
    case Entered => a == entry
    case PuttingPending(p, outs) =>
      entry.pending == Some(p) && Tried(outs) && Wrote(entry.durable, p, outs, a.durable, false)
      && a == entry.(durable := a.durable)
    case PendingPersisted(p, outs) =>
      entry.pending == Some(p) && Wrote(entry.durable, p, outs, a.durable, true)
      && a == entry.(durable := a.durable)
    case PendingStuck(p, outs) =>
      entry.pending == Some(p) && Wrote(entry.durable, p, outs, a.durable, false)
      && a == entry.(durable := a.durable)
    case Judging(p, outs) => entry.pending == Some(p) && a == Persist(entry, p, outs)
    case Reading(outs) => GoesOn(entry, held) && a == AfterPending(entry, outs)
    case Asking(outs, readOk, sent) =>
      GoesOn(entry, held) && a == AfterPending(entry, outs) && MustAsk(a, held, readOk, sent)
    case PuttingNew(env, c) =>
      var asked := Asked(entry, held, env);
      GotNew(entry, held, env, c) && Tried(env.newPuts)
      && Wrote(asked.durable, c, env.newPuts, a.durable, false) && a == asked.(durable := a.durable)
    case NewPersisted(env, c) =>
      var asked := Asked(entry, held, env);
      GotNew(entry, held, env, c)
      && Wrote(asked.durable, c, env.newPuts, a.durable, true) && a == asked.(durable := a.durable)
    case NewStuck(env, c) =>
      var asked := Asked(entry, held, env);
      GotNew(entry, held, env, c)
      && Wrote(asked.durable, c, env.newPuts, a.durable, false) && a == asked.(durable := a.durable)
    case Leaving(env, result) => Refresh(entry, held, env) == (a, result)
  }

  lemma {:induction false} OneMoreAttempt(d: Secret, c: Cred, outs: seq<PutOutcome>, o: PutOutcome)
    requires forall i :: 0 <= i < |outs| ==> outs[i].PutFail? && !outs[i].cancelled
    ensures PutWithRetry(d, c, outs + [o]) == (Written(PutWithRetry(d, c, outs).0, c, o), o.PutOk?)
    decreases |outs|
  {
    if outs == [] {
      assert PutWithRetry(d, c, [o]).0 == Written(d, c, o);
    } else {
      OneMoreAttempt(Written(d, c, outs[0]), c, outs[1..], o);
      assert (outs + [o])[1..] == outs[1..] + [o];
    }
  }

  lemma {:induction false} PutStepAgrees(d0: Secret, c: Cred, outs: seq<PutOutcome>, d: Secret, o: PutOutcome)
    requires Tried(outs) && Wrote(d0, c, outs, d, false)
    ensures Wrote(d0, c, outs + [o], Written(d, c, o), o.PutOk?)
    ensures o.PutFail? && !LastAttempt(outs, o) ==> Tried(outs + [o])
  {
    OneMoreAttempt(d0, c, outs, o);
  }

  lemma {:induction false} RefreshGoesOn(entry: Account, held: Cred, env: Env)
    requires GoesOn(entry, held)
    ensures Refresh(entry, held, env) == Rotate(AfterPending(entry, env.pendingPuts), held, env)
  {
  }

  lemma {:induction false} PendingPhaseAgrees(entry: Account, a: Account, held: Cred, pc: Pc, step: Step)
    requires Agrees(entry, a, held, pc) && Fits(pc, step)
    requires pc.PuttingPending? || pc.PendingPersisted? || pc.PendingStuck? || pc.Judging?
    ensures var (a', pc') := HolderStep(a, held, pc, step); Agrees(entry, a', held, pc')
  {
    match pc
    case PuttingPending(p, outs) => PutStepAgrees(entry.durable, p, outs, a.durable, step.o);
    case _ =>
  }

  lemma {:induction false} ReadingAgrees(entry: Account, a: Account, held: Cred, outs: seq<PutOutcome>, ok: bool)
    requires Agrees(entry, a, held, Reading(outs))
    ensures Agrees(entry, a, held, AfterRead(a, held, outs, ok))
  {
    RefreshGoesOn(entry, held, Env(outs, ok, Refused, []));
  }

  lemma {:induction false} AskingAgrees(entry: Account, a: Account, held: Cred, pc: Pc, step: Step)
    requires Agrees(entry, a, held, pc) && Fits(pc, step) && pc.Asking?
    ensures var (a', pc') := HolderStep(a, held, pc, step); Agrees(entry, a', held, pc')
  {
    RefreshGoesOn(entry, held, Env(pc.outs, pc.readOk, step.reply, []));
  }

  lemma {:induction false} NewPhaseAgrees(entry: Account, a: Account, held: Cred, pc: Pc, step: Step)
    requires Agrees(entry, a, held, pc) && Fits(pc, step)
    requires Writing(pc)
    ensures var (a', pc') := HolderStep(a, held, pc, step); Agrees(entry, a', held, pc')
  {
    RefreshGoesOn(entry, held, pc.env);
    match pc
    case PuttingNew(env, c) =>
      PutStepAgrees(Asked(entry, held, env).durable, c, env.newPuts, a.durable, step.o);
      assert Asked(entry, held, env.(newPuts := env.newPuts + [step.o])) == Asked(entry, held, env);
    case _ =>
  }

  lemma {:induction false} HolderStepAgrees(entry: Account, a: Account, held: Cred, pc: Pc, step: Step)
    requires Agrees(entry, a, held, pc) && Fits(pc, step)
    ensures var (a', pc') := HolderStep(a, held, pc, step); Agrees(entry, a', held, pc')
  {
    match pc
    case Entered =>
    case Reading(outs) => ReadingAgrees(entry, a, held, outs, step.ok);
    case Asking(_, _, _) => AskingAgrees(entry, a, held, pc, step);
    case PuttingNew(_, _) => NewPhaseAgrees(entry, a, held, pc, step);
    case NewPersisted(_, _) => NewPhaseAgrees(entry, a, held, pc, step);
    case NewStuck(_, _) => NewPhaseAgrees(entry, a, held, pc, step);
    case _ => PendingPhaseAgrees(entry, a, held, pc, step);
  }

  predicate Invariant(a0: Account, s: System) {
    && Explains(a0, s.done)
    && (s.holder.Free? ==> s.account == Replay(a0, s.done))
    && (s.holder.Held? ==>
          && s.entry == Replay(a0, s.done)
          && Agrees(s.entry, s.account, s.holder.held, s.holder.pc))
  }

  lemma {:induction false} LeaveExtendsHistory(a0: Account, calls: seq<Call>, call: Call)
    requires Explains(a0, calls)
    requires Refresh(Replay(a0, calls), call.held, call.env).1 == call.result
    ensures Explains(a0, calls + [call])
    ensures Replay(a0, calls + [call]) == Refresh(Replay(a0, calls), call.held, call.env).0
  {
    var more := calls + [call];
    assert more[..|more| - 1] == calls;
    forall i | 0 <= i < |more|
      ensures Refresh(Replay(a0, more[..i]), more[i].held, more[i].env).1 == more[i].result
    {
      if i < |calls| {
        assert more[..i] == calls[..i];
      }
    }
  }

  lemma {:induction false} ActKeepsInvariant(a0: Account, s: System, step: Step)
    requires Invariant(a0, s) && Enabled(s, Act(step))
    ensures Invariant(a0, Do(s, Act(step)))
  {
    HolderStepAgrees(s.entry, s.account, s.holder.held, s.holder.pc, step);
    var (a, pc) := HolderStep(s.account, s.holder.held, s.holder.pc, step);
    assert Do(s, Act(step)) == s.(account := a, holder := s.holder.(pc := pc));
    assert Agrees(s.entry, a, s.holder.held, pc);
  }

  lemma {:induction false} LeavingAgrees(
    entry: Account, a: Account, held: Cred, env: Env, result: Result<Cred, Failure>)
    requires Agrees(entry, a, held, Leaving(env, result))
    ensures Refresh(entry, held, env) == (a, result)
  {
  }

  lemma {:induction false} LeaveKeepsInvariant(a0: Account, s: System)
    requires Invariant(a0, s) && Enabled(s, Leave)
    ensures Invariant(a0, Do(s, Leave))
  {
    var call := Call(s.holder.held, s.holder.pc.env, s.holder.pc.result);
    assert s.holder.pc == Leaving(call.env, call.result);
    LeavingAgrees(s.entry, s.account, call.held, call.env, call.result);
    LeaveExtendsHistory(a0, s.done, call);
  }

  /** Every step of every caller keeps the invariant. */
  lemma {:induction false} StepKeepsInvariant(a0: Account, s: System, e: Event)
    requires Invariant(a0, s) && Enabled(s, e)
    ensures Invariant(a0, Do(s, e))
  {
    match e
    case Arrive(_, _) =>
    case Acquire(_) =>
    case Act(step) => ActKeepsInvariant(a0, s, step);
    case Leave => LeaveKeepsInvariant(a0, s);
  }

  /** Linearizability: in every interleaved run the finished calls, in the order they
      held the lock, explain every result returned, and explain the account whenever the
      lock is free. */
  lemma {:induction false} RunsAreSequential(a0: Account, events: seq<Event>)
    requires Run(a0, events).Some?
    ensures Invariant(a0, Run(a0, events).value)
  {
    if events != [] {
      var before := events[..|events| - 1];
      RunsAreSequential(a0, before);
      StepKeepsInvariant(a0, Run(a0, before).value, events[|events| - 1]);
    }
  }

  // The newest issued credential is in the store, in memory, or in the holder's hands.
  predicate NewestInSight(s: System) {
    s.account.issued != [] ==>
      || s.account.pending == Some(Newest(s.account))
      || s.account.durable == Stored(Newest(s.account))
      || (s.holder.Held? && Writing(s.holder.pc)
          && s.holder.pc.cred == Newest(s.account))
  }

  lemma {:induction false} JudgingKeepsToken(d0: Secret, s: System)
    requires s.holder.Held? && s.holder.pc.Judging?
    requires Agrees(s.entry, s.account, s.holder.held, s.holder.pc)
    requires TokenKept(d0, s.entry)
    ensures NewestInSight(s)
  {
    PersistKeepsToken(d0, s.entry, s.holder.pc.outs);
  }

  lemma {:induction false} LeavingKeepsToken(d0: Secret, s: System)
    requires s.holder.Held? && s.holder.pc.Leaving?
    requires Agrees(s.entry, s.account, s.holder.held, s.holder.pc)
    requires TokenKept(d0, s.entry) && IssuedUsable(s.entry)
    ensures NewestInSight(s)
  {
    LeavingAgrees(s.entry, s.account, s.holder.held, s.holder.pc.env, s.holder.pc.result);
    RefreshKeepsToken(d0, s.entry, s.holder.held, s.holder.pc.env);
  }

  lemma {:induction false} NewPhaseKeepsToken(s: System)
    requires s.holder.Held? && Writing(s.holder.pc)
    requires Agrees(s.entry, s.account, s.holder.held, s.holder.pc)
    ensures NewestInSight(s)
  {
  }

  lemma {:induction false} HolderKeepsToken(d0: Secret, s: System)
    requires s.holder.Held? && Agrees(s.entry, s.account, s.holder.held, s.holder.pc)
    requires TokenKept(d0, s.entry) && IssuedUsable(s.entry)
    ensures NewestInSight(s)
    ensures s.holder.pc.Asking? ==> s.account.pending.None?
  {
    match s.holder.pc
    case Judging(_, _) => JudgingKeepsToken(d0, s);
    case Leaving(_, _) => LeavingKeepsToken(d0, s);
    case PuttingNew(_, _) => NewPhaseKeepsToken(s);
    case NewPersisted(_, _) => NewPhaseKeepsToken(s);
    case NewStuck(_, _) => NewPhaseKeepsToken(s);
    case _ =>
  }

  /** In every interleaving, at every moment, the newest issued credential is in sight;
      and when the lock is free it is pending, or durable with nothing pending. */
  lemma {:induction false} RunsLoseNoToken(a0: Account, events: seq<Event>)
    requires Fresh(a0) && Run(a0, events).Some?
    ensures NewestInSight(Run(a0, events).value)
    ensures Run(a0, events).value.holder.Free? ==> TokenKept(a0.durable, Run(a0, events).value.account)
  {
    var s := Run(a0, events).value;
    RunsAreSequential(a0, events);
    NoTokenLost(a0, s.done);
    if s.holder.Held? {
      HolderKeepsToken(a0.durable, s);
    }
  }

  /** In every interleaving the vendor is only asked when nothing is pending. */
  lemma {:induction false} RunsAskOnlyWithoutPending(a0: Account, events: seq<Event>)
    requires Fresh(a0) && Run(a0, events).Some?
    requires Run(a0, events).value.holder.Held? && Run(a0, events).value.holder.pc.Asking?
    ensures Run(a0, events).value.account.pending.None?
  {
    var s := Run(a0, events).value;
    RunsAreSequential(a0, events);
    NoTokenLost(a0, s.done);
    HolderKeepsToken(a0.durable, s);
  }

  // ---------------------------------------------------------------------------
  // Single flight, at every step
  // ---------------------------------------------------------------------------

  // The calls so far, with the holder's own once the vendor was asked or it is leaving.
  function Begun(s: System): seq<Call> {
    if s.holder.Free? then s.done
    else if Writing(s.holder.pc) then s.done + [Call(s.holder.held, s.holder.pc.env, Ok(s.holder.pc.cred))]
    else if s.holder.pc.Leaving? then s.done + [Call(s.holder.held, s.holder.pc.env, s.holder.pc.result)]
    else s.done
  }

  predicate SameHistory(a: Account, b: Account) {
    a.asks == b.asks && a.issued == b.issued
  }

  lemma {:induction false} SameTokens(c0: Cred, a: Account, b: Account)
    requires SameHistory(a, b)
    ensures DistinctAccessTokens(c0, a) <==> DistinctAccessTokens(c0, b)
  {
    assert Generations(c0, a) == Generations(c0, b);
  }

  lemma {:induction false} ReplaySnoc(a0: Account, calls: seq<Call>, call: Call)
    ensures Replay(a0, calls + [call]) == Refresh(Replay(a0, calls), call.held, call.env).0
  {
    assert (calls + [call])[..|calls|] == calls;
  }

  lemma {:induction false} NewPhaseHistory(entry: Account, a: Account, held: Cred, env: Env, c: Cred)
    requires GotNew(entry, held, env, c) && a == Asked(entry, held, env).(durable := a.durable)
    ensures SameHistory(a, Refresh(entry, held, env).0)
  {
    RefreshGoesOn(entry, held, env);
  }

  lemma {:induction false} WritingHistory(entry: Account, a: Account, held: Cred, pc: Pc)
    requires Writing(pc) && Agrees(entry, a, held, pc)
    ensures SameHistory(a, Refresh(entry, held, pc.env).0)
  {
    NewPhaseHistory(entry, a, held, pc.env, pc.cred);
  }

  lemma {:induction false} EarlyHistory(entry: Account, a: Account, held: Cred, pc: Pc)
    requires !Writing(pc) && !pc.Leaving? && Agrees(entry, a, held, pc)
    ensures SameHistory(a, entry)
  {
  }

  // At every step the requests and the issued credentials are those of the calls begun.
  lemma {:induction false} HistoryIsReplayed(a0: Account, s: System)
    requires Invariant(a0, s)
    ensures SameHistory(s.account, Replay(a0, Begun(s)))
  {
    if s.holder.Held? {
      var held, pc := s.holder.held, s.holder.pc;
      if Writing(pc) {
        WritingHistory(s.entry, s.account, held, pc);
        ReplaySnoc(a0, s.done, Call(held, pc.env, Ok(pc.cred)));
      } else if pc.Leaving? {
        LeavingAgrees(s.entry, s.account, held, pc.env, pc.result);
        ReplaySnoc(a0, s.done, Call(held, pc.env, pc.result));
      } else {
        EarlyHistory(s.entry, s.account, held, pc);
      }
    }
  }

  predicate NoReadFails(events: seq<Event>) {
    forall i :: 0 <= i < |events| ==> events[i] != Act(Read(false))
  }

  predicate ReadOk(pc: Pc) {
    match pc
    case Asking(_, readOk, _) => readOk
    case PuttingNew(env, _) => env.readOk
    case NewPersisted(env, _) => env.readOk
    case NewStuck(env, _) => env.readOk
    case Leaving(env, _) => env.readOk
    case _ => true
  }

  lemma {:induction false} ReadsSucceedSoFar(a0: Account, events: seq<Event>)
    requires Run(a0, events).Some? && NoReadFails(events)
    ensures var s := Run(a0, events).value; ReadsSucceed(s.done) && (s.holder.Held? ==> ReadOk(s.holder.pc))
  {
    if events != [] {
      var n := |events| - 1;
      assert forall i :: 0 <= i < n ==> events[..n][i] == events[i];
      ReadsSucceedSoFar(a0, events[..n]);
    }
  }

  // What holds of the requests of all sequences of calls holds at every step of a run.
  lemma {:induction false} RunHistory(a0: Account, events: seq<Event>)
    requires Run(a0, events).Some? && NoReadFails(events)
    ensures var s := Run(a0, events).value;
            SameHistory(s.account, Replay(a0, Begun(s))) && ReadsSucceed(Begun(s))
  {
    RunsAreSequential(a0, events);
    HistoryIsReplayed(a0, Run(a0, events).value);
    ReadsSucceedSoFar(a0, events);
  }

  /** At every step of every interleaving in which reads succeed, all requests so far were
      made for a caller with the credential current at that moment, and sent its refresh
      token. */
  lemma {:induction false} RunsAskForCurrent(a0: Account, c0: Cred, events: seq<Event>)
    requires StartsWith(a0, c0) && Run(a0, events).Some? && NoReadFails(events)
    ensures AsksCurrent(c0, Run(a0, events).value.account)
  {
    var s := Run(a0, events).value;
    var a := Replay(a0, Begun(s));
    RunHistory(a0, events);
    AsksAreCurrent(a0, c0, Begun(s));
    forall i | 0 <= i < |s.account.asks|
      ensures AskIsCurrent(c0, s.account, s.account.asks[i])
    {
      assert AskIsCurrent(c0, a, a.asks[i]);
    }
  }

  /** At every step of every interleaving in which reads succeed and the vendor never
      reissues an access token: once a request made with some access token has succeeded,
      no later request is made with it. */
  lemma {:induction false} RunsAreSingleFlight(a0: Account, c0: Cred, events: seq<Event>, i: nat, j: nat)
    requires StartsWith(a0, c0) && Run(a0, events).Some? && NoReadFails(events)
    requires DistinctAccessTokens(c0, Run(a0, events).value.account)
    requires i < j < |Run(a0, events).value.account.asks|
    requires Run(a0, events).value.account.asks[i].held.accessToken
          == Run(a0, events).value.account.asks[j].held.accessToken != ""
    ensures Run(a0, events).value.account.asks[i].reply.Refused?
  {
    var s := Run(a0, events).value;
    RunHistory(a0, events);
    SameTokens(c0, s.account, Replay(a0, Begun(s)));
    SingleFlight(a0, c0, Begun(s), i, j);
  }

  /** Nor is a request ever made for a caller with the k-th credential but while that one
      was current. */
  lemma {:induction false} RunsIgnoreOlderCredentials(a0: Account, c0: Cred, events: seq<Event>, i: nat, k: nat)
    requires StartsWith(a0, c0) && Run(a0, events).Some? && NoReadFails(events)
    requires DistinctAccessTokens(c0, Run(a0, events).value.account)
    requires i < |Run(a0, events).value.account.asks| && k <= |Run(a0, events).value.account.issued|
    requires Run(a0, events).value.account.asks[i].held.accessToken
          == Generations(c0, Run(a0, events).value.account)[k].accessToken
    ensures Run(a0, events).value.account.asks[i].generation == k
  {
    var s := Run(a0, events).value;
    RunHistory(a0, events);
    SameTokens(c0, s.account, Replay(a0, Begun(s)));
    OlderCredentialCausesNoRequest(a0, c0, Begun(s), i, k);
  }

  /** Nor is a refresh token ever sent again whose grant brought a new one, when the
      vendor's refresh tokens are new. */
  lemma {:induction false} RunsNeverResendSpentToken(a0: Account, c0: Cred, events: seq<Event>, i: nat, j: nat)
    requires StartsWith(a0, c0) && c0.refreshToken != "" && Run(a0, events).Some? && NoReadFails(events)
    requires VendorRenews(c0, Run(a0, events).value.account)
    requires i < j < |Run(a0, events).value.account.asks| && Renews(Run(a0, events).value.account.asks[i])
    ensures Run(a0, events).value.account.asks[i].sent != Run(a0, events).value.account.asks[j].sent
  {
    var s := Run(a0, events).value;
    RunHistory(a0, events);
    SameRenewals(c0, s.account, Replay(a0, Begun(s)));
    SpentTokenNeverSentAgain(a0, c0, Begun(s), i, j);
  }

  lemma {:induction false} SameRenewals(c0: Cred, a: Account, b: Account)
    requires SameHistory(a, b)
    ensures VendorRenews(c0, a) <==> VendorRenews(c0, b)
  {
  }

  /** At every step of every interleaving, the credentials the account has had are exactly
      those the vendor granted, with the tokens of the grants, and each request sent the
      stored refresh token, or for want of it the caller's. */
  lemma {:induction false} RunsIssueAsGranted(a0: Account, events: seq<Event>)
    requires Fresh(a0) && Run(a0, events).Some?
    ensures AsksExplained(a0.durable, Run(a0, events).value.account) && EachGranted(Run(a0, events).value.account)
  {
    var s := Run(a0, events).value;
    RunsAreSequential(a0, events);
    HistoryIsReplayed(a0, s);
    IssuedAsGranted(a0, Begun(s));
    SameHistoryExplained(a0.durable, Replay(a0, Begun(s)), s.account);
  }

  /** And every finished call that succeeded returned the credential that was the newest
      when it left. */
  lemma {:induction false} RunsReturnNewest(a0: Account, events: seq<Event>, k: nat)
    requires Fresh(a0) && Run(a0, events).Some? && k < |Run(a0, events).value.done|
    ensures var done := Run(a0, events).value.done;
      done[k].result.Ok? ==> IsNewest(a0.durable, Replay(a0, done[..k + 1]), done[k].result.value)
  {
    RunsAreSequential(a0, events);
    CallsReturnNewest(a0, Run(a0, events).value.done, k);
  }

  // Steps left to the holder; used to show that a call always ends.
  function StepsLeft(pc: Pc): nat {
    match pc
    case Entered => 13
    case PuttingPending(_, outs) => if |outs| < 3 then 12 - |outs| else 10
    case PendingPersisted(_, _) => 9
    case PendingStuck(_, _) => 9
    case Judging(_, _) => 8
    case Reading(_) => 7
    case Asking(_, _, _) => 6
    case PuttingNew(env, _) => if |env.newPuts| < 3 then 5 - |env.newPuts| else 3
    case NewPersisted(_, _) => 2
    case NewStuck(_, _) => 2
    case Leaving(_, _) => 1
  }

  /** The lock is always given back: whatever the environment answers, each of the
      holder's steps brings it closer to leaving. */
  lemma {:induction false} HolderAlwaysProgresses(a: Account, held: Cred, pc: Pc, step: Step)
    requires Fits(pc, step)
    ensures StepsLeft(HolderStep(a, held, pc, step).1) < StepsLeft(pc)
  {
    match pc
    case PuttingPending(p, outs) => assert |outs + [step.o]| == |outs| + 1;
    case PuttingNew(env, c) => assert |env.newPuts + [step.o]| == |env.newPuts| + 1;
    case _ =>
  }

  // ---------------------------------------------------------------------------
  // What the lock does, and what each step does
  // ---------------------------------------------------------------------------

  predicate Knows(s: System, who: nat) {
    who in s.waiting || (s.holder.Held? && s.holder.who == who)
  }

  /** A caller that is neither waiting nor holding the lock may always arrive, and waits then;
      one that waits may take a lock that is free, and starts then from the account as it is;
      one that is leaving gives the lock back and its call is finished. Nothing else changes. */
  lemma {:induction false} LockIsPassedOn(s: System, who: nat, held: Cred)
    ensures Enabled(s, Arrive(who, held)) <==> !Knows(s, who)
    ensures !Knows(s, who) ==>
      var t := Do(s, Arrive(who, held));
      t == s.(waiting := t.waiting) && t.waiting == s.waiting[who := held]
    ensures Enabled(s, Acquire(who)) <==> s.holder == Free && who in s.waiting
    ensures s.holder == Free && who in s.waiting ==>
      var t := Do(s, Acquire(who));
      && t.holder == Held(who, s.waiting[who], Entered) && t.entry == s.account && t.account == s.account
      && t.waiting == s.waiting - {who} && t.done == s.done
    ensures s.holder.Held? && s.holder.pc.Leaving? ==>
      Enabled(s, Leave) &&
      var t := Do(s, Leave);
      && t.holder == Free && t.account == s.account && t.waiting == s.waiting
      && t.done == s.done + [Call(s.holder.held, s.holder.pc.env, s.holder.pc.result)]
  {
  }

  // An attempt to write behind this many ends them: it succeeds, or fails as the third or
  // cancelled.
  predicate Ends(tried: nat, o: PutOutcome) {
    o.PutOk? || o.cancelled || tried + 1 >= 3
  }

  /** While the lock is held there is always a step, whatever the environment answers; it
      writes, clears, keeps, reads or asks, and goes on as the answer says. */
  lemma {:induction false} StepsGoOn(a: Account, held: Cred, pc: Pc, o: PutOutcome, ok: bool, reply: VendorReply)
    ensures pc.Entered? ==>
      Fits(pc, TakePending) &&
      HolderStep(a, held, pc, TakePending)
      == (a, if a.pending.Some? then PuttingPending(a.pending.value, []) else Reading([]))
    ensures pc.PuttingPending? ==>
      Fits(pc, PutPending(o)) &&
      var (a', pc') := HolderStep(a, held, pc, PutPending(o));
      && a' == a.(durable := if o.PutOk? || o.wrote then Stored(pc.p) else a.durable)
      && pc' == if !Ends(|pc.outs|, o) then PuttingPending(pc.p, pc.outs + [o])
                else if o.PutOk? then PendingPersisted(pc.p, pc.outs + [o]) else PendingStuck(pc.p, pc.outs + [o])
    ensures pc.PendingPersisted? ==>
      Fits(pc, ClearPending) &&
      HolderStep(a, held, pc, ClearPending) == (a.(pending := None), Judging(pc.p, pc.outs))
    ensures pc.PendingStuck? ==>
      Fits(pc, StorePending) &&
      HolderStep(a, held, pc, StorePending) == (a.(pending := Some(pc.p)), Judging(pc.p, pc.outs))
    ensures pc.Judging? ==> Fits(pc, Judge) && HolderStep(a, held, pc, Judge).0 == a
    ensures pc.Reading? ==> Fits(pc, Read(ok)) && HolderStep(a, held, pc, Read(ok)).0 == a
    ensures pc.Asking? ==>
      Fits(pc, AskFor(reply)) &&
      HolderStep(a, held, pc, AskFor(reply)).0.asks
      == a.asks + [Ask(held, pc.readOk, |a.issued|, a.pending.Some?, pc.sent, reply)]
    ensures pc.PuttingNew? ==>
      Fits(pc, PutNew(o)) &&
      var (a', pc') := HolderStep(a, held, pc, PutNew(o));
      var env' := pc.env.(newPuts := pc.env.newPuts + [o]);
      && a' == a.(durable := if o.PutOk? || o.wrote then Stored(pc.cred) else a.durable)
      && pc' == if !Ends(|pc.env.newPuts|, o) then PuttingNew(env', pc.cred)
                else if o.PutOk? then NewPersisted(env', pc.cred) else NewStuck(env', pc.cred)
    ensures pc.NewPersisted? ==>
      Fits(pc, ClearNew) &&
      HolderStep(a, held, pc, ClearNew) == (a.(pending := None), Leaving(pc.env, Ok(pc.cred)))
    ensures pc.NewStuck? ==>
      Fits(pc, StoreNew) &&
      HolderStep(a, held, pc, StoreNew) == (a.(pending := Some(pc.cred)), Leaving(pc.env, Ok(pc.cred)))
  {
  }
}
