/**
 Rotation of one account's OAuth credential: what one call does, as a function of
 the account's state and of everything the environment answers during the call.
 */
module OAuthRefresh {
  import opened Wrappers
  import opened Text

  datatype Cred = Cred(
    apiKey: string,
    accessToken: string,
    refreshToken: string,
    expiresAt: string,
    idToken: string,
    chatGPTAccountID: string)

  function BearerToken(c: Cred): string {
    if c.accessToken != "" then c.accessToken else c.apiKey
  }

  // The value of a secret in the durable store: absent, not JSON, or a credential.
  datatype Secret = Missing | Garbled | Stored(cred: Cred)

  // One attempt to write the durable store. A failed attempt may still have taken
  // effect, and the request context may be cancelled while the caller backs off.
  datatype PutOutcome = PutOk | PutFail(wrote: bool, cancelled: bool)

  datatype Tokens = Tokens(
    accessToken: string,
    refreshToken: string,
    idToken: string,
    expiresAt: string,
    chatGPTAccountID: string)

  datatype VendorAnswer = Refused | Issued(tokens: Tokens)

  // The token parser rejects an answer without an access token.
  type VendorReply = v: VendorAnswer | v.Issued? ==> v.tokens.accessToken != "" witness Refused

  // Everything the environment decides during one call, in the order it is consumed.
  datatype Env = Env(
    pendingPuts: seq<PutOutcome>,
    readOk: bool,
    vendor: VendorReply,
    newPuts: seq<PutOutcome>)

  // One request to the vendor; `generation` counts the credentials issued before it.
  datatype Ask = Ask(
    held: Cred,
    readOk: bool,
    generation: nat,
    pendingThen: bool,
    sent: string,
    reply: VendorReply)

  // One account: the in-memory pending credential and the durable secret, with the
  // history of issued credentials and of vendor requests.
  datatype Account = Account(
    pending: Option<Cred>,
    durable: Secret,
    issued: seq<Cred>,
    asks: seq<Ask>)

  datatype Failure = MissingRefreshToken | VendorRefused

  const PUT_MAX_ATTEMPTS: nat := 3

  predicate CredsRotated(current: Cred, held: Cred) {
    || (current.accessToken != "" && held.accessToken != "" && current.accessToken != held.accessToken)
    || (current.refreshToken != "" && held.refreshToken != "" && current.refreshToken != held.refreshToken)
  }

  function LoadCredential(s: Secret, readOk: bool): Option<Cred> {
    if readOk && s.Stored? && BearerToken(s.cred) != "" then Some(s.cred) else None
  }

  function Written(d: Secret, c: Cred, o: PutOutcome): Secret {
    if o.PutOk? || o.wrote then Stored(c) else d
  }

  // The durable secret after these attempts, and whether one of them succeeded.
  function PutWithRetry(d: Secret, c: Cred, outs: seq<PutOutcome>): (Secret, bool)
    decreases |outs|
  {
    if outs == [] then (d, false)
    else
      var d' := Written(d, c, outs[0]);
      if outs[0].PutOk? then (d', true)
      else if outs[0].cancelled then (d', false)
      else PutWithRetry(d', c, outs[1..])
  }

  // No more than three attempts are made, whatever the store would answer later.
  function Attempts(outs: seq<PutOutcome>): seq<PutOutcome> {
    if |outs| <= PUT_MAX_ATTEMPTS then outs else outs[..PUT_MAX_ATTEMPTS]
  }

  function Persist(a: Account, c: Cred, outs: seq<PutOutcome>): Account {
    var (d, ok) := PutWithRetry(a.durable, c, Attempts(outs));
    a.(durable := d, pending := if ok then None else Some(c))
  }

  predicate ReturnsPending(p: Cred, held: Cred) {
    CredsRotated(p, held) || p.accessToken != ""
  }

  function TokenToSend(current: Option<Cred>, held: Cred): string {
    if current.Some? && current.value.refreshToken != "" then current.value.refreshToken else held.refreshToken
  }

  function NewCred(t: Tokens, sent: string, held: Cred, current: Option<Cred>): Cred {
    Cred("", t.accessToken,
         if t.refreshToken == "" then sent else t.refreshToken,
         t.expiresAt, t.idToken,
         if t.chatGPTAccountID != "" then t.chatGPTAccountID
         else if current.Some? && current.value.chatGPTAccountID != "" then current.value.chatGPTAccountID
         else held.chatGPTAccountID)
  }

  // The vendor is asked with `sent`; an issued credential joins the history.
  function AskVendor(a: Account, held: Cred, readOk: bool, sent: string, reply: VendorReply): Account {
    var asked := a.(asks := a.asks + [Ask(held, readOk, |a.issued|, a.pending.Some?, sent, reply)]);
    if reply.Refused? then asked
    else asked.(issued := a.issued + [NewCred(reply.tokens, sent, held, LoadCredential(a.durable, readOk))])
  }

  // The second half of a call: re-read the durable secret, then rotate.
  function Rotate(a: Account, held: Cred, env: Env): (Account, Result<Cred, Failure>) {
    var current := LoadCredential(a.durable, env.readOk);
    if current.Some? && CredsRotated(current.value, held) then (a, Ok(current.value))
    else
      var sent := TokenToSend(current, held);
      if Trim(sent) == "" then (a, Err(MissingRefreshToken))
      else
        var a' := AskVendor(a, held, env.readOk, sent, env.vendor);
        if env.vendor.Refused? then (a', Err(VendorRefused))
        else
          var c := a'.issued[|a.issued|];
          (Persist(a', c, env.newPuts), Ok(c))
  }

  // One whole call of refreshOAuthCredential.
  function Refresh(a: Account, held: Cred, env: Env): (Account, Result<Cred, Failure>) {
    if a.pending.Some? then
      var p := a.pending.value;
      var a' := Persist(a, p, env.pendingPuts);
      if ReturnsPending(p, held) then (a', Ok(p)) else Rotate(a', held, env)
    else
      Rotate(a, held, env)
  }

  // ---------------------------------------------------------------------------
  // Whole runs: calls in the order in which they held the account's lock.
  // ---------------------------------------------------------------------------

  datatype Call = Call(held: Cred, env: Env, result: Result<Cred, Failure>)

  function Replay(a0: Account, calls: seq<Call>): Account {
    if calls == [] then a0
    else
      var last := calls[|calls| - 1];
      Refresh(Replay(a0, calls[..|calls| - 1]), last.held, last.env).0
  }

  // Each recorded result is what that call returns in the state it started from.
  predicate Explains(a0: Account, calls: seq<Call>) {
    forall i :: 0 <= i < |calls| ==>
      Refresh(Replay(a0, calls[..i]), calls[i].held, calls[i].env).1 == calls[i].result
  }

  predicate Fresh(a: Account) {
    a.pending == None && a.issued == [] && a.asks == []
  }

  function Newest(a: Account): Cred
    requires a.issued != []
  {
    a.issued[|a.issued| - 1]
  }

  predicate TokenKept(d0: Secret, a: Account) {
    && (a.pending.Some? ==> a.issued != [] && a.pending.value == Newest(a))
    && (a.pending.None? ==> a.durable == if a.issued == [] then d0 else Stored(Newest(a)))
  }

  predicate IssuedUsable(a: Account) {
    forall i :: 0 <= i < |a.issued| ==> a.issued[i].accessToken != "" && a.issued[i].refreshToken != ""
  }

  lemma {:induction false} PutSucceeds(d: Secret, c: Cred, outs: seq<PutOutcome>)
    ensures PutWithRetry(d, c, outs).1 ==> PutWithRetry(d, c, outs).0 == Stored(c)
    ensures PutWithRetry(d, c, outs).0 in {d, Stored(c)}
    decreases |outs|
  {
    if outs != [] && !outs[0].PutOk? && !outs[0].cancelled {
      PutSucceeds(Written(d, c, outs[0]), c, outs[1..]);
    }
  }

  lemma PersistKeepsToken(d0: Secret, a: Account, outs: seq<PutOutcome>)
    requires a.issued != []
    ensures TokenKept(d0, Persist(a, Newest(a), outs))
  {
    PutSucceeds(a.durable, Newest(a), Attempts(outs));
  }

  lemma AskVendorKeepsUsable(a: Account, held: Cred, readOk: bool, sent: string, reply: VendorReply)
    requires IssuedUsable(a) && sent != ""
    ensures IssuedUsable(AskVendor(a, held, readOk, sent, reply))
  {
  }

  lemma {:induction false} RotateKeepsToken(d0: Secret, a: Account, held: Cred, env: Env)
    requires TokenKept(d0, a) && IssuedUsable(a) && a.pending.None?
    ensures TokenKept(d0, Rotate(a, held, env).0) && IssuedUsable(Rotate(a, held, env).0)
  {
    var current := LoadCredential(a.durable, env.readOk);
    var sent := TokenToSend(current, held);
    if (current.Some? && CredsRotated(current.value, held)) || Trim(sent) == "" {
      assert Rotate(a, held, env).0 == a;
    } else {
      var a' := AskVendor(a, held, env.readOk, sent, env.vendor);
      AskVendorKeepsUsable(a, held, env.readOk, sent, env.vendor);
      if env.vendor.Refused? {
        assert Rotate(a, held, env).0 == a';
      } else {
        assert Rotate(a, held, env).0 == Persist(a', Newest(a'), env.newPuts);
        PersistKeepsToken(d0, a', env.newPuts);
      }
    }
  }

  lemma RefreshKeepsToken(d0: Secret, a: Account, held: Cred, env: Env)
    requires TokenKept(d0, a) && IssuedUsable(a)
    ensures TokenKept(d0, Refresh(a, held, env).0) && IssuedUsable(Refresh(a, held, env).0)
  {
    if a.pending.Some? {
      PersistKeepsToken(d0, a, env.pendingPuts);
    } else {
      RotateKeepsToken(d0, a, held, env);
    }
  }

  /** No issued token is ever lost: after any calls, whatever the writes and the vendor
      do, the newest issued credential is pending, or nothing is pending and the durable
      store holds it. */
  lemma {:induction false} NoTokenLost(a0: Account, calls: seq<Call>)
    requires Fresh(a0)
    ensures TokenKept(a0.durable, Replay(a0, calls)) && IssuedUsable(Replay(a0, calls))
  {
    if calls != [] {
      var last := calls[|calls| - 1];
      NoTokenLost(a0, calls[..|calls| - 1]);
      RefreshKeepsToken(a0.durable, Replay(a0, calls[..|calls| - 1]), last.held, last.env);
    }
  }

  /** The vendor is never asked while a credential is pending. */
  lemma {:induction false} NeverAsksWhilePending(a0: Account, calls: seq<Call>)
    requires Fresh(a0)
    ensures forall i :: 0 <= i < |Replay(a0, calls).asks| ==> !Replay(a0, calls).asks[i].pendingThen
  {
    if calls != [] {
      var last := calls[|calls| - 1];
      var a := Replay(a0, calls[..|calls| - 1]);
      NeverAsksWhilePending(a0, calls[..|calls| - 1]);
      NoTokenLost(a0, calls[..|calls| - 1]);
      if a.pending.Some? {
        assert Replay(a0, calls) == Persist(a, a.pending.value, last.env.pendingPuts);
      } else {
        assert Replay(a0, calls) == Rotate(a, last.held, last.env).0;
      }
    }
  }

  // ---------------------------------------------------------------------------
  // Single flight
  // ---------------------------------------------------------------------------

  // The credentials the account has had, oldest first; `c0` was there at the start.
  function Generations(c0: Cred, a: Account): (g: seq<Cred>)
    ensures |g| == |a.issued| + 1
  {
    [c0] + a.issued
  }

  predicate DistinctAccessTokens(c0: Cred, a: Account) {
    var g := Generations(c0, a);
    forall i, j :: 0 <= i < j < |g| ==> g[i].accessToken != g[j].accessToken
  }

  predicate ReadsSucceed(calls: seq<Call>) {
    forall i :: 0 <= i < |calls| ==> calls[i].env.readOk
  }

  // An account whose durable secret is an OAuth credential, before any call.
  predicate StartsWith(a0: Account, c0: Cred) {
    Fresh(a0) && a0.durable == Stored(c0) && c0.accessToken != ""
  }

  // The vendor was asked on behalf of the credential that was current at that moment.
  predicate AskIsCurrent(c0: Cred, a: Account, ask: Ask) {
    && ask.generation <= |a.issued|
    && var current := Generations(c0, a)[ask.generation];
       && (ask.held.accessToken == "" || ask.held.accessToken == current.accessToken)
       && ask.sent == (if current.refreshToken != "" then current.refreshToken else ask.held.refreshToken)
  }

  predicate AsksInOrder(a: Account) {
    && (forall i :: 0 <= i < |a.asks| ==>
          a.asks[i].generation + (if a.asks[i].reply.Issued? then 1 else 0) <= |a.issued|)
    && (forall i, j :: 0 <= i < j < |a.asks| ==>
          a.asks[i].generation + (if a.asks[i].reply.Issued? then 1 else 0) <= a.asks[j].generation)
  }

  predicate AsksCurrent(c0: Cred, a: Account) {
    forall i :: 0 <= i < |a.asks| ==> AskIsCurrent(c0, a, a.asks[i])
  }

  lemma {:induction false} AskVendorInOrder(a: Account, held: Cred, readOk: bool, sent: string, reply: VendorReply)
    requires AsksInOrder(a)
    ensures AsksInOrder(AskVendor(a, held, readOk, sent, reply))
  {
  }

  lemma {:induction false} RotateInOrder(a: Account, held: Cred, env: Env)
    requires AsksInOrder(a)
    ensures AsksInOrder(Rotate(a, held, env).0)
  {
    AskVendorInOrder(a, held, env.readOk, TokenToSend(LoadCredential(a.durable, env.readOk), held), env.vendor);
  }

  lemma {:induction false} AsksInOrderAlways(a0: Account, calls: seq<Call>)
    requires Fresh(a0)
    ensures AsksInOrder(Replay(a0, calls))
  {
    if calls != [] {
      var last := calls[|calls| - 1];
      var a := Replay(a0, calls[..|calls| - 1]);
      AsksInOrderAlways(a0, calls[..|calls| - 1]);
      RotateInOrder(if a.pending.Some? then Persist(a, a.pending.value, last.env.pendingPuts) else a,
                    last.held, last.env);
    }
  }

  lemma {:induction false} AskVendorCurrent(c0: Cred, a: Account, held: Cred, sent: string, reply: VendorReply)
    requires AsksCurrent(c0, a) && AsksInOrder(a)
    requires var current := Generations(c0, a)[|a.issued|];
      && (held.accessToken == "" || held.accessToken == current.accessToken)
      && sent == (if current.refreshToken != "" then current.refreshToken else held.refreshToken)
    ensures AsksCurrent(c0, AskVendor(a, held, true, sent, reply))
  {
    var a' := AskVendor(a, held, true, sent, reply);
    forall i | 0 <= i < |a'.asks|
      ensures AskIsCurrent(c0, a', a'.asks[i])
    {
      var g := a'.asks[i].generation;
      assert Generations(c0, a')[g] == Generations(c0, a)[g];
      if i < |a.asks| {
        assert AskIsCurrent(c0, a, a.asks[i]);
      }
    }
  }

  /** When reads succeed, every request to the vendor is made for a caller that holds the
      current credential, and sends that credential's refresh token. */
  lemma {:induction false} AsksAreCurrent(a0: Account, c0: Cred, calls: seq<Call>)
    requires StartsWith(a0, c0) && ReadsSucceed(calls)
    ensures AsksCurrent(c0, Replay(a0, calls))
  {
    if calls != [] {
      var last := calls[|calls| - 1];
      var before := calls[..|calls| - 1];
      var a := Replay(a0, before);
      AsksAreCurrent(a0, c0, before);
      NoTokenLost(a0, before);
      AsksInOrderAlways(a0, before);
      if a.pending.None? {
        var current := LoadCredential(a.durable, true);
        assert current == Some(Generations(c0, a)[|a.issued|]);
        if !CredsRotated(current.value, last.held) {
          AskVendorCurrent(c0, a, last.held, TokenToSend(current, last.held), last.env.vendor);
        }
      }
    }
  }

  /** Single flight: once a request made with some access token has succeeded, no caller
      holding that access token ever causes another request, whether or not the new
      credential could be written. */
  lemma SingleFlight(a0: Account, c0: Cred, calls: seq<Call>, i: nat, j: nat)
    requires StartsWith(a0, c0) && ReadsSucceed(calls)
    requires DistinctAccessTokens(c0, Replay(a0, calls))
    requires i < j < |Replay(a0, calls).asks|
    requires Replay(a0, calls).asks[i].held.accessToken == Replay(a0, calls).asks[j].held.accessToken != ""
    ensures Replay(a0, calls).asks[i].reply.Refused?
  {
    var a := Replay(a0, calls);
    AsksAreCurrent(a0, c0, calls);
    AsksInOrderAlways(a0, calls);
    assert AskIsCurrent(c0, a, a.asks[i]) && AskIsCurrent(c0, a, a.asks[j]);
    assert a.asks[i].generation <= a.asks[j].generation;
  }

  /** A caller holding a credential that is no longer current causes no request at all. */
  lemma OlderCredentialCausesNoRequest(a0: Account, c0: Cred, calls: seq<Call>, i: nat, k: nat)
    requires StartsWith(a0, c0) && ReadsSucceed(calls)
    requires DistinctAccessTokens(c0, Replay(a0, calls))
    requires i < |Replay(a0, calls).asks| && k <= |Replay(a0, calls).issued|
    requires Replay(a0, calls).asks[i].held.accessToken == Generations(c0, Replay(a0, calls))[k].accessToken
    ensures k == Replay(a0, calls).asks[i].generation
  {
    var a := Replay(a0, calls);
    AsksAreCurrent(a0, c0, calls);
    NoTokenLost(a0, calls);
    assert AskIsCurrent(c0, a, a.asks[i]);
    assert Generations(c0, a)[k].accessToken != "";
  }

  /** Which token a request sends when the durable secret holds `newest`: the newest one
      exactly when the read succeeded or the caller happened to hold it already. */
  lemma SendsNewestToken(a: Account, newest: Cred, held: Cred, env: Env)
    requires a.pending.None? && a.durable == Stored(newest)
    requires newest.accessToken != "" && newest.refreshToken != ""
    requires |Refresh(a, held, env).0.asks| == |a.asks| + 1
    ensures Refresh(a, held, env).0.asks[|a.asks|].sent == newest.refreshToken
            <==> env.readOk || held.refreshToken == newest.refreshToken
  {
  }

  lemma {:induction false} FirstRotation(a0: Account, c0: Cred, t: Tokens)
    requires StartsWith(a0, c0) && Trim(c0.refreshToken) != ""
    requires t.accessToken != "" && t.refreshToken != ""
    ensures
      var c1 := NewCred(t, c0.refreshToken, c0, Some(c0));
      Refresh(a0, c0, Env([], true, Issued(t), [PutOk])).0
      == Account(None, Stored(c1), [c1], [Ask(c0, true, 0, false, c0.refreshToken, Issued(t))])
  {
    assert TokenToSend(LoadCredential(a0.durable, true), c0) == c0.refreshToken;
  }

  lemma {:induction false} BlindRotation(a: Account, c0: Cred)
    requires a.pending.None? && Trim(c0.refreshToken) != ""
    ensures Refresh(a, c0, Env([], false, Refused, [])).0.asks
         == a.asks + [Ask(c0, false, |a.issued|, false, c0.refreshToken, Refused)]
  {
  }

  /** The hypothesis on reads is needed: of two callers holding the first credential, the
      second, if its read fails, sends again the token that the first one spent. */
  lemma FailedReadResendsSpentToken(a0: Account, c0: Cred, t: Tokens)
    requires StartsWith(a0, c0) && Trim(c0.refreshToken) != ""
    requires t.accessToken != "" && t.refreshToken != ""
    ensures
      var a1 := Refresh(a0, c0, Env([], true, Issued(t), [PutOk])).0;
      var a2 := Refresh(a1, c0, Env([], false, Refused, [])).0;
      |a2.asks| == 2 && a2.asks[0].reply.Issued? && a2.asks[1].sent == a2.asks[0].sent
  {
    FirstRotation(a0, c0, t);
    BlindRotation(Refresh(a0, c0, Env([], true, Issued(t), [PutOk])).0, c0);
  }
}
