/**
 What becomes of the tokens a vendor issues: each call of `Refresh`, and every run of
 calls, in terms of the vendor's answers and the fields of the credentials alone.
 */
module OAuthTokens {
  import opened Wrappers
  import opened Text
  import opened OAuthRefresh

  // What reading this secret gives: its credential, if that has a bearer token.
  predicate Reads(d: Secret, readOk: bool, stored: Option<Cred>) {
    match stored
    case Some(c) => readOk && d == Stored(c) && (c.accessToken != "" || c.apiKey != "")
    case None => !readOk || !d.Stored? || (d.cred.accessToken == "" && d.cred.apiKey == "")
  }

  predicate Differ(x: string, y: string) {
    x != "" && y != "" && x != y
  }

  // The stored credential is another one than the caller's.
  predicate Replaced(stored: Option<Cred>, held: Cred) {
    stored.Some? &&
    (Differ(stored.value.accessToken, held.accessToken) || Differ(stored.value.refreshToken, held.refreshToken))
  }

  // The refresh token to send: the stored one, or for want of it the caller's.
  predicate IsSent(stored: Option<Cred>, held: Cred, sent: string) {
    if stored.Some? && stored.value.refreshToken != "" then sent == stored.value.refreshToken
    else sent == held.refreshToken
  }

  // The credential has the tokens that the vendor issued for the token sent.
  predicate HasTokens(c: Cred, t: Tokens, sent: string, held: Cred, stored: Option<Cred>) {
    && c.accessToken == t.accessToken && c.expiresAt == t.expiresAt && c.idToken == t.idToken && c.apiKey == ""
    && (t.refreshToken != "" ==> c.refreshToken == t.refreshToken)
    && (t.refreshToken == "" ==> c.refreshToken == sent)
    && (t.chatGPTAccountID != "" ==> c.chatGPTAccountID == t.chatGPTAccountID)
    && (t.chatGPTAccountID == "" && stored.Some? && stored.value.chatGPTAccountID != "" ==>
          c.chatGPTAccountID == stored.value.chatGPTAccountID)
    && (t.chatGPTAccountID == "" && (stored.None? || stored.value.chatGPTAccountID == "") ==>
          c.chatGPTAccountID == held.chatGPTAccountID)
  }

  // ---------------------------------------------------------------------------
  // Writing
  // ---------------------------------------------------------------------------

  // The i-th attempt comes after failures that were not cancelled.
  predicate Reached(outs: seq<PutOutcome>, i: nat) {
    i < |outs| && forall j :: 0 <= j < i ==> outs[j].PutFail? && !outs[j].cancelled
  }

  // One of at most three attempts succeeds.
  predicate Succeeds(outs: seq<PutOutcome>) {
    exists i: nat :: Reached(outs, i) && i < 3 && outs[i].PutOk?
  }

  // One of at most three attempts takes effect, successful or not.
  predicate TakesEffect(outs: seq<PutOutcome>) {
    exists i: nat :: Reached(outs, i) && i < 3 && (outs[i].PutOk? || outs[i].wrote)
  }

  lemma {:induction false} ReachedInRest(outs: seq<PutOutcome>, i: nat)
    requires outs != [] && outs[0].PutFail? && !outs[0].cancelled
    ensures Reached(outs[1..], i) <==> Reached(outs, i + 1)
  {
    var rest := outs[1..];
    assert forall j :: 0 <= j < |rest| ==> rest[j] == outs[j + 1];
    if Reached(rest, i) {
      forall j | 0 <= j < i + 1
        ensures outs[j].PutFail? && !outs[j].cancelled
      {
        assert j > 0 ==> outs[j] == rest[j - 1];
      }
    }
  }

  lemma {:induction false} RetryExactly(d: Secret, c: Cred, outs: seq<PutOutcome>)
    ensures PutWithRetry(d, c, outs).1 <==> exists i: nat :: Reached(outs, i) && outs[i].PutOk?
    ensures PutWithRetry(d, c, outs).0
         == if exists i: nat :: Reached(outs, i) && (outs[i].PutOk? || outs[i].wrote) then Stored(c) else d
    decreases |outs|
  {
    if outs != [] {
      var d', rest := Written(d, c, outs[0]), outs[1..];
      assert Reached(outs, 0);
      if outs[0].PutFail? && !outs[0].cancelled {
        RetryExactly(d', c, rest);
        forall i: nat
          ensures Reached(rest, i) <==> Reached(outs, i + 1)
        {
          ReachedInRest(outs, i);
        }
        forall i: nat | Reached(rest, i)
          ensures Reached(outs, i + 1) && outs[i + 1] == rest[i]
        {
        }
        forall i: nat | Reached(outs, i) && i > 0
          ensures Reached(rest, i - 1) && outs[i] == rest[i - 1]
        {
          assert Reached(outs, (i - 1) + 1);
        }
      } else {
        forall i: nat | Reached(outs, i)
          ensures i == 0
        {
        }
      }
    }
  }

  lemma {:induction false} ReachedOfThree(outs: seq<PutOutcome>, i: nat)
    ensures Reached(Attempts(outs), i) <==> Reached(outs, i) && i < 3
    ensures Reached(Attempts(outs), i) ==> Attempts(outs)[i] == outs[i]
  {
    var three := Attempts(outs);
    assert forall j :: 0 <= j < |three| ==> three[j] == outs[j];
  }

  /** A credential is kept in memory exactly when none of at most three attempts succeeds;
      the store has it exactly when one of them takes effect. */
  lemma {:induction false} PersistExactly(a: Account, c: Cred, outs: seq<PutOutcome>)
    ensures var a' := Persist(a, c, outs);
      && a' == a.(pending := a'.pending, durable := a'.durable)
      && a'.pending == (if Succeeds(outs) then None else Some(c))
      && a'.durable == (if TakesEffect(outs) then Stored(c) else a.durable)
  {
    var three := Attempts(outs);
    RetryExactly(a.durable, c, three);
    forall i: nat
      ensures Reached(three, i) <==> Reached(outs, i) && i < 3
      ensures Reached(three, i) ==> three[i] == outs[i]
    {
      ReachedOfThree(outs, i);
    }
  }

  // ---------------------------------------------------------------------------
  // One call
  // ---------------------------------------------------------------------------

  // The credential is in memory, or nothing is and the store has it.
  predicate KeptAs(a: Account, c: Cred) {
    a.pending == Some(c) || (a.pending == None && a.durable == Stored(c))
  }

  lemma {:induction false} PersistKeeps(a: Account, c: Cred, outs: seq<PutOutcome>)
    ensures KeptAs(Persist(a, c, outs), c)
  {
    PutSucceeds(a.durable, c, Attempts(outs));
  }

  // What a call does that goes on to the vendor: it returns a credential that replaced the
  // caller's, or has no token to send, or asks and keeps what the vendor issues.
  predicate RotatedTo(
    a: Account, held: Cred, env: Env, stored: Option<Cred>, sent: string, a': Account, r: Result<Cred, Failure>)
  {
    if Replaced(stored, held) then a' == a && r == Ok(stored.value)
    else if AllSpace(sent) then a' == a && r == Err(MissingRefreshToken)
    else
      && a'.asks == a.asks + [Ask(held, env.readOk, |a.issued|, a.pending.Some?, sent, env.vendor)]
      && (env.vendor.Refused? ==>
            r == Err(VendorRefused) && a' == a.(asks := a'.asks))
      && (env.vendor.Issued? ==>
            && r.Ok? && HasTokens(r.value, env.vendor.tokens, sent, held, stored)
            && a'.issued == a.issued + [r.value] && KeptAs(a', r.value))
  }

  lemma {:induction false} RotateExactly(a: Account, held: Cred, env: Env, stored: Option<Cred>, sent: string)
    requires Reads(a.durable, env.readOk, stored) && IsSent(stored, held, sent)
    ensures RotatedTo(a, held, env, stored, sent, Rotate(a, held, env).0, Rotate(a, held, env).1)
  {
    BlankExactly(sent);
    assert LoadCredential(a.durable, env.readOk) == stored;
    assert TokenToSend(stored, held) == sent;
    var asked := AskVendor(a, held, env.readOk, sent, env.vendor);
    if env.vendor.Issued? {
      PersistKeeps(asked, asked.issued[|a.issued|], env.newPuts);
    }
  }

  /** A whole call, from the answers of store and vendor to the credential returned and
      kept. With nothing pending it reads, and asks the vendor unless its own credential was
      replaced; the credential it then returns and keeps has the tokens the vendor issued. */
  lemma {:induction false} RefreshExactly(a: Account, held: Cred, env: Env, stored: Option<Cred>, sent: string)
    requires a.pending == None && Reads(a.durable, env.readOk, stored) && IsSent(stored, held, sent)
    ensures RotatedTo(a, held, env, stored, sent, Refresh(a, held, env).0, Refresh(a, held, env).1)
  {
    RotateExactly(a, held, env, stored, sent);
  }

  /** A call that finds a credential pending writes it again; if it is usable, or has another
      refresh token than the caller's, the call returns it without asking the vendor. */
  lemma {:induction false} PendingIsReturned(a: Account, held: Cred, env: Env)
    requires a.pending.Some?
    requires a.pending.value.accessToken != "" || Differ(a.pending.value.refreshToken, held.refreshToken)
    ensures var (a', r) := Refresh(a, held, env);
      r == Ok(a.pending.value) && a'.asks == a.asks && a'.issued == a.issued && KeptAs(a', a.pending.value)
  {
    PersistKeeps(a, a.pending.value, env.pendingPuts);
  }

  // ---------------------------------------------------------------------------
  // Runs of calls
  // ---------------------------------------------------------------------------

  // The secret that the store had when `g` credentials had been issued.
  function SecretThen(d0: Secret, a: Account, g: nat): Secret
    requires g <= |a.issued|
  {
    if g == 0 then d0 else Stored(a.issued[g - 1])
  }

  // The request sent the token it should, and a grant became the next credential.
  ghost predicate AskExplained(d0: Secret, a: Account, ask: Ask) {
    && ask.generation <= |a.issued|
    && exists stored ::
         && Reads(SecretThen(d0, a, ask.generation), ask.readOk, stored)
         && IsSent(stored, ask.held, ask.sent)
         && (ask.reply.Issued? ==>
               && ask.generation < |a.issued|
               && HasTokens(a.issued[ask.generation], ask.reply.tokens, ask.sent, ask.held, stored))
  }

  predicate Grants(a: Account, i: nat, g: nat) {
    i < |a.asks| && a.asks[i].reply.Issued? && a.asks[i].generation == g
  }

  ghost predicate Granted(a: Account, g: nat) {
    exists i: nat :: Grants(a, i, g)
  }

  // Every credential was granted by a request.
  ghost predicate EachGranted(a: Account) {
    forall g: nat :: g < |a.issued| ==> Granted(a, g)
  }

  ghost predicate AsksExplained(d0: Secret, a: Account) {
    forall i :: 0 <= i < |a.asks| ==> AskExplained(d0, a, a.asks[i])
  }

  function ReadOf(d: Secret, readOk: bool): (stored: Option<Cred>)
    ensures Reads(d, readOk, stored)
  {
    if readOk && d.Stored? && (d.cred.accessToken != "" || d.cred.apiKey != "") then Some(d.cred) else None
  }

  function SentOf(stored: Option<Cred>, held: Cred): (sent: string)
    ensures IsSent(stored, held, sent)
  {
    if stored.Some? && stored.value.refreshToken != "" then stored.value.refreshToken else held.refreshToken
  }

  lemma {:induction false} LongerHistory(d0: Secret, a: Account, a': Account, ask: Ask)
    requires AskExplained(d0, a, ask) && a.issued <= a'.issued
    ensures AskExplained(d0, a', ask)
  {
    assert SecretThen(d0, a', ask.generation) == SecretThen(d0, a, ask.generation);
  }

  lemma {:induction false} OneMoreAsk(d0: Secret, a: Account, a': Account, ask: Ask)
    requires AsksExplained(d0, a) && EachGranted(a) && a'.asks == a.asks + [ask] && AskExplained(d0, a', ask)
    requires ask.generation == |a.issued|
    requires if ask.reply.Issued? then |a'.issued| == |a.issued| + 1 && a.issued <= a'.issued else a'.issued == a.issued
    ensures AsksExplained(d0, a') && EachGranted(a')
  {
    forall i | 0 <= i < |a'.asks|
      ensures AskExplained(d0, a', a'.asks[i])
    {
      if i < |a.asks| {
        LongerHistory(d0, a, a', a.asks[i]);
      }
    }
    forall g: nat | g < |a'.issued|
      ensures Granted(a', g)
    {
      if g < |a.issued| {
        assert Granted(a, g);
        var i: nat :| Grants(a, i, g);
        assert Grants(a', i, g);
      } else {
        assert Grants(a', |a.asks|, g);
      }
    }
  }

  // The secret in the store is the newest credential's, or the first one.
  lemma {:induction false} StoreIsNewest(d0: Secret, a: Account)
    requires TokenKept(d0, a) && a.pending == None
    ensures a.durable == SecretThen(d0, a, |a.issued|)
  {
  }

  lemma {:induction false} RefreshIsExplained(d0: Secret, a: Account, held: Cred, env: Env)
    requires TokenKept(d0, a) && IssuedUsable(a) && AsksExplained(d0, a) && EachGranted(a)
    ensures var a' := Refresh(a, held, env).0; AsksExplained(d0, a') && EachGranted(a')
  {
    var a' := Refresh(a, held, env).0;
    if a.pending.Some? {
      PendingIsReturned(a, held, env);
      SameHistoryExplained(d0, a, a');
    } else {
      var stored := ReadOf(a.durable, env.readOk);
      var sent := SentOf(stored, held);
      RefreshExactly(a, held, env, stored, sent);
      StoreIsNewest(d0, a);
      if !Replaced(stored, held) && !AllSpace(sent) {
        var ask := Ask(held, env.readOk, |a.issued|, false, sent, env.vendor);
        assert SecretThen(d0, a', |a.issued|) == SecretThen(d0, a, |a.issued|);
        assert AskExplained(d0, a', ask);
        OneMoreAsk(d0, a, a', ask);
      }
    }
  }

  lemma {:induction false} SameHistoryExplained(d0: Secret, a: Account, a': Account)
    requires AsksExplained(d0, a) && EachGranted(a) && a'.asks == a.asks && a'.issued == a.issued
    ensures AsksExplained(d0, a') && EachGranted(a')
  {
    forall i | 0 <= i < |a'.asks|
      ensures AskExplained(d0, a', a'.asks[i])
    {
      LongerHistory(d0, a, a', a.asks[i]);
    }
    forall g: nat | g < |a'.issued|
      ensures Granted(a', g)
    {
      assert Granted(a, g);
      var i: nat :| Grants(a, i, g);
      assert Grants(a', i, g);
    }
  }

  /** Over all runs: the credentials the account has had are exactly those the vendor
      granted, one for each grant, with the tokens of that grant; and each request sent the
      stored refresh token, or for want of it the caller's. */
  lemma {:induction false} IssuedAsGranted(a0: Account, calls: seq<Call>)
    requires Fresh(a0)
    ensures AsksExplained(a0.durable, Replay(a0, calls)) && EachGranted(Replay(a0, calls))
  {
    if calls != [] {
      var last := calls[|calls| - 1];
      var before := calls[..|calls| - 1];
      IssuedAsGranted(a0, before);
      NoTokenLost(a0, before);
      RefreshIsExplained(a0.durable, Replay(a0, before), last.held, last.env);
    }
  }

  // The newest credential, or for want of one the first.
  predicate IsNewest(d0: Secret, a: Account, c: Cred) {
    if a.issued == [] then d0 == Stored(c) else c == Newest(a)
  }

  /** Whatever way a call takes, a credential it returns is the newest one there is. */
  lemma {:induction false} RefreshReturnsNewest(d0: Secret, a: Account, held: Cred, env: Env)
    requires TokenKept(d0, a) && IssuedUsable(a)
    ensures var (a', r) := Refresh(a, held, env); r.Ok? ==> IsNewest(d0, a', r.value)
  {
    if a.pending.Some? {
      PendingIsReturned(a, held, env);
    } else {
      var stored := ReadOf(a.durable, env.readOk);
      RefreshExactly(a, held, env, stored, SentOf(stored, held));
    }
  }

  lemma {:induction false} CallsReturnNewest(a0: Account, calls: seq<Call>, k: nat)
    requires Fresh(a0) && Explains(a0, calls) && k < |calls|
    ensures calls[k].result.Ok? ==> IsNewest(a0.durable, Replay(a0, calls[..k + 1]), calls[k].result.value)
  {
    NoTokenLost(a0, calls[..k]);
    RefreshReturnsNewest(a0.durable, Replay(a0, calls[..k]), calls[k].held, calls[k].env);
    assert calls[..k + 1][..k] == calls[..k];
  }

  // ---------------------------------------------------------------------------
  // Spent tokens
  // ---------------------------------------------------------------------------

  // The request was granted with a refresh token of its own.
  predicate Renews(ask: Ask) {
    ask.reply.Issued? && ask.reply.tokens.refreshToken != ""
  }

  // The vendor's refresh tokens are new: none was there at the start, or given before.
  predicate VendorRenews(c0: Cred, a: Account) {
    && (forall i :: 0 <= i < |a.asks| && Renews(a.asks[i]) ==> a.asks[i].reply.tokens.refreshToken != c0.refreshToken)
    && (forall i, j :: 0 <= i < j < |a.asks| && Renews(a.asks[i]) && Renews(a.asks[j]) ==>
          a.asks[i].reply.tokens.refreshToken != a.asks[j].reply.tokens.refreshToken)
  }

  predicate RenewedBefore(a: Account, i: nat, g: nat) {
    i < |a.asks| && Renews(a.asks[i]) && a.asks[i].generation < g
  }

  // The refresh token of generation `g` came with the i-th request, the last to renew it.
  ghost predicate CameWith(a: Account, token: string, i: nat, g: nat) {
    && RenewedBefore(a, i, g) && token == a.asks[i].reply.tokens.refreshToken
    && forall j: nat :: RenewedBefore(a, j, g) ==> a.asks[j].generation <= a.asks[i].generation
  }

  // What reads that succeed say of the requests.
  ghost predicate Current(c0: Cred, a: Account) {
    && AsksCurrent(c0, a) && AsksInOrder(a) && AsksExplained(Stored(c0), a) && EachGranted(a) && IssuedUsable(a)
    && c0.refreshToken != ""
  }

  lemma {:induction false} GrantedToken(c0: Cred, a: Account, i: nat)
    requires Current(c0, a) && i < |a.asks| && a.asks[i].reply.Issued?
    ensures var ask := a.asks[i];
      && ask.generation < |a.issued|
      && ask.sent == Generations(c0, a)[ask.generation].refreshToken
      && Generations(c0, a)[ask.generation + 1].refreshToken
         == if Renews(ask) then ask.reply.tokens.refreshToken else ask.sent
  {
    assert AskIsCurrent(c0, a, a.asks[i]) && AskExplained(Stored(c0), a, a.asks[i]);
  }

  // One request a generation is granted.
  lemma {:induction false} OneGrantEach(a: Account, i: nat, j: nat, g: nat)
    requires AsksInOrder(a) && Grants(a, i, g) && Grants(a, j, g)
    ensures i == j
  {
  }

  // The refresh token of a generation is the first one's, or came with a request before it.
  lemma {:induction false} TokenCameFrom(c0: Cred, a: Account, g: nat)
    requires Current(c0, a) && g <= |a.issued|
    ensures var token := Generations(c0, a)[g].refreshToken;
      || (token == c0.refreshToken && forall j: nat :: !RenewedBefore(a, j, g))
      || exists i: nat :: CameWith(a, token, i, g)
  {
    if g > 0 {
      var h: nat := g - 1;
      assert Granted(a, h);
      var k: nat :| Grants(a, k, h);
      GrantedToken(c0, a, k);
      TokenCameFrom(c0, a, h);
      forall j: nat | RenewedBefore(a, j, g)
        ensures RenewedBefore(a, j, h) || j == k
      {
        if a.asks[j].generation == h {
          OneGrantEach(a, k, j, h);
        }
      }
      if Renews(a.asks[k]) {
        assert CameWith(a, Generations(c0, a)[g].refreshToken, k, g);
      } else {
        if exists i: nat :: CameWith(a, Generations(c0, a)[h].refreshToken, i, h) {
          StillCameFrom(a, Generations(c0, a)[h].refreshToken, h, g);
        }
      }
    }
  }

  // A grant without a refresh token changes nothing.
  lemma {:induction false} StillCameFrom(a: Account, token: string, h: nat, g: nat)
    requires h <= g && forall j: nat :: RenewedBefore(a, j, g) ==> RenewedBefore(a, j, h)
    requires exists i: nat :: CameWith(a, token, i, h)
    ensures exists i: nat :: CameWith(a, token, i, g)
  {
    var i: nat :| CameWith(a, token, i, h);
    assert CameWith(a, token, i, g);
  }

  lemma {:induction false} RenewedTokenIsOther(c0: Cred, a: Account, i: nat, j: nat)
    requires Current(c0, a) && VendorRenews(c0, a) && i < j < |a.asks| && Renews(a.asks[i])
    ensures a.asks[i].sent != a.asks[j].sent
  {
    var g, h := a.asks[i].generation, a.asks[j].generation;
    GrantedToken(c0, a, i);
    assert g < h && AskIsCurrent(c0, a, a.asks[j]) && RenewedBefore(a, i, h);
    TokenCameFrom(c0, a, g);
    TokenCameFrom(c0, a, h);
    var late := Generations(c0, a)[h].refreshToken;
    var k: nat :| CameWith(a, late, k, h);
    assert a.asks[k].generation >= g;
    var early := Generations(c0, a)[g].refreshToken;
    if l: nat :| CameWith(a, early, l, g) {
      assert l != k;
    }
  }

  /** A refresh token whose grant brought a new one is never sent again, when reads succeed
      and the vendor's refresh tokens are new. */
  lemma {:induction false} SpentTokenNeverSentAgain(a0: Account, c0: Cred, calls: seq<Call>, i: nat, j: nat)
    requires StartsWith(a0, c0) && c0.refreshToken != "" && ReadsSucceed(calls)
    requires VendorRenews(c0, Replay(a0, calls))
    requires i < j < |Replay(a0, calls).asks| && Renews(Replay(a0, calls).asks[i])
    ensures Replay(a0, calls).asks[i].sent != Replay(a0, calls).asks[j].sent
  {
    AsksAreCurrent(a0, c0, calls);
    AsksInOrderAlways(a0, calls);
    NoTokenLost(a0, calls);
    IssuedAsGranted(a0, calls);
    RenewedTokenIsOther(c0, Replay(a0, calls), i, j);
  }
}
