/**
 The engine's own code for credential rotation, over its mutable state: the secret
 store, the pending map and the table of per-account locks. Each method is proved
 against the functions of `OAuthRefresh`.
 */
module OAuthEngine {
  import opened Wrappers
  import opened Text
  import opened OAuthRefresh
  import opened OAuthTokens

  class Mutex {
    constructor () {}
  }

  class RefreshGates {
    var m: map<string, Mutex>

    // One lock per account, and no lock shared by two accounts.
    ghost predicate Valid()
      reads this
    {
      forall a, b :: a in m && b in m && m[a] == m[b] ==> a == b
    }

    constructor ()
      ensures Valid() && m == map[]
    {
      m := map[];
    }

    method Lock(id: string) returns (l: Mutex)
      requires Valid()
      modifies this
      ensures Valid()
      ensures id in m && m[id] == l
      ensures m == old(m)[id := l]
      ensures id in old(m) ==> l == old(m)[id]
      ensures id !in old(m) ==> fresh(l)
    {
      if id in m {
        l := m[id];
      } else {
        l := new Mutex();
        m := m[id := l];
      }
    }
  }

  class SecretStore {
    var vault: map<string, Secret>

    function Lookup(path: string): Secret
      reads this
    {
      if path in vault then vault[path] else Missing
    }

    constructor (vault: map<string, Secret>)
      ensures this.vault == vault
    {
      this.vault := vault;
    }

    method Put(path: string, c: Cred, o: PutOutcome) returns (ok: bool)
      modifies this
      ensures ok == o.PutOk?
      ensures Lookup(path) == Written(old(Lookup(path)), c, o)
      ensures forall q :: q != path ==> Lookup(q) == old(Lookup(q))
    {
      if o.PutOk? || o.wrote {
        vault := vault[path := Stored(c)];
      }
      ok := o.PutOk?;
    }
  }

  // An account row: its id, where its secret lives, and how it authenticates.
  datatype Row = Row(id: string, path: string, authType: string)

  datatype Swept = Updated | Failed | Skipped

  // What the proactive sweep does with one account.
  function SweepOne(a: Account, authType: string, due: string -> bool, readOk: bool, env: Env): (Account, Swept) {
    if !EqualFold(authType, "oauth") then (a, Skipped)
    else
      var cred := LoadCredential(a.durable, readOk);
      if cred.None? then (a, Failed)
      else if !due(cred.value.expiresAt) || Trim(cred.value.refreshToken) == "" then (a, Skipped)
      else
        var (a', r) := Refresh(a, cred.value, env);
        (a', if r.Ok? then Updated else Failed)
  }

  // What the sweep does with every account, one by one.
  function SweepAll(before: seq<Account>, rows: seq<Row>, due: string -> bool, readOks: seq<bool>, envs: seq<Env>)
    : (swept: seq<(Account, Swept)>)
    requires |before| == |readOks| == |envs| == |rows|
    ensures |swept| == |rows|
  {
    seq(|rows|, k requires 0 <= k < |rows| => SweepOne(before[k], rows[k].authType, due, readOks[k], envs[k]))
  }

  // The primary keys: one row an account, one secret path a row.
  predicate DistinctRows(rows: seq<Row>) {
    forall i, j :: 0 <= i < j < |rows| ==> rows[i].id != rows[j].id && rows[i].path != rows[j].path
  }

  // The store answers as often as it can be asked.
  predicate EnoughAnswers(envs: seq<Env>) {
    forall i :: 0 <= i < |envs| ==>
      |envs[i].pendingPuts| >= PUT_MAX_ATTEMPTS && |envs[i].newPuts| >= PUT_MAX_ATTEMPTS
  }

  function Bump(t: (nat, nat, nat), s: Swept): (nat, nat, nat) {
    match s
    case Updated => (t.0 + 1, t.1, t.2)
    case Failed => (t.0, t.1 + 1, t.2)
    case Skipped => (t.0, t.1, t.2 + 1)
  }

  // The three counters after the first `i` accounts.
  function Tallies(swept: seq<(Account, Swept)>, i: nat): (nat, nat, nat)
    requires i <= |swept|
  {
    if i == 0 then (0, 0, 0) else Bump(Tallies(swept, i - 1), swept[i - 1].1)
  }

  lemma {:induction false} TalliesTotal(swept: seq<(Account, Swept)>, i: nat)
    requires i <= |swept|
    ensures Tallies(swept, i).0 + Tallies(swept, i).1 + Tallies(swept, i).2 == i
  {
    if i > 0 {
      TalliesTotal(swept, i - 1);
    }
  }

  /** The sweep can lose no token either, and it never touches a credential that is not due. */
  lemma {:induction false} SweepKeepsToken(
    d0: Secret, a: Account, authType: string, due: string -> bool, readOk: bool, env: Env)
    requires TokenKept(d0, a) && IssuedUsable(a)
    ensures var a' := SweepOne(a, authType, due, readOk, env).0;
            TokenKept(d0, a') && IssuedUsable(a')
    ensures a.durable.Stored? && !due(a.durable.cred.expiresAt)
            ==> SweepOne(a, authType, due, readOk, env).0 == a
  {
    var cred := LoadCredential(a.durable, readOk);
    if cred.Some? {
      RefreshKeepsToken(d0, a, cred.value, env);
    }
  }

  /** The sweep refreshes exactly the OAuth accounts whose stored credential can be read, is
      due and has a refresh token; it counts a refresh by how it ended, and an account whose
      credential cannot be read as failed. */
  lemma {:induction false} SweepsExactly(
    a: Account, authType: string, due: string -> bool, readOk: bool, env: Env, stored: Option<Cred>)
    requires Reads(a.durable, readOk, stored)
    ensures var (a', swept) := SweepOne(a, authType, due, readOk, env);
      if Lower(authType) != "oauth" then a' == a && swept == Skipped
      else if stored.None? then a' == a && swept == Failed
      else if !due(stored.value.expiresAt) || AllSpace(stored.value.refreshToken) then a' == a && swept == Skipped
      else
        && a' == Refresh(a, stored.value, env).0
        && (swept == Updated <==> Refresh(a, stored.value, env).1.Ok?)
        && (swept == Failed <==> Refresh(a, stored.value, env).1.Err?)
  {
    assert Lower("oauth") == "oauth";
    assert LoadCredential(a.durable, readOk) == stored;
    if stored.Some? {
      BlankExactly(stored.value.refreshToken);
    }
  }

  function CountOf(swept: seq<(Account, Swept)>, what: Swept): nat {
    if swept == [] then 0
    else CountOf(swept[..|swept| - 1], what) + if swept[|swept| - 1].1 == what then 1 else 0
  }

  /** The three counters count the accounts updated, failed and skipped. */
  lemma {:induction false} TalliesCount(swept: seq<(Account, Swept)>, i: nat)
    requires i <= |swept|
    ensures Tallies(swept, i)
         == (CountOf(swept[..i], Updated), CountOf(swept[..i], Failed), CountOf(swept[..i], Skipped))
  {
    if i > 0 {
      TalliesCount(swept, i - 1);
      assert swept[..i][..i - 1] == swept[..i - 1];
    }
  }

  class Engine {
    const secrets: SecretStore
    var pendingCreds: map<string, Cred>
    ghost var issued: map<string, seq<Cred>>
    ghost var asks: map<string, seq<Ask>>

    constructor (secrets: SecretStore)
      ensures this.secrets == secrets && pendingCreds == map[] && issued == map[] && asks == map[]
    {
      this.secrets := secrets;
      pendingCreds, issued, asks := map[], map[], map[];
    }

    // One account, as `OAuthRefresh` sees it.
    ghost function View(id: string, path: string): Account
      reads this, secrets
    {
      Account(
        if id in pendingCreds then Some(pendingCreds[id]) else None,
        secrets.Lookup(path),
        if id in issued then issued[id] else [],
        if id in asks then asks[id] else [])
    }

    method StorePendingCred(id: string, cred: Cred)
      modifies this`pendingCreds
      ensures pendingCreds == old(pendingCreds)[id := cred]
    {
      pendingCreds := pendingCreds[id := cred];
    }

    method TakePendingCred(id: string) returns (c: Option<Cred>)
      ensures c == if id in pendingCreds then Some(pendingCreds[id]) else None
    {
      c := if id in pendingCreds then Some(pendingCreds[id]) else None;
    }

    method ClearPendingCred(id: string)
      modifies this`pendingCreds
      ensures pendingCreds == old(pendingCreds) - {id}
    {
      pendingCreds := pendingCreds - {id};
    }

    method PutCredentialWithRetry(path: string, c: Cred, outs: seq<PutOutcome>) returns (ok: bool)
      requires |outs| >= PUT_MAX_ATTEMPTS
      modifies secrets
      ensures (secrets.Lookup(path), ok) == PutWithRetry(old(secrets.Lookup(path)), c, Attempts(outs))
      ensures forall q :: q != path ==> secrets.Lookup(q) == old(secrets.Lookup(q))
    {
      ghost var all := Attempts(outs);
      ok := false;
      for i := 0 to PUT_MAX_ATTEMPTS
        invariant !ok
        invariant PutWithRetry(old(secrets.Lookup(path)), c, all)
               == PutWithRetry(secrets.Lookup(path), c, all[i..])
        invariant forall q :: q != path ==> secrets.Lookup(q) == old(secrets.Lookup(q))
      {
        assert all[i..][0] == outs[i] && all[i..][1..] == all[i + 1..];
        ok := secrets.Put(path, c, outs[i]);
        if ok || outs[i].cancelled {
          return;
        }
      }
    }

    // Writes `cred`, and keeps it in memory exactly when the write fails.
    method PutOrKeep(id: string, path: string, cred: Cred, outs: seq<PutOutcome>)
      requires |outs| >= PUT_MAX_ATTEMPTS
      modifies this`pendingCreds, secrets
      ensures View(id, path) == Persist(old(View(id, path)), cred, outs)
      ensures forall i, q :: i != id && q != path ==> View(i, q) == old(View(i, q))
    {
      var ok := PutCredentialWithRetry(path, cred, outs);
      if !ok {
        StorePendingCred(id, cred);
      } else {
        ClearPendingCred(id);
      }
    }

    /** One call of refreshOAuthCredential does to its account what `Refresh` says, and
        nothing to any other account. */
    method RefreshOAuthCredential(id: string, path: string, held: Cred, env: Env)
      returns (r: Result<Cred, Failure>)
      requires |env.pendingPuts| >= PUT_MAX_ATTEMPTS && |env.newPuts| >= PUT_MAX_ATTEMPTS
      modifies this, secrets
      ensures (View(id, path), r) == Refresh(old(View(id, path)), held, env)
      ensures forall i, q :: i != id && q != path ==> View(i, q) == old(View(i, q))
    {
      var pending := TakePendingCred(id);
      if pending.Some? {
        PutOrKeep(id, path, pending.value, env.pendingPuts);
        if CredsRotated(pending.value, held) || pending.value.accessToken != "" {
          return Ok(pending.value);
        }
      }
      r := RereadAndRotate(id, path, held, env);
    }

    // Asks the vendor; both the request and an issued credential are recorded.
    method AskFor(id: string, path: string, held: Cred, current: Option<Cred>, sent: string, env: Env)
      returns (cred: Option<Cred>)
      requires current == LoadCredential(secrets.Lookup(path), env.readOk)
      modifies this`issued, this`asks
      ensures View(id, path) == AskVendor(old(View(id, path)), held, env.readOk, sent, env.vendor)
      ensures env.vendor.Refused? ==> cred == None
      ensures env.vendor.Issued? ==> cred == Some(View(id, path).issued[|old(View(id, path)).issued|])
      ensures forall i, q :: i != id && q != path ==> View(i, q) == old(View(i, q))
    {
      ghost var before := View(id, path);
      asks := asks[
        id := before.asks + [Ask(held, env.readOk, |before.issued|, before.pending.Some?, sent, env.vendor)]];
      if env.vendor.Refused? {
        return None;
      }
      cred := Some(NewCred(env.vendor.tokens, sent, held, current));
      issued := issued[id := before.issued + [cred.value]];
    }

    method RereadAndRotate(id: string, path: string, held: Cred, env: Env)
      returns (r: Result<Cred, Failure>)
      requires |env.newPuts| >= PUT_MAX_ATTEMPTS
      modifies this, secrets
      ensures (View(id, path), r) == Rotate(old(View(id, path)), held, env)
      ensures forall i, q :: i != id && q != path ==> View(i, q) == old(View(i, q))
    {
      var current := LoadCredential(secrets.Lookup(path), env.readOk);
      if current.Some? && CredsRotated(current.value, held) {
        return Ok(current.value);
      }
      var refreshTok := held.refreshToken;
      if current.Some? && current.value.refreshToken != "" {
        refreshTok := current.value.refreshToken;
      }
      if Trim(refreshTok) == "" {
        return Err(MissingRefreshToken);
      }
      var cred := AskFor(id, path, held, current, refreshTok, env);
      if cred.None? {
        return Err(VendorRefused);
      }
      PutOrKeep(id, path, cred.value, env.newPuts);
      r := Ok(cred.value);
    }

    ghost function ViewOf(row: Row): Account
      reads this, secrets
    {
      View(row.id, row.path)
    }

    ghost function Views(rows: seq<Row>): (views: seq<Account>)
      reads this, secrets
      ensures |views| == |rows|
      ensures forall k :: 0 <= k < |rows| ==> views[k] == ViewOf(rows[k])
    {
      seq(|rows|, k requires 0 <= k < |rows| reads this, secrets => ViewOf(rows[k]))
    }

    method Sweep(row: Row, due: string -> bool, readOk: bool, env: Env) returns (outcome: Swept)
      requires |env.pendingPuts| >= PUT_MAX_ATTEMPTS && |env.newPuts| >= PUT_MAX_ATTEMPTS
      modifies this, secrets
      ensures (ViewOf(row), outcome) == SweepOne(old(ViewOf(row)), row.authType, due, readOk, env)
      ensures forall r: Row :: r.id != row.id && r.path != row.path ==> ViewOf(r) == old(ViewOf(r))
    {
      if !EqualFold(row.authType, "oauth") {
        return Skipped;
      }
      var cred := LoadCredential(secrets.Lookup(row.path), readOk);
      if cred.None? {
        return Failed;
      }
      if !due(cred.value.expiresAt) || Trim(cred.value.refreshToken) == "" {
        return Skipped;
      }
      var r := RefreshOAuthCredential(row.id, row.path, cred.value, env);
      outcome := if r.Ok? then Updated else Failed;
    }

    // The first `i` rows stand where the sweep puts them, the others where they were.
    ghost predicate SweptUpTo(rows: seq<Row>, before: seq<Account>, swept: seq<(Account, Swept)>, i: nat)
      requires |before| == |swept| == |rows|
      reads this, secrets
    {
      forall k :: 0 <= k < |rows| ==> ViewOf(rows[k]) == if k < i then swept[k].0 else before[k]
    }

    // The counter that an outcome bumps.
    method CountOutcome(u0: nat, f0: nat, s0: nat, outcome: Swept) returns (u: nat, f: nat, s: nat)
      ensures (u, f, s) == Bump((u0, f0, s0), outcome)
    {
      u, f, s := u0, f0, s0;
      match outcome {
        case Updated => u := u + 1;
        case Failed => f := f + 1;
        case Skipped => s := s + 1;
      }
    }

    method SweepRow(rows: seq<Row>, i: nat, due: string -> bool, readOks: seq<bool>, envs: seq<Env>,
                    ghost before: seq<Account>, ghost swept: seq<(Account, Swept)>)
      returns (outcome: Swept)
      requires |before| == |readOks| == |envs| == |rows| && DistinctRows(rows) && EnoughAnswers(envs)
      requires i < |rows|
      requires swept == SweepAll(before, rows, due, readOks, envs)
      requires SweptUpTo(rows, before, swept, i)
      modifies this, secrets
      ensures SweptUpTo(rows, before, swept, i + 1)
      ensures outcome == swept[i].1
    {
      assert ViewOf(rows[i]) == before[i];
      assert swept[i] == SweepOne(before[i], rows[i].authType, due, readOks[i], envs[i]);
      assert forall k :: 0 <= k < |rows| && k != i ==> rows[k].id != rows[i].id && rows[k].path != rows[i].path;
      outcome := Sweep(rows[i], due, readOks[i], envs[i]);
    }

    /** The proactive sweep treats each account as `SweepOne` says and counts every account
        exactly once. `due` stands for the comparison of an expiry with now plus lead. */
    method RefreshExpiringOAuth(rows: seq<Row>, due: string -> bool, readOks: seq<bool>, envs: seq<Env>)
      returns (updated: nat, failed: nat, skipped: nat)
      requires |readOks| == |envs| == |rows| && DistinctRows(rows) && EnoughAnswers(envs)
      modifies this, secrets
      ensures
        var swept := SweepAll(old(Views(rows)), rows, due, readOks, envs);
        && SweptUpTo(rows, old(Views(rows)), swept, |rows|)
        && (updated, failed, skipped) == Tallies(swept, |rows|)
        && updated + failed + skipped == |rows|
    {
      ghost var before := Views(rows);
      ghost var swept := SweepAll(before, rows, due, readOks, envs);
      updated, failed, skipped := 0, 0, 0;
      for i := 0 to |rows|
        invariant SweptUpTo(rows, before, swept, i)
        invariant (updated, failed, skipped) == Tallies(swept, i)
      {
        var outcome := SweepRow(rows, i, due, readOks, envs, before, swept);
        updated, failed, skipped := CountOutcome(updated, failed, skipped, outcome);
      }
      TalliesTotal(swept, |rows|);
    }
  }
}
