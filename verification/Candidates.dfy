/** The loops that build candidate lists, proved against the functions of `Router`. */
module Candidates {
  import opened Wrappers
  import opened Router

  method ExcludeTried(accounts: seq<Account>, tried: set<nat>) returns (out: seq<Account>)
    ensures out == Exclude(accounts, tried)
  {
    if tried == {} {
      ExcludeNothing(accounts);
      return accounts;
    }
    out := [];
    for i := 0 to |accounts|
      invariant out == Exclude(accounts[..i], tried)
    {
      assert accounts[..i + 1][..i] == accounts[..i];
      if accounts[i].id !in tried {
        out := out + [accounts[i]];
      }
    }
    assert accounts[..|accounts|] == accounts;
  }

  lemma {:induction false} ExcludeNothing(accounts: seq<Account>)
    ensures Exclude(accounts, {}) == accounts
  {
    if accounts != [] {
      var n := |accounts| - 1;
      ExcludeNothing(accounts[..n]);
      assert Untried({})(accounts[n]);
      assert accounts[..n] + [accounts[n]] == accounts;
    }
  }

  method Prefer(accounts: seq<Account>, prefer: nat) returns (out: seq<Account>)
    ensures out == PreferAccount(accounts, prefer)
  {
    if prefer == NIL_ID || |accounts| < 2 {
      return accounts;
    }
    var rest: seq<Account> := [];
    var found: Option<Account> := None;
    ghost var same := Named(prefer);
    ghost var other := NotNamed(prefer);
    for i := 0 to |accounts|
      invariant rest == Filter(accounts[..i], other)
      invariant var f := Filter(accounts[..i], same); found == if f == [] then None else Some(f[|f| - 1])
      invariant found.Some? ==> HasId(accounts, prefer)
      invariant found.None? ==> forall k :: 0 <= k < i ==> accounts[k].id != prefer
    {
      assert accounts[..i + 1][..i] == accounts[..i];
      if accounts[i].id == prefer {
        found := Some(accounts[i]);
      } else {
        rest := rest + [accounts[i]];
      }
    }
    assert accounts[..|accounts|] == accounts;
    if found.None? {
      return accounts;
    }
    out := [found.value] + rest;
  }
}
