/** The fixed-window rate limiter. Instants and durations are integers. */
module RateLimit {

  datatype Bucket = Bucket(start: int, count: nat)

  const DEFAULT_LIMIT: nat := 60
  const DEFAULT_WINDOW: int := 60_000_000_000

  // One request of `key` at `now` against the limit `limit`: the buckets afterwards, and
  // whether it is admitted.
  function Allow(
    buckets: map<string, Bucket>, window: int, limit: int, key: string, now: int): (map<string, Bucket>, bool)
  {
    if key !in buckets || now - buckets[key].start >= window then (buckets[key := Bucket(now, 1)], true)
    else if buckets[key].count >= limit then (buckets, false)
    else (buckets[key := buckets[key].(count := buckets[key].count + 1)], true)
  }

  class MemoryLimiter {
    const limit: int
    const window: int
    var buckets: map<string, Bucket>

    constructor (limit: int, window: int)
      ensures this.limit > 0 && this.window > 0 && buckets == map[]
      ensures limit > 0 ==> this.limit == limit
      ensures window > 0 ==> this.window == window
    {
      this.limit := if limit <= 0 then DEFAULT_LIMIT else limit;
      this.window := if window <= 0 then DEFAULT_WINDOW else window;
      buckets := map[];
    }

    // A limit that is not positive stands for the default one.
    method AllowWithLimit(key: string, limit: int, now: int) returns (ok: bool)
      modifies this
      ensures (buckets, ok) == Allow(old(buckets), window, if limit <= 0 then this.limit else limit, key, now)
    {
      var cap := if limit <= 0 then this.limit else limit;
      if key !in buckets || now - buckets[key].start >= window {
        buckets := buckets[key := Bucket(now, 1)];
        return true;
      }
      var b := buckets[key];
      if b.count >= cap {
        return false;
      }
      buckets := buckets[key := b.(count := b.count + 1)];
      ok := true;
    }
  }

  // ---------------------------------------------------------------------------
  // Traces
  // ---------------------------------------------------------------------------

  datatype Request = Request(key: string, at: int)

  predicate InOrder(trace: seq<Request>) {
    forall i, j :: 0 <= i < j < |trace| ==> trace[i].at <= trace[j].at
  }

  // The buckets after a trace.
  function After(trace: seq<Request>, window: int, limit: int): map<string, Bucket> {
    if trace == [] then map[]
    else
      var r := trace[|trace| - 1];
      Allow(After(trace[..|trace| - 1], window, limit), window, limit, r.key, r.at).0
  }

  // The instants at which requests of `key` were admitted.
  function Admitted(trace: seq<Request>, window: int, limit: int, key: string): seq<int> {
    if trace == [] then []
    else
      var before := trace[..|trace| - 1];
      var r := trace[|trace| - 1];
      Admitted(before, window, limit, key)
      + if r.key == key && Allow(After(before, window, limit), window, limit, r.key, r.at).1 then [r.at] else []
  }

  // The requests of one key.
  function Only(trace: seq<Request>, key: string): seq<Request> {
    if trace == [] then []
    else
      var r := trace[|trace| - 1];
      Only(trace[..|trace| - 1], key) + if r.key == key then [r] else []
  }

  lemma {:induction false} OnlySeesKey(trace: seq<Request>, window: int, limit: int, key: string)
    ensures var a, b := After(trace, window, limit), After(Only(trace, key), window, limit);
      (key in a <==> key in b) && (key in a ==> a[key] == b[key])
    ensures Admitted(trace, window, limit, key) == Admitted(Only(trace, key), window, limit, key)
  {
    if trace != [] {
      var before := trace[..|trace| - 1];
      var r := trace[|trace| - 1];
      OnlySeesKey(before, window, limit, key);
      if r.key == key {
        var only := Only(before, key) + [r];
        assert only[..|only| - 1] == Only(before, key);
      } else {
        assert Only(before, key) + [] == Only(before, key);
        assert Admitted(before, window, limit, key) + [] == Admitted(before, window, limit, key);
      }
    }
  }

  /** Keys do not affect each other: what a key is admitted depends on its own requests alone. */
  lemma {:induction false} KeysAreIndependent(t1: seq<Request>, t2: seq<Request>, window: int, limit: int, key: string)
    requires Only(t1, key) == Only(t2, key)
    ensures Admitted(t1, window, limit, key) == Admitted(t2, window, limit, key)
  {
    OnlySeesKey(t1, window, limit, key);
    OnlySeesKey(t2, window, limit, key);
  }

  // ---------------------------------------------------------------------------
  // The bound
  // ---------------------------------------------------------------------------

  // The instants at which windows of `key` were opened.
  function Starts(trace: seq<Request>, window: int, limit: int, key: string): seq<int> {
    if trace == [] then []
    else
      var before := trace[..|trace| - 1];
      var r := trace[|trace| - 1];
      var buckets := After(before, window, limit);
      Starts(before, window, limit, key)
      + if r.key == key && (key !in buckets || r.at - buckets[key].start >= window) then [r.at] else []
  }

  predicate Sorted(s: seq<int>, now: int) {
    && (forall i :: 0 <= i < |s| ==> s[i] <= now)
    && (forall i, j :: 0 <= i < j < |s| ==> s[i] <= s[j])
  }

  // The admissions of the open window come last; before them, those a whole limit back are
  // a whole window back.
  predicate OpenWindow(admitted: seq<int>, b: Bucket, window: int, limit: nat) {
    var q := |admitted| - b.count;
    && 1 <= b.count <= limit && b.count <= |admitted|
    && (forall i :: q <= i < |admitted| ==> b.start <= admitted[i] < b.start + window)
    && (forall i :: 0 <= i < q ==> admitted[i] < b.start)
    && (forall i :: 0 <= i < q - limit ==> admitted[i] + window <= b.start)
  }

  // Any limit + 1 admissions in a row straddle the opening of a window.
  predicate Straddles(admitted: seq<int>, starts: seq<int>, limit: nat) {
    forall i, j :: 0 <= i < |admitted| && j == i + limit && j < |admitted| ==> Opened(starts, admitted[i], admitted[j])
  }

  // A window was opened after `lo` and by `hi`.
  predicate Opened(starts: seq<int>, lo: int, hi: int) {
    exists k :: 0 <= k < |starts| && lo < starts[k] <= hi
  }

  // Windows open at least one window length apart.
  predicate Spaced(starts: seq<int>, window: int) {
    forall k, l :: 0 <= k < l < |starts| ==> starts[k] + window <= starts[l]
  }

  // Any 2 * limit + 1 admissions in a row take at least a window length.
  predicate Slow(admitted: seq<int>, window: int, limit: nat) {
    forall i, j :: 0 <= i < |admitted| && j == i + 2 * limit && j < |admitted| ==> admitted[i] + window <= admitted[j]
  }

  // What holds of one key after every request.
  ghost predicate Kept(
    buckets: map<string, Bucket>, key: string, admitted: seq<int>, starts: seq<int>, window: int, limit: nat, now: int)
  {
    && Sorted(admitted, now) && Straddles(admitted, starts, limit)
    && Spaced(starts, window) && Slow(admitted, window, limit)
    && (key !in buckets ==> admitted == [] && starts == [])
    && (key in buckets ==>
          && OpenWindow(admitted, buckets[key], window, limit)
          && starts != [] && starts[|starts| - 1] == buckets[key].start <= now)
  }

  lemma {:induction false} MoreIsSlow(admitted: seq<int>, window: int, limit: nat, now: int)
    requires Slow(admitted, window, limit) && limit > 0
    requires forall i :: 0 <= i && i + limit < |admitted| ==>
               i == |admitted| - 2 * limit ==> admitted[i] + window <= now
    ensures Slow(admitted + [now], window, limit)
  {
  }

  lemma {:induction false} MoreStraddles(
    admitted: seq<int>, starts: seq<int>, more: seq<int>, limit: nat, now: int, k: nat)
    requires Straddles(admitted, starts, limit) && limit > 0 && starts <= more && k < |more| && more[k] <= now
    requires |admitted| >= limit ==> admitted[|admitted| - limit] < more[k]
    ensures Straddles(admitted + [now], more, limit)
  {
    var a := admitted + [now];
    forall i, j | 0 <= i < |a| && j == i + limit && j < |a|
      ensures Opened(more, a[i], a[j])
    {
      if j < |admitted| {
        assert Opened(starts, admitted[i], admitted[j]);
        var l :| 0 <= l < |starts| && admitted[i] < starts[l] <= admitted[j];
        assert more[l] == starts[l];
      } else {
        assert a[i] < more[k] <= a[j];
      }
    }
  }

  // All admissions lie before a window that opens now.
  lemma {:induction false} AllBefore(admitted: seq<int>, b: Bucket, window: int, limit: nat, now: int)
    requires OpenWindow(admitted, b, window, limit) && now - b.start >= window > 0
    ensures forall i :: 0 <= i < |admitted| ==> admitted[i] < now
    ensures forall i :: 0 <= i < |admitted| - limit ==> admitted[i] + window <= now
  {
    var q := |admitted| - b.count;
    forall i | 0 <= i < |admitted| - limit
      ensures admitted[i] + window <= now
    {
      assert i < q;
    }
  }

  lemma {:induction false} OpensWindow(admitted: seq<int>, window: int, limit: nat, now: int)
    requires limit > 0 && window > 0
    requires forall i :: 0 <= i < |admitted| ==> admitted[i] < now
    requires forall i :: 0 <= i < |admitted| - limit ==> admitted[i] + window <= now
    ensures OpenWindow(admitted + [now], Bucket(now, 1), window, limit)
  {
  }

  lemma {:induction false} OpeningKeeps(
    buckets: map<string, Bucket>, key: string, admitted: seq<int>, starts: seq<int>, window: int, limit: nat,
    was: int, now: int)
    requires Kept(buckets, key, admitted, starts, window, limit, was) && was <= now && limit > 0 && window > 0
    requires key !in buckets || now - buckets[key].start >= window
    ensures Kept(buckets[key := Bucket(now, 1)], key, admitted + [now], starts + [now], window, limit, now)
  {
    if key in buckets {
      AllBefore(admitted, buckets[key], window, limit, now);
      SpacedMore(starts, window, buckets[key].start, now);
    }
    OpensWindow(admitted, window, limit, now);
    MoreStraddles(admitted, starts, starts + [now], limit, now, |starts|);
    MoreIsSlow(admitted, window, limit, now);
  }

  lemma {:induction false} SpacedMore(starts: seq<int>, window: int, last: int, now: int)
    requires Spaced(starts, window) && starts != [] && starts[|starts| - 1] == last
    requires last + window <= now && window > 0
    ensures Spaced(starts + [now], window)
  {
    forall k | 0 <= k < |starts|
      ensures starts[k] + window <= now
    {
      assert k < |starts| - 1 ==> starts[k] + window <= starts[|starts| - 1];
    }
  }

  lemma {:induction false} CountingKeeps(
    buckets: map<string, Bucket>, key: string, admitted: seq<int>, starts: seq<int>, window: int, limit: nat,
    was: int, now: int)
    requires Kept(buckets, key, admitted, starts, window, limit, was) && was <= now && limit > 0 && window > 0
    requires key in buckets && now - buckets[key].start < window && buckets[key].count < limit
    ensures Kept(buckets[key := buckets[key].(count := buckets[key].count + 1)], key, admitted + [now], starts,
                 window, limit, now)
  {
    MoreStraddles(admitted, starts, starts, limit, now, |starts| - 1);
    MoreIsSlow(admitted, window, limit, now);
  }

  lemma {:induction false} OtherKeyKeeps(
    buckets: map<string, Bucket>, other: map<string, Bucket>, key: string, admitted: seq<int>, starts: seq<int>,
    window: int, limit: nat, was: int, now: int)
    requires Kept(buckets, key, admitted, starts, window, limit, was) && was <= now
    requires (key in other <==> key in buckets) && (key in buckets ==> other[key] == buckets[key])
    ensures Kept(other, key, admitted, starts, window, limit, now)
  {
  }

  // One request keeps it, whether it is another key's, is refused, counted or opens a window.
  lemma {:induction false} RequestKeeps(
    buckets: map<string, Bucket>, key: string, admitted: seq<int>, starts: seq<int>, window: int, limit: nat,
    was: int, r: Request)
    requires Kept(buckets, key, admitted, starts, window, limit, was) && was <= r.at && limit > 0 && window > 0
    ensures var (buckets', ok) := Allow(buckets, window, limit, r.key, r.at);
      var opens := r.key == key && (key !in buckets || r.at - buckets[key].start >= window);
      Kept(buckets', key, admitted + if r.key == key && ok then [r.at] else [], starts + if opens then [r.at] else [],
           window, limit, r.at)
  {
    var buckets' := Allow(buckets, window, limit, r.key, r.at).0;
    assert admitted + [] == admitted && starts + [] == starts;
    if r.key != key {
      OtherKeyKeeps(buckets, buckets', key, admitted, starts, window, limit, was, r.at);
    } else if key !in buckets || r.at - buckets[key].start >= window {
      OpeningKeeps(buckets, key, admitted, starts, window, limit, was, r.at);
    } else if buckets[key].count < limit {
      CountingKeeps(buckets, key, admitted, starts, window, limit, was, r.at);
    } else {
      OtherKeyKeeps(buckets, buckets, key, admitted, starts, window, limit, was, r.at);
    }
  }

  /** Every request keeps the windows in order, for every trace and every key. */
  lemma {:induction false} TraceKeeps(trace: seq<Request>, window: int, limit: nat, key: string)
    requires InOrder(trace) && limit > 0 && window > 0
    ensures Kept(After(trace, window, limit), key,
                 Admitted(trace, window, limit, key), Starts(trace, window, limit, key),
                 window, limit, if trace == [] then 0 else trace[|trace| - 1].at)
  {
    if trace != [] {
      var before := trace[..|trace| - 1];
      var r := trace[|trace| - 1];
      var was := if before == [] then 0 else before[|before| - 1].at;
      var buckets := After(before, window, limit);
      var admitted, starts := Admitted(before, window, limit, key), Starts(before, window, limit, key);
      TraceKeeps(before, window, limit, key);
      if before == [] {
        RequestKeeps(map[], key, [], [], window, limit, r.at, r);
      } else {
        RequestKeeps(buckets, key, admitted, starts, window, limit, was, r);
      }
    }
  }

  /** Each window admits at most `limit` requests of a key: windows open at least a window
      length apart, and more admissions than the limit straddle an opening. */
  lemma {:induction false} WindowAdmitsLimit(trace: seq<Request>, window: int, limit: nat, key: string)
    requires InOrder(trace) && limit > 0 && window > 0
    ensures Spaced(Starts(trace, window, limit, key), window)
    ensures Straddles(Admitted(trace, window, limit, key), Starts(trace, window, limit, key), limit)
  {
    TraceKeeps(trace, window, limit, key);
  }

  function Within(admitted: seq<int>, from: int, window: int): set<nat> {
    set i: nat | i < |admitted| && from <= admitted[i] < from + window
  }

  lemma {:induction false} RangeSize(s: set<nat>, lo: nat, n: nat)
    requires forall i :: i in s ==> lo <= i < lo + n
    ensures |s| <= n
  {
    if n > 0 {
      RangeSize(s - {lo + n - 1}, lo, n - 1);
    } else {
      assert s == {};
    }
  }

  // The first admission at or after an instant.
  function FirstFrom(admitted: seq<int>, from: int): (i: nat)
    ensures i <= |admitted|
    ensures i < |admitted| ==> admitted[i] >= from
    ensures forall k :: 0 <= k < i ==> admitted[k] < from
  {
    if admitted == [] || admitted[0] >= from then 0 else FirstFrom(admitted[1..], from) + 1
  }

  lemma {:induction false} SlowInterval(admitted: seq<int>, window: int, limit: nat, from: int, i: nat)
    requires forall a, b :: 0 <= a < b < |admitted| ==> admitted[a] <= admitted[b]
    requires Slow(admitted, window, limit) && limit > 0 && i in Within(admitted, from, window)
    ensures FirstFrom(admitted, from) <= i < FirstFrom(admitted, from) + 2 * limit
  {
    var m := FirstFrom(admitted, from);
    assert m <= i;
    var j := m + 2 * limit;
    assert j < |admitted| ==> admitted[m] + window <= admitted[j];
  }

  /** Any half-open interval of one window length admits at most twice the limit. */
  lemma {:induction false} IntervalAdmitsTwiceLimit(
    trace: seq<Request>, window: int, limit: nat, key: string, from: int)
    requires InOrder(trace) && limit > 0 && window > 0
    ensures |Within(Admitted(trace, window, limit, key), from, window)| <= 2 * limit
  {
    var admitted := Admitted(trace, window, limit, key);
    var s := Within(admitted, from, window);
    TraceKeeps(trace, window, limit, key);
    forall i | i in s
      ensures FirstFrom(admitted, from) <= i < FirstFrom(admitted, from) + 2 * limit
    {
      SlowInterval(admitted, window, limit, from, i);
    }
    RangeSize(s, FirstFrom(admitted, from), 2 * limit);
  }

  // ---------------------------------------------------------------------------
  // Exactly which requests are admitted
  // ---------------------------------------------------------------------------

  // The window of a key after a trace: when it opened, and how many requests fell into it.
  // A window opens with a request, and for as long as it is open takes all that follow.
  datatype Window = Closed | Open(since: int, requests: nat)

  predicate Joins(w: Window, window: int, at: int) {
    w.Open? && at < w.since + window
  }

  function WindowAfter(trace: seq<Request>, window: int, key: string): Window {
    if trace == [] then Closed
    else
      var w := WindowAfter(trace[..|trace| - 1], window, key);
      var r := trace[|trace| - 1];
      if r.key != key then w else if Joins(w, window, r.at) then Open(w.since, w.requests + 1) else Open(r.at, 1)
  }

  // The bucket counts the requests of the window, up to the limit.
  predicate Counts(buckets: map<string, Bucket>, key: string, w: Window, limit: nat) {
    if w.Closed? then key !in buckets
    else
      && key in buckets && w.requests > 0
      && buckets[key] == Bucket(w.since, if w.requests < limit then w.requests else limit)
  }

  lemma {:induction false} BucketCounts(trace: seq<Request>, window: int, limit: nat, key: string)
    requires limit > 0
    ensures Counts(After(trace, window, limit), key, WindowAfter(trace, window, key), limit)
  {
    if trace != [] {
      BucketCounts(trace[..|trace| - 1], window, limit, key);
    }
  }

  /** A request is admitted exactly when it opens a window or is among the first `limit`
      requests of the window that is open. */
  lemma {:induction false} AdmitsFirstOfWindow(trace: seq<Request>, window: int, limit: nat, r: Request)
    requires limit > 0
    ensures var w := WindowAfter(trace, window, r.key);
      Allow(After(trace, window, limit), window, limit, r.key, r.at).1
      <==> (Joins(w, window, r.at) ==> w.requests < limit)
  {
    BucketCounts(trace, window, limit, r.key);
  }
}
