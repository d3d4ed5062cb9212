/**
 Statuses and cooldowns. Durations are nanoseconds held in an int64, so products wrap.
 */
module Cooldown {
  import opened Router
  import opened Arith

  predicate IsRetryableStatus(code: int) {
    code in {401, 403, 429} || code >= 500
  }

  predicate IsSuccessStatus(code: int) {
    200 <= code < 300
  }

  predicate IsSoftFail(code: int) {
    IsRetryableStatus(code) || code == 0
  }

  const TWO_63: int := 0x8000_0000_0000_0000
  const TWO_64: int := 0x1_0000_0000_0000_0000

  // The int64 that a product of integers is stored as.
  function Wrap64(x: int): int {
    (x + TWO_63) % TWO_64 - TWO_63
  }

  function Pow2(n: nat): nat {
    if n == 0 then 1 else 2 * Pow2(n - 1)
  }

  // 2^level seconds, at most two minutes. Converting a power of two beyond int64 to an
  // integer is left to the platform, which yields `beyond`.
  function ExponentialBackoff(level: int, beyond: int): int {
    var l := if level < 0 then 0 else level;
    var d := Wrap64((if l < 63 then Pow2(l) else beyond) * SECOND);
    if d > 2 * MINUTE then 2 * MINUTE else d
  }

  function CooldownForStatus(status: int, backoffLevel: int, beyond: int): int {
    if status == 401 then 5 * MINUTE
    else if status in {402, 403} then 30 * MINUTE
    else if status == 429 then ExponentialBackoff(backoffLevel, beyond)
    else if status in {500, 502, 504} then 10 * SECOND
    else if status == 503 then 30 * SECOND
    else if status >= 400 then 30 * SECOND
    else 5 * SECOND
  }

  // The Retry-After header (section 10.2.3 of RFC 9110) after trimming and parsing.
  datatype RetryAfter = Absent | Seconds(n: int) | HttpDate(at: int) | Unparsed

  function Clamp(d: int): int {
    if d < SECOND then SECOND else if d > 2 * HOUR then 2 * HOUR else d
  }

  function CooldownFromHeaders(status: int, header: RetryAfter, backoffLevel: int, now: int, beyond: int): int {
    match header
    case Seconds(n) =>
      if n >= 0 then Clamp(Wrap64(n * SECOND)) else CooldownForStatus(status, backoffLevel, beyond)
    case HttpDate(at) => Clamp(at - now)
    case _ => CooldownForStatus(status, backoffLevel, beyond)
  }

  /** Every cooldown the dispatcher sets lies in [1s, 2h]: for all statuses and every
      Retry-After value, products that overflow int64 included. */
  lemma {:induction false} SoftFailCooldownInRange(status: int, header: RetryAfter, now: int, beyond: int)
    ensures SECOND <= CooldownFromHeaders(status, header, 0, now, beyond) <= 2 * HOUR
  {
    FirstBackoff(beyond);
  }

  lemma {:induction false} FirstBackoff(beyond: int)
    ensures ExponentialBackoff(0, beyond) == SECOND
  {
    assert Pow2(0) == 1;
  }

  /** How long a seat rests after a status for want of a Retry-After header. */
  lemma {:induction false} RestsByStatus(status: int, beyond: int)
    ensures var d := CooldownForStatus(status, 0, beyond);
      && (status < 400 ==> d == 5 * SECOND)
      && (status == 401 ==> d == 300 * SECOND)
      && (status == 402 || status == 403 ==> d == 1800 * SECOND)
      && (status == 429 ==> d == SECOND)
      && (status == 500 || status == 502 || status == 504 ==> d == 10 * SECOND)
      && (status >= 400 && status !in {401, 402, 403, 429, 500, 502, 504} ==> d == 30 * SECOND)
  {
    FirstBackoff(beyond);
  }

  lemma {:induction false} Pow2Grows(m: nat, n: nat)
    requires m <= n
    ensures 1 <= Pow2(m) <= Pow2(n)
  {
    if m < n {
      Pow2Grows(m, n - 1);
    } else if m > 0 {
      Pow2Grows(m - 1, m - 1);
    }
  }

  lemma {:induction false} TwiceProduct(a: nat, b: nat)
    ensures 2 * (a * b) == (2 * a) * b
  {
  }

  lemma {:induction false} Pow2Sum(m: nat, n: nat)
    ensures Pow2(m + n) == Pow2(m) * Pow2(n)
  {
    if m > 0 {
      Pow2Sum(m - 1, n);
      TwiceProduct(Pow2(m - 1), Pow2(n));
    }
  }

  lemma Pow2Values()
    ensures Pow2(9) == 512 && Pow2(33) == 0x2_0000_0000 && Pow2(55) == 0x80_0000_0000_0000
  {
    assert Pow2(11) == 2048;
    Pow2Sum(11, 11);
    Pow2Sum(22, 11);
    Pow2Sum(33, 11);
    Pow2Sum(44, 11);
  }

  /** Up to level 33 the backoff is monotone and lies in [1s, 2min]. */
  lemma {:induction false} BackoffMonotone(low: int, high: int, beyond: int)
    requires low <= high <= 33
    ensures SECOND <= ExponentialBackoff(low, beyond) <= ExponentialBackoff(high, beyond) <= 2 * MINUTE
  {
    var l := if low < 0 then 0 else low;
    var h := if high < 0 then 0 else high;
    Pow2Grows(l, h);
    Pow2Grows(h, 33);
    Pow2Values();
    NoWrap(Pow2(l) * SECOND);
    NoWrap(Pow2(h) * SECOND);
  }

  /** One, two, four, ... up to 64 seconds, and from then on two minutes. */
  lemma {:induction false} BackoffIs(level: int, beyond: int)
    requires level <= 33
    ensures ExponentialBackoff(level, beyond)
         == if level <= 0 then SECOND
            else if level == 1 then 2 * SECOND
            else if level == 2 then 4 * SECOND
            else if level == 3 then 8 * SECOND
            else if level == 4 then 16 * SECOND
            else if level == 5 then 32 * SECOND
            else if level == 6 then 64 * SECOND
            else 120 * SECOND
  {
    var l := if level < 0 then 0 else level;
    Pow2Values();
    Pow2Grows(l, 33);
    NoWrap(Pow2(l) * SECOND);
    assert Pow2(7) == 128;
    if l >= 7 {
      Pow2Grows(7, l);
    }
  }

  lemma {:induction false} NoWrap(x: int)
    requires 0 <= x < TWO_63
    ensures Wrap64(x) == x
  {
  }

  // The levels above 33 whose wrapped product happens to be positive.
  const LUCKY_LEVELS: set<int> := {37, 41, 42, 45, 47, 50, 51, 53}

  lemma {:induction false} BackoffOverflowsToZero(level: int, beyond: int)
    requires 55 <= level < 63
    ensures ExponentialBackoff(level, beyond) == 0
  {
    Pow2Sum(55, level - 55);
    Pow2Values();
    var m := Pow2(level - 55);
    assert SECOND == 512 * 1953125;
    assert Pow2(level) * SECOND == TWO_64 * (m * 1953125);
    MultipleWraps(m * 1953125);
  }

  lemma {:induction false} MultipleWraps(q: int)
    ensures Wrap64(TWO_64 * q) == 0
  {
    assert TWO_64 * q + TWO_63 == TWO_64 * q + TWO_63;
    assert (TWO_64 * q + TWO_63) % TWO_64 == TWO_63;
  }

  // Doubling an int64, by cases.
  function Doubled(w: int): int {
    if 2 * w >= TWO_63 then 2 * w - TWO_64 else if 2 * w < -TWO_63 then 2 * w + TWO_64 else 2 * w
  }

  lemma {:induction false} DoubledIsWrapped(w: int)
    requires -TWO_63 <= w < TWO_63
    ensures Wrap64(2 * w) == Doubled(w)
  {
    if 2 * w >= TWO_63 {
      WrapShift(2 * w - TWO_64, 1);
    } else if 2 * w < -TWO_63 {
      WrapShift(2 * w + TWO_64, -1);
    }
  }

  lemma {:induction false} WrapShift(y: int, k: int)
    ensures Wrap64(y + TWO_64 * k) == Wrap64(y)
  {
    ModShift(y + TWO_63, k, TWO_64);
    assert y + TWO_64 * k + TWO_63 == y + TWO_63 + k * TWO_64;
  }

  lemma {:induction false} DoubleWrap(x: int)
    ensures Wrap64(2 * Wrap64(x)) == Wrap64(2 * x)
  {
    var k := (x + TWO_63) / TWO_64;
    assert x == Wrap64(x) + TWO_64 * k;
    WrapShift(2 * Wrap64(x), 2 * k);
    assert 2 * x == 2 * Wrap64(x) + TWO_64 * (2 * k);
  }

  // The wrapped number of nanoseconds in 2^(33 + n) seconds.
  function WrappedFrom33(n: nat): int {
    if n == 0 then 8_589_934_592_000_000_000 else Doubled(WrappedFrom33(n - 1))
  }

  lemma {:induction false} WrappedFrom33Is(n: nat)
    ensures WrappedFrom33(n) == Wrap64(Pow2(33 + n) * SECOND)
  {
    if n == 0 {
      Pow2Values();
    } else {
      WrappedFrom33Is(n - 1);
      var x := Pow2(32 + n) * SECOND;
      assert Pow2(33 + n) == 2 * Pow2(32 + n);
      assert Pow2(33 + n) * SECOND == 2 * x;
      DoubleWrap(x);
      DoubledIsWrapped(Wrap64(x));
    }
  }

  lemma {:induction false} WrappedTable(n: nat)
    requires 1 <= n <= 21
    ensures WrappedFrom33(n) >= SECOND <==> 33 + n in LUCKY_LEVELS
  {
    assert WrappedFrom33(1) == -1266874889709551616;
    assert WrappedFrom33(2) == -2533749779419103232;
    assert WrappedFrom33(3) == -5067499558838206464;
    assert WrappedFrom33(4) == 8311744956033138688;
    assert WrappedFrom33(5) == -1823254161643274240;
    assert WrappedFrom33(6) == -3646508323286548480;
    assert WrappedFrom33(7) == -7293016646573096960;
    assert WrappedFrom33(8) == 3860710780563357696;
    assert WrappedFrom33(9) == 7721421561126715392;
    assert WrappedFrom33(10) == -3003900951456120832;
    assert WrappedFrom33(11) == -6007801902912241664;
    assert WrappedFrom33(12) == 6431140267885068288;
    assert WrappedFrom33(13) == -5584463537939415040;
    assert WrappedFrom33(14) == 7277816997830721536;
    assert WrappedFrom33(15) == -3891110078048108544;
    assert WrappedFrom33(16) == -7782220156096217088;
    assert WrappedFrom33(17) == 2882303761517117440;
    assert WrappedFrom33(18) == 5764607523034234880;
    assert WrappedFrom33(19) == -6917529027641081856;
    assert WrappedFrom33(20) == 4611686018427387904;
    assert WrappedFrom33(21) == -9223372036854775808;
  }

  lemma {:induction false} BackoffMiddle(level: int, beyond: int)
    requires 34 <= level < 55
    ensures SECOND <= ExponentialBackoff(level, beyond) <= 2 * MINUTE <==> level in LUCKY_LEVELS
  {
    WrappedFrom33Is(level - 33);
    WrappedTable(level - 33);
  }

  // The conversion of a number beyond int64 gives the smallest or the greatest int64.
  predicate Saturates(beyond: int) {
    beyond == -TWO_63 || beyond == TWO_63 - 1
  }

  lemma {:induction false} BackoffBeyond(level: int, beyond: int)
    requires level >= 63 && Saturates(beyond)
    ensures ExponentialBackoff(level, beyond) < SECOND
  {
    if beyond == -TWO_63 {
      assert Wrap64(-TWO_63 * SECOND) == 0;
    } else {
      assert Wrap64((TWO_63 - 1) * SECOND) == -SECOND;
    }
  }

  /** Exactly which levels give a backoff in [1s, 2min]: those up to 33, and those above
      at which the wrapped product happens to come out positive. From level 63 on this is
      said of platforms whose conversion saturates. */
  lemma {:induction false} BackoffInRangeExactly(level: int, beyond: int)
    requires level >= 63 ==> Saturates(beyond)
    ensures SECOND <= ExponentialBackoff(level, beyond) <= 2 * MINUTE
            <==> level <= 33 || level in LUCKY_LEVELS
  {
    if level <= 33 {
      BackoffMonotone(level, level, beyond);
    } else if level < 55 {
      BackoffMiddle(level, beyond);
    } else if level < 63 {
      BackoffOverflowsToZero(level, beyond);
    } else {
      BackoffBeyond(level, beyond);
    }
  }
}
