/** The selector's random source: a 64-bit counter, mixed by three xor-shifts. */
module RandSource {

  function Mix(n: bv64): bv64 {
    var v1 := n ^ (n << 13);
    var v2 := v1 ^ (v1 >> 7);
    v2 ^ (v2 << 17)
  }

  // The draw for counter value `n` in a range of `total`.
  function Draw(n: nat, total: nat): (r: nat)
    requires total > 0
    ensures r < total
  {
    (Mix((n % 0x1_0000_0000_0000_0000) as bv64) as nat) % total
  }

  /** Some counters, mixed. */
  lemma {:induction false} SomeMixes()
    ensures Mix(0) == 0 && Mix(1) == 1082269761 && Mix(2) == 2164539522
    ensures Mix(0x123456789ABCDEF) == 0x3F2800D6569E01B4
  {
  }
}
