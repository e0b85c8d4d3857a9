// The random wait's generator (crates/control/src/controller.rs:371-373 and 983-989): xorshift64.
module Random {
  function Next(state: bv64): bv64 {
    var a := state ^ (state << 13);
    var b := a ^ (a >> 7);
    b ^ (b << 17)
  }

  // The upper 53 bits.
  function Top(state: bv64): bv53 {
    (state >> 11) as bv53
  }

  const SPAN := 0x20_0000_0000_0000

  lemma TopIsBelow(state: bv64)
    ensures 0 <= Top(state) as int < 0x20_0000_0000_0000
  {
  }

  // As a fraction.
  function Unit(state: bv64): (u: real)
    ensures 0.0 <= u < 1.0
  {
    TopIsBelow(state);
    Fraction(Top(state) as int)
  }

  function Fraction(n: int): (u: real)
    ensures 0 <= n < SPAN ==> 0.0 <= u < 1.0
  {
    n as real / SPAN as real
  }

  // Multiplied with an odd constant and made odd.
  function Seeded(seed: bv64): bv64 {
    (seed * 0x9E37_79B9_7F4A_7C15) | 1
  }

  lemma SeedIsNotZero(product: bv64)
    ensures product | 1 != 0
  {
  }

  lemma NextIsNotZero(state: bv64)
    requires state != 0
    ensures Next(state) != 0
  {
  }

  function States(state: bv64, n: nat): bv64 {
    if n == 0 then state else Next(States(state, n - 1))
  }

  // From any seed the generator never gets stuck at zero, where every wait would be zero.
  lemma {:induction false} NeverZero(seed: bv64, n: nat)
    ensures States(Seeded(seed), n) != 0
  {
    if n == 0 {
      SeedIsNotZero(seed * 0x9E37_79B9_7F4A_7C15);
    } else {
      NeverZero(seed, n - 1);
      NextIsNotZero(States(Seeded(seed), n - 1));
    }
  }

  lemma ZeroSticks()
    ensures Next(0) == 0 && Unit(0) == 0.0
  {
  }
}
