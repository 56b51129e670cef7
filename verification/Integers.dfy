/** The fixed-width unsigned integers of the sources. */
module Integers {
  const U8_LIMIT := 0x100
  const U16_LIMIT := 0x1_0000
  const U32_LIMIT := 0x1_0000_0000

  type u8 = x: nat | x < U8_LIMIT
  type u16 = x: nat | x < U16_LIMIT
  type u32 = x: nat | x < U32_LIMIT

  /** Unsigned addition modulo 2^32. */
  function Wrap32(x: nat): u32 {
    x % U32_LIMIT
  }

  function Wrap16(x: nat): u16 {
    x % U16_LIMIT
  }

  function Min(a: int, b: int): int {
    if a < b then a else b
  }

  function Max(a: int, b: int): int {
    if a < b then b else a
  }

  function Quotient(a: nat, p: nat): nat
    requires 0 < p
  {
    a / p
  }

  /** The total of a series of time steps. */
  function Sum(dts: seq<nat>): nat {
    if dts == [] then 0 else Sum(dts[..|dts| - 1]) + dts[|dts| - 1]
  }

  lemma ProductAtLeast(p: nat, k: int)
    requires 0 < p
    ensures 1 <= k ==> p <= p * k
    ensures k <= -1 ==> p * k + p <= 0
  {
  }

  /** Quotient and remainder are determined by what they add up to. */
  lemma DivisionIsUnique(p: nat, q: nat, r: nat, x: nat)
    requires r < p && x == p * q + r
    ensures x / p == q && x % p == r
  {
    var d := q - x / p;
    assert x == p * (x / p) + x % p;
    assert p * d == p * q - p * (x / p);
    ProductAtLeast(p, d);
  }

  lemma AddOnce(p: nat, x: nat)
    requires 0 < p
    ensures (x + p) % p == x % p && (x + p) / p == x / p + 1
  {
    assert x + p == p * (x / p + 1) + x % p;
    DivisionIsUnique(p, x / p + 1, x % p, x + p);
  }

  lemma SmallQuotient(p: nat, x: nat)
    requires x < p
    ensures x / p == 0 && x % p == x
  {
  }

  lemma LargeQuotient(p: nat, x: nat)
    requires 0 < p <= x
    ensures x / p == (x - p) / p + 1 && x % p == (x - p) % p
  {
    AddOnce(p, x - p);
  }

  lemma ModuloShift(p: nat, q: nat, x: nat)
    requires 0 < p
    ensures (p * q + x) % p == x % p && (p * q + x) / p == q + x / p
  {
    assert p * q + x == p * (q + x / p) + x % p;
    DivisionIsUnique(p, q + x / p, x % p, p * q + x);
  }

  lemma ModuloAdds(p: nat, t: nat, d: nat)
    requires 0 < p
    ensures (t + d) % p == (t % p + d) % p
    ensures (t + d) / p == t / p + (t % p + d) / p
  {
    assert t + d == p * (t / p) + (t % p + d);
    ModuloShift(p, t / p, t % p + d);
  }

  /** Adding l leaves a remainder alone exactly when l is a multiple. */
  lemma ModuloUnmoved(p: nat, t: nat, l: nat)
    requires 0 < p
    ensures (t + l) % p == t % p <==> l % p == 0
  {
    var a, b := t % p, l % p;
    ModuloAdds(p, t, l);
    assert a + l == p * (l / p) + (a + b);
    ModuloShift(p, l / p, a + b);
    if a + b < p {
      SmallQuotient(p, a + b);
    } else {
      LargeQuotient(p, a + b);
      SmallQuotient(p, a + b - p);
    }
  }

  lemma QuotientParts(a: nat, p: nat)
    requires 0 < p
    ensures p * Quotient(a, p) <= a < p * Quotient(a, p) + p
    ensures Quotient(a, p) <= a
  {
    var q := Quotient(a, p);
    assert a == p * q + a % p;
    if q > 0 {
      ProductAtLeast(q, p);
    }
  }
}
