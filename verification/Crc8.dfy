/** The CRC-8 register: polynomial 0x07, initial value 0, no reflection, no final XOR.

    `Shift` is one turn of the bit loop and `Residue` the register after a run of bytes.
    Both are linear over XOR, and everything said about error detection follows from
    that and from the order of `Shift`, which is 127.
 */
module Crc8Register {
  import opened LinearIteration

  type byte = bv8

  const INITIAL: byte := 0x00
  const POLYNOMIAL: byte := 0x07

  /** The non-zero fixed point of `Shift`. */
  const BLIND_MASK: byte := 0xFD

  // ---------------------------------------------------------------- register

  /** One turn of the eight-turn bit loop. */
  function Shift(c: byte): byte {
    if c & 0x80 != 0 then (c << 1) ^ POLYNOMIAL else c << 1
  }

  function Xor(a: byte, b: byte): byte {
    a ^ b
  }

  function Shifts(n: nat, c: byte): byte {
    Iterate(Shift, n, c)
  }

  /** The whole bit loop. */
  function Turn(c: byte): byte {
    Shifts(8, c)
  }

  /** The register after one more byte. */
  function Absorb(c: byte, b: byte): byte {
    Turn(Xor(c, b))
  }

  /** The register after `data`, started at `c`. */
  function Residue(c: byte, data: seq<byte>): byte {
    Register(Turn, Xor, c, data)
  }

  function Crc(data: seq<byte>): byte {
    Residue(INITIAL, data)
  }

  lemma CrcOfNothing()
    ensures Crc([]) == INITIAL
  {
  }

  lemma CrcExtends(data: seq<byte>, b: byte)
    ensures Crc(data + [b]) == Absorb(Crc(data), b)
  {
    var w := data + [b];
    assert w[..|w| - 1] == data && w[|w| - 1] == b;
  }

  /** The running register of the firmware. */
  class Crc8 {
    var value: byte

    constructor ()
      ensures value == INITIAL
    {
      value := INITIAL;
    }

    method Reset()
      modifies this
      ensures value == INITIAL
    {
      value := INITIAL;
    }

    method Update(b: byte)
      modifies this
      ensures value == Absorb(old(value), b)
    {
      value := value ^ b;
      for bit := 0 to 8
        invariant value == Shifts(bit, old(value) ^ b)
      {
        if value & 0x80 != 0 {
          value := (value << 1) ^ POLYNOMIAL;
        } else {
          value := value << 1;
        }
      }
    }

    method UpdateAll(data: array?<byte>, len: nat)
      requires data != null ==> len <= data.Length
      modifies this
      ensures value == if data == null then old(value) else Residue(old(value), data[..len])
    {
      if data == null { return; }
      for i := 0 to len
        invariant value == Residue(old(value), data[..i])
      {
        Update(data[i]);
        assert data[..i + 1][..i] == data[..i];
      }
    }

    static method Compute(data: array?<byte>, len: nat) returns (r: byte)
      requires data != null ==> len <= data.Length
      ensures r == if data == null then INITIAL else Crc(data[..len])
    {
      var crc := new Crc8();
      crc.UpdateAll(data, len);
      r := crc.value;
    }
  }

  /** The desktop tool's one-shot CRC. */
  method Compute(data: seq<byte>) returns (crc: byte)
    ensures crc == Crc(data)
  {
    crc := INITIAL;
    for i := 0 to |data|
      invariant crc == Crc(data[..i])
    {
      ghost var start := crc ^ data[i];
      crc := crc ^ data[i];
      for bit := 0 to 8
        invariant crc == Shifts(bit, start)
      {
        crc := if crc & 0x80 != 0 then (crc << 1) ^ POLYNOMIAL else crc << 1;
      }
      assert data[..i + 1][..i] == data[..i];
    }
    assert data[..|data|] == data;
  }

  // ------------------------------------------------------------ facts about bits

  lemma ShiftOfSumBits(a: byte, b: byte)
    ensures (a ^ b) << 1 == (a << 1) ^ (b << 1)
    ensures ((a ^ b) & 0x80 != 0) == ((a & 0x80 != 0) != (b & 0x80 != 0))
  {
  }

  lemma TapOfSum(a: byte, b: byte)
    ensures (a ^ POLYNOMIAL) ^ (b ^ POLYNOMIAL) == a ^ b
    ensures (a ^ POLYNOMIAL) ^ b == (a ^ b) ^ POLYNOMIAL == a ^ (b ^ POLYNOMIAL)
  {
  }

  lemma ShiftOfSum(a: byte, b: byte)
    ensures Shift(Xor(a, b)) == Xor(Shift(a), Shift(b))
  {
    ShiftOfSumBits(a, b);
    TapOfSum(a << 1, b << 1);
  }

  lemma ShiftLinear()
    ensures Linear(Shift, Xor)
  {
    forall a, b ensures Additive(Shift, Xor, a, b) {
      ShiftOfSum(a, b);
    }
  }

  lemma ShiftInjective()
    ensures Injective(Shift)
  {
    forall a, b ensures Separates(Shift, a, b) {
      if Shift(a) == Shift(b) {
        ShiftSeparates(a, b);
      }
    }
  }

  lemma ShiftSeparates(a: byte, b: byte)
    requires Shift(a) == Shift(b)
    ensures a == b
  {
  }

  lemma ShiftFixedPoints(c: byte)
    ensures Shift(c) == c <==> c == 0 || c == BLIND_MASK
  {
  }

  lemma XorSelfInverse()
    ensures SelfInverse(Xor)
  {
  }

  lemma XorCancel(a: byte, b: byte, c: byte)
    ensures a ^ a == 0 && a ^ 0 == a && 0 ^ a == a
    ensures (a ^ b == a ^ c) == (b == c)
    ensures ((a ^ b) ^ c == a) == (b == c)
  {
  }

  // --------------------------------------------------------- the order of the shift

  /** The reduction of up to four bits pushed out at the top. */
  function Reduce(h: byte): byte {
    h ^ (h << 1) ^ (h << 2)
  }

  lemma OneShift(c: byte)
    ensures Shifts(1, c) == Shift(c) == (c << 1) ^ Reduce(c >> 7)
  {
    assert Shifts(0, c) == c;
  }

  lemma TwoShifts(c: byte)
    ensures Shifts(2, c) == (c << 2) ^ Reduce(c >> 6)
  {
    assert Shifts(1, c) == Shift(Shifts(0, c));
    assert Shifts(2, c) == Shift(Shift(c));
  }

  lemma TwoAfterTwo(c: byte)
    ensures (((c << 2) ^ Reduce(c >> 6)) << 2) ^ Reduce(((c << 2) ^ Reduce(c >> 6)) >> 6)
         == (c << 4) ^ Reduce(c >> 4)
  {
  }

  lemma FourShifts(c: byte)
    ensures Shifts(4, c) == (c << 4) ^ Reduce(c >> 4)
  {
    IterateAdd(Shift, 2, 2, c);
    TwoShifts(c);
    TwoShifts(Shifts(2, c));
    TwoAfterTwo(c);
  }

  lemma FourAfterFour(c: byte)
    ensures (((c << 4) ^ Reduce(c >> 4)) << 4) ^ Reduce(((c << 4) ^ Reduce(c >> 4)) >> 4)
         == ((c << 2) ^ Reduce(c >> 6)) ^ ((c << 1) ^ Reduce(c >> 7)) ^ c
  {
  }

  /** The shift satisfies its own polynomial: x^8 = x^2 + x + 1. */
  lemma EightShifts(c: byte)
    ensures Shifts(8, c) == Shifts(2, c) ^ Shifts(1, c) ^ c
  {
    IterateAdd(Shift, 4, 4, c);
    FourShifts(c);
    FourShifts(Shifts(4, c));
    FourAfterFour(c);
    TwoShifts(c);
    OneShift(c);
  }

  lemma ShiftTrinomial()
    ensures TrinomialEverywhere(Shift, Xor, 8, 2, 1)
  {
    forall x ensures Trinomial(Shift, Xor, 8, 2, 1, x) {
      EightShifts(x);
    }
  }

  /** 127 shifts are the identity. */
  lemma Period(c: byte)
    ensures Shifts(127, c) == c
  {
    ShiftLinear();
    ShiftInjective();
    XorSelfInverse();
    ShiftTrinomial();
    PeriodOfTrinomial(Shift, Xor, 1, c);
  }

  lemma DivisorOf127(d: nat, p: nat)
    requires 127 == d * p
    ensures d == 1 || d == 127
  {
    assert d != 0 && 127 % d == 0 by { assert (d * p) % d == 0; }
  }

  lemma MultipleOf127(q: nat)
    ensures (127 * q) % 127 == 0
  {
  }

  /** n shifts fix a byte exactly when it is 0, when it is the blind mask, or when 127 divides n. */
  lemma FixedByShifts(n: nat, e: byte)
    ensures Shifts(n, e) == e <==> e == 0 || e == BLIND_MASK || n % 127 == 0
  {
    Period(e);
    ShiftFixedPoints(e);
    if Shift(e) == e {
      IterateFixed(Shift, n, e);
    } else if n % 127 == 0 {
      PeriodMultiple(Shift, 127, n / 127, e);
    } else if Shifts(n, e) == e {
      ShiftInjective();
      var d, p, q := GcdPeriod(Shift, 127, n, e);
      DivisorOf127(d, p);
      OneShift(e);
      MultipleOf127(q);
      assert false;
    }
  }
}
