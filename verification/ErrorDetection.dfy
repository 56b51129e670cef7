/** Which errors the CRC-8 sees. `Flip` XORs one byte of a message with a mask; a
    codeword is a message with its checksum appended.
 */
module ErrorDetection {
  import opened LinearIteration
  import opened Crc8Register

  function Flip(data: seq<byte>, i: nat, e: byte): seq<byte>
    requires i < |data|
  {
    Hit(Xor, data, i, e)
  }

  function Swap(data: seq<byte>, i: nat, j: nat): seq<byte>
    requires i < |data| && j < |data|
  {
    data[i := data[j]][j := data[i]]
  }

  /** A received word that ends in the checksum of what precedes it. */
  predicate Accepts(w: seq<byte>) {
    |w| > 0 && w[|w| - 1] == Crc(w[..|w| - 1])
  }

  // -------------------------------------------------------- the register and errors

  lemma TurnLinear()
    ensures Linear(Turn, Xor)
  {
    ShiftLinear();
    forall a, b ensures Additive(Turn, Xor, a, b) {
      IterateLinear(Shift, Xor, 8, a, b);
    }
  }

  lemma TurnSeparates(a: byte, b: byte)
    requires Turn(a) == Turn(b)
    ensures a == b
  {
    ShiftInjective();
    IterateInjective(Shift, 8, a, b);
  }

  lemma TurnInjective()
    ensures Injective(Turn)
  {
    forall a, b ensures Separates(Turn, a, b) {
      if Turn(a) == Turn(b) {
        TurnSeparates(a, b);
      }
    }
  }

  lemma ZeroTurns()
    ensures Turn(0) == 0
  {
    ShiftFixedPoints(0);
    IterateFixed(Shift, 8, 0);
  }

  /** A mask at byte i reaches the register shifted once per remaining bit. */
  lemma FlipMovesRegister(c: byte, data: seq<byte>, i: nat, e: byte)
    requires i < |data|
    ensures Residue(c, Flip(data, i, e)) == Xor(Residue(c, data), Shifts(8 * (|data| - i), e))
  {
    TurnLinear();
    XorSelfInverse();
    ErrorInTurns(Shift, Turn, 8, Xor, c, data, i, e);
  }

  lemma ZeroIffUnmoved(a: byte, s: byte)
    ensures Xor(a, s) == a <==> s == 0
  {
  }

  lemma ShiftsZero(n: nat, e: byte)
    ensures Shifts(n, e) == 0 <==> e == 0
  {
    ShiftFixedPoints(0);
    IterateFixed(Shift, n, 0);
    if Shifts(n, e) == 0 {
      ShiftInjective();
      IterateInjective(Shift, n, e, 0);
    }
  }

  /** Every change of a single byte changes the checksum. */
  lemma OneFlipIsSeen(data: seq<byte>, i: nat, e: byte)
    requires i < |data|
    ensures Crc(Flip(data, i, e)) == Crc(data) <==> e == 0
  {
    FlipMovesRegister(INITIAL, data, i, e);
    ShiftsZero(8 * (|data| - i), e);
    ZeroIffUnmoved(Crc(data), Shifts(8 * (|data| - i), e));
  }

  lemma DistanceModulo(d: nat)
    ensures (8 * d) % 127 == 0 <==> d % 127 == 0
  {
  }

  lemma FixedByTurns(d: nat, e: byte)
    ensures Iterate(Turn, d, e) == e <==> e == 0 || e == BLIND_MASK || d % 127 == 0
  {
    IterateOfIterate(Shift, Turn, 8, d, e);
    FixedByShifts(8 * d, e);
    DistanceModulo(d);
  }

  lemma TwoFlipsCancel(data: seq<byte>, i: nat, j: nat, e: byte)
    requires i < j < |data|
    ensures Crc(Hit(Xor, Hit(Xor, data, i, e), j, e)) == Crc(data) <==> Iterate(Turn, j - i, e) == e
  {
    TurnLinear();
    TurnInjective();
    XorSelfInverse();
    TwoErrors(Turn, Xor, INITIAL, data, i, j, e);
  }

  /** The same mask in two bytes is missed exactly when it is 0 or 0xFD, or the bytes
      stand a multiple of 127 apart. */
  lemma TwoFlips(data: seq<byte>, i: nat, j: nat, e: byte)
    requires i < j < |data|
    ensures Crc(Flip(Flip(data, i, e), j, e)) == Crc(data)
       <==> e == 0 || e == BLIND_MASK || (j - i) % 127 == 0
  {
    TwoFlipsCancel(data, i, j, e);
    FixedByTurns(j - i, e);
  }

  lemma SwapIsTwoFlips(data: seq<byte>, i: nat, j: nat)
    requires i < j < |data|
    ensures Swap(data, i, j) == Flip(Flip(data, i, Xor(data[i], data[j])), j, Xor(data[i], data[j]))
  {
    XorSwaps(data[i], data[j]);
  }

  lemma XorSwaps(a: byte, b: byte)
    ensures Xor(a, Xor(a, b)) == b && Xor(b, Xor(a, b)) == a
    ensures Xor(a, b) == 0 <==> a == b
  {
  }

  /** Exchanging two bytes goes unseen exactly when they are equal, when they differ by
      0xFD, or when they stand a multiple of 127 apart. */
  lemma SwapIsMissed(data: seq<byte>, i: nat, j: nat)
    requires i < j < |data|
    ensures Crc(Swap(data, i, j)) == Crc(data)
       <==> data[i] == data[j] || Xor(data[i], data[j]) == BLIND_MASK || (j - i) % 127 == 0
  {
    SwapIsTwoFlips(data, i, j);
    TwoFlips(data, i, j, Xor(data[i], data[j]));
    XorSwaps(data[i], data[j]);
  }

  /** Two neighbouring bytes whose exchange the CRC does not see. */
  lemma ReorderingCanBeMissed()
    ensures Crc([0x01, 0xFC]) == Crc([0xFC, 0x01])
  {
    SwapIsMissed([0x01, 0xFC], 0, 1);
    assert Swap([0x01, 0xFC], 0, 1) == [0xFC, 0x01];
  }

  /** Four flips in one column, at bytes p, p+6, p+7 and p+8, are never seen, whatever the
      mask: the generator squared three times is x^64 + x^16 + x^8 + 1. */
  lemma FourFlipsAreMissed(data: seq<byte>, p: nat, e: byte)
    requires p + 8 < |data|
    ensures Crc(Flip(Flip(Flip(Flip(data, p, e), p + 6, e), p + 7, e), p + 8, e)) == Crc(data)
  {
    ShiftLinear();
    TurnLinear();
    XorSelfInverse();
    ShiftTrinomial();
    TrinomialOfEighthPower(Shift, Turn, Xor, 8, 8, 2, 1);
    FourErrors(Turn, Xor, INITIAL, data, p, e);
  }

  // ------------------------------------------------------------------- codewords

  /** A word passes the check exactly when its register ends at zero. */
  lemma AcceptsIffZero(w: seq<byte>)
    ensures Accepts(w) <==> |w| > 0 && Crc(w) == 0
  {
    if |w| > 0 {
      var r, last := Crc(w[..|w| - 1]), w[|w| - 1];
      ZeroTurns();
      XorSwaps(r, last);
      if Crc(w) == 0 {
        TurnSeparates(Xor(r, last), 0);
      }
    }
  }

  lemma ChecksumAccepted(data: seq<byte>)
    ensures Accepts(data + [Crc(data)])
  {
    assert (data + [Crc(data)])[..|data|] == data;
  }

  function XorWords(a: seq<byte>, b: seq<byte>): seq<byte>
    requires |a| == |b|
  {
    Pointwise(Xor, a, b)
  }

  lemma CrcOfSum(a: seq<byte>, b: seq<byte>)
    requires |a| == |b|
    ensures Crc(XorWords(a, b)) == Xor(Crc(a), Crc(b))
  {
    TurnLinear();
    XorSelfInverse();
    XorCancel(0, 0, 0);
    RegisterLinear(Turn, Xor, INITIAL, INITIAL, a, b);
  }

  /** The code is linear: an error goes unseen exactly when it is itself a codeword. */
  lemma ErrorIsMissed(w: seq<byte>, err: seq<byte>)
    requires Accepts(w) && |err| == |w|
    ensures Accepts(XorWords(w, err)) <==> Accepts(err)
  {
    AcceptsIffZero(w);
    AcceptsIffZero(err);
    AcceptsIffZero(XorWords(w, err));
    CrcOfSum(w, err);
    XorCancel(Crc(err), 0, 0);
  }

  // --------------------------------------------------------------------- parity

  function Right4(b: byte): byte { b >> 4 }

  function Right2(b: byte): byte { b >> 2 }

  function Right1(b: byte): byte { b >> 1 }

  function Fold4(b: byte): byte { Xor(b, Right4(b)) }

  function Fold2(b: byte): byte { Xor(b, Right2(b)) }

  function Fold1(b: byte): byte { Xor(b, Right1(b)) }

  /** An odd number of bits of b are set. */
  predicate Odd(b: byte) {
    Fold1(Fold2(Fold4(b))) & 1 != 0
  }

  function Ones(b: byte): nat {
    (if b & 0x01 != 0 then 1 else 0) + (if b & 0x02 != 0 then 1 else 0) +
    (if b & 0x04 != 0 then 1 else 0) + (if b & 0x08 != 0 then 1 else 0) +
    (if b & 0x10 != 0 then 1 else 0) + (if b & 0x20 != 0 then 1 else 0) +
    (if b & 0x40 != 0 then 1 else 0) + (if b & 0x80 != 0 then 1 else 0)
  }

  /** How many bits of a word are set. */
  function OnesIn(w: seq<byte>): nat {
    Total(Ones, w)
  }

  lemma OddIsParity(b: byte)
    ensures Odd(b) <==> Ones(b) % 2 == 1
  {
  }

  lemma Right4OfSum(a: byte, b: byte)
    ensures Right4(Xor(a, b)) == Xor(Right4(a), Right4(b))
  {
  }

  lemma Right2OfSum(a: byte, b: byte)
    ensures Right2(Xor(a, b)) == Xor(Right2(a), Right2(b))
  {
  }

  lemma Right1OfSum(a: byte, b: byte)
    ensures Right1(Xor(a, b)) == Xor(Right1(a), Right1(b))
  {
  }

  lemma FoldsOfSum(a: byte, b: byte)
    ensures Fold4(Xor(a, b)) == Xor(Fold4(a), Fold4(b))
    ensures Fold2(Xor(a, b)) == Xor(Fold2(a), Fold2(b))
    ensures Fold1(Xor(a, b)) == Xor(Fold1(a), Fold1(b))
  {
    hide Xor, Right4, Right2, Right1;
    XorSelfInverse();
    Right4OfSum(a, b);
    Right2OfSum(a, b);
    Right1OfSum(a, b);
    Interchange(Xor, a, b, Right4(a), Right4(b));
    Interchange(Xor, a, b, Right2(a), Right2(b));
    Interchange(Xor, a, b, Right1(a), Right1(b));
  }

  lemma LowBitOfSum(a: byte, b: byte)
    ensures Xor(a, b) & 1 != 0 <==> (a & 1 != 0) != (b & 1 != 0)
  {
  }

  lemma OddOfSum(a: byte, b: byte)
    ensures AddsModTwo(Xor, Odd, a, b)
  {
    hide Xor, Fold4, Fold2, Fold1;
    FoldsOfSum(a, b);
    FoldsOfSum(Fold4(a), Fold4(b));
    FoldsOfSum(Fold2(Fold4(a)), Fold2(Fold4(b)));
    LowBitOfSum(Fold1(Fold2(Fold4(a))), Fold1(Fold2(Fold4(b))));
  }

  lemma OddOfShift(c: byte)
    ensures Odd(Shift(c)) == Odd(c)
  {
  }

  lemma {:induction false} OddOfShifts(n: nat, c: byte)
    ensures Odd(Shifts(n, c)) == Odd(c)
  {
    if n > 0 {
      OddOfShifts(n - 1, c);
      OddOfShift(Shifts(n - 1, c));
    }
  }

  lemma ParityIsCharacter()
    ensures Character(Turn, Xor, Odd)
  {
    forall a ensures KeptBy(Turn, Odd, a) {
      OddOfShifts(8, a);
    }
    forall a, b ensures AddsModTwo(Xor, Odd, a, b) {
      OddOfSum(a, b);
    }
  }

  /** The parity of the register is the parity of everything it has absorbed. */
  lemma RegisterParity(data: seq<byte>)
    ensures Odd(Crc(data)) <==> OnesIn(data) % 2 == 1
  {
    ParityIsCharacter();
    forall a ensures ParityAt(Odd, Ones, a) {
      OddIsParity(a);
    }
    CharacterOfRegister(Turn, Xor, Odd, Ones, INITIAL, data);
  }

  /** Every odd number of flips, over message and checksum together, is seen. */
  lemma OddErrorIsSeen(w: seq<byte>, err: seq<byte>)
    requires Accepts(w) && |err| == |w| && OnesIn(err) % 2 == 1
    ensures !Accepts(XorWords(w, err))
  {
    ErrorIsMissed(w, err);
    RegisterParity(err);
    AcceptsIffZero(err);
  }

  // --------------------------------------------------------------------- bursts

  function BitMask(r: nat): byte
    requires r < 8
  {
    match r
    case 0 => 0x80
    case 1 => 0x40
    case 2 => 0x20
    case 3 => 0x10
    case 4 => 0x08
    case 5 => 0x04
    case 6 => 0x02
    case 7 => 0x01
  }

  /** Bit k of a word in the order of transmission, most significant first. */
  predicate Bit(w: seq<byte>, k: nat)
    requires k < 8 * |w|
  {
    w[k / 8] & BitMask(k % 8) != 0
  }

  /** All set bits of the word lie in the eight positions from `start`. */
  ghost predicate Burst(w: seq<byte>, start: nat) {
    forall k: nat :: k < 8 * |w| && Bit(w, k) ==> start <= k < start + 8
  }

  lemma BitOfByte(w: seq<byte>, i: nat, r: nat)
    requires i < |w| && r < 8
    ensures Bit(w, 8 * i + r) <==> w[i] & BitMask(r) != 0
  {
    assert (8 * i + r) / 8 == i && (8 * i + r) % 8 == r;
  }

  /** What a burst leaves of byte i: the bits at distance 0..7 from its start. */
  lemma BurstByte(w: seq<byte>, start: nat, i: nat, r: nat)
    requires Burst(w, start) && i < |w| && r < 8
    requires !(start <= 8 * i + r < start + 8)
    ensures w[i] & BitMask(r) == 0
  {
    BitOfByte(w, i, r);
  }

  lemma NoBits(b: byte)
    requires b & 0x80 == 0 && b & 0x40 == 0 && b & 0x20 == 0 && b & 0x10 == 0
    requires b & 0x08 == 0 && b & 0x04 == 0 && b & 0x02 == 0 && b & 0x01 == 0
    ensures b == 0
  {
  }

  lemma ByteOutsideBurst(w: seq<byte>, start: nat, i: nat)
    requires Burst(w, start) && i < |w| && i != start / 8 && 8 * i != start - start % 8 + 8
    ensures w[i] == 0
  {
    BurstByte(w, start, i, 0);
    BurstByte(w, start, i, 1);
    BurstByte(w, start, i, 2);
    BurstByte(w, start, i, 3);
    BurstByte(w, start, i, 4);
    BurstByte(w, start, i, 5);
    BurstByte(w, start, i, 6);
    BurstByte(w, start, i, 7);
    NoBits(w[i]);
  }

  /** The top r bits. */
  function TopMask(r: nat): byte
    requires r < 8
  {
    match r
    case 0 => 0x00
    case 1 => 0x80
    case 2 => 0xC0
    case 3 => 0xE0
    case 4 => 0xF0
    case 5 => 0xF8
    case 6 => 0xFC
    case 7 => 0xFE
  }

  lemma TopBitsClear(b: byte, r: nat)
    requires r < 8 && forall k: nat :: k < r ==> b & BitMask(k) == 0
    ensures b & TopMask(r) == 0
  {
    assert 0 < r ==> b & BitMask(0) == 0;
    assert 1 < r ==> b & BitMask(1) == 0;
    assert 2 < r ==> b & BitMask(2) == 0;
    assert 3 < r ==> b & BitMask(3) == 0;
    assert 4 < r ==> b & BitMask(4) == 0;
    assert 5 < r ==> b & BitMask(5) == 0;
    assert 6 < r ==> b & BitMask(6) == 0;
  }

  lemma LowBitsClear(b: byte, r: nat)
    requires r < 8 && forall k: nat :: r <= k < 8 ==> b & BitMask(k) == 0
    ensures b & !TopMask(r) == 0
  {
    assert r <= 0 ==> b & BitMask(0) == 0;
    assert r <= 1 ==> b & BitMask(1) == 0;
    assert r <= 2 ==> b & BitMask(2) == 0;
    assert r <= 3 ==> b & BitMask(3) == 0;
    assert r <= 4 ==> b & BitMask(4) == 0;
    assert r <= 5 ==> b & BitMask(5) == 0;
    assert r <= 6 ==> b & BitMask(6) == 0;
    assert b & BitMask(7) == 0;
  }

  /** A burst across a byte boundary is a multiple of no more than seven turns, so the
      register cannot return to zero. */
  lemma StraddleBits(hi: byte, lo: byte, mask: byte)
    requires mask in [0x00, 0x80, 0xC0, 0xE0, 0xF0, 0xF8, 0xFC, 0xFE]
    requires hi & mask == 0 && lo & !mask == 0
    requires ((hi << 2) ^ Reduce(hi >> 6)) ^ ((hi << 1) ^ Reduce(hi >> 7)) ^ hi == lo
    ensures hi == 0 && lo == 0
  {
  }

  lemma Straddle(hi: byte, lo: byte, r: nat)
    requires r < 8 && hi & TopMask(r) == 0 && lo & !TopMask(r) == 0 && Turn(hi) == lo
    ensures hi == 0 && lo == 0
  {
    EightShifts(hi);
    TwoShifts(hi);
    OneShift(hi);
    StraddleBits(hi, lo, TopMask(r));
  }

  // ------------------------------------------------------------- words of zeros

  ghost predicate Zeros(w: seq<byte>) {
    forall i :: 0 <= i < |w| ==> w[i] == 0
  }

  lemma {:induction false} ZerosTurn(c: byte, w: seq<byte>)
    requires Zeros(w)
    ensures Residue(c, w) == Iterate(Turn, |w|, c)
  {
    if w != [] {
      ZerosTurn(c, w[..|w| - 1]);
      XorCancel(Residue(c, w[..|w| - 1]), 0, 0);
    }
  }

  lemma ZerosKeepZero(c: byte, w: seq<byte>)
    requires Zeros(w)
    ensures Residue(c, w) == 0 <==> c == 0
  {
    ZerosTurn(c, w);
    ZeroTurns();
    IterateFixed(Turn, |w|, 0);
    TurnInjective();
    if Residue(c, w) == 0 {
      IterateInjective(Turn, |w|, c, 0);
    }
  }

  /** Zeros around a stretch of a word do not change whether its register ends at zero. */
  lemma Padding(w: seq<byte>, i: nat, j: nat)
    requires i <= j <= |w| && Zeros(w[..i]) && Zeros(w[j..])
    ensures Crc(w) == 0 <==> Crc(w[i..j]) == 0
  {
    ZerosKeepZero(INITIAL, w[..i]);
    assert w[..j] == w[..i] + w[i..j];
    RegisterAppend(Turn, Xor, INITIAL, w[..i], w[i..j]);
    assert w == w[..j] + w[j..];
    RegisterAppend(Turn, Xor, INITIAL, w[..j], w[j..]);
    ZerosKeepZero(Crc(w[..j]), w[j..]);
  }

  lemma CrcOfOne(b: byte)
    ensures Crc([b]) == Turn(b)
  {
    XorCancel(b, 0, 0);
    var w := [b];
    assert w[..|w| - 1] == [] && w[|w| - 1] == b;
    assert Register(Turn, Xor, INITIAL, w[..|w| - 1]) == INITIAL;
  }

  lemma CrcOfTwo(a: byte, b: byte)
    ensures Crc([a, b]) == Turn(Xor(Turn(a), b))
  {
    CrcOfOne(a);
    var w := [a, b];
    assert w[..|w| - 1] == [a] && w[|w| - 1] == b;
  }

  lemma TwoBytesOfBurst(w: seq<byte>, start: nat)
    requires Burst(w, start) && start / 8 + 1 < |w|
    requires Crc(w[start / 8..start / 8 + 2]) == 0
    ensures w[start / 8] == 0 && w[start / 8 + 1] == 0
  {
    var i, r := start / 8, start % 8;
    var hi, lo := w[i], w[i + 1];
    forall k: nat | k < r ensures hi & BitMask(k) == 0 {
      BurstByte(w, start, i, k);
    }
    forall k: nat | r <= k < 8 ensures lo & BitMask(k) == 0 {
      BurstByte(w, start, i + 1, k);
    }
    TopBitsClear(hi, r);
    LowBitsClear(lo, r);
    assert w[i..i + 2] == [hi, lo];
    CrcOfTwo(hi, lo);
    ZeroTurns();
    TurnSeparates(Xor(Turn(hi), lo), 0);
    XorSwaps(Turn(hi), lo);
    Straddle(hi, lo, r);
  }

  lemma OneByteOfBurst(b: byte)
    requires Crc([b]) == 0
    ensures b == 0
  {
    CrcOfOne(b);
    ZeroTurns();
    TurnSeparates(b, 0);
  }

  lemma BurstResidue(w: seq<byte>, start: nat)
    requires Burst(w, start) && Crc(w) == 0
    ensures Zeros(w)
  {
    var i := start / 8;
    forall k | 0 <= k < |w| && k != i && k != i + 1 ensures w[k] == 0 {
      ByteOutsideBurst(w, start, k);
    }
    if i + 1 < |w| {
      Padding(w, i, i + 2);
      TwoBytesOfBurst(w, start);
    } else if i < |w| {
      Padding(w, i, i + 1);
      assert w[i..i + 1] == [w[i]];
      OneByteOfBurst(w[i]);
    }
  }

  /** Every nonzero error confined to eight consecutive bits, over message and checksum
      together, is seen. */
  lemma BurstIsSeen(w: seq<byte>, err: seq<byte>, start: nat)
    requires Accepts(w) && |err| == |w| && Burst(err, start) && !Zeros(err)
    ensures !Accepts(XorWords(w, err))
  {
    ErrorIsMissed(w, err);
    AcceptsIffZero(err);
    if Accepts(err) {
      BurstResidue(err, start);
    }
  }

  lemma ShiftsMeet(n: nat)
    ensures Shifts(n + 8, 0x01) == Shifts(n, 0x07)
  {
    IterateAdd(Shift, n, 8, 0x01);
    EightShifts(0x01);
    TwoShifts(0x01);
    OneShift(0x01);
  }

  /** Eight is as far as that goes: one bit at the end of a byte and the low three of the
      next, a span of nine bits, always go unseen. */
  lemma NineBitsAreMissed(data: seq<byte>, i: nat)
    requires i + 1 < |data|
    ensures Crc(Flip(Flip(data, i, 0x01), i + 1, 0x07)) == Crc(data)
  {
    var n := 8 * (|data| - i - 1);
    FlipMovesRegister(INITIAL, data, i, 0x01);
    FlipMovesRegister(INITIAL, Flip(data, i, 0x01), i + 1, 0x07);
    ShiftsMeet(n);
    XorCancel(Crc(data), Shifts(n, 0x07), 0);
  }

  // ------------------------------------------------------- flips in one column

  /** The error that hits the marked bytes with the same mask. */
  function Column(marks: seq<bool>, e: byte): seq<byte> {
    seq(|marks|, i requires 0 <= i < |marks| => if marks[i] then e else 0)
  }

  /** The message with the marked bytes flipped in the same column or columns. */
  function FlipColumn(data: seq<byte>, marks: seq<bool>, e: byte): seq<byte>
    requires |marks| == |data|
  {
    seq(|data|, i requires 0 <= i < |data| => if marks[i] then Xor(data[i], e) else data[i])
  }

  predicate OneBit(e: byte) {
    e in [0x01, 0x02, 0x04, 0x08, 0x10, 0x20, 0x40, 0x80]
  }

  lemma NothingToFlip(a: byte)
    ensures Xor(a, 0) == a
  {
  }

  lemma ColumnReachesRegister(data: seq<byte>, marks: seq<bool>, e: byte)
    requires |marks| == |data|
    ensures Crc(FlipColumn(data, marks, e)) == Crc(data) <==> Crc(Column(marks, e)) == 0
  {
    hide Crc, Xor;
    forall i | 0 <= i < |data|
      ensures XorWords(data, Column(marks, e))[i] == FlipColumn(data, marks, e)[i]
    {
      NothingToFlip(data[i]);
    }
    assert XorWords(data, Column(marks, e)) == FlipColumn(data, marks, e);
    CrcOfSum(data, Column(marks, e));
    ZeroIffUnmoved(Crc(data), Crc(Column(marks, e)));
  }

  /** The eight-turn loop as one expression. */
  function Fast(c: byte): byte {
    ((c << 2) ^ Reduce(c >> 6)) ^ ((c << 1) ^ Reduce(c >> 7)) ^ c
  }

  lemma TurnIsFast(c: byte)
    ensures Turn(c) == Fast(c)
  {
    hide Shift, Reduce;
    EightShifts(c);
    TwoShifts(c);
    OneShift(c);
  }

  lemma AbsorbIsFast(c: byte, b: byte)
    ensures Absorb(c, b) == Fast(c ^ b)
  {
    hide Turn, Fast;
    TurnIsFast(c ^ b);
  }

  function Mark(c: byte, marked: bool, e: byte): byte {
    Fast(c ^ if marked then e else 0)
  }

  function MarkAll(a: bool, b: bool, c: bool, d: bool, f: bool, g: bool, h: bool, i: bool, e: byte): byte {
    Mark(Mark(Mark(Mark(Mark(Mark(Mark(Mark(0, a, e), b, e), c, e), d, e), f, e), g, e), h, e), i, e)
  }

  lemma LowBitsAreIndependent(a: bool, b: bool, c: bool, d: bool, f: bool, g: bool, h: bool, i: bool, e: byte)
    requires e == 0x01 || e == 0x02 || e == 0x04 || e == 0x08
    requires MarkAll(a, b, c, d, f, g, h, i, e) == 0
    ensures !a && !b && !c && !d && !f && !g && !h && !i
  {
    if e == 0x01 {} else if e == 0x02 {} else if e == 0x04 {} else {}
  }

  lemma MiddleBitsAreIndependent(a: bool, b: bool, c: bool, d: bool, f: bool, g: bool, h: bool, i: bool, e: byte)
    requires e == 0x10 || e == 0x20
    requires MarkAll(a, b, c, d, f, g, h, i, e) == 0
    ensures !a && !b && !c && !d && !f && !g && !h && !i
  {
    if e == 0x10 {} else {}
  }

  lemma HighBitsAreIndependent(a: bool, b: bool, c: bool, d: bool, f: bool, g: bool, h: bool, i: bool, e: byte)
    requires e == 0x40 || e == 0x80
    requires MarkAll(a, b, c, d, f, g, h, i, e) == 0
    ensures !a && !b && !c && !d && !f && !g && !h && !i
  {
    if e == 0x40 {} else {}
  }

  lemma ColumnExtends(marks: seq<bool>, k: nat, e: byte)
    requires k < |marks|
    ensures Crc(Column(marks[..k + 1], e)) == Mark(Crc(Column(marks[..k], e)), marks[k], e)
  {
    hide Crc, Absorb, Fast;
    var b := if marks[k] then e else 0;
    assert Column(marks[..k + 1], e) == Column(marks[..k], e) + [b];
    CrcExtends(Column(marks[..k], e), b);
    AbsorbIsFast(Crc(Column(marks[..k], e)), b);
  }

  lemma CrcOfEightMarks(m: seq<bool>, e: byte)
    requires |m| == 8
    ensures Crc(Column(m, e)) == MarkAll(m[0], m[1], m[2], m[3], m[4], m[5], m[6], m[7], e)
  {
    hide Crc, Mark, Column;
    assert Crc(Column(m[..0], e)) == 0 by { CrcOfNoMarks(e); assert m[..0] == []; }
    ColumnExtends(m, 0, e);
    ColumnExtends(m, 1, e);
    ColumnExtends(m, 2, e);
    ColumnExtends(m, 3, e);
    ColumnExtends(m, 4, e);
    ColumnExtends(m, 5, e);
    ColumnExtends(m, 6, e);
    ColumnExtends(m, 7, e);
    assert m[..8] == m;
  }

  lemma CrcOfNoMarks(e: byte)
    ensures Crc(Column([], e)) == 0
  {
    CrcOfNothing();
    assert Column([], e) == [];
  }

  /** In eight bytes no set of flips in one column cancels. */
  lemma EightMarksAreSeen(m: seq<bool>, e: byte)
    requires |m| == 8 && OneBit(e) && Crc(Column(m, e)) == 0
    ensures true !in m
  {
    hide Crc, MarkAll, Column;
    CrcOfEightMarks(m, e);
    if e == 0x01 || e == 0x02 || e == 0x04 || e == 0x08 {
      LowBitsAreIndependent(m[0], m[1], m[2], m[3], m[4], m[5], m[6], m[7], e);
    } else if e == 0x10 || e == 0x20 {
      MiddleBitsAreIndependent(m[0], m[1], m[2], m[3], m[4], m[5], m[6], m[7], e);
    } else {
      HighBitsAreIndependent(m[0], m[1], m[2], m[3], m[4], m[5], m[6], m[7], e);
    }
  }

  lemma FewMarksAreSeen(marks: seq<bool>, e: byte)
    requires |marks| <= 8 && OneBit(e) && Crc(Column(marks, e)) == 0
    ensures true !in marks
  {
    hide Crc;
    var m := marks + seq(8 - |marks|, _ => false);
    var w := Column(m, e);
    assert w[0..|marks|] == Column(marks, e);
    Padding(w, 0, |marks|);
    EightMarksAreSeen(m, e);
    forall i | 0 <= i < |marks|
      ensures !marks[i]
    {
      assert m[i] == marks[i];
    }
  }

  /** The pattern of `FourFlipsAreMissed` at the start of a message of n bytes. */
  function FourMarks(n: nat): seq<bool> {
    seq(n, i => i == 0 || i == 6 || i == 7 || i == 8)
  }

  lemma FourMarksAreMissed(data: seq<byte>, e: byte)
    requires 8 < |data|
    ensures Crc(FlipColumn(data, FourMarks(|data|), e)) == Crc(data)
  {
    hide Crc, Xor;
    FourFlipsAreMissed(data, 0, e);
    assert FlipColumn(data, FourMarks(|data|), e) == Flip(Flip(Flip(Flip(data, 0, e), 6, e), 7, e), 8, e);
  }

  /** This set of flips in one column of this message is seen. */
  predicate ColumnSeen(data: seq<byte>, marks: seq<bool>, e: byte)
    requires |marks| == |data|
  {
    Crc(FlipColumn(data, marks, e)) != Crc(data)
  }

  /** Every nonempty set of flips in one bit column, even or odd, is seen in every message
      of n bytes exactly when n is at most 8. */
  lemma ColumnFlipsAreSeenIff(n: nat, e: byte)
    requires OneBit(e)
    ensures (forall data, marks :: |data| == n && |marks| == n && true in marks ==> ColumnSeen(data, marks, e))
       <==> n <= 8
  {
    hide Crc, FlipColumn, Column, OneBit;
    if n <= 8 {
      forall data, marks | |data| == n && |marks| == n && true in marks
        ensures ColumnSeen(data, marks, e)
      {
        ColumnReachesRegister(data, marks, e);
        if Crc(Column(marks, e)) == 0 {
          FewMarksAreSeen(marks, e);
        }
      }
    } else {
      var data: seq<byte> := seq(n, _ => 0);
      FourMarksAreMissed(data, e);
      assert FourMarks(n)[0];
      assert !ColumnSeen(data, FourMarks(n), e);
    }
  }

  // ------------------------------------------------------------ errors of a few bits

  /** The word with bit k, in the order of transmission, flipped. */
  function FlipBit(w: seq<byte>, k: nat): seq<byte>
    requires k < 8 * |w|
  {
    Flip(w, k / 8, BitMask(k % 8))
  }

  lemma MaskIsShifted(r: nat)
    requires r < 8
    ensures BitMask(r) == Shifts(7 - r, 0x01)
  {
    assert Shift(0x01) == 0x02 && Shift(0x02) == 0x04 && Shift(0x04) == 0x08 && Shift(0x08) == 0x10;
    assert Shift(0x10) == 0x20 && Shift(0x20) == 0x40 && Shift(0x40) == 0x80;
    hide Shift;
    assert Shifts(0, 0x01) == 0x01;
    assert Shifts(1, 0x01) == 0x02;
    assert Shifts(2, 0x01) == 0x04;
    assert Shifts(3, 0x01) == 0x08;
    assert Shifts(4, 0x01) == 0x10;
    assert Shifts(5, 0x01) == 0x20;
    assert Shifts(6, 0x01) == 0x40;
    assert Shifts(7, 0x01) == 0x80;
  }

  /** What bit k of a word of n bytes leaves in the register. */
  function Syndrome(n: nat, k: nat): byte
    requires k < 8 * n
  {
    Shifts(8 * n + 7 - k, 0x01)
  }

  lemma BitReachesRegister(w: seq<byte>, k: nat)
    requires k < 8 * |w|
    ensures |FlipBit(w, k)| == |w|
    ensures Crc(FlipBit(w, k)) == Xor(Crc(w), Syndrome(|w|, k))
  {
    hide Residue, Xor, BitMask, Shifts;
    var i, r := k / 8, k % 8;
    assert 8 * (|w| - i) + (7 - r) == 8 * |w| + 7 - k;
    FlipMovesRegister(INITIAL, w, i, BitMask(r));
    MaskIsShifted(r);
    ShiftsAdd(8 * (|w| - i), 7 - r, 0x01);
  }

  lemma ShiftsAdd(m: nat, n: nat, c: byte)
    ensures Shifts(m + n, c) == Shifts(m, Shifts(n, c))
  {
    IterateAdd(Shift, m, n, c);
  }

  lemma SyndromesAgree(n: nat, p: nat, q: nat)
    requires p < q < 8 * n
    ensures Syndrome(n, p) == Syndrome(n, q) <==> (q - p) % 127 == 0
  {
    ShiftInjective();
    IterateAgrees(Shift, 8 * n + 7 - q, q - p, 0x01);
    FixedByShifts(q - p, 0x01);
  }

  lemma CancelsIffEqual(s: byte, t: byte)
    ensures Xor(Xor(0, s), t) == 0 <==> s == t
  {
  }

  /** Two flipped bits, anywhere in data and checksum, are missed exactly at distances that
      are multiples of 127 bits. */
  lemma TwoBitsAreMissedIff(w: seq<byte>, p: nat, q: nat)
    requires Accepts(w) && p < q < 8 * |w|
    ensures |FlipBit(w, p)| == |w|
    ensures Accepts(FlipBit(FlipBit(w, p), q)) <==> (q - p) % 127 == 0
  {
    hide Crc, Xor, FlipBit, Syndrome;
    AcceptsIffZero(w);
    BitReachesRegister(w, p);
    BitReachesRegister(FlipBit(w, p), q);
    AcceptsIffZero(FlipBit(FlipBit(w, p), q));
    SyndromesAgree(|w|, p, q);
    CancelsIffEqual(Syndrome(|w|, p), Syndrome(|w|, q));
  }

  /** A word with several bits flipped. */
  function FlipBits(w: seq<byte>, ks: seq<nat>): (r: seq<byte>)
    requires forall i :: 0 <= i < |ks| ==> ks[i] < 8 * |w|
    ensures |r| == |w|
  {
    if ks == [] then w else FlipBit(FlipBits(w, ks[..|ks| - 1]), ks[|ks| - 1])
  }

  lemma OneIsOdd()
    ensures Odd(0x01) && !Odd(0x00)
  {
  }

  lemma BitTurnsParity(w: seq<byte>, k: nat)
    requires k < 8 * |w|
    ensures |FlipBit(w, k)| == |w| && Odd(Crc(FlipBit(w, k))) == !Odd(Crc(w))
  {
    hide Crc, Xor, Odd, FlipBit;
    BitReachesRegister(w, k);
    OddOfSum(Crc(w), Syndrome(|w|, k));
    OddOfShifts(8 * |w| + 7 - k, 0x01);
    OneIsOdd();
  }

  lemma {:induction false} FlipsTurnParity(w: seq<byte>, ks: seq<nat>)
    requires forall i :: 0 <= i < |ks| ==> ks[i] < 8 * |w|
    ensures Odd(Crc(FlipBits(w, ks))) == (Odd(Crc(w)) != (|ks| % 2 == 1))
  {
    hide Crc, Odd, FlipBit;
    if ks != [] {
      FlipsTurnParity(w, ks[..|ks| - 1]);
      BitTurnsParity(FlipBits(w, ks[..|ks| - 1]), ks[|ks| - 1]);
    }
  }

  /** One to three different bit positions of a word of n bytes. */
  predicate FewBits(n: nat, ks: seq<nat>) {
    && 1 <= |ks| <= 3
    && (forall i :: 0 <= i < |ks| ==> ks[i] < 8 * n)
    && (forall i, j :: 0 <= i < j < |ks| ==> ks[i] != ks[j])
  }

  /** This error of a few bits in this received word is seen. */
  predicate FewBitsSeen(w: seq<byte>, ks: seq<nat>)
    requires FewBits(|w|, ks)
  {
    !Accepts(FlipBits(w, ks))
  }

  lemma OddFlipsAreSeen(w: seq<byte>, ks: seq<nat>)
    requires Accepts(w) && FewBits(|w|, ks) && |ks| % 2 == 1
    ensures FewBitsSeen(w, ks)
  {
    hide Crc, Odd, FlipBits;
    FlipsTurnParity(w, ks);
    AcceptsIffZero(w);
    AcceptsIffZero(FlipBits(w, ks));
    OneIsOdd();
  }

  lemma TwoFlipsInOrder(w: seq<byte>, p: nat, q: nat)
    requires p < 8 * |w| && q < 8 * |w|
    ensures FlipBits(w, [p, q]) == FlipBit(FlipBit(w, p), q)
  {
    var ks := [p, q];
    assert ks[..1] == [p] && ks[..1][..0] == [];
    assert FlipBits(w, ks[..1]) == FlipBit(FlipBits(w, []), p);
  }

  lemma TwoFlipsAreSeen(w: seq<byte>, p: nat, q: nat)
    requires Accepts(w) && p < 8 * |w| && q < 8 * |w| && p != q && |w| <= 15
    ensures !Accepts(FlipBits(w, [p, q]))
  {
    hide Crc, Xor, FlipBit, FlipBits, Syndrome;
    TwoFlipsInOrder(w, p, q);
    BitReachesRegister(w, p);
    BitReachesRegister(FlipBit(w, p), q);
    AcceptsIffZero(w);
    AcceptsIffZero(FlipBit(FlipBit(w, p), q));
    CancelsIffEqual(Syndrome(|w|, p), Syndrome(|w|, q));
    SyndromesAgree(|w|, if p < q then p else q, if p < q then q else p);
  }

  lemma ZerosAreAccepted(n: nat)
    requires 0 < n
    ensures Accepts(seq(n, _ => 0))
  {
    var w: seq<byte> := seq(n, _ => 0);
    ZerosKeepZero(INITIAL, w);
    AcceptsIffZero(w);
  }

  /** Every error of one to three bits, over data and checksum together, is seen in every
      word of n bytes exactly when n is at most 15: two bits 127 apart need sixteen. */
  lemma FewBitsAreSeenIff(n: nat)
    ensures (forall w, ks :: Accepts(w) && |w| == n && FewBits(n, ks) ==> FewBitsSeen(w, ks)) <==> n <= 15
  {
    hide Crc, FlipBit, FlipBits, Accepts;
    if n <= 15 {
      forall w, ks | Accepts(w) && |w| == n && FewBits(n, ks)
        ensures FewBitsSeen(w, ks)
      {
        if |ks| == 2 {
          TwoFlipsAreSeen(w, ks[0], ks[1]);
          assert ks == [ks[0], ks[1]];
        } else {
          OddFlipsAreSeen(w, ks);
        }
      }
    } else {
      var w: seq<byte> := seq(n, _ => 0);
      ZerosAreAccepted(n);
      TwoBitsAreMissedIff(w, 0, 127);
      TwoFlipsInOrder(w, 0, 127);
      assert FewBits(n, [0, 127]) && !FewBitsSeen(w, [0, 127]);
    }
  }
}
