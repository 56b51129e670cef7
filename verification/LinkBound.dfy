/** That 36 bytes is the least bound on resynchronising: a train of clean frames, 35 bytes
    long, behind which the next frame is still lost.
 */
module LinkBound {
  import opened Crc8Register
  import opened ErrorDetection
  import opened FrameStream
  import opened LinearIteration
  import opened LinkRecovery
  import opened Protocol

  function Zeroes(n: nat): (w: seq<byte>)
    ensures |w| == n && HEADER !in w
  {
    seq(n, _ => 0)
  }

  /** Three frames of 7, 12 and 16 bytes. A parser that takes the first header for a command
      takes the first command, 32, for a length. */
  function Unlucky(): (ms: seq<Message>)
    ensures forall m | m in ms :: m.Fits()
  {
    [Message(0x20, Zeroes(2)), Message(0x00, Zeroes(7)), Message(0x00, Zeroes(11))]
  }

  // ----------------------------------------------------------- checksums by computation

  function Spun(c: byte, n: nat): byte {
    if n == 0 then c else Fast(Spun(c, n - 1))
  }

  lemma Cut(c: byte, v: seq<byte>, w: seq<byte>)
    ensures Residue(c, v + w) == Residue(Residue(c, v), w)
  {
    RegisterAppend(Turn, Xor, c, v, w);
  }

  lemma OneMore(c: byte, w: seq<byte>, b: byte)
    ensures Residue(c, w + [b]) == Fast(Residue(c, w) ^ b)
  {
    hide Fast;
    AbsorbIsFast(Residue(c, w), b);
    assert (w + [b])[..|w|] == w;
  }

  lemma Nothing(c: byte)
    ensures Residue(c, []) == c
  {
  }

  lemma Two(c: byte, x: byte, y: byte)
    ensures Residue(c, [x, y]) == Fast(Fast(c ^ x) ^ y)
  {
    hide Fast, Residue;
    Nothing(c);
    OneMore(c, [], x);
    OneMore(c, [x], y);
    assert [] + [x] == [x] && [x] + [y] == [x, y];
  }

  lemma Five(c: byte, x: byte, y: byte, z: byte, u: byte, v: byte)
    ensures Residue(c, [x, y, z, u, v]) == Fast(Fast(Fast(Fast(Fast(c ^ x) ^ y) ^ z) ^ u) ^ v)
  {
    hide Fast, Residue;
    Two(c, x, y);
    OneMore(c, [x, y], z);
    OneMore(c, [x, y, z], u);
    OneMore(c, [x, y, z, u], v);
    assert [x, y] + [z] == [x, y, z] && [x, y, z] + [u] == [x, y, z, u] && [x, y, z, u] + [v] == [x, y, z, u, v];
  }

  lemma {:induction false} ZeroesSpin(c: byte, n: nat)
    ensures Residue(c, Zeroes(n)) == Spun(c, n)
  {
    hide Fast, Residue;
    if n == 0 {
      Nothing(c);
      assert Zeroes(0) == [];
    } else {
      ZeroesSpin(c, n - 1);
      OneMore(c, Zeroes(n - 1), 0);
      NothingToFlip(Spun(c, n - 1));
      assert Zeroes(n - 1) + [0] == Zeroes(n);
    }
  }

  lemma Spins2FromA0()
    ensures Spun(0xA0, 2) == 0x18
  {
    assert Spun(0xA0, 1) == 0x69;
    assert Spun(0xA0, 2) == 0x18;
  }

  lemma Spins7From15()
    ensures Spun(0x15, 7) == 0x79
  {
    assert Spun(0x15, 1) == 0x6B;
    assert Spun(0x15, 2) == 0x16;
    assert Spun(0x15, 3) == 0x62;
    assert Spun(0x15, 4) == 0x29;
    assert Spun(0x15, 5) == 0xDF;
    assert Spun(0x15, 6) == 0x13;
    assert Spun(0x15, 7) == 0x79;
  }

  lemma Spins11From31()
    ensures Spun(0x31, 11) == 0x01
  {
    assert Spun(0x31, 1) == 0x97;
    assert Spun(0x31, 2) == 0xEC;
    assert Spun(0x31, 3) == 0x8A;
    assert Spun(0x31, 4) == 0xBF;
    assert Spun(0x31, 5) == 0x34;
    assert Spun(0x31, 6) == 0x8C;
    assert Spun(0x31, 7) == 0xAD;
    assert Spun(0x31, 8) == 0x4A;
    assert Spun(0x31, 9) == 0xF1;
    assert Spun(0x31, 10) == 0xD9;
    assert Spun(0x31, 11) == 0x01;
  }

  lemma Spins2From6F()
    ensures Spun(0x6F, 2) == 0x36
  {
    assert Spun(0x6F, 1) == 0x0A;
    assert Spun(0x6F, 2) == 0x36;
  }

  lemma Spins7From5E()
    ensures Spun(0x5E, 7) == 0xB0
  {
    assert Spun(0x5E, 1) == 0x9D;
    assert Spun(0x5E, 2) == 0xDA;
    assert Spun(0x5E, 3) == 0x08;
    assert Spun(0x5E, 4) == 0x38;
    assert Spun(0x5E, 5) == 0xA8;
    assert Spun(0x5E, 6) == 0x51;
    assert Spun(0x5E, 7) == 0xB0;
  }

  lemma Spins11From68()
    ensures Spun(0x68, 11) == 0xC4
  {
    assert Spun(0x68, 1) == 0x1F;
    assert Spun(0x68, 2) == 0x5D;
    assert Spun(0x68, 3) == 0x94;
    assert Spun(0x68, 4) == 0xE5;
    assert Spun(0x68, 5) == 0xB5;
    assert Spun(0x68, 6) == 0x02;
    assert Spun(0x68, 7) == 0x0E;
    assert Spun(0x68, 8) == 0x2A;
    assert Spun(0x68, 9) == 0xD6;
    assert Spun(0x68, 10) == 0x2C;
    assert Spun(0x68, 11) == 0xC4;
  }

  lemma CrcOfFirst()
    ensures Crc([0x20, 0x02] + Zeroes(2)) == 0x18
  {
    hide Residue, Spun;
    Two(0, 0x20, 0x02);
    Cut(0, [0x20, 0x02], Zeroes(2));
    ZeroesSpin(0xA0, 2);
    Spins2FromA0();
  }

  lemma CrcOfSecond()
    ensures Crc([0x00, 0x07] + Zeroes(7)) == 0x79
  {
    hide Residue, Spun;
    Two(0, 0x00, 0x07);
    Cut(0, [0x00, 0x07], Zeroes(7));
    ZeroesSpin(0x15, 7);
    Spins7From15();
  }

  lemma CrcOfThird()
    ensures Crc([0x00, 0x0B] + Zeroes(11)) == 0x01
  {
    hide Residue, Spun;
    Two(0, 0x00, 0x0B);
    Cut(0, [0x00, 0x0B], Zeroes(11));
    ZeroesSpin(0x31, 11);
    Spins11From31();
  }

  /** The first 34 bytes of the train, as a checksum with the wrong start covers them. */
  function Misread(): seq<byte> {
    [0xAA, 0x20] + ([0x02] + Zeroes(2) + [0x18, 0x55, 0xAA, 0x00, 0x07] + Zeroes(7)
                    + [0x79, 0x55, 0xAA, 0x00, 0x0B] + Zeroes(11) + [0x01])
  }

  lemma CrcOfMisread()
    ensures Crc(Misread()) == FOOTER
  {
    hide Residue, Spun;
    var w1 := [0xAA, 0x20] + [0x02];
    var w2 := w1 + Zeroes(2);
    var w3 := w2 + [0x18, 0x55, 0xAA, 0x00, 0x07];
    var w4 := w3 + Zeroes(7);
    var w5 := w4 + [0x79, 0x55, 0xAA, 0x00, 0x0B];
    var w6 := w5 + Zeroes(11);
    Two(0, 0xAA, 0x20);
    OneMore(0, [0xAA, 0x20], 0x02);
    assert Residue(0, w1) == 0x6F;
    Cut(0, w1, Zeroes(2));
    ZeroesSpin(0x6F, 2);
    Spins2From6F();
    Cut(0, w2, [0x18, 0x55, 0xAA, 0x00, 0x07]);
    Five(0x36, 0x18, 0x55, 0xAA, 0x00, 0x07);
    assert Residue(0, w3) == 0x5E;
    Cut(0, w3, Zeroes(7));
    ZeroesSpin(0x5E, 7);
    Spins7From5E();
    Cut(0, w4, [0x79, 0x55, 0xAA, 0x00, 0x0B]);
    Five(0xB0, 0x79, 0x55, 0xAA, 0x00, 0x0B);
    assert Residue(0, w5) == 0x68;
    Cut(0, w5, Zeroes(11));
    ZeroesSpin(0x68, 11);
    Spins11From68();
    OneMore(0, w6, 0x01);
    assert Misread() == w6 + [0x01];
  }

  // ------------------------------------------------------------------ the unlucky train

  lemma ZeroFrame(cmd: byte, n: nat, len: byte, ck: byte)
    requires n <= MAX_PAYLOAD && LenByte(n) == len && Crc([cmd, len] + Zeroes(n)) == ck
    requires cmd != HEADER && len != HEADER && ck != HEADER
    ensures var m := Message(cmd, Zeroes(n));
            Wire(m) == [HEADER, cmd, len] + Zeroes(n) + [ck, FOOTER] && Clean(m)
  {
    hide Crc, LenByte, Zeroes;
    assert Covered(cmd, Zeroes(n)) == [cmd, len] + Zeroes(n);
  }

  /** The train as bytes: the misread ones and the last footer. */
  lemma UnluckyTrain()
    ensures AllClean(Unlucky()) && Train(Unlucky()) == Misread() + [FOOTER]
  {
    hide Crc, Wire, Zeroes, Train, Clean, LenByte;
    CrcOfFirst();
    CrcOfSecond();
    CrcOfThird();
    Lengths();
    ZeroFrame(0x20, 2, 0x02, 0x18);
    ZeroFrame(0x00, 7, 0x07, 0x79);
    ZeroFrame(0x00, 11, 0x0B, 0x01);
    ThreeInTrain(Unlucky());
  }

  lemma Lengths()
    ensures LenByte(2) == 0x02 && LenByte(7) == 0x07 && LenByte(11) == 0x0B && LenByte(32) == 0x20
  {
  }

  lemma ThreeInTrain(ms: seq<Message>)
    requires |ms| == 3 && forall m | m in ms :: m.Fits()
    ensures Train(ms) == Wire(ms[0]) + Wire(ms[1]) + Wire(ms[2])
  {
    hide Wire;
    assert ms[1..][0] == ms[1] && ms[1..][1..][0] == ms[2];
    assert Train(ms[1..][1..][1..]) == [];
    assert Train(ms[1..][1..]) == Wire(ms[2]);
    assert Train(ms[1..]) == Wire(ms[1]) + Wire(ms[2]);
  }

  lemma TakenForPayload(cmd: byte, n: nat, got: seq<byte>)
    requires 0 < n <= MAX_PAYLOAD && |got| == n
    ensures After(Command, [cmd, LenByte(n)] + got) == Checksum(cmd, got)
  {
    hide Crc, LenByte, Num, After;
    LenRoundTrip(n);
    LenOfByte(LenByte(n));
    QuietByte(Command, cmd);
    QuietThenByte(Command, [cmd], Length(cmd), LenByte(n));
    assert [cmd] + [LenByte(n)] == [cmd, LenByte(n)];
    PayloadBytes(cmd, n, [], got);
    assert [] + got == got;
    Concat(Command, [cmd, LenByte(n)], got);
  }

  lemma MisreadParts()
    ensures |Misread()| == 34 && Misread() == [HEADER, 0x20] + Misread()[2..]
  {
  }

  /** Started behind a header that was none, the parser ends the train waiting for a footer. */
  lemma UnluckyEnds()
    ensures |Train(Unlucky())| == 35 && After(Command, Train(Unlucky())) != Hunting
  {
    hide Crc, Wire, LenByte, Num, Misread, Unlucky, Train, After;
    var w := Misread();
    MisreadParts();
    var got := w[2..];
    UnluckyTrain();
    CrcOfMisread();
    Lengths();
    TakenForPayload(HEADER, 32, got);
    Concat(Command, w, [FOOTER]);
    assert Covered(HEADER, got) == w;
    OneByte(Checksum(HEADER, got), FOOTER);
  }

  /** 36 is least: behind 35 bytes of clean frames, the frame whose header arrives at
      offset 35 can still be lost. */
  lemma ThirtyFiveAreTooFew(next: Message)
    requires next.Fits()
    ensures var w := Train(Unlucky());
            && AllClean(Unlucky()) && |w| == 35
            && Outcomes(Command, w + Wire(next))[|w + Wire(next)| - 1] != Complete(next)
  {
    hide Step, Wire, Train, Unlucky, After, Outcomes;
    var w := Train(Unlucky());
    UnluckyTrain();
    UnluckyEnds();
    NextDecodedIffHunting([], next);
    Concat(Command, w, Wire(next));
    DecodedIffHunting(After(Command, w), next);
  }
}
