/** How a parser comes out of a damaged frame or a mid-stream connect. */
module LinkRecovery {
  import opened Crc8Register
  import opened ErrorDetection
  import opened FrameStream
  import opened Protocol

  // ------------------------------------------------------- one damaged byte

  /** A frame that carries x where its checksum should be. */
  function WithChecksum(cmd: byte, payload: seq<byte>, x: byte): seq<byte>
    requires |payload| <= MAX_PAYLOAD
  {
    [HEADER] + Covered(cmd, payload) + [x, FOOTER]
  }

  lemma WrongChecksum(cmd: byte, payload: seq<byte>, x: byte)
    requires |payload| <= MAX_PAYLOAD && x != Crc(Covered(cmd, payload))
    ensures var w := WithChecksum(cmd, payload, x);
            && After(Hunting, w) == Hunting
            && Frames(Hunting, w) == [] && Rejected(Hunting, w) == 1
            && Outcomes(Hunting, w) == Silence(|payload| + 3) + [ChecksumError, NeedMore]
  {
    hide Crc, LenByte;
    var head := [HEADER] + Covered(cmd, payload);
    UpToChecksum(cmd, payload);
    Concat(Hunting, head, [x]);
    OneByte(Checksum(cmd, payload), x);
    Concat(Hunting, head + [x], [FOOTER]);
    OneByte(Hunting, FOOTER);
    assert WithChecksum(cmd, payload, x) == (head + [x]) + [FOOTER];
  }

  /** Positions of CMD, of the payload and of CKSUM in an encoded frame. */
  predicate Checked(m: Message, k: nat) {
    k == 1 || 3 <= k <= |m.payload| + 3
  }

  lemma DamagedCovered(cmd: byte, payload: seq<byte>, j: nat, e: byte)
    requires |payload| <= MAX_PAYLOAD && 0 < j <= |payload| && e != 0
    ensures var hit := payload[j - 1 := Xor(payload[j - 1], e)];
            Covered(cmd, hit) == Flip(Covered(cmd, payload), j + 1, e)
            && Crc(Covered(cmd, hit)) != Crc(Covered(cmd, payload))
  {
    hide Crc, LenByte, Xor;
    var hit := payload[j - 1 := Xor(payload[j - 1], e)];
    OneFlipIsSeen(Covered(cmd, payload), j + 1, e);
    assert Covered(cmd, hit) == Flip(Covered(cmd, payload), j + 1, e);
  }

  lemma DamagedCommand(cmd: byte, payload: seq<byte>, e: byte)
    requires |payload| <= MAX_PAYLOAD && e != 0
    ensures Covered(Xor(cmd, e), payload) == Flip(Covered(cmd, payload), 0, e)
    ensures Crc(Covered(Xor(cmd, e), payload)) != Crc(Covered(cmd, payload))
  {
    hide Crc, LenByte, Xor;
    OneFlipIsSeen(Covered(cmd, payload), 0, e);
    assert Covered(Xor(cmd, e), payload) == Flip(Covered(cmd, payload), 0, e);
  }

  /** A frame damaged in such a byte is the frame of some message of the same length with
      a checksum that is not its own. */
  lemma DamagedFrame(m: Message, k: nat, e: byte) returns (cmd: byte, payload: seq<byte>, x: byte)
    requires m.Fits() && Checked(m, k) && e != 0
    ensures |payload| == |m.payload| && x != Crc(Covered(cmd, payload))
    ensures k < |Wire(m)| && Flip(Wire(m), k, e) == WithChecksum(cmd, payload, x)
  {
    hide Crc, LenByte, Flip, Covered;
    var covered := Covered(m.cmd, m.payload);
    cmd, payload, x := m.cmd, m.payload, Crc(covered);
    CoveredLength(cmd, payload);
    if k == |m.payload| + 3 {
      x := Xor(x, e);
      ZeroIffUnmoved(Crc(covered), e);
      FlipInside([HEADER] + covered, [Crc(covered)], [FOOTER], 0, e);
      FlipOne(Crc(covered), e);
    } else {
      if k == 1 {
        cmd := Xor(cmd, e);
        DamagedCommand(m.cmd, m.payload, e);
      } else {
        payload := payload[k - 3 := Xor(payload[k - 3], e)];
        DamagedCovered(m.cmd, m.payload, k - 2, e);
      }
      FlipInside([HEADER], covered, [x, FOOTER], k - 1, e);
    }
    assert Wire(m) == [HEADER] + covered + [Crc(covered)] + [FOOTER] == [HEADER] + covered + [Crc(covered), FOOTER];
    assert WithChecksum(cmd, payload, x) == [HEADER] + Covered(cmd, payload) + [x] + [FOOTER];
  }

  lemma CoveredLength(cmd: byte, payload: seq<byte>)
    requires |payload| <= MAX_PAYLOAD
    ensures |Covered(cmd, payload)| == |payload| + 2
  {
  }

  lemma FlipOne(b: byte, e: byte)
    ensures Flip([b], 0, e) == [Xor(b, e)]
  {
  }

  lemma FlipInside(a: seq<byte>, b: seq<byte>, c: seq<byte>, j: nat, e: byte)
    requires j < |b|
    ensures Flip(a + b + c, |a| + j, e) == a + Flip(b, j, e) + c
  {
    hide Xor;
  }

  /** Any change of one CMD, payload or CKSUM byte is answered ChecksumError at the
      checksum byte, counted once, and leaves the parser hunting, so the frame behind it
      is decoded. */
  lemma DamagedByteCostsOneFrame(m: Message, k: nat, e: byte, next: Message)
    requires m.Fits() && next.Fits() && Checked(m, k) && e != 0 && k < |Wire(m)|
    ensures var w := Flip(Wire(m), k, e);
            && Outcomes(Hunting, w) == Silence(|m.payload| + 3) + [ChecksumError, NeedMore]
            && After(Hunting, w) == Hunting
            && Rejected(Hunting, w + Wire(next)) == 1
            && Frames(Hunting, w + Wire(next)) == [next]
  {
    hide Wire, Crc, Flip;
    var cmd, payload, x := DamagedFrame(m, k, e);
    WrongChecksum(cmd, payload, x);
    Concat(Hunting, Flip(Wire(m), k, e), Wire(next));
    RoundTrip(next);
  }

  /** A damaged footer is answered FramingError and costs one frame as well. */
  lemma DamagedFooterCostsOneFrame(m: Message, x: byte, next: Message)
    requires m.Fits() && next.Fits() && x != FOOTER
    ensures var w := Wire(m)[..|Wire(m)| - 1] + [x];
            && Outcomes(Hunting, w) == Silence(|m.payload| + 4) + [FramingError]
            && After(Hunting, w) == Hunting
            && Rejected(Hunting, w + Wire(next)) == 1
            && Frames(Hunting, w + Wire(next)) == [next]
  {
    hide Crc, LenByte;
    var covered := Covered(m.cmd, m.payload);
    var head := [HEADER] + covered + [Crc(covered)];
    UpToChecksum(m.cmd, m.payload);
    QuietThenByte(Hunting, [HEADER] + covered, Checksum(m.cmd, m.payload), Crc(covered));
    assert Wire(m)[..|Wire(m)| - 1] == head;
    Concat(Hunting, head, [x]);
    OneByte(Footer(m.cmd, m.payload), x);
    Concat(Hunting, head + [x], Wire(next));
    RoundTrip(next);
  }

  /** The fewest bytes that could still complete a frame. */
  function Least(s: State): nat
    requires s.Valid()
  {
    match s
    case Hunting => 5
    case Command => 4
    case Length(_) => 3
    case Payload(_, len, got) => len - |got| + 2
    case Checksum(_, _) => 2
    case Footer(_, _) => 1
  }

  lemma LeastStep(s: State, b: byte)
    requires s.Valid()
    ensures Least(s) <= Least(Step(s, b).0) + 1
    ensures Step(s, b).1.Complete? ==> Least(s) == 1
  {
    hide Crc, LenByte, Num;
    LenOfByte(b);
  }

  lemma {:induction false} NoFrameYet(s: State, w: seq<byte>)
    requires s.Valid() && |w| < Least(s)
    ensures Frames(s, w) == []
    decreases |w|
  {
    hide Step, Least;
    if w != [] {
      LeastStep(s, w[0]);
      NoFrameYet(Step(s, w[0]).0, w[1..]);
    }
  }

  lemma WireOfEmpty(cmd: byte)
    ensures Wire(Message(cmd, [])) == [HEADER, cmd, LenByte(0), Crc(Covered(cmd, [])), FOOTER]
  {
    hide Crc, LenByte;
    assert Covered(cmd, []) == [cmd, LenByte(0)];
  }

  lemma SwallowsUpTo33(cmd: byte, rest: seq<byte>)
    requires |rest| < 34
    ensures Frames(Hunting, [HEADER, cmd, 32] + rest) == []
  {
    hide Crc, LenByte, Step;
    LenIs32();
    HeadBytes(cmd, 32);
    Concat(Hunting, [HEADER, cmd, 32], rest);
    NoFrameYet(Payload(cmd, 32, []), rest);
  }

  /** A damaged LEN byte is different: an empty frame whose LEN became 32 swallows what
      follows it, up to six whole frames. */
  lemma DamagedLengthCostsMore(cmd: byte, rest: seq<byte>)
    requires |rest| < 32
    ensures |Wire(Message(cmd, []))| == 5
    ensures Frames(Hunting, Wire(Message(cmd, []))[2 := 32] + rest) == []
  {
    hide Crc, LenByte, Step, Wire, Frames;
    WireOfEmpty(cmd);
    var w := Wire(Message(cmd, []))[2 := 32];
    assert w + rest == [HEADER, cmd, 32] + (w[3..] + rest);
    SwallowsUpTo33(cmd, w[3..] + rest);
  }

  lemma LenIs32()
    ensures LenByte(32) == 32
  {
  }

  // ------------------------------------------- which byte costs how many frames

  /** The frame behind w is reported at its own last byte. */
  predicate NextDecoded(w: seq<byte>, next: Message)
    requires next.Fits()
  {
    var all := w + Wire(next);
    Outcomes(Hunting, all)[|all| - 1] == Complete(next)
  }

  lemma NextDecodedIffHunting(w: seq<byte>, next: Message)
    requires next.Fits()
    ensures 0 < |Wire(next)|
    ensures NextDecoded(w, next) <==> After(Hunting, w) == Hunting
  {
    hide Step, Crc, LenByte, After, Outcomes;
    Concat(Hunting, w, Wire(next));
    DecodedIffHunting(After(Hunting, w), next);
  }

  /** What stands behind the LEN byte. */
  function Behind(m: Message): seq<byte>
    requires m.Fits()
  {
    m.payload + [Crc(Covered(m.cmd, m.payload)), FOOTER]
  }

  lemma WithLength(m: Message, x: byte)
    requires m.Fits()
    ensures |Wire(m)| == |m.payload| + OVERHEAD
    ensures Wire(m)[2 := x] == [HEADER, m.cmd, x] + Behind(m)
    ensures Wire(m)[3..] == Behind(m)
  {
    hide Crc, LenByte;
    assert Wire(m) == [HEADER, m.cmd, LenByte(|m.payload|)] + Behind(m);
  }

  /** A received LEN that leaves the parser hunting at the end of a frame without headers
      in it: over the maximum, no longer than the truth, or one longer unless the footer
      then passes for a checksum. */
  predicate LengthHarmless(m: Message, x: byte)
    requires m.Fits()
  {
    || Num(x) > MAX_PAYLOAD
    || Num(x) <= |m.payload|
    || (Num(x) == |m.payload| + 1
        && Crc(Covered(m.cmd, m.payload + [Crc(Covered(m.cmd, m.payload))])) != FOOTER)
  }

  /** A LEN over the maximum is answered Overflow at that byte and counted as a bad frame. */
  lemma HeadTooLong(cmd: byte, x: byte)
    requires Num(x) > MAX_PAYLOAD
    ensures var w := [HEADER, cmd, x];
            && After(Hunting, w) == Hunting && Frames(Hunting, w) == []
            && Outcomes(Hunting, w) == [NeedMore, NeedMore, Overflow] && Rejected(Hunting, w) == 1
  {
    hide Crc, LenByte, Num;
    QuietByte(Hunting, HEADER);
    QuietThenByte(Hunting, [HEADER], Command, cmd);
    Concat(Hunting, [HEADER, cmd], [x]);
    OneByte(Length(cmd), x);
    assert [HEADER] + [cmd] == [HEADER, cmd] && [HEADER, cmd] + [x] == [HEADER, cmd, x];
    assert Silence(2) == [NeedMore, NeedMore];
  }

  lemma TooLongIsDropped(m: Message, x: byte)
    requires m.Fits() && Num(x) > MAX_PAYLOAD && HEADER !in Behind(m)
    ensures After(Hunting, Wire(m)[2 := x]) == Hunting && Frames(Hunting, Wire(m)[2 := x]) == []
  {
    hide Crc, LenByte, Num, Behind, Wire, Step, After, Frames;
    WithLength(m, x);
    HeadTooLong(m.cmd, x);
    Concat(Hunting, [HEADER, m.cmd, x], Behind(m));
    Noise(Behind(m));
  }

  function AfterLength(cmd: byte, n: nat): State {
    if n == 0 then Checksum(cmd, []) else Payload(cmd, n, [])
  }

  lemma LengthTaken(m: Message, x: byte)
    requires m.Fits() && Num(x) <= MAX_PAYLOAD
    ensures var s := AfterLength(m.cmd, Num(x));
            && s.Valid()
            && After(Hunting, Wire(m)[2 := x]) == After(s, Behind(m))
            && Frames(Hunting, Wire(m)[2 := x]) == Frames(s, Behind(m))
  {
    hide Crc, LenByte, Num, Behind, Wire, Step;
    WithLength(m, x);
    LenOfByte(x);
    HeadBytes(m.cmd, Num(x));
    Concat(Hunting, [HEADER, m.cmd, x], Behind(m));
  }

  lemma ShortIsLeft(m: Message, x: byte)
    requires m.Fits() && Num(x) <= |m.payload| && HEADER !in Behind(m)
    ensures After(Hunting, Wire(m)[2 := x]) == Hunting
  {
    hide Crc, LenByte, Num, Wire, Step;
    var s, b := AfterLength(m.cmd, Num(x)), Behind(m);
    LengthTaken(m, x);
    var t := HuntsSoon(s, b);
    assert b == b[..t] + b[t..];
    Concat(s, b[..t], b[t..]);
    Noise(b[t..]);
  }

  lemma {:induction false} PayloadGoesOn(cmd: byte, len: nat, got: seq<byte>, rest: seq<byte>)
    requires |got| + |rest| < len <= MAX_PAYLOAD
    ensures After(Payload(cmd, len, got), rest) == Payload(cmd, len, got + rest)
    decreases |rest|
  {
    hide Crc, Num, LenByte;
    if rest == [] {
      assert got + rest == got;
    } else {
      PayloadGoesOn(cmd, len, got + [rest[0]], rest[1..]);
      assert got + [rest[0]] + rest[1..] == got + rest;
    }
  }

  lemma LongIsKept(m: Message, x: byte)
    requires m.Fits() && |m.payload| + 2 <= Num(x) <= MAX_PAYLOAD
    ensures After(Hunting, Wire(m)[2 := x]) != Hunting
  {
    hide Crc, LenByte, Num, Wire, Step, After;
    var n, b := Num(x), Behind(m);
    LengthTaken(m, x);
    assert [] + b == b;
    if n == |b| {
      PayloadBytes(m.cmd, n, [], b);
    } else {
      PayloadGoesOn(m.cmd, n, [], b);
    }
  }

  lemma OneLonger(m: Message, x: byte)
    requires m.Fits() && Num(x) == |m.payload| + 1 <= MAX_PAYLOAD
    ensures After(Hunting, Wire(m)[2 := x]) == Hunting <==> LengthHarmless(m, x)
  {
    hide Crc, LenByte, Num, Wire;
    var got := m.payload + [Crc(Covered(m.cmd, m.payload))];
    LengthTaken(m, x);
    PayloadBytes(m.cmd, Num(x), [], got);
    assert [] + got == got && Behind(m) == got + [FOOTER];
    Concat(Payload(m.cmd, Num(x), []), got, [FOOTER]);
    OneByte(Checksum(m.cmd, got), FOOTER);
  }

  /** A changed LEN byte costs the frame behind it exactly when it is not harmless. */
  lemma DamagedLength(m: Message, x: byte)
    requires m.Fits() && HEADER !in Behind(m)
    ensures After(Hunting, Wire(m)[2 := x]) == Hunting <==> LengthHarmless(m, x)
  {
    hide Wire, Crc, Num, Behind, After;
    if Num(x) > MAX_PAYLOAD {
      TooLongIsDropped(m, x);
    } else if Num(x) <= |m.payload| {
      ShortIsLeft(m, x);
    } else if Num(x) == |m.payload| + 1 {
      OneLonger(m, x);
    } else {
      LongIsKept(m, x);
    }
  }

  /** A header damaged in any way makes the whole frame noise. */
  lemma DamagedHeader(m: Message, x: byte)
    requires m.Fits() && x != HEADER && HEADER !in Wire(m)[1..]
    ensures |Wire(m)| > 0 && Quiet(Hunting, Wire(m)[0 := x], Hunting)
  {
    hide Crc, LenByte, Step;
    Noise(Wire(m)[0 := x]);
  }

  // ---------------------------------------------- which bytes leave the parser hunting

  /** Every header byte at which a frame would be looked for has its frame decided within
      w: its LEN is over the maximum, its checksum is there and wrong, or its footer byte is
      there. */
  predicate Resolves(w: seq<byte>)
    decreases |w|
  {
    if w == [] then true
    else if w[0] != HEADER then Resolves(w[1..])
    else if |w| < 3 then false
    else if Num(w[2]) > MAX_PAYLOAD then Resolves(w[3..])
    else ResolvesBody(w[1], Num(w[2]), w[3..])
  }

  /** The same from behind a LEN byte. */
  predicate ResolvesBody(cmd: byte, n: nat, rest: seq<byte>)
    requires n <= MAX_PAYLOAD
    decreases |rest|
  {
    if |rest| <= n then false
    else if rest[n] != Crc(Covered(cmd, rest[..n])) then Resolves(rest[n + 1..])
    else |rest| >= n + 2 && Resolves(rest[n + 2..])
  }

  lemma BodyIncomplete(cmd: byte, n: nat, rest: seq<byte>)
    requires n <= MAX_PAYLOAD && |rest| <= n
    ensures After(AfterLength(cmd, n), rest) != Hunting
  {
    hide Crc, Num, LenByte, Step;
    assert [] + rest == rest;
    if n > 0 {
      if |rest| < n {
        PayloadGoesOn(cmd, n, [], rest);
      } else {
        PayloadBytes(cmd, n, [], rest);
      }
    }
  }

  lemma BodyTaken(cmd: byte, n: nat, got: seq<byte>)
    requires n <= MAX_PAYLOAD && |got| == n
    ensures After(AfterLength(cmd, n), got) == Checksum(cmd, got)
  {
    hide Crc, Num, LenByte, Step;
    if n == 0 {
      assert got == [];
    } else {
      PayloadBytes(cmd, n, [], got);
      assert [] + got == got;
    }
  }

  lemma BodyComplete(cmd: byte, n: nat, rest: seq<byte>)
    requires n <= MAX_PAYLOAD && n < |rest|
    ensures var s := Step(Checksum(cmd, rest[..n]), rest[n]).0;
            After(AfterLength(cmd, n), rest) == After(s, rest[n + 1..])
  {
    hide Crc, Num, LenByte, Step, After, Outcomes, Frames, Rejected, Covered;
    var got := rest[..n];
    BodyTaken(cmd, n, got);
    assert rest == got + ([rest[n]] + rest[n + 1..]);
    Concat(AfterLength(cmd, n), got, [rest[n]] + rest[n + 1..]);
    Concat(Checksum(cmd, got), [rest[n]], rest[n + 1..]);
    OneByte(Checksum(cmd, got), rest[n]);
  }

  lemma FooterDecides(cmd: byte, got: seq<byte>, rest: seq<byte>)
    requires |got| <= MAX_PAYLOAD
    ensures After(Footer(cmd, got), rest)
         == if rest == [] then Footer(cmd, got) else After(Hunting, rest[1..])
  {
    hide Step;
    if rest != [] {
      StepAtEnd(Footer(cmd, got), rest[0]);
    }
  }

  lemma HeadTaken(cmd: byte, x: byte, rest: seq<byte>)
    ensures After(Hunting, [HEADER, cmd, x] + rest)
         == if Num(x) > MAX_PAYLOAD then After(Hunting, rest) else After(AfterLength(cmd, Num(x)), rest)
  {
    hide Crc, Num, LenByte, Step, After, Outcomes, Frames, Rejected;
    Concat(Hunting, [HEADER, cmd, x], rest);
    if Num(x) > MAX_PAYLOAD {
      HeadTooLong(cmd, x);
    } else {
      LenOfByte(x);
      HeadBytes(cmd, Num(x));
    }
  }

  lemma ShortHead(w: seq<byte>)
    requires 0 < |w| < 3 && w[0] == HEADER
    ensures After(Hunting, w) != Hunting
  {
    hide Crc, Num, LenByte;
    if |w| == 1 {
      assert w[1..] == [];
    } else {
      assert w[1..][1..] == [];
      assert After(Step(Command, w[1]).0, w[1..][1..]) == Length(w[1]);
    }
  }

  /** What a hunting parser makes of any bytes: it hunts again at their end exactly when
      they resolve. */
  lemma {:induction false} HuntsIffResolves(w: seq<byte>)
    ensures After(Hunting, w) == Hunting <==> Resolves(w)
    decreases |w|
  {
    hide Crc, Num, LenByte, ResolvesBody, After, AfterLength;
    if w == [] {
      NoBytes(Hunting);
    } else if w[0] != HEADER {
      SkipsByte(w);
      HuntsIffResolves(w[1..]);
    } else if |w| < 3 {
      ShortHead(w);
    } else {
      assert w == [HEADER, w[1], w[2]] + w[3..];
      HeadTaken(w[1], w[2], w[3..]);
      if Num(w[2]) > MAX_PAYLOAD {
        HuntsIffResolves(w[3..]);
      } else {
        BodyHuntsIffResolves(w[1], Num(w[2]), w[3..]);
      }
    }
  }

  lemma {:induction false} BodyHuntsIffResolves(cmd: byte, n: nat, rest: seq<byte>)
    requires n <= MAX_PAYLOAD
    ensures After(AfterLength(cmd, n), rest) == Hunting <==> ResolvesBody(cmd, n, rest)
    decreases |rest|
  {
    hide Crc, Num, LenByte, Resolves, After, AfterLength, Step;
    if |rest| <= n {
      BodyIncomplete(cmd, n, rest);
    } else {
      var got, after := rest[..n], rest[n + 1..];
      BodyComplete(cmd, n, rest);
      StepAtChecksum(cmd, got, rest[n]);
      if rest[n] != Crc(Covered(cmd, got)) {
        HuntsIffResolves(after);
      } else {
        FooterDecides(cmd, got, after);
        if after != [] {
          HuntsIffResolves(after[1..]);
          assert after[1..] == rest[n + 2..];
        }
      }
    }
  }

  lemma NoBytes(s: State)
    requires s.Valid()
    ensures After(s, []) == s
  {
  }

  lemma SkipsByte(w: seq<byte>)
    requires 0 < |w| && w[0] != HEADER
    ensures After(Hunting, w) == After(Hunting, w[1..])
  {
    hide Crc, Num, LenByte;
  }

  /** Whatever was received, the frame behind it is reported exactly when it resolves. */
  lemma NextDecodedIffResolves(w: seq<byte>, next: Message)
    requires next.Fits()
    ensures NextDecoded(w, next) <==> Resolves(w)
  {
    hide NextDecoded, Resolves, After;
    NextDecodedIffHunting(w, next);
    HuntsIffResolves(w);
  }

  /** One damaged byte, wherever it is, costs the frame it is in and no other exactly when
      it is neither HDR nor LEN or the bytes received resolve. With no header byte behind
      it a damaged HDR always does, and a damaged LEN does exactly when it is harmless. */
  lemma OneByteCostsOneFrameIff(m: Message, k: nat, x: byte, next: Message)
    requires m.Fits() && next.Fits() && k < |Wire(m)| && x != Wire(m)[k]
    ensures NextDecoded(Wire(m)[k := x], next) <==> (k == 0 || k == 2 ==> Resolves(Wire(m)[k := x]))
    ensures k == 0 && HEADER !in Wire(m)[1..] ==> Resolves(Wire(m)[k := x])
    ensures k == 2 && HEADER !in Wire(m)[3..] ==> (Resolves(Wire(m)[k := x]) <==> LengthHarmless(m, x))
  {
    hide Wire, Crc, NextDecoded, LengthHarmless, After, Frames, Outcomes, Resolves;
    NextDecodedIffResolves(Wire(m)[k := x], next);
    HuntsIffResolves(Wire(m)[k := x]);
    WithLength(m, x);
    WireStarts(m);
    if k == 0 {
      if HEADER !in Wire(m)[1..] {
        DamagedHeader(m, x);
      }
    } else if k == 2 {
      if HEADER !in Wire(m)[3..] {
        DamagedLength(m, x);
      }
    } else if k == |Wire(m)| - 1 {
      DamagedFooterCostsOneFrame(m, x, next);
      assert Wire(m)[k := x] == Wire(m)[..k] + [x];
    } else {
      var e := Xor(Wire(m)[k], x);
      XorSwaps(Wire(m)[k], x);
      ZeroIffUnmoved(Wire(m)[k], e);
      DamagedByteCostsOneFrame(m, k, e, next);
      assert Flip(Wire(m), k, e) == Wire(m)[k := x];
    }
  }

  lemma WireStarts(m: Message)
    requires m.Fits()
    ensures var w := Wire(m); |w| >= OVERHEAD && w[0] == HEADER && w[|w| - 1] == FOOTER
  {
    hide Crc, LenByte;
  }

  lemma UpToLength(m: Message, n: nat)
    requires m.Fits() && n < |m.payload|
    ensures var got, b := m.payload[..n], Behind(m);
            && n + 2 <= |b| && b == got + ([b[n], b[n + 1]] + b[n + 2..])
            && Quiet(AfterLength(m.cmd, n), got, Checksum(m.cmd, got))
  {
    hide Crc, LenByte, Num, Step;
    var got := m.payload[..n];
    if n > 0 {
      PayloadBytes(m.cmd, n, [], got);
      assert [] + got == got;
    }
  }

  /** The two bytes behind a LEN received too short pass for checksum and footer. */
  predicate PassesEarly(m: Message, n: nat)
    requires m.Fits() && n < |m.payload|
  {
    var b := Behind(m);
    b[n] == Crc(Covered(m.cmd, m.payload[..n])) && b[n + 1] == FOOTER
  }

  /** A LEN received too short makes a frame of the start of the payload exactly when the
      two bytes behind that start pass; nothing else is reported. */
  lemma ShortLengthReports(m: Message, x: byte)
    requires m.Fits() && Num(x) < |m.payload| && HEADER !in Behind(m)
    ensures Frames(Hunting, Wire(m)[2 := x])
         == if PassesEarly(m, Num(x)) then [Message(m.cmd, m.payload[..Num(x)])] else []
  {
    hide Crc, LenByte, Num, Wire, Step, After, Frames, Behind;
    var n, b := Num(x), Behind(m);
    var got := m.payload[..n];
    LengthTaken(m, x);
    UpToLength(m, n);
    Concat(AfterLength(m.cmd, n), got, [b[n], b[n + 1]] + b[n + 2..]);
    TwoBytes(Checksum(m.cmd, got), b[n], b[n + 1], b[n + 2..]);
  }

  lemma StepAtChecksum(cmd: byte, got: seq<byte>, x: byte)
    requires |got| <= MAX_PAYLOAD
    ensures Step(Checksum(cmd, got), x)
         == if x == Crc(Covered(cmd, got)) then (Footer(cmd, got), NeedMore) else (Hunting, Outcome.ChecksumError)
  {
    hide Crc, Covered;
  }

  lemma StepAtEnd(s: State, y: byte)
    requires s.Valid() && (s.Hunting? || s.Footer?) && (s.Hunting? ==> y != HEADER)
    ensures Step(s, y).0 == Hunting
    ensures Reported(Step(s, y).1) == if s.Footer? && y == FOOTER then [Message(s.cmd, s.got)] else []
  {
    hide Crc, Num, LenByte;
  }

  lemma TwoBytes(s: State, x: byte, y: byte, rest: seq<byte>)
    requires s.Valid() && s.Checksum? && y != HEADER && HEADER !in rest
    ensures Frames(s, [x, y] + rest)
         == if x == Crc(Covered(s.cmd, s.got)) && y == FOOTER then [Message(s.cmd, s.got)] else []
  {
    hide Step, Crc, Covered, After, Outcomes, Rejected, Frames;
    var t := Step(s, x).0;
    StepAtChecksum(s.cmd, s.got, x);
    StepAtEnd(t, y);
    assert [x, y] + rest == [x] + ([y] + rest);
    Concat(s, [x], [y] + rest);
    OneByte(s, x);
    Concat(t, [y], rest);
    OneByte(t, y);
    Noise(rest);
  }

  /** A LEN received too long, or over the maximum, reports nothing. */
  lemma LongLengthReports(m: Message, x: byte)
    requires m.Fits() && Num(x) > |m.payload|
    requires Num(x) > MAX_PAYLOAD ==> HEADER !in Behind(m)
    ensures Frames(Hunting, Wire(m)[2 := x]) == []
  {
    hide Crc, LenByte, Num, Wire, Step, Frames;
    if Num(x) > MAX_PAYLOAD {
      TooLongIsDropped(m, x);
    } else {
      LengthTaken(m, x);
      NoFrameYet(AfterLength(m.cmd, Num(x)), Behind(m));
    }
  }

  /** Headers in the payload do matter: behind a damaged header they start a false frame. */
  lemma PayloadCanPassForHeader(x: byte, next: Message)
    requires x != HEADER && next.Fits()
    ensures var m := Message(0x01, [HEADER, 0x01, 0x20]);
            m.Fits() && 0 < |Wire(m)| && !NextDecoded(Wire(m)[0 := x], next)
  {
    hide Crc, LenByte, NextDecoded;
    var m := Message(0x01, [HEADER, 0x01, 0x20]);
    var ck := Crc(Covered(0x01, m.payload));
    NextDecodedIffHunting(Wire(m)[0 := x], next);
    LenIs3();
    LenIs32();
    var noise := [x, 0x01, 0x03];
    Noise(noise);
    HeadBytes(0x01, 32);
    assert Wire(m)[0 := x] == noise + ([HEADER, 0x01, 0x20] + [ck, FOOTER]);
    Concat(Hunting, noise, [HEADER, 0x01, 0x20] + [ck, FOOTER]);
    Concat(Hunting, [HEADER, 0x01, 0x20], [ck, FOOTER]);
    PayloadGoesOn(0x01, 32, [], [ck, FOOTER]);
  }

  lemma LenIs3()
    ensures LenByte(3) == 3
  {
  }

  // --------------------------------------------------------- resynchronisation

  /** The most bytes that can pass before the parser hunts again. */
  function Longest(s: State): nat
    requires s.Valid()
  {
    match s
    case Hunting => 0
    case Command => 36
    case Length(_) => 35
    case Payload(_, len, got) => len - |got| + 2
    case Checksum(_, _) => 2
    case Footer(_, _) => 1
  }

  lemma LongestStep(s: State, b: byte)
    requires s.Valid() && s != Hunting
    ensures Longest(Step(s, b).0) < Longest(s) <= MAX_PAYLOAD + 4
  {
    hide Crc, LenByte, Num;
    LenOfByte(b);
  }

  /** From any state the parser hunts again within 36 bytes. */
  lemma {:induction false} HuntsSoon(s: State, w: seq<byte>) returns (t: nat)
    requires s.Valid() && Longest(s) <= |w|
    ensures t <= Longest(s) <= 36 && After(s, w[..t]) == Hunting
    decreases |w|
  {
    hide Step, Longest;
    LongestIsZero(s);
    if s == Hunting {
      t := 0;
    } else {
      LongestStep(s, w[0]);
      var r := HuntsSoon(Step(s, w[0]).0, w[1..]);
      t := r + 1;
      assert w[..t][0] == w[0] && w[..t][1..] == w[1..][..r];
    }
  }

  lemma LongestIsZero(s: State)
    requires s.Valid()
    ensures Longest(s) == 0 <==> s == Hunting
  {
  }

  /** No header byte after the header. */
  predicate Clean(m: Message)
    requires m.Fits()
  {
    HEADER !in Wire(m)[1..]
  }

  ghost predicate AllClean(ms: seq<Message>) {
    forall m | m in ms :: m.Fits() && Clean(m)
  }

  /** Frames back to back. */
  function Train(ms: seq<Message>): seq<byte>
    requires forall m | m in ms :: m.Fits()
  {
    if ms == [] then [] else Wire(ms[0]) + Train(ms[1..])
  }

  lemma {:induction false} TrainRoundTrip(ms: seq<Message>)
    requires forall m | m in ms :: m.Fits()
    ensures Frames(Hunting, Train(ms)) == ms && Rejected(Hunting, Train(ms)) == 0
    ensures After(Hunting, Train(ms)) == Hunting
  {
    hide Step, Wire;
    if ms != [] {
      RoundTrip(ms[0]);
      TrainRoundTrip(ms[1..]);
      Concat(Hunting, Wire(ms[0]), Train(ms[1..]));
    }
  }

  /** Hunting from anywhere inside a clean train ends hunting at its end. */
  lemma {:induction false} HuntsToTheEnd(ms: seq<Message>, t: nat)
    requires AllClean(ms) && t <= |Train(ms)|
    ensures After(Hunting, Train(ms)[t..]) == Hunting
  {
    hide Step, Wire;
    if ms != [] {
      var first, rest := Wire(ms[0]), Train(ms[1..]);
      if |first| <= t {
        HuntsToTheEnd(ms[1..], t - |first|);
        assert Train(ms)[t..] == rest[t - |first|..];
      } else {
        assert Train(ms)[t..] == first[t..] + rest;
        Concat(Hunting, first[t..], rest);
        TrainRoundTrip(ms[1..]);
        if t == 0 {
          RoundTrip(ms[0]);
          assert first[t..] == first;
        } else {
          assert first[t..] == first[1..][t - 1..];
          Noise(first[t..]);
        }
      }
    }
  }

  lemma {:induction false} TrainConcat(a: seq<Message>, b: seq<Message>)
    requires forall m | m in a :: m.Fits()
    requires forall m | m in b :: m.Fits()
    ensures forall m | m in a + b :: m.Fits()
    ensures Train(a + b) == Train(a) + Train(b)
    decreases |a|
  {
    hide Wire;
    if a == [] {
      assert a + b == b;
    } else {
      assert (a + b)[0] == a[0] && (a + b)[1..] == a[1..] + b;
      TrainConcat(a[1..], b);
      assert Wire(a[0]) + (Train(a[1..]) + Train(b)) == Wire(a[0]) + Train(a[1..]) + Train(b);
    }
  }

  /** From any state: once clean frames have filled 36 bytes, every later frame of the train,
      clean or not, is reported with its exact contents, and none of them is rejected. */
  lemma Resynchronises(s: State, early: seq<Message>, late: seq<Message>)
    requires s.Valid() && AllClean(early) && forall m | m in late :: m.Fits()
    requires 36 <= |Train(early)|
    ensures After(s, Train(early)) == Hunting
    ensures Train(early + late) == Train(early) + Train(late)
    ensures Frames(s, Train(early + late)) == Frames(s, Train(early)) + late
    ensures Rejected(s, Train(early + late)) == Rejected(s, Train(early))
  {
    hide Step, Wire, Longest;
    var w := Train(early);
    LongestBound(s);
    var t := HuntsSoon(s, w);
    assert w == w[..t] + w[t..];
    Concat(s, w[..t], w[t..]);
    HuntsToTheEnd(early, t);
    TrainConcat(early, late);
    Concat(s, w, Train(late));
    TrainRoundTrip(late);
  }

  lemma LongestBound(s: State)
    requires s.Valid()
    ensures Longest(s) <= 36
  {
  }
}
