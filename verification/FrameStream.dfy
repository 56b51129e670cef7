/** What a parser makes of a whole byte stream. */
module FrameStream {
  import opened Crc8Register
  import opened Protocol

  /** The state after a stream. */
  function After(s: State, w: seq<byte>): (r: State)
    requires s.Valid()
    ensures r.Valid()
    decreases |w|
  {
    if w == [] then s else After(Step(s, w[0]).0, w[1..])
  }

  /** The answer at every byte. */
  function Outcomes(s: State, w: seq<byte>): (r: seq<Outcome>)
    requires s.Valid()
    ensures |r| == |w|
    decreases |w|
  {
    if w == [] then [] else [Step(s, w[0]).1] + Outcomes(Step(s, w[0]).0, w[1..])
  }

  function Reported(o: Outcome): seq<Message> {
    if o.Complete? then [o.frame] else []
  }

  /** The frames reported, in order. */
  function Frames(s: State, w: seq<byte>): seq<Message>
    requires s.Valid()
    decreases |w|
  {
    if w == [] then [] else Reported(Step(s, w[0]).1) + Frames(Step(s, w[0]).0, w[1..])
  }

  /** How many frames were rejected. */
  function Rejected(s: State, w: seq<byte>): nat
    requires s.Valid()
    decreases |w|
  {
    if w == [] then 0 else (if Step(s, w[0]).1.Rejects() then 1 else 0) + Rejected(Step(s, w[0]).0, w[1..])
  }

  lemma {:induction false} AfterConcat(s: State, v: seq<byte>, w: seq<byte>)
    requires s.Valid()
    ensures After(s, v + w) == After(After(s, v), w)
    decreases |v|
  {
    hide Step;
    if v == [] {
      assert v + w == w;
    } else {
      assert (v + w)[0] == v[0] && (v + w)[1..] == v[1..] + w;
      AfterConcat(Step(s, v[0]).0, v[1..], w);
    }
  }

  lemma {:induction false} OutcomesConcat(s: State, v: seq<byte>, w: seq<byte>)
    requires s.Valid()
    ensures Outcomes(s, v + w) == Outcomes(s, v) + Outcomes(After(s, v), w)
    decreases |v|
  {
    hide Step;
    if v == [] {
      assert v + w == w;
    } else {
      assert (v + w)[0] == v[0] && (v + w)[1..] == v[1..] + w;
      OutcomesConcat(Step(s, v[0]).0, v[1..], w);
    }
  }

  lemma {:induction false} FramesConcat(s: State, v: seq<byte>, w: seq<byte>)
    requires s.Valid()
    ensures Frames(s, v + w) == Frames(s, v) + Frames(After(s, v), w)
    decreases |v|
  {
    hide Step;
    if v == [] {
      assert v + w == w;
    } else {
      assert (v + w)[0] == v[0] && (v + w)[1..] == v[1..] + w;
      FramesConcat(Step(s, v[0]).0, v[1..], w);
    }
  }

  lemma {:induction false} RejectedConcat(s: State, v: seq<byte>, w: seq<byte>)
    requires s.Valid()
    ensures Rejected(s, v + w) == Rejected(s, v) + Rejected(After(s, v), w)
    decreases |v|
  {
    hide Step;
    if v == [] {
      assert v + w == w;
    } else {
      assert (v + w)[0] == v[0] && (v + w)[1..] == v[1..] + w;
      RejectedConcat(Step(s, v[0]).0, v[1..], w);
    }
  }

  /** A stream may be cut anywhere. */
  lemma Concat(s: State, v: seq<byte>, w: seq<byte>)
    requires s.Valid()
    ensures After(s, v + w) == After(After(s, v), w)
    ensures Outcomes(s, v + w) == Outcomes(s, v) + Outcomes(After(s, v), w)
    ensures Frames(s, v + w) == Frames(s, v) + Frames(After(s, v), w)
    ensures Rejected(s, v + w) == Rejected(s, v) + Rejected(After(s, v), w)
  {
    hide *;
    AfterConcat(s, v, w);
    OutcomesConcat(s, v, w);
    FramesConcat(s, v, w);
    RejectedConcat(s, v, w);
  }

  lemma OneByte(s: State, b: byte)
    requires s.Valid()
    ensures After(s, [b]) == Step(s, b).0
    ensures Frames(s, [b]) == Reported(Step(s, b).1)
    ensures Rejected(s, [b]) == if Step(s, b).1.Rejects() then 1 else 0
    ensures Outcomes(s, [b]) == [Step(s, b).1]
  {
    hide Step;
    var w := [b];
    assert w[0] == b && w[1..] == [];
    assert After(Step(s, b).0, w[1..]) == Step(s, b).0;
  }

  function Silence(n: nat): (r: seq<Outcome>)
    ensures |r| == n
  {
    seq(n, _ => NeedMore)
  }

  /** w takes s to t with nothing reported and nothing rejected. */
  ghost predicate Quiet(s: State, w: seq<byte>, t: State) {
    && s.Valid()
    && After(s, w) == t
    && Frames(s, w) == []
    && Rejected(s, w) == 0
    && Outcomes(s, w) == Silence(|w|)
  }

  lemma QuietByte(s: State, b: byte)
    requires s.Valid() && Step(s, b).1 == NeedMore
    ensures Quiet(s, [b], Step(s, b).0)
  {
    hide Step;
    OneByte(s, b);
  }

  lemma QuietThen(s: State, v: seq<byte>, t: State, w: seq<byte>, u: State)
    requires Quiet(s, v, t) && t.Valid() && Quiet(t, w, u)
    ensures Quiet(s, v + w, u)
  {
    hide Step;
    Concat(s, v, w);
  }

  lemma QuietThenByte(s: State, v: seq<byte>, t: State, b: byte)
    requires Quiet(s, v, t) && t.Valid() && Step(t, b).1 == NeedMore
    ensures Quiet(s, v + [b], Step(t, b).0)
  {
    hide Step;
    QuietByte(t, b);
    QuietThen(s, v, t, [b], Step(t, b).0);
  }

  // ------------------------------------------------------------- one frame

  /** Bytes without a header leave a hunting parser hunting. */
  lemma {:induction false} Noise(w: seq<byte>)
    requires HEADER !in w
    ensures Quiet(Hunting, w, Hunting)
  {
    if w != [] {
      Noise(w[1..]);
      QuietByte(Hunting, w[0]);
      QuietThen(Hunting, [w[0]], Hunting, w[1..], Hunting);
      assert w == [w[0]] + w[1..];
    }
  }

  lemma {:induction false} PayloadBytes(cmd: byte, len: nat, got: seq<byte>, rest: seq<byte>)
    requires |got| < len <= MAX_PAYLOAD && |got| + |rest| == len
    ensures Quiet(Payload(cmd, len, got), rest, Checksum(cmd, got + rest))
    decreases |rest|
  {
    hide Crc, Num, LenByte, Quiet;
    var b := rest[0];
    QuietByte(Payload(cmd, len, got), b);
    assert rest == [b] + rest[1..];
    if |rest| == 1 {
      assert rest == [b];
    } else {
      PayloadBytes(cmd, len, got + [b], rest[1..]);
      assert got + [b] + rest[1..] == got + rest;
      QuietThen(Payload(cmd, len, got), [b], Payload(cmd, len, got + [b]), rest[1..], Checksum(cmd, got + rest));
    }
  }

  lemma HeadBytes(cmd: byte, n: nat)
    requires n <= MAX_PAYLOAD
    ensures Quiet(Hunting, [HEADER, cmd, LenByte(n)], if n == 0 then Checksum(cmd, []) else Payload(cmd, n, []))
  {
    hide Crc, Num, LenByte, Quiet;
    LenRoundTrip(n);
    LenOfByte(LenByte(n));
    QuietByte(Hunting, HEADER);
    QuietThenByte(Hunting, [HEADER], Command, cmd);
    assert [HEADER] + [cmd] == [HEADER, cmd];
    QuietThenByte(Hunting, [HEADER, cmd], Length(cmd), LenByte(n));
    assert [HEADER, cmd] + [LenByte(n)] == [HEADER, cmd, LenByte(n)];
  }

  /** A header and the covered bytes lead to the checksum byte. */
  lemma UpToChecksum(cmd: byte, payload: seq<byte>)
    requires |payload| <= MAX_PAYLOAD
    ensures Quiet(Hunting, [HEADER] + Covered(cmd, payload), Checksum(cmd, payload))
  {
    hide Crc, Num, LenByte, Quiet, Step;
    var n := |payload|;
    var head := [HEADER, cmd, LenByte(n)];
    HeadBytes(cmd, n);
    assert [HEADER] + Covered(cmd, payload) == head + payload;
    if n == 0 {
      assert head + payload == head;
    } else {
      PayloadBytes(cmd, n, [], payload);
      assert [] + payload == payload;
      QuietThen(Hunting, head, Payload(cmd, n, []), payload, Checksum(cmd, payload));
    }
  }

  function FrameOutcomes(m: Message): seq<Outcome> {
    Silence(|m.payload| + 4) + [Complete(m)]
  }

  /** Parsing inverts encoding: a hunting parser fed one encoded frame reports it at its
      last byte and hunts again. */
  lemma RoundTrip(m: Message)
    requires m.Fits()
    ensures After(Hunting, Wire(m)) == Hunting
    ensures Outcomes(Hunting, Wire(m)) == FrameOutcomes(m)
    ensures Frames(Hunting, Wire(m)) == [m] && Rejected(Hunting, Wire(m)) == 0
  {
    hide Crc, Num, LenByte;
    var covered := Covered(m.cmd, m.payload);
    var crc := Crc(covered);
    UpToChecksum(m.cmd, m.payload);
    QuietThenByte(Hunting, [HEADER] + covered, Checksum(m.cmd, m.payload), crc);
    var head := [HEADER] + covered + [crc];
    Concat(Hunting, head, [FOOTER]);
    OneByte(Footer(m.cmd, m.payload), FOOTER);
    assert Wire(m) == head + [FOOTER];
  }

  // ------------------------------------------------------------- many frames

  /** noise[0], frame 0, noise[1], frame 1, ..., and a last stretch of noise. */
  function Interleave(noise: seq<seq<byte>>, ms: seq<Message>): seq<byte>
    requires |noise| == |ms| + 1 && forall m | m in ms :: m.Fits()
  {
    if ms == [] then noise[0] else noise[0] + Wire(ms[0]) + Interleave(noise[1..], ms[1..])
  }

  /** Any list of frames, with header-free noise around them, comes back exactly and in
      order, nothing is rejected, and the parser ends hunting. */
  lemma {:induction false} StreamRoundTrip(noise: seq<seq<byte>>, ms: seq<Message>)
    requires |noise| == |ms| + 1 && forall m | m in ms :: m.Fits()
    requires forall w | w in noise :: HEADER !in w
    ensures Frames(Hunting, Interleave(noise, ms)) == ms
    ensures Rejected(Hunting, Interleave(noise, ms)) == 0
    ensures After(Hunting, Interleave(noise, ms)) == Hunting
  {
    hide Wire, Step, After, Frames, Rejected, Outcomes;
    Noise(noise[0]);
    if ms != [] {
      RoundTrip(ms[0]);
      StreamRoundTrip(noise[1..], ms[1..]);
      var rest := Interleave(noise[1..], ms[1..]);
      Concat(Hunting, noise[0], Wire(ms[0]));
      Concat(Hunting, noise[0] + Wire(ms[0]), rest);
    }
  }

  // ------------------------------------------- what was reported was received

  /** The bytes of the frame in progress. */
  function Pending(s: State): seq<byte>
    requires s.Valid()
  {
    match s
    case Hunting => []
    case Command => [HEADER]
    case Length(cmd) => [HEADER, cmd]
    case Payload(cmd, len, got) => [HEADER, cmd, LenByte(len)] + got
    case Checksum(cmd, got) => [HEADER] + Covered(cmd, got)
    case Footer(cmd, got) => [HEADER] + Covered(cmd, got) + [Crc(Covered(cmd, got))]
  }

  ghost predicate PendingMoves(s: State, b: byte)
    requires s.Valid()
  {
    var (t, o) := Step(s, b);
    if o.Complete? then o.frame.Fits() && Pending(s) + [b] == Wire(o.frame) && t == Hunting
    else Pending(t) == Pending(s) + [b] || t == Hunting
  }

  lemma LengthMoves(cmd: byte, b: byte)
    ensures PendingMoves(Length(cmd), b)
  {
    hide Crc, Num, LenByte, Wire;
    LenOfByte(b);
    assert [HEADER] + Covered(cmd, []) == [HEADER, cmd, LenByte(0)];
    assert [HEADER, cmd, b] + [] == [HEADER, cmd] + [b];
  }

  lemma PayloadMoves(cmd: byte, len: nat, got: seq<byte>, b: byte)
    requires |got| < len <= MAX_PAYLOAD
    ensures PendingMoves(Payload(cmd, len, got), b)
  {
    hide Crc, Num, LenByte, Wire;
    var head := [HEADER, cmd, LenByte(len)];
    assert head + (got + [b]) == (head + got) + [b];
    if |got| + 1 >= len {
      assert [HEADER] + Covered(cmd, got + [b]) == head + (got + [b]);
    }
  }

  lemma FooterMoves(cmd: byte, got: seq<byte>, b: byte)
    requires |got| <= MAX_PAYLOAD
    ensures PendingMoves(Footer(cmd, got), b)
  {
    hide Crc, Num, LenByte;
    assert Pending(Footer(cmd, got)) + [FOOTER] == Wire(Message(cmd, got));
  }

  /** One byte either extends the frame in progress, completes it, or drops it. */
  lemma PendingStep(s: State, b: byte)
    requires s.Valid()
    ensures PendingMoves(s, b)
  {
    match s {
      case Length(cmd) => LengthMoves(cmd, b);
      case Payload(cmd, len, got) => PayloadMoves(cmd, len, got, b);
      case Footer(cmd, got) => FooterMoves(cmd, got, b);
      case _ =>
        hide Crc, Num, LenByte, Wire;
    }
  }

  lemma ConsFrame(m: Message, noise: seq<seq<byte>>, ms: seq<Message>)
    requires m.Fits() && |noise| == |ms| + 1 && forall k | k in ms :: k.Fits()
    ensures Interleave([[]] + noise, [m] + ms) == Wire(m) + Interleave(noise, ms)
  {
    hide Wire;
    var more, all := [[]] + noise, [m] + ms;
    assert more[1..] == noise && all[1..] == ms && more[0] == [];
    assert [] + Wire(m) == Wire(m);
  }

  lemma PrependNoise(x: seq<byte>, noise: seq<seq<byte>>, ms: seq<Message>)
    requires |noise| == |ms| + 1 && forall m | m in ms :: m.Fits()
    ensures Interleave([x + noise[0]] + noise[1..], ms) == x + Interleave(noise, ms)
  {
    hide Wire;
    var more := [x + noise[0]] + noise[1..];
    assert more[1..] == noise[1..];
    if ms != [] {
      var tail := Interleave(noise[1..], ms[1..]);
      assert x + noise[0] + Wire(ms[0]) + tail == x + (noise[0] + Wire(ms[0]) + tail);
    }
  }

  lemma Regroup(p: seq<byte>, w: seq<byte>)
    requires w != []
    ensures p + w == (p + [w[0]]) + w[1..]
    ensures [] + w == w && p + [] == p
  {
  }

  /** Every stream is noise and frames in turn: the bytes of each reported frame are
      exactly its encoding, and no two reports share a byte. */
  lemma {:induction false} Decompose(s: State, w: seq<byte>) returns (noise: seq<seq<byte>>)
    requires s.Valid()
    ensures forall m | m in Frames(s, w) :: m.Fits()
    ensures |noise| == |Frames(s, w)| + 1
    ensures Pending(s) + w == Interleave(noise, Frames(s, w))
    decreases |w|
  {
    hide Step, Wire, Pending, Interleave;
    if w == [] {
      noise := [Pending(s)];
      OnlyNoise(Pending(s));
      assert Pending(s) + w == Pending(s);
    } else {
      var (t, o) := Step(s, w[0]);
      PendingStep(s, w[0]);
      Regroup(Pending(s), w);
      NothingPending();
      noise := Decompose(t, w[1..]);
      assert [] + w[1..] == w[1..];
      if o.Complete? {
        ConsFrame(o.frame, noise, Frames(t, w[1..]));
        noise := [[]] + noise;
      } else {
        assert Frames(s, w) == Frames(t, w[1..]);
        if Pending(t) != Pending(s) + [w[0]] {
          PrependNoise(Pending(s) + [w[0]], noise, Frames(t, w[1..]));
          noise := [Pending(s) + [w[0]] + noise[0]] + noise[1..];
        }
      }
    }
  }

  lemma OnlyNoise(x: seq<byte>)
    ensures Interleave([x], []) == x
  {
  }

  lemma NothingPending()
    ensures Pending(Hunting) == []
  {
  }

  lemma {:induction false} InterleaveLength(noise: seq<seq<byte>>, ms: seq<Message>)
    requires |noise| == |ms| + 1 && forall m | m in ms :: m.Fits()
    ensures OVERHEAD * |ms| <= |Interleave(noise, ms)|
  {
    hide Crc, LenByte;
    if ms != [] {
      InterleaveLength(noise[1..], ms[1..]);
    }
  }

  /** n bytes give at most n / 5 frames. */
  lemma FrameRate(w: seq<byte>)
    ensures OVERHEAD * |Frames(Hunting, w)| <= |w|
  {
    var noise := Decompose(Hunting, w);
    InterleaveLength(noise, Frames(Hunting, w));
    NothingPending();
    assert [] + w == w;
  }

  predicate EndsWith(w: seq<byte>, p: seq<byte>) {
    |p| <= |w| && w[|w| - |p|..] == p
  }

  lemma EndsWithMore(x: seq<byte>, w: seq<byte>, p: seq<byte>)
    requires EndsWith(w, p)
    ensures EndsWith(x + w, p)
  {
    assert (x + w)[|x + w| - |p|..] == w[|w| - |p|..];
  }

  /** The frame in progress is what was received last. */
  lemma {:induction false} PendingIsSuffix(s: State, w: seq<byte>)
    requires s.Valid()
    ensures EndsWith(Pending(s) + w, Pending(After(s, w)))
    decreases |w|
  {
    hide Step, Wire, Pending, EndsWith;
    if w == [] {
      assert EndsWith(Pending(s), Pending(s)) by { EndsWithItself(Pending(s)); }
      assert Pending(s) + w == Pending(s);
    } else {
      var t := Step(s, w[0]).0;
      PendingStep(s, w[0]);
      PendingIsSuffix(t, w[1..]);
      NothingPending();
      Regroup(Pending(s), w);
      assert [] + w[1..] == w[1..];
      if Pending(t) != Pending(s) + [w[0]] {
        EndsWithMore(Pending(s) + [w[0]], w[1..], Pending(After(s, w)));
      }
    }
  }

  lemma EndsWithItself(p: seq<byte>)
    ensures EndsWith(p, p)
  {
  }

  lemma WireLength(m: Message)
    requires m.Fits()
    ensures |Wire(m)| == |m.payload| + OVERHEAD
  {
    hide Crc, LenByte;
  }

  lemma EndsWithOneMore(w: seq<byte>, p: seq<byte>, b: byte)
    requires EndsWith(w, p)
    ensures EndsWith(w + [b], p + [b]) && |p| <= |w|
  {
    assert (w + [b])[|w| - |p|..] == w[|w| - |p|..] + [b];
  }

  /** Whenever a byte completes a frame, the last len + 5 bytes received are its encoding. */
  lemma CompletionIsEncoding(w: seq<byte>, b: byte)
    requires Step(After(Hunting, w), b).1.Complete?
    ensures var m := Step(After(Hunting, w), b).1.frame;
            m.Fits() && |Wire(m)| == |m.payload| + OVERHEAD <= |w| + 1
            && EndsWith(w + [b], Wire(m))
  {
    hide Step, Pending, After, EndsWith, Wire;
    var s := After(Hunting, w);
    PendingStep(s, b);
    WireLength(Step(s, b).1.frame);
    PendingIsSuffix(Hunting, w);
    NothingPending();
    assert [] + w == w;
    EndsWithOneMore(w, Pending(s), b);
  }

  lemma OutcomeAt(s: State, w: seq<byte>, k: nat)
    requires s.Valid() && k < |w|
    ensures Outcomes(s, w)[k] == Step(After(s, w[..k]), w[k]).1
    ensures After(s, w[..k + 1]) == Step(After(s, w[..k]), w[k]).0
  {
    hide Step, After, Outcomes;
    assert w == w[..k] + ([w[k]] + w[k + 1..]) && w[..k + 1] == w[..k] + [w[k]];
    Concat(s, w[..k], [w[k]] + w[k + 1..]);
    Concat(After(s, w[..k]), [w[k]], w[k + 1..]);
    Concat(s, w[..k], [w[k]]);
    OneByte(After(s, w[..k]), w[k]);
  }

  /** Byte k of the stream completes frame m, and m is what the bytes up to k encode. */
  predicate CompletesAt(w: seq<byte>, k: nat, m: Message) {
    && k < |w| && Outcomes(Hunting, w)[k] == Complete(m)
    && m.Fits() && |Wire(m)| <= k + 1 && w[k + 1 - |Wire(m)|..k + 1] == Wire(m)
  }

  /** Wherever Complete is answered, the bytes up to there are the frame's encoding. */
  lemma CompletesThere(w: seq<byte>, k: nat)
    requires k < |w| && Outcomes(Hunting, w)[k].Complete?
    ensures CompletesAt(w, k, Outcomes(Hunting, w)[k].frame)
  {
    hide Step, After, Outcomes, Wire, Crc, LenByte, Num;
    OutcomeAt(Hunting, w, k);
    CompletionIsEncoding(w[..k], w[k]);
    var n := |Wire(Outcomes(Hunting, w)[k].frame)|;
    assert w[..k] + [w[k]] == w[..k + 1];
    assert w[..k + 1][k + 1 - n..] == w[k + 1 - n..k + 1];
  }

  /** The bytes of two frames reported at i < j do not overlap: the second one's encoding
      starts behind i. */
  lemma FramesAreApart(w: seq<byte>, i: nat, j: nat)
    requires i < j < |w| && Outcomes(Hunting, w)[i].Complete? && Outcomes(Hunting, w)[j].Complete?
    ensures var m := Outcomes(Hunting, w)[j].frame;
            CompletesAt(w, j, m) && |Wire(m)| <= j - i
  {
    hide Step, After, Outcomes, Frames, Rejected, Wire, CompletesAt;
    CompletesThere(w, j);
    OutcomeAt(Hunting, w, i);
    CompleteHunts(After(Hunting, w[..i]), w[i]);
    assert w == w[..i + 1] + w[i + 1..];
    Concat(Hunting, w[..i + 1], w[i + 1..]);
    OutcomeAt(Hunting, w[i + 1..], j - i - 1);
    CompletionIsEncoding(w[i + 1..][..j - i - 1], w[j]);
  }

  lemma CompleteHunts(s: State, b: byte)
    requires s.Valid() && Step(s, b).1.Complete?
    ensures Step(s, b).0 == Hunting
  {
    hide Crc, Num, LenByte;
  }

  // ------------------------------------------------------- hunting is needed

  /** Bytes received since the parser last hunted bound the frame in progress. */
  lemma {:induction false} PendingLength(s: State, w: seq<byte>)
    requires s.Valid()
    ensures var n := |Pending(After(s, w))|; n == |Pending(s)| + |w| || n < |w|
    decreases |w|
  {
    hide Step, Wire, Pending;
    if w != [] {
      PendingStep(s, w[0]);
      PendingLength(Step(s, w[0]).0, w[1..]);
      NothingPending();
    }
  }

  /** A frame is reported at its own last byte exactly when the parser was hunting as its
      header arrived. */
  lemma DecodedIffHunting(s: State, m: Message)
    requires s.Valid() && m.Fits()
    ensures Outcomes(s, Wire(m))[|Wire(m)| - 1] == Complete(m) <==> s == Hunting
  {
    hide Step, Pending, Crc, LenByte;
    var w, n := Wire(m), |Wire(m)| - 1;
    RoundTrip(m);
    assert w == w[..n] + [w[n]];
    Concat(s, w[..n], [w[n]]);
    OneByte(After(s, w[..n]), w[n]);
    PendingStep(After(s, w[..n]), w[n]);
    PendingLength(s, w[..n]);
    EmptyPending(s);
  }

  lemma EmptyPending(s: State)
    requires s.Valid()
    ensures |Pending(s)| == 0 <==> s == Hunting
  {
    hide Crc, LenByte;
  }
}
