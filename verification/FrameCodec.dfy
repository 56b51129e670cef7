/** The firmware's encoder and byte-at-a-time parser. */
module FrameCodec {
  import opened Crc8Register
  import opened Integers
  import opened Protocol

  /** The firmware's frame: fixed storage, of which the first `len` bytes count. */
  datatype RawFrame = RawFrame(cmd: byte, len: byte, payload: seq<byte>)

  type Frame = f: RawFrame | |f.payload| == MAX_PAYLOAD
    witness RawFrame(0, 0, seq(MAX_PAYLOAD, _ => 0))

  function Meaning(f: Frame): Message
    requires Num(f.len) <= MAX_PAYLOAD
  {
    Message(f.cmd, f.payload[..Num(f.len)])
  }

  /** The first p payload bytes behind CMD and LEN. */
  function Body(f: Frame, p: nat): seq<byte>
    requires p <= MAX_PAYLOAD
  {
    [f.cmd, f.len] + f.payload[..p]
  }

  lemma BodyStarts(f: Frame)
    ensures Body(f, 0) == [f.cmd, f.len]
    ensures Crc(Body(f, 0)) == Absorb(Absorb(INITIAL, f.cmd), f.len)
  {
    hide Absorb;
    CrcOfNothing();
    CrcExtends([], f.cmd);
    CrcExtends([f.cmd], f.len);
    assert [] + [f.cmd] == [f.cmd] && [f.cmd] + [f.len] == Body(f, 0);
  }

  lemma BodyExtends(f: Frame, p: nat)
    requires p < MAX_PAYLOAD
    ensures Body(f, p + 1) == Body(f, p) + [f.payload[p]]
    ensures Crc(Body(f, p + 1)) == Absorb(Crc(Body(f, p)), f.payload[p])
  {
    hide Absorb;
    assert Body(f, p + 1) == Body(f, p) + [f.payload[p]];
    CrcExtends(Body(f, p), f.payload[p]);
  }

  lemma BodyIsCovered(f: Frame)
    requires Num(f.len) <= MAX_PAYLOAD
    ensures Covered(f.cmd, Meaning(f).payload) == Body(f, Num(f.len))
    ensures LenByte(Num(f.len)) == f.len
  {
    hide Num, LenByte;
    LenOfByte(f.len);
  }

  /** Encodes `frame` into `out`; fails, leaving it untouched, on a null buffer, an
      oversized payload or too little room. */
  method Encode(frame: Frame, out: array?<byte>, outSize: nat) returns (ok: bool, written: nat)
    requires out != null ==> outSize <= out.Length
    modifies out
    ensures ok <==> out != null && Num(frame.len) <= MAX_PAYLOAD && Num(frame.len) + OVERHEAD <= outSize
    ensures !ok ==> written == 0 && (out != null ==> out[..] == old(out[..]))
    ensures ok ==> written == Num(frame.len) + OVERHEAD
    ensures ok ==> out[..] == Wire(Meaning(frame)) + old(out[written..])
  {
    hide Crc, Num, LenByte;
    written := 0;
    if out == null { return false, 0; }
    if Num(frame.len) > MAX_PAYLOAD { return false, 0; }
    var need := Num(frame.len) + OVERHEAD;
    if outSize < need { return false, 0; }
    written := Fill(frame, out);
    BodyIsCovered(frame);
    WireParts(Meaning(frame), out[..written]);
    assert out[..] == out[..written] + out[written..];
    ok := true;
  }

  method Fill(frame: Frame, out: array<byte>) returns (i: nat)
    requires Num(frame.len) <= MAX_PAYLOAD && Num(frame.len) + OVERHEAD <= out.Length
    modifies out
    ensures i == Num(frame.len) + OVERHEAD
    ensures out[0] == HEADER && out[1] == frame.cmd && out[2] == frame.len
    ensures forall k :: 0 <= k < Num(frame.len) ==> out[3 + k] == frame.payload[k]
    ensures out[i - 2] == Crc(Body(frame, Num(frame.len))) && out[i - 1] == FOOTER
    ensures forall k :: i <= k < out.Length ==> out[k] == old(out[k])
  {
    hide Crc, Absorb, Num, LenByte, Body;
    var crc := new Crc8();
    i := 0;
    out[i] := HEADER;
    i := i + 1;
    out[i] := frame.cmd;
    i := i + 1;
    crc.Update(frame.cmd);
    out[i] := frame.len;
    i := i + 1;
    crc.Update(frame.len);
    BodyStarts(frame);
    i := FillPayload(frame, out, crc);
    out[i] := crc.value;
    i := i + 1;
    out[i] := FOOTER;
    i := i + 1;
  }

  /** The loop over the payload, behind the three bytes already in place. */
  method FillPayload(frame: Frame, out: array<byte>, crc: Crc8) returns (i: nat)
    requires Num(frame.len) <= MAX_PAYLOAD && Num(frame.len) + OVERHEAD <= out.Length
    requires crc.value == Crc(Body(frame, 0))
    modifies out, crc
    ensures i == 3 + Num(frame.len)
    ensures forall k :: 0 <= k < 3 ==> out[k] == old(out[k])
    ensures forall k :: 0 <= k < Num(frame.len) ==> out[3 + k] == frame.payload[k]
    ensures forall k :: i <= k < out.Length ==> out[k] == old(out[k])
    ensures crc.value == Crc(Body(frame, Num(frame.len)))
  {
    hide Crc, Absorb, Num, LenByte, Body;
    i := 3;
    for p := 0 to Num(frame.len)
      invariant i == 3 + p
      invariant forall k :: 0 <= k < 3 || i <= k < out.Length ==> out[k] == old(out[k])
      invariant forall k :: 0 <= k < p ==> out[3 + k] == frame.payload[k]
      invariant crc.value == Crc(Body(frame, p))
    {
      out[i] := frame.payload[p];
      i := i + 1;
      crc.Update(frame.payload[p]);
      BodyExtends(frame, p);
    }
  }

  datatype Mark = AtHeader | AtCommand | AtLength | AtPayload | AtChecksum | AtFooter

  datatype Result = NeedMore | Complete | ChecksumError | FramingError | Overflow

  function ResultOf(o: Outcome): Result {
    match o
    case NeedMore => Result.NeedMore
    case Complete(_) => Result.Complete
    case ChecksumError => Result.ChecksumError
    case FramingError => Result.FramingError
    case Overflow => Result.Overflow
  }

  /** The firmware parser: fixed payload storage and a running checksum register. */
  class FrameParser {
    var mark: Mark
    var cmd: byte
    var len: byte
    const payload: array<byte>
    var index: nat
    const crc: Crc8
    var framesOk: u32
    var framesBad: u32

    ghost const Repr: set<object>

    ghost predicate Valid()
      reads this, Repr
    {
      && Repr == {this, payload, crc}
      && payload.Length == MAX_PAYLOAD
      && index <= MAX_PAYLOAD
      && (mark.AtCommand? ==> crc.value == INITIAL)
      && (mark.AtLength? ==> crc.value == Crc([cmd]))
      && (mark.AtPayload? ==> index < Num(len) <= MAX_PAYLOAD)
      && (mark.AtChecksum? || mark.AtFooter? ==> index == Num(len))
      && (mark.AtPayload? || mark.AtChecksum? ==> crc.value == Crc([cmd, len] + payload[..index]))
    }

    ghost function Now(): (s: State)
      requires Valid()
      reads this, Repr
      ensures s.Valid()
    {
      match mark
      case AtHeader => Hunting
      case AtCommand => Command
      case AtLength => Length(cmd)
      case AtPayload => Payload(cmd, Num(len), payload[..index])
      case AtChecksum => Checksum(cmd, payload[..index])
      case AtFooter => Footer(cmd, payload[..index])
    }

    /** The frame a caller may read right after a completion. */
    function Decoded(): Message
      requires Valid() && Num(len) <= MAX_PAYLOAD
      reads this, Repr
    {
      Message(cmd, payload[..Num(len)])
    }

    constructor ()
      ensures Valid() && fresh(Repr)
      ensures Now() == Hunting && framesOk == 0 && framesBad == 0
    {
      mark := AtHeader;
      cmd := 0;
      len := 0;
      var storage := new byte[MAX_PAYLOAD];
      payload := storage;
      index := 0;
      var register := new Crc8();
      crc := register;
      framesOk := 0;
      framesBad := 0;
      Repr := {this, storage, register};
    }

    method Reset()
      requires Valid()
      modifies this, crc
      ensures Valid() && Now() == Hunting
      ensures framesOk == old(framesOk) && framesBad == old(framesBad)
    {
      mark := AtHeader;
      index := 0;
      crc.Reset();
    }

    method Fail(why: Result) returns (r: Result)
      requires Valid()
      modifies this, crc
      ensures Valid() && Now() == Hunting && r == why
      ensures framesOk == old(framesOk) && framesBad == Wrap32(old(framesBad) + 1)
    {
      framesBad := Wrap32(framesBad + 1);
      Reset();
      r := why;
    }

    /** The effect of byte b and the answer r: one step of the grammar, with its count. */
    twostate predicate Steps(b: byte, r: Result)
      requires old(Valid()) && Valid()
      reads this, Repr
    {
      var (s, o) := Step(old(Now()), b);
      && Now() == s
      && r == ResultOf(o)
      && (o.Complete? ==> Num(len) <= MAX_PAYLOAD && Decoded() == o.frame)
      && framesOk == (if o.Complete? then Wrap32(old(framesOk) + 1) else old(framesOk))
      && framesBad == (if o.Rejects() then Wrap32(old(framesBad) + 1) else old(framesBad))
    }

    method Feed(b: byte) returns (r: Result)
      requires Valid()
      modifies Repr
      ensures Valid() && Steps(b, r)
    {
      match mark {
        case AtHeader => r := FeedHeader(b);
        case AtCommand => r := FeedCommand(b);
        case AtLength => r := FeedLength(b);
        case AtPayload => r := FeedPayload(b);
        case AtChecksum => r := FeedChecksum(b);
        case AtFooter => r := FeedFooter(b);
      }
    }

    method FeedHeader(b: byte) returns (r: Result)
      requires Valid() && mark.AtHeader?
      modifies this, crc
      ensures Valid() && Steps(b, r)
    {
      hide Crc, Absorb, Turn, Residue, Num, LenByte;
      if b == HEADER {
        crc.Reset();
        cmd := 0;
        len := 0;
        index := 0;
        mark := AtCommand;
      }
      r := Result.NeedMore;
    }

    method FeedCommand(b: byte) returns (r: Result)
      requires Valid() && mark.AtCommand?
      modifies this, crc
      ensures Valid() && Steps(b, r)
    {
      hide Crc, Absorb, Turn, Residue, Num, LenByte;
      cmd := b;
      crc.Update(b);
      CrcOfNothing();
      CrcExtends([], b);
      assert [] + [b] == [b];
      mark := AtLength;
      r := Result.NeedMore;
    }

    method FeedLength(b: byte) returns (r: Result)
      requires Valid() && mark.AtLength?
      modifies this, crc
      ensures Valid() && Steps(b, r)
    {
      hide Crc, Absorb, Turn, Residue, Num, LenByte;
      if Num(b) > MAX_PAYLOAD {
        r := Fail(Result.Overflow);
        return;
      }
      len := b;
      crc.Update(b);
      CrcExtends([cmd], b);
      assert [cmd] + [b] == [cmd, len] + payload[..0];
      index := 0;
      LenOfByte(b);
      mark := if b == 0 then AtChecksum else AtPayload;
      r := Result.NeedMore;
    }

    method FeedPayload(b: byte) returns (r: Result)
      requires Valid() && mark.AtPayload?
      modifies Repr
      ensures Valid() && Steps(b, r)
    {
      hide Crc, Absorb, Turn, Residue, Num, LenByte;
      ghost var before := payload[..index];
      payload[index] := b;
      crc.Update(b);
      CrcExtends([cmd, len] + before, b);
      index := index + 1;
      assert payload[..index] == before + [b];
      assert [cmd, len] + payload[..index] == ([cmd, len] + before) + [b];
      if index >= Num(len) {
        mark := AtChecksum;
      }
      r := Result.NeedMore;
    }

    method FeedChecksum(b: byte) returns (r: Result)
      requires Valid() && mark.AtChecksum?
      modifies this, crc
      ensures Valid() && Steps(b, r)
    {
      hide Crc, Absorb, Turn, Residue, Num, LenByte;
      LenOfByte(len);
      if b != crc.value {
        r := Fail(Result.ChecksumError);
        return;
      }
      mark := AtFooter;
      r := Result.NeedMore;
    }

    method FeedFooter(b: byte) returns (r: Result)
      requires Valid() && mark.AtFooter?
      modifies this, crc
      ensures Valid() && Steps(b, r)
    {
      hide Crc, Absorb, Turn, Residue, Num, LenByte;
      if b != FOOTER {
        r := Fail(Result.FramingError);
        return;
      }
      framesOk := Wrap32(framesOk + 1);
      mark := AtHeader;
      index := 0;
      r := Result.Complete;
    }
  }
}
