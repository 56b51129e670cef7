/** The desktop tool's encoder and parser, written from the interface document: the
    parser keeps the covered bytes in a list and computes the checksum at the end.
 */
module DesktopCodec {
  import opened Crc8Register
  import opened Integers
  import opened Protocol
  import opened FrameCodec

  datatype Encoded = Bytes(frame: array<byte>) | TooLong

  /** Builds the bytes of a request; refuses a payload over the maximum. */
  method Encode(cmd: byte, payload: seq<byte>) returns (r: Encoded)
    ensures r.TooLong? <==> |payload| > MAX_PAYLOAD
    ensures r.Bytes? ==> fresh(r.frame) && r.frame[..] == Wire(Message(cmd, payload))
  {
    hide Crc, LenByte;
    if |payload| > MAX_PAYLOAD { return TooLong; }
    var frame := new byte[|payload| + OVERHEAD];
    var i := 0;
    frame[i] := HEADER;
    i := i + 1;
    frame[i] := cmd;
    i := i + 1;
    frame[i] := LenByte(|payload|);
    i := i + 1;
    for k := 0 to |payload|
      invariant i == 3 + k
      invariant frame[0] == HEADER && frame[1] == cmd && frame[2] == LenByte(|payload|)
      invariant forall j :: 0 <= j < k ==> frame[3 + j] == payload[j]
    {
      frame[i] := payload[k];
      i := i + 1;
    }
    assert frame[1..|payload| + 3] == Covered(cmd, payload);
    var crc := Compute(frame[1..|payload| + 3]);
    frame[i] := crc;
    i := i + 1;
    frame[i] := FOOTER;
    WireParts(Message(cmd, payload), frame[..]);
    r := Bytes(frame);
  }

  class DesktopParser {
    var mark: Mark
    var cmd: byte
    var len: byte
    var payload: array<byte>
    var index: nat
    var crcInput: seq<byte>
    var hasFrame: bool
    var frame: Message
    var framesOk: u32
    var framesBad: u32

    ghost predicate Valid()
      reads this, payload
    {
      && index <= MAX_PAYLOAD
      && (mark.AtCommand? ==> crcInput == [])
      && (mark.AtLength? ==> crcInput == [cmd])
      && (mark.AtPayload? ==> index < Num(len) <= MAX_PAYLOAD)
      && (mark.AtChecksum? || mark.AtFooter? ==> index == Num(len))
      && (mark.AtPayload? || mark.AtChecksum? || mark.AtFooter? ==>
            payload.Length == Num(len) && crcInput == [cmd, len] + payload[..index])
    }

    ghost function Now(): (s: State)
      requires Valid()
      reads this, payload
      ensures s.Valid()
    {
      match mark
      case AtHeader => Hunting
      case AtCommand => Command
      case AtLength => Length(cmd)
      case AtPayload => Payload(cmd, Num(len), payload[..index])
      case AtChecksum => Checksum(cmd, payload[..index])
      case AtFooter => Footer(cmd, payload[..index])
    }

    constructor ()
      ensures Valid() && fresh(payload)
      ensures Now() == Hunting && framesOk == 0 && framesBad == 0 && !hasFrame
    {
      mark := AtHeader;
      cmd := 0;
      len := 0;
      payload := new byte[0];
      index := 0;
      crcInput := [];
      hasFrame := false;
      frame := Message(0, []);
      framesOk := 0;
      framesBad := 0;
    }

    method Reset()
      requires Valid()
      modifies this
      ensures Valid() && Now() == Hunting && payload == old(payload)
      ensures framesOk == old(framesOk) && framesBad == old(framesBad)
      ensures hasFrame == old(hasFrame) && frame == old(frame)
    {
      mark := AtHeader;
      index := 0;
      crcInput := [];
    }

    method Fail(why: Result) returns (r: Result)
      requires Valid()
      modifies this
      ensures Valid() && Now() == Hunting && r == why && payload == old(payload)
      ensures framesOk == old(framesOk) && framesBad == Wrap32(old(framesBad) + 1)
      ensures hasFrame == old(hasFrame) && frame == old(frame)
    {
      framesBad := Wrap32(framesBad + 1);
      Reset();
      r := why;
    }

    /** The same step of the grammar as the firmware's parser; the published frame is
        replaced at a completion and kept otherwise. */
    twostate predicate Steps(b: byte, r: Result)
      requires old(Valid()) && Valid()
      reads this, payload
    {
      var (s, o) := Step(old(Now()), b);
      && Now() == s
      && r == ResultOf(o)
      && (if o.Complete? then hasFrame && frame == o.frame
          else hasFrame == old(hasFrame) && frame == old(frame))
      && framesOk == (if o.Complete? then Wrap32(old(framesOk) + 1) else old(framesOk))
      && framesBad == (if o.Rejects() then Wrap32(old(framesBad) + 1) else old(framesBad))
    }

    method Feed(b: byte) returns (r: Result)
      requires Valid()
      modifies this, payload
      ensures Valid() && Steps(b, r)
      ensures payload == old(payload) || fresh(payload)
    {
      match mark {
        case AtHeader => r := FeedHeader(b);
        case AtCommand => r := FeedCommand(b);
        case AtLength => r := FeedLength(b);
        case AtPayload => r := FeedPayload(b);
        case AtChecksum => r := FeedChecksum(b);
        case AtFooter => r := FeedFooter(b);
      }
    }

    method FeedHeader(b: byte) returns (r: Result)
      requires Valid() && mark.AtHeader?
      modifies this
      ensures Valid() && Steps(b, r) && payload == old(payload)
    {
      if b == HEADER {
        crcInput := [];
        index := 0;
        mark := AtCommand;
      }
      r := Result.NeedMore;
    }

    method FeedCommand(b: byte) returns (r: Result)
      requires Valid() && mark.AtCommand?
      modifies this
      ensures Valid() && Steps(b, r) && payload == old(payload)
    {
      cmd := b;
      crcInput := crcInput + [b];
      mark := AtLength;
      r := Result.NeedMore;
    }

    method FeedLength(b: byte) returns (r: Result)
      requires Valid() && mark.AtLength?
      modifies this
      ensures Valid() && Steps(b, r)
      ensures payload == old(payload) || fresh(payload)
    {
      hide Crc, Num, LenByte;
      if Num(b) > MAX_PAYLOAD {
        r := Fail(Result.Overflow);
        return;
      }
      len := b;
      crcInput := crcInput + [b];
      payload := new byte[Num(len)];
      index := 0;
      LenOfByte(b);
      mark := if len == 0 then AtChecksum else AtPayload;
      assert crcInput == [cmd, len] + payload[..0];
      r := Result.NeedMore;
    }

    method FeedPayload(b: byte) returns (r: Result)
      requires Valid() && mark.AtPayload?
      modifies this, payload
      ensures Valid() && Steps(b, r) && payload == old(payload)
    {
      hide Crc, Num, LenByte;
      ghost var before := payload[..index];
      payload[index] := b;
      index := index + 1;
      assert payload[..index] == before + [b];
      crcInput := crcInput + [b];
      if index >= Num(len) {
        mark := AtChecksum;
      }
      r := Result.NeedMore;
    }

    method FeedChecksum(b: byte) returns (r: Result)
      requires Valid() && mark.AtChecksum?
      modifies this
      ensures Valid() && Steps(b, r) && payload == old(payload)
    {
      hide Crc, Num, LenByte;
      LenOfByte(len);
      var crc := Compute(crcInput);
      if b != crc {
        r := Fail(Result.ChecksumError);
        return;
      }
      mark := AtFooter;
      r := Result.NeedMore;
    }

    method FeedFooter(b: byte) returns (r: Result)
      requires Valid() && mark.AtFooter?
      modifies this
      ensures Valid() && Steps(b, r) && payload == old(payload)
    {
      hide Crc, Num, LenByte;
      if b != FOOTER {
        r := Fail(Result.FramingError);
        return;
      }
      assert payload[..] == payload[..index];
      frame := Message(cmd, payload[..]);
      hasFrame := true;
      framesOk := Wrap32(framesOk + 1);
      Reset();
      r := Result.Complete;
    }
  }
}
