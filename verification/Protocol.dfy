/** The wire format BCM-ICD-001: HDR CMD LEN PAYLOAD CKSUM FTR, and the frame grammar that
    both parsers implement.
 */
module Protocol {
  import opened Crc8Register

  const HEADER: byte := 0xAA
  const FOOTER: byte := 0x55
  const MAX_PAYLOAD: nat := 32
  const OVERHEAD: nat := 5
  const MAX_FRAME: nat := MAX_PAYLOAD + OVERHEAD

  /** What a frame says: a command and the payload bytes that count. */
  datatype Message = Message(cmd: byte, payload: seq<byte>) {
    predicate Fits() {
      |payload| <= MAX_PAYLOAD
    }
  }

  /** A byte read as a number. */
  function Num(b: byte): nat {
    b as nat
  }

  /** A payload length as its LEN byte. */
  function LenByte(n: nat): byte
    requires n <= MAX_PAYLOAD
  {
    n as byte
  }

  lemma LenRoundTrip(n: nat)
    requires n <= MAX_PAYLOAD
    ensures Num(LenByte(n)) == n
  {
  }

  lemma LenOfByte(b: byte)
    ensures Num(b) <= MAX_PAYLOAD ==> LenByte(Num(b)) == b
    ensures b == 0 <==> Num(b) == 0
  {
  }

  /** The bytes the checksum covers. */
  function Covered(cmd: byte, payload: seq<byte>): seq<byte>
    requires |payload| <= MAX_PAYLOAD
  {
    [cmd, LenByte(|payload|)] + payload
  }

  /** A message on the wire. */
  function Wire(m: Message): seq<byte>
    requires m.Fits()
  {
    [HEADER] + Covered(m.cmd, m.payload) + [Crc(Covered(m.cmd, m.payload)), FOOTER]
  }

  /** A byte string with the five parts in their places is the message on the wire. */
  lemma WireParts(m: Message, s: seq<byte>)
    requires var n := |m.payload|;
             && n <= MAX_PAYLOAD && |s| == n + OVERHEAD
             && s[0] == HEADER && s[1] == m.cmd && s[2] == LenByte(n)
             && (forall k :: 0 <= k < n ==> s[3 + k] == m.payload[k])
             && s[3 + n] == Crc(Covered(m.cmd, m.payload)) && s[4 + n] == FOOTER
    ensures s == Wire(m)
  {
    hide Crc, LenByte;
  }

  /** Where a parser stands in the frame it is receiving. */
  datatype State =
    | Hunting
    | Command
    | Length(cmd: byte)
    | Payload(cmd: byte, len: nat, got: seq<byte>)
    | Checksum(cmd: byte, got: seq<byte>)
    | Footer(cmd: byte, got: seq<byte>)
  {
    predicate Valid() {
      match this
      case Payload(_, len, got) => |got| < len <= MAX_PAYLOAD
      case Checksum(_, got) => |got| <= MAX_PAYLOAD
      case Footer(_, got) => |got| <= MAX_PAYLOAD
      case _ => true
    }
  }

  datatype Outcome =
    | NeedMore
    | Complete(frame: Message)
    | ChecksumError
    | FramingError
    | Overflow
  {
    predicate Rejects() {
      ChecksumError? || FramingError? || Overflow?
    }
  }

  /** One received byte. */
  function Step(s: State, b: byte): (r: (State, Outcome))
    requires s.Valid()
    ensures r.0.Valid()
  {
    match s
    case Hunting =>
      (if b == HEADER then Command else Hunting, NeedMore)
    case Command =>
      (Length(b), NeedMore)
    case Length(cmd) =>
      if Num(b) > MAX_PAYLOAD then (Hunting, Overflow)
      else if b == 0 then (Checksum(cmd, []), NeedMore)
      else
        LenOfByte(b);
        (Payload(cmd, Num(b), []), NeedMore)
    case Payload(cmd, len, got) =>
      (if |got| + 1 >= len then Checksum(cmd, got + [b]) else Payload(cmd, len, got + [b]), NeedMore)
    case Checksum(cmd, got) =>
      if b != Crc(Covered(cmd, got)) then (Hunting, ChecksumError) else (Footer(cmd, got), NeedMore)
    case Footer(cmd, got) =>
      if b != FOOTER then (Hunting, FramingError) else (Hunting, Complete(Message(cmd, got)))
  }
}
