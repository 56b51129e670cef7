/** The check value of the CRC and the example frames of the interface document. */
module KnownAnswers {
  import opened Crc8Register
  import opened ErrorDetection
  import opened LinkBound
  import opened Protocol

  lemma Four(c: byte, x: byte, y: byte, z: byte, u: byte)
    ensures Residue(c, [x, y, z, u]) == Fast(Fast(Fast(Fast(c ^ x) ^ y) ^ z) ^ u)
  {
    hide Fast, Residue;
    Two(c, x, y);
    OneMore(c, [x, y], z);
    OneMore(c, [x, y, z], u);
    assert [x, y] + [z] == [x, y, z] && [x, y, z] + [u] == [x, y, z, u];
  }

  /** The published check value: the CRC of the nine digits. */
  lemma CheckValue()
    ensures Crc([0x31, 0x32, 0x33, 0x34, 0x35, 0x36, 0x37, 0x38, 0x39]) == 0xF4
  {
    hide Residue;
    var w, v := [0x31, 0x32, 0x33, 0x34, 0x35], [0x36, 0x37, 0x38, 0x39];
    Five(0, 0x31, 0x32, 0x33, 0x34, 0x35);
    Cut(0, w, v);
    Four(Residue(0, w), 0x36, 0x37, 0x38, 0x39);
    assert w + v == [0x31, 0x32, 0x33, 0x34, 0x35, 0x36, 0x37, 0x38, 0x39];
  }

  lemma SmallLengths()
    ensures LenByte(0) == 0x00 && LenByte(1) == 0x01 && LenByte(2) == 0x02
  {
  }

  /** The example frames: a ping, a lamp command with two payload bytes, and one that is a
      byte short. */
  lemma ExampleFrames()
    ensures Wire(Message(0x01, [])) == [0xAA, 0x01, 0x00, 0x15, 0x55]
    ensures Wire(Message(0x04, [0x07, 0x01])) == [0xAA, 0x04, 0x02, 0x07, 0x01, 0xE2, 0x55]
    ensures Wire(Message(0x04, [0x07])) == [0xAA, 0x04, 0x01, 0x07, 0xAB, 0x55]
  {
    hide Residue, LenByte;
    SmallLengths();
    Two(0, 0x01, 0x00);
    Four(0, 0x04, 0x02, 0x07, 0x01);
    Two(0, 0x04, 0x01);
    OneMore(0, [0x04, 0x01], 0x07);
    assert Covered(0x01, []) == [0x01, 0x00];
    assert Covered(0x04, [0x07, 0x01]) == [0x04, 0x02, 0x07, 0x01];
    assert Covered(0x04, [0x07]) == [0x04, 0x01] + [0x07];
  }
}
