/** The firmware's parser and the desktop tool's, fed the same bytes. */
module LinkAgreement {
  import opened Crc8Register
  import opened DesktopCodec
  import opened FrameCodec
  import opened FrameStream
  import opened Integers
  import opened Protocol

  function Results(os: seq<Outcome>): (r: seq<Result>)
    ensures |r| == |os|
  {
    seq(|os|, i requires 0 <= i < |os| => ResultOf(os[i]))
  }

  lemma OneMoreByte(s: State, w: seq<byte>, i: nat)
    requires s.Valid() && i < |w|
    ensures var t := After(s, w[..i]);
            && After(s, w[..i + 1]) == Step(t, w[i]).0
            && Frames(s, w[..i + 1]) == Frames(s, w[..i]) + Reported(Step(t, w[i]).1)
            && Rejected(s, w[..i + 1]) == Rejected(s, w[..i]) + (if Step(t, w[i]).1.Rejects() then 1 else 0)
            && Results(Outcomes(s, w[..i + 1])) == Results(Outcomes(s, w[..i])) + [ResultOf(Step(t, w[i]).1)]
  {
    hide Step;
    assert w[..i + 1] == w[..i] + [w[i]];
    Concat(s, w[..i], [w[i]]);
    OneByte(After(s, w[..i]), w[i]);
  }

  ghost predicate Level(firmware: FrameParser, desktop: DesktopParser)
    reads firmware, firmware.Repr, desktop, desktop.payload
  {
    && firmware.Valid() && desktop.Valid() && firmware.Repr !! {desktop, desktop.payload}
    && firmware.Now() == desktop.Now()
    && firmware.framesOk == desktop.framesOk && firmware.framesBad == desktop.framesBad
  }

  method FeedOne(firmware: FrameParser, desktop: DesktopParser, b: byte)
      returns (r: Result, r': Result, got: seq<Message>, got': seq<Message>)
    requires Level(firmware, desktop)
    modifies firmware.Repr, desktop, desktop.payload
    ensures Level(firmware, desktop)
    ensures desktop.payload == old(desktop.payload) || fresh(desktop.payload)
    ensures var (s, o) := Step(old(firmware.Now()), b);
            && firmware.Now() == s
            && r == r' == ResultOf(o) && got == got' == Reported(o)
            && firmware.framesOk == Wrap32(old(firmware.framesOk) + |got|)
            && firmware.framesBad == Wrap32(old(firmware.framesBad) + if o.Rejects() then 1 else 0)
  {
    hide Step, Crc, Num, LenByte, FrameParser.Valid, FrameParser.Now, DesktopParser.Valid, DesktopParser.Now;
    r := firmware.Feed(b);
    r' := desktop.Feed(b);
    got := if r.Complete? then [firmware.Decoded()] else [];
    got' := if r'.Complete? then [desktop.frame] else [];
  }

  lemma WrapAdds(x: nat, y: nat)
    ensures Wrap32(Wrap32(x) + y) == Wrap32(x + y)
  {
  }

  /** Both parsers fed one stream give the same answer at every byte, the same frame at
      every completion and the same counts: those of the grammar. */
  method FeedBoth(stream: seq<byte>)
      returns (firmware: FrameParser, desktop: DesktopParser,
               answers: seq<Result>, answers': seq<Result>, frames: seq<Message>, frames': seq<Message>)
    ensures answers == answers' == Results(Outcomes(Hunting, stream))
    ensures frames == frames' == Frames(Hunting, stream)
    ensures firmware.framesOk == desktop.framesOk == Wrap32(|frames|)
    ensures firmware.framesBad == desktop.framesBad == Wrap32(Rejected(Hunting, stream))
  {
    hide Step, Wrap32, Results, Crc, Num, LenByte;
    hide FrameParser.Valid, FrameParser.Now, DesktopParser.Valid, DesktopParser.Now;
    firmware := new FrameParser();
    desktop := new DesktopParser();
    answers, answers', frames, frames' := [], [], [], [];
    NothingYet();
    for i := 0 to |stream|
      invariant fresh(firmware.Repr) && fresh(desktop) && fresh(desktop.payload)
      invariant Level(firmware, desktop)
      invariant firmware.Now() == After(Hunting, stream[..i])
      invariant answers == answers' == Results(Outcomes(Hunting, stream[..i]))
      invariant frames == frames' == Frames(Hunting, stream[..i])
      invariant firmware.framesOk == Wrap32(|frames|)
      invariant firmware.framesBad == Wrap32(Rejected(Hunting, stream[..i]))
    {
      OneMoreByte(Hunting, stream, i);
      var r, r', got, got' := FeedOne(firmware, desktop, stream[i]);
      WrapAdds(|frames|, |got|);
      WrapAdds(Rejected(Hunting, stream[..i]), Rejected(Hunting, stream[..i + 1]) - Rejected(Hunting, stream[..i]));
      answers, answers' := answers + [r], answers' + [r'];
      frames, frames' := frames + got, frames' + got';
    }
    assert stream[..|stream|] == stream;
  }

  lemma NothingYet()
    ensures Results(Outcomes(Hunting, [])) == [] && Wrap32(0) == 0
  {
  }
}
