/** What the link sends back: one response for each answer, in order. */
module CommReplies {
  import opened CommManager
  import opened Crc8Register
  import opened FrameCodec
  import opened FrameStream
  import opened Integers
  import opened Protocol
  import opened SoftTimers

  /** The dispatcher's answers to a history of frames, each given those before it. */
  function Answers(env: Environment, ms: seq<Message>): seq<Frame> {
    if ms == [] then []
    else
      var before, m := ms[..|ms| - 1], ms[|ms| - 1];
      Answers(env, before) + match env.answer(before, m) case Silent => [] case Respond(f) => [f]
  }

  /** Of a list of responses, the bytes that go out on a line: those that can be encoded and
      that the line, given what it has already taken, takes. */
  function Outgoing(env: Environment, fs: seq<Frame>): seq<seq<byte>> {
    if fs == [] then []
    else
      var out, f := Outgoing(env, fs[..|fs| - 1]), fs[|fs| - 1];
      if Num(f.len) > MAX_PAYLOAD then out
      else if env.takes(out, Wire(Meaning(f))) then out + [Wire(Meaning(f))]
      else out
  }

  lemma {:induction false} OutgoingIsAtMost(env: Environment, fs: seq<Frame>)
    ensures |Outgoing(env, fs)| <= |fs|
  {
    hide Wire, Num, Meaning;
    if fs != [] {
      OutgoingIsAtMost(env, fs[..|fs| - 1]);
    }
  }

  /** The replies of a link: what it has sent are the outgoing responses to what it has
      dispatched, and every other response is counted as a failure. */
  predicate Replied(env: Environment, l: Link) {
    Accounted(env, l, Answers(env, l.dispatched))
  }

  lemma WrapsOneMore(x: nat)
    ensures Wrap32(Wrap32(x) + 1) == Wrap32(x + 1)
  {
    ModuloAdds(U32_LIMIT, x, 1);
  }

  lemma AnswersExtend(env: Environment, ms: seq<Message>, m: Message)
    ensures Answers(env, ms + [m])
         == Answers(env, ms) + match env.answer(ms, m) case Silent => [] case Respond(f) => [f]
  {
    assert (ms + [m])[..|ms|] == ms;
  }

  lemma OutgoingExtends(env: Environment, fs: seq<Frame>, f: Frame)
    ensures Outgoing(env, fs + [f]) == Outgoing(env, fs)
                                       + if Num(f.len) <= MAX_PAYLOAD && env.takes(Outgoing(env, fs), Wire(Meaning(f)))
                                         then [Wire(Meaning(f))] else []
  {
    hide Wire, Num, Meaning;
    assert (fs + [f])[..|fs|] == fs;
  }

  predicate Accounted(env: Environment, l: Link, fs: seq<Frame>) {
    l.sent == Outgoing(env, fs) && |l.sent| <= |fs| && l.failures == Wrap32(|fs| - |l.sent|)
  }

  lemma SendIsAccounted(env: Environment, l: Link, fs: seq<Frame>, f: Frame)
    requires Accounted(env, l, fs)
    ensures Accounted(env, Send(env, l, f), fs + [f])
  {
    hide Wire, Num, Meaning, Wrap32, Outgoing;
    OutgoingExtends(env, fs, f);
    WrapsOneMore(|fs| - |l.sent|);
  }

  lemma DispatchReplies(env: Environment, l: Link, m: Message)
    requires Replied(env, l)
    ensures Replied(env, Dispatch(env, l, m))
  {
    hide Wire, Num, Meaning, Outgoing, Answers, Send, Wrap32;
    var fs := Answers(env, l.dispatched);
    var l' := l.(timer := Started(env.timeout, false), lost := false, dispatched := l.dispatched + [m]);
    AnswersExtend(env, l.dispatched, m);
    SendKeepsHistory(env, l');
    match env.answer(l.dispatched, m) {
      case Silent => assert fs + [] == fs;
      case Respond(f) => SendIsAccounted(env, l', fs, f);
    }
  }

  lemma SendKeepsHistory(env: Environment, l: Link)
    ensures forall f :: Send(env, l, f).dispatched == l.dispatched
  {
    hide Wire, Num, Meaning, Wrap32;
  }

  lemma {:induction false} BytesReply(env: Environment, l: Link, w: seq<byte>)
    requires l.Valid() && Replied(env, l)
    ensures Replied(env, TakeBytes(env, l, w))
  {
    hide Step, Replied, Dispatch;
    if w != [] {
      var n := |w| - 1;
      BytesReply(env, l, w[..n]);
      var l1 := TakeBytes(env, l, w[..n]);
      var (s, o) := Step(l1.parser, w[n]);
      ParserDoesNotReply(env, l1, s);
      if o.Complete? {
        DispatchReplies(env, l1.(parser := s), o.frame);
      }
    }
  }

  lemma ParserDoesNotReply(env: Environment, l: Link, s: State)
    requires Replied(env, l)
    ensures Replied(env, l.(parser := s))
  {
    hide Answers, Outgoing, Wrap32;
  }

  lemma TickDoesNotReply(env: Environment, l: Link, dt: u32)
    requires l.Valid() && Replied(env, l)
    ensures Replied(env, Tick(l, dt))
  {
    hide Answers, Outgoing, Wrap32;
  }

  /** Over every series of polls with any budgets: what has been sent are, in order, the
      encodings of the dispatcher's answers to the dispatched frames that can be encoded and
      that the line took, and the failures counted are all the other answers. */
  lemma {:induction false} RepliesLaw(env: Environment, calls: seq<Call>)
    ensures Replied(env, PolledAll(env, calls).link)
  {
    hide TakeBytes, Replied, Tick;
    if calls == [] {
      NothingReplied(env);
    } else {
      var c, call := PolledAll(env, calls[..|calls| - 1]), calls[|calls| - 1];
      RepliesLaw(env, calls[..|calls| - 1]);
      BytesReply(env, c.link, Taken(c, call));
      TickDoesNotReply(env, TakeBytes(env, c.link, Taken(c, call)), call.dt);
    }
  }

  lemma NothingReplied(env: Environment)
    ensures Replied(env, Fresh(env))
  {
  }

  /** The responses of at most 32 bytes. */
  function Encodable(fs: seq<Frame>): seq<Frame> {
    if fs == [] then []
    else Encodable(fs[..|fs| - 1]) + if Num(fs[|fs| - 1].len) <= MAX_PAYLOAD then [fs[|fs| - 1]] else []
  }

  /** On a line that takes every write, exactly the encodable answers go out, in order. */
  lemma {:induction false} OpenLineSendsAll(env: Environment, fs: seq<Frame>)
    requires forall sent, w :: env.takes(sent, w)
    ensures |Outgoing(env, fs)| == |Encodable(fs)|
    ensures forall i :: 0 <= i < |Encodable(fs)| ==>
              Num(Encodable(fs)[i].len) <= MAX_PAYLOAD && Outgoing(env, fs)[i] == Wire(Meaning(Encodable(fs)[i]))
  {
    hide Wire, Num, Meaning;
    if fs != [] {
      OpenLineSendsAll(env, fs[..|fs| - 1]);
    }
  }
}
