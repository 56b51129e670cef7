/** Transport, parser, dispatcher, reply, and the link-loss timer. */
module CommManager {
  import opened Crc8Register
  import opened FrameCodec
  import opened FrameStream
  import opened Integers
  import opened Protocol
  import opened SoftTimers

  /** What a handler answers: nothing, or one response frame. */
  datatype Reply = Silent | Respond(frame: Frame)

  /** The surroundings: the dispatcher's answer may depend on every frame it has seen, and
      whether the line takes a write on every write it has taken. */
  datatype Environment = Environment(
    timeout: u32,
    answer: (seq<Message>, Message) -> Reply,
    takes: (seq<seq<byte>>, seq<byte>) -> bool)

  datatype Link = Link(
    parser: State, timer: Timer, lost: bool,
    dispatched: seq<Message>, sent: seq<seq<byte>>, failures: u32)
  {
    predicate Valid() {
      parser.Valid() && timer.Valid()
    }
  }

  function Fresh(env: Environment): Link {
    Link(Hunting, Started(env.timeout, false), false, [], [], 0)
  }

  function Send(env: Environment, l: Link, f: Frame): Link {
    if Num(f.len) > MAX_PAYLOAD then l.(failures := Wrap32(l.failures + 1))
    else if env.takes(l.sent, Wire(Meaning(f))) then l.(sent := l.sent + [Wire(Meaning(f))])
    else l.(failures := Wrap32(l.failures + 1))
  }

  /** A complete frame proves the host alive, whatever it asks for. */
  function Dispatch(env: Environment, l: Link, m: Message): Link {
    var reply := env.answer(l.dispatched, m);
    var l' := l.(timer := Started(env.timeout, false), lost := false, dispatched := l.dispatched + [m]);
    if reply.Respond? then Send(env, l', reply.frame) else l'
  }

  function TakeByte(env: Environment, l: Link, b: byte): (r: Link)
    requires l.Valid()
    ensures r.Valid()
  {
    var (s, o) := Step(l.parser, b);
    if o.Complete? then Dispatch(env, l.(parser := s), o.frame) else l.(parser := s)
  }

  function TakeBytes(env: Environment, l: Link, w: seq<byte>): (r: Link)
    requires l.Valid()
    ensures r.Valid()
  {
    if w == [] then l else TakeByte(env, TakeBytes(env, l, w[..|w| - 1]), w[|w| - 1])
  }

  /** The timer is not touched once the link is lost. */
  function Tick(l: Link, dt: u32): (r: Link)
    requires l.Valid()
    ensures r.Valid()
  {
    if l.lost then l
    else
      var (t, fired) := Advance(l.timer, dt);
      l.(timer := t, lost := fired)
  }

  // ------------------------------------------------------------------- the objects

  /** A byte transport: what has arrived and what has been taken for transmission. */
  class Transport {
    const env: Environment
    var pending: seq<byte>
    var sent: seq<seq<byte>>

    constructor (e: Environment)
      ensures env == e && pending == [] && sent == []
    {
      env := e;
      pending := [];
      sent := [];
    }

    method ReadByte() returns (got: bool, b: byte)
      modifies this
      ensures sent == old(sent) && got == (old(pending) != [])
      ensures if got then old(pending) == [b] + pending else pending == old(pending)
    {
      if pending == [] { return false, 0; }
      got, b := true, pending[0];
      pending := pending[1..];
    }

    method Write(data: array<byte>, len: nat) returns (ok: bool)
      requires len <= data.Length
      modifies this
      ensures pending == old(pending) && ok == env.takes(old(sent), data[..len])
      ensures sent == old(sent) + if ok then [data[..len]] else []
    {
      ok := env.takes(sent, data[..len]);
      if ok {
        sent := sent + [data[..len]];
      }
    }
  }

  class CommMgr {
    const transport: Transport
    const parser: FrameParser
    const linkTimer: SoftTimer
    const timeoutMs: u32
    var txFailures: u32
    var linkLost: bool
    /** Every frame handed to the dispatcher so far. */
    var dispatched: seq<Message>

    ghost const Repr: set<object>

    ghost predicate Valid()
      reads this, Repr
    {
      && parser in Repr
      && Repr == {this, transport, linkTimer} + parser.Repr
      && this !in parser.Repr && transport !in parser.Repr && linkTimer !in parser.Repr
      && parser.Valid() && linkTimer.Now().Valid()
      && timeoutMs == transport.env.timeout
    }

    ghost function Now(): (l: Link)
      requires Valid()
      reads this, Repr
      ensures l.Valid()
    {
      Link(parser.Now(), linkTimer.Now(), linkLost, dispatched, transport.sent, txFailures)
    }

    constructor (t: Transport)
      ensures Valid() && transport == t && fresh(Repr - {t}) && Now() == Fresh(t.env).(sent := t.sent)
    {
      transport := t;
      timeoutMs := t.env.timeout;
      txFailures := 0;
      linkLost := false;
      dispatched := [];
      var p := new FrameParser();
      var timer := new SoftTimer();
      timer.Start(t.env.timeout, false);
      parser := p;
      linkTimer := timer;
      Repr := {this, t, timer} + p.Repr;
    }

    method SendFrame(frame: Frame) returns (ok: bool)
      requires Valid()
      modifies this, transport
      ensures Valid() && Now() == Send(transport.env, old(Now()), frame)
      ensures transport.pending == old(transport.pending)
      ensures ok <==> Now().failures == old(Now()).failures
    {
      hide Wire, Crc, Num;
      var buffer := new byte[MAX_FRAME];
      var encoded, written := Encode(frame, buffer, MAX_FRAME);
      if !encoded {
        txFailures := Wrap32(txFailures + 1);
        return false;
      }
      assert buffer[..written] == Wire(Meaning(frame));
      var taken := transport.Write(buffer, written);
      if !taken {
        txFailures := Wrap32(txFailures + 1);
        return false;
      }
      ok := true;
    }

    /** One byte from the transport: parse it, and answer it if it completes a frame. */
    method HandleByte(b: byte) returns (complete: bool)
      requires Valid()
      modifies Repr
      ensures Valid() && Now() == TakeByte(transport.env, old(Now()), b)
      ensures transport.pending == old(transport.pending)
      ensures complete == Step(old(Now()).parser, b).1.Complete?
    {
      hide Step, Wire, Crc, Num, FrameParser.Valid, FrameParser.Now;
      var r := parser.Feed(b);
      complete := r.Complete?;
      if complete {
        var m := parser.Decoded();
        linkTimer.Start(timeoutMs, false);
        linkLost := false;
        var reply := transport.env.answer(dispatched, m);
        dispatched := dispatched + [m];
        if reply.Respond? {
          var _ := SendFrame(reply.frame);
        }
      }
    }

    method Drain(budget: u16) returns (handled: u8)
      requires Valid()
      modifies Repr
      ensures Valid()
      ensures var taken := old(transport.pending)[..Min(budget, |old(transport.pending)|)];
              && Now() == TakeBytes(transport.env, old(Now()), taken)
              && old(transport.pending) == taken + transport.pending
              && handled == |Frames(old(Now()).parser, taken)| % U8_LIMIT
    {
      hide Step, Wire, Crc, Num, FrameParser.Valid, FrameParser.Now, TakeByte, TakeBytes, Frames;
      handled := 0;
      ghost var before := Now();
      ghost var all := transport.pending;
      var i: nat := 0;
      TakeNone(transport.env, before);
      while i < budget
        invariant i <= budget && i <= |all|
        invariant Valid() && Now() == TakeBytes(transport.env, before, all[..i])
        invariant transport.pending == all[i..]
        invariant handled == |Frames(before.parser, all[..i])| % U8_LIMIT
      {
        var got, b := transport.ReadByte();
        if !got { break; }
        assert all[..i + 1] == all[..i] + [b];
        TakeOneMore(transport.env, before, all[..i], b);
        var complete := HandleByte(b);
        i := i + 1;
        if complete {
          handled := (handled + 1) % U8_LIMIT;
        }
      }
      assert all[..i] == all[..Min(budget, |all|)];
    }

    /** Drains at most `budget` bytes, then runs the link timer. */
    method Poll(dt: u16, budget: u16) returns (handled: u8)
      requires Valid()
      modifies Repr
      ensures Valid()
      ensures var taken := old(transport.pending)[..Min(budget, |old(transport.pending)|)];
              && Now() == Tick(TakeBytes(transport.env, old(Now()), taken), dt)
              && old(transport.pending) == taken + transport.pending
              && handled == |Frames(old(Now()).parser, taken)| % U8_LIMIT
    {
      hide Step, Wire, Crc, Num, FrameParser.Valid, FrameParser.Now, TakeByte, TakeBytes, Frames;
      handled := Drain(budget);
      if !linkLost {
        var fired := linkTimer.Update(dt);
        if fired {
          linkLost := true;
        }
      }
    }
  }

  lemma TakeNone(env: Environment, l: Link)
    requires l.Valid()
    ensures TakeBytes(env, l, []) == l && After(l.parser, []) == l.parser && Frames(l.parser, []) == []
  {
  }

  /** What one byte does to the link, by the answer of the grammar. */
  lemma ByteEffect(env: Environment, l: Link, b: byte)
    requires l.Valid()
    ensures var (s, o) := Step(l.parser, b);
            var l' := TakeByte(env, l, b);
            && l'.parser == s && l'.dispatched == l.dispatched + Reported(o)
            && (if o.Complete? then l'.timer == Started(env.timeout, false) && !l'.lost
                else l'.timer == l.timer && l'.lost == l.lost)
  {
    hide Step, Wire, Num, Crc;
  }

  /** Taking bytes is one parser pass: what is dispatched is what the pass reports. */
  lemma {:induction false} BytesAreParsed(env: Environment, l: Link, w: seq<byte>)
    requires l.Valid()
    ensures TakeBytes(env, l, w).parser == After(l.parser, w)
    ensures TakeBytes(env, l, w).dispatched == l.dispatched + Frames(l.parser, w)
  {
    hide Step, TakeByte, After, Frames, Outcomes, Rejected;
    if w == [] {
      TakeNone(env, l);
    } else {
      var n := |w| - 1;
      BytesAreParsed(env, l, w[..n]);
      assert w == w[..n] + [w[n]];
      Concat(l.parser, w[..n], [w[n]]);
      OneByte(After(l.parser, w[..n]), w[n]);
      ByteEffect(env, TakeBytes(env, l, w[..n]), w[n]);
    }
  }

  lemma TakeOneMore(env: Environment, l: Link, w: seq<byte>, b: byte)
    requires l.Valid()
    ensures TakeBytes(env, l, w + [b]) == TakeByte(env, TakeBytes(env, l, w), b)
    ensures var o := Step(TakeBytes(env, l, w).parser, b).1;
            Frames(l.parser, w + [b]) == Frames(l.parser, w) + Reported(o)
  {
    hide Step, TakeByte, After, Frames, Outcomes, Rejected;
    assert (w + [b])[..|w + [b]| - 1] == w;
    BytesAreParsed(env, l, w);
    Concat(l.parser, w, [b]);
    OneByte(After(l.parser, w), b);
  }

  // --------------------------------------------------------------- series of polls

  /** One call: what has arrived since the last one, the time passed and the byte budget. */
  datatype Call = Call(arrived: seq<byte>, dt: u16, budget: u16)

  datatype Channel = Channel(link: Link, pending: seq<byte>)

  /** The bytes a call takes. */
  function Taken(c: Channel, call: Call): seq<byte> {
    var all := c.pending + call.arrived;
    all[..Min(call.budget, |all|)]
  }

  function Polled(env: Environment, c: Channel, call: Call): (r: Channel)
    requires c.link.Valid()
    ensures r.link.Valid()
  {
    var all := c.pending + call.arrived;
    Channel(Tick(TakeBytes(env, c.link, Taken(c, call)), call.dt), all[|Taken(c, call)|..])
  }

  function PolledAll(env: Environment, calls: seq<Call>): (r: Channel)
    ensures r.link.Valid()
  {
    if calls == [] then Channel(Fresh(env), [])
    else Polled(env, PolledAll(env, calls[..|calls| - 1]), calls[|calls| - 1])
  }

  function Arrived(calls: seq<Call>): seq<byte> {
    if calls == [] then [] else Arrived(calls[..|calls| - 1]) + calls[|calls| - 1].arrived
  }

  /** Everything taken so far. */
  function Consumed(env: Environment, calls: seq<Call>): seq<byte> {
    if calls == [] then []
    else
      var before := calls[..|calls| - 1];
      Consumed(env, before) + Taken(PolledAll(env, before), calls[|calls| - 1])
  }

  /** Whatever the budgets, no byte is lost or reordered, and the frames dispatched are those
      of one parser pass over the bytes consumed; all of them, once nothing is pending. */
  lemma {:induction false} BudgetsDoNotMatter(env: Environment, calls: seq<Call>)
    ensures var c := PolledAll(env, calls);
            && Consumed(env, calls) + c.pending == Arrived(calls)
            && c.link.parser == After(Hunting, Consumed(env, calls))
            && c.link.dispatched == Frames(Hunting, Consumed(env, calls))
            && (c.pending == [] ==> c.link.dispatched == Frames(Hunting, Arrived(calls)))
  {
    hide Step, TakeBytes, After, Frames, Tick;
    if calls == [] {
      NothingConsumed();
    } else {
      var n := |calls| - 1;
      var before, c, call := calls[..n], PolledAll(env, calls[..n]), calls[n];
      BudgetsDoNotMatter(env, before);
      BytesAreParsed(env, c.link, Taken(c, call));
      Concat(Hunting, Consumed(env, before), Taken(c, call));
      TickKeeps(TakeBytes(env, c.link, Taken(c, call)), call.dt);
      CutAnywhere(Consumed(env, before), c.pending, call.arrived, |Taken(c, call)|);
    }
  }

  lemma TickKeeps(l: Link, dt: u32)
    requires l.Valid()
    ensures Tick(l, dt).parser == l.parser && Tick(l, dt).dispatched == l.dispatched
  {
  }

  lemma CutAnywhere(done: seq<byte>, pending: seq<byte>, arrived: seq<byte>, k: nat)
    requires k <= |pending + arrived|
    ensures var all := pending + arrived;
            && (done + all[..k]) + all[k..] == (done + pending) + arrived
            && (all[k..] == [] ==> done + all[..k] == (done + pending) + arrived)
  {
  }

  lemma NothingConsumed()
    ensures After(Hunting, []) == Hunting && Frames(Hunting, []) == []
  {
  }

  /** A call in which at least one frame completed. */
  predicate Heard(env: Environment, calls: seq<Call>, i: nat)
    requires i < |calls|
  {
    var c := PolledAll(env, calls[..i]);
    Frames(c.link.parser, Taken(c, calls[i])) != []
  }

  /** The time from the call of the last valid frame on, that call included; from
      construction when there has been none. */
  function SinceHeard(env: Environment, calls: seq<Call>): nat {
    if calls == [] then 0
    else
      var n := |calls| - 1;
      calls[n].dt + if Heard(env, calls, n) then 0 else SinceHeard(env, calls[..n])
  }

  /** The timer and the latch together say how long nothing was heard. */
  predicate Measures(l: Link, timeout: u32, since: nat) {
    if since < timeout then !l.lost && l.timer == Timer(timeout, timeout - since, false, true)
    else l.lost && !l.timer.running
  }

  lemma {:induction false} FramesRestartTheTimer(env: Environment, l: Link, w: seq<byte>)
    requires l.Valid()
    ensures var l' := TakeBytes(env, l, w);
            if Frames(l.parser, w) == [] then l'.timer == l.timer && l'.lost == l.lost
            else l'.timer == Started(env.timeout, false) && !l'.lost
  {
    hide Step, TakeByte, After, Frames, Outcomes, Rejected;
    if w == [] {
      TakeNone(env, l);
    } else {
      var n := |w| - 1;
      FramesRestartTheTimer(env, l, w[..n]);
      BytesAreParsed(env, l, w[..n]);
      assert w == w[..n] + [w[n]];
      Concat(l.parser, w[..n], [w[n]]);
      OneByte(After(l.parser, w[..n]), w[n]);
      ByteEffect(env, TakeBytes(env, l, w[..n]), w[n]);
    }
  }

  lemma TickMeasures(l: Link, timeout: u32, since: nat, dt: u32)
    requires l.Valid() && 0 < timeout && Measures(l, timeout, since)
    ensures Measures(Tick(l, dt), timeout, since + dt)
  {
  }

  lemma {:induction false} LatchMeasures(env: Environment, calls: seq<Call>)
    requires 0 < env.timeout
    ensures Measures(PolledAll(env, calls).link, env.timeout, SinceHeard(env, calls))
  {
    hide Step, TakeBytes, Frames;
    if calls != [] {
      var n := |calls| - 1;
      var c, call := PolledAll(env, calls[..n]), calls[n];
      LatchMeasures(env, calls[..n]);
      FramesRestartTheTimer(env, c.link, Taken(c, call));
      var since := if Heard(env, calls, n) then 0 else SinceHeard(env, calls[..n]);
      TickMeasures(TakeBytes(env, c.link, Taken(c, call)), env.timeout, since, call.dt);
    }
  }

  /** After any series of polls the link is lost exactly when the time since the last valid
      frame has reached the timeout; with a timeout of zero it is never lost. */
  lemma LinkLossLaw(env: Environment, calls: seq<Call>)
    ensures PolledAll(env, calls).link.lost <==> 0 < env.timeout <= SinceHeard(env, calls)
  {
    if 0 < env.timeout {
      LatchMeasures(env, calls);
    } else {
      NeverLost(env, calls);
    }
  }

  lemma {:induction false} NeverLost(env: Environment, calls: seq<Call>)
    requires env.timeout == 0
    ensures var l := PolledAll(env, calls).link; !l.lost && !l.timer.running
  {
    hide Step, TakeBytes, Frames;
    if calls != [] {
      var n := |calls| - 1;
      NeverLost(env, calls[..n]);
      var c := PolledAll(env, calls[..n]);
      FramesRestartTheTimer(env, c.link, Taken(c, calls[n]));
    }
  }
}
