/** The transmit half of the UART driver: tasks queue whole writes under an interrupt mask,
    the interrupt moves one byte at a time into the data register.
 */
module UartTransmit {
  import opened RingBuffers

  const TX_CAPACITY: nat := 128

  type byte = bv8

  // ------------------------------------------------------- one caller at a time

  class Uart {
    const tx: RingBuffer<byte>
    var initialised: bool
    var primask: bool
    var txeEnabled: bool
    /** Every byte put into the data register so far. */
    var wire: seq<byte>

    ghost predicate Valid()
      reads this, tx, tx.buf
    {
      tx.Valid() && tx.buf.Length == TX_CAPACITY
    }

    ghost function Queued(): seq<byte>
      requires Valid()
      reads this, tx, tx.buf
    {
      tx.Now().Contents()
    }

    constructor ()
      ensures Valid() && fresh(tx) && fresh(tx.buf)
      ensures Queued() == [] && wire == [] && !initialised && !primask && !txeEnabled
    {
      tx := new RingBuffer<byte>(TX_CAPACITY);
      initialised := false;
      primask := false;
      txeEnabled := false;
      wire := [];
    }

    /** All or nothing; the mask is put back as it was found. */
    method Write(data: array?<byte>, len: nat) returns (ok: bool)
      requires Valid() && data != tx.buf && (data != null ==> len <= data.Length)
      modifies this, tx, tx.buf
      ensures Valid() && primask == old(primask) && wire == old(wire) && initialised == old(initialised)
      ensures ok <==> initialised && data != null && len <= TX_CAPACITY - if len == 0 then 0 else |old(Queued())|
      ensures Queued() == old(Queued()) + if ok then data[..len] else []
      ensures txeEnabled == (old(txeEnabled) || (ok && 0 < len))
    {
      if !initialised || data == null { return false; }
      if len == 0 { return true; }
      if len > TX_CAPACITY { return false; }
      var saved := primask;
      primask := true;
      if TX_CAPACITY - tx.count < len {
        primask := saved;
        return false;
      }
      for i := 0 to len
        invariant Valid() && primask && wire == old(wire) && initialised && txeEnabled == old(txeEnabled)
        invariant data[..] == old(data[..])
        invariant Queued() == old(Queued()) + data[..i]
      {
        PushAppends(tx.Now(), data[i]);
        var _ := tx.Push(data[i]);
        assert data[..i + 1] == data[..i] + [data[i]];
      }
      primask := saved;
      txeEnabled := true;
      ok := true;
    }

    /** The transmit branch of the interrupt handler. */
    method OnTxEmpty()
      requires Valid()
      modifies this, tx
      ensures Valid() && primask == old(primask) && initialised == old(initialised)
      ensures wire + Queued() == old(wire + Queued())
      ensures txeEnabled == (old(txeEnabled) && old(Queued()) != [])
      ensures |wire| == old(|wire|) + if old(txeEnabled) && old(Queued()) != [] then 1 else 0
    {
      if txeEnabled {
        PopTakesOldest(tx.Now());
        var taken := tx.Pop();
        if taken.Item? {
          wire := wire + [taken.value];
        } else {
          txeEnabled := false;
        }
      }
    }
  }

  // ------------------------------------- tasks and interrupt, one step at a time

  /** Where a task stands inside a write. `saved` is the mask it found. */
  datatype Task =
    | Idle
    | Called(data: seq<byte>)
    | Masked(data: seq<byte>, saved: bool)
    | Copying(data: seq<byte>, done: nat, saved: bool)
    | Enabling

  predicate Holds(t: Task) {
    t.Masked? || t.Copying?
  }

  datatype System = System(
    ring: Ring<byte>, masked: bool, txe: bool, wire: seq<byte>,
    tasks: seq<Task>, accepted: seq<seq<byte>>)

  datatype Action =
    | Call(task: nat, data: seq<byte>)
    | Proceed(task: nat)
    | Interrupt

  /** With interrupts masked there is no other task and no interrupt; the interrupt comes
      only while it is asked for. */
  predicate Possible(s: System, a: Action) {
    match a
    case Call(t, _) => t < |s.tasks| && s.tasks[t].Idle? && !s.masked
    case Proceed(t) => t < |s.tasks| && !s.tasks[t].Idle? && (!s.masked || Holds(s.tasks[t]))
    case Interrupt => !s.masked && s.txe
  }

  function Move(s: System, t: nat, to: Task): System
    requires t < |s.tasks|
  {
    s.(tasks := s.tasks[t := to])
  }

  /** A call that is refused or has nothing to do returns at once. */
  function Begin(s: System, t: nat, data: seq<byte>): System
    requires t < |s.tasks|
  {
    if |data| == 0 || |data| > TX_CAPACITY then s else Move(s, t, Called(data))
  }

  /** The next step of a task inside a write. */
  function Continue(s: System, t: nat): System
    requires t < |s.tasks| && s.ring.Valid()
  {
    match s.tasks[t]
    case Idle => s
    case Called(data) =>
      Move(s, t, Masked(data, s.masked)).(masked := true)
    case Masked(data, saved) =>
      if |s.ring.buf| - s.ring.count < |data| then Move(s, t, Idle).(masked := saved)
      else Move(s, t, Copying(data, 0, saved)).(accepted := s.accepted + [data])
    case Copying(data, done, saved) =>
      if done < |data| then Move(s, t, Copying(data, done + 1, saved)).(ring := Pushed(s.ring, data[done]).0)
      else Move(s, t, Enabling).(masked := saved)
    case Enabling =>
      Move(s, t, Idle).(txe := true)
  }

  function Transmit(s: System): System
    requires s.ring.Valid()
  {
    var (ring, taken) := Popped(s.ring);
    if taken.Item? then s.(ring := ring, wire := s.wire + [taken.value]) else s.(txe := false)
  }

  function Do(s: System, a: Action): System
    requires Possible(s, a) && s.ring.Valid()
  {
    match a
    case Call(t, data) => Begin(s, t, data)
    case Proceed(t) => Continue(s, t)
    case Interrupt => Transmit(s)
  }

  function Flatten(ws: seq<seq<byte>>): seq<byte> {
    if ws == [] then [] else Flatten(ws[..|ws| - 1]) + ws[|ws| - 1]
  }

  /** What a task has been promised room for but not queued yet. */
  function Owed(t: Task): seq<byte> {
    if t.Copying? && t.done <= |t.data| then t.data[t.done..] else []
  }

  /** Task `h` is the one that holds the mask; nobody does when it is out of range. */
  ghost predicate HeldBy(s: System, h: nat) {
    && (forall t :: 0 <= t < |s.tasks| && Holds(s.tasks[t]) ==> t == h)
    && (s.masked <==> h < |s.tasks| && Holds(s.tasks[h]))
    && (h < |s.tasks| && s.tasks[h].Masked? ==> !s.tasks[h].saved)
    && (h < |s.tasks| && s.tasks[h].Copying? ==> !s.tasks[h].saved && s.tasks[h].done <= |s.tasks[h].data|)
  }

  function OwedBy(s: System, h: nat): seq<byte> {
    if h < |s.tasks| then Owed(s.tasks[h]) else []
  }

  /** Bytes on the wire, bytes queued and bytes owed are the accepted writes in order; the
      owed ones fit; and queued bytes will be asked for. */
  ghost predicate InOrder(s: System, h: nat) {
    && s.ring.Valid() && |s.ring.buf| == TX_CAPACITY
    && s.wire + s.ring.Contents() + OwedBy(s, h) == Flatten(s.accepted)
    && s.ring.count + |OwedBy(s, h)| <= TX_CAPACITY
    && (s.ring.count > 0 && !s.txe ==> exists t :: 0 <= t < |s.tasks| && (s.tasks[t].Enabling? || s.tasks[t].Copying?))
  }

  ghost predicate Inv(s: System, h: nat) {
    HeldBy(s, h) && InOrder(s, h)
  }

  lemma CallKeeps(s: System, t: nat, data: seq<byte>, h: nat)
    requires Inv(s, h) && Possible(s, Call(t, data))
    ensures Inv(Begin(s, t, data), h)
  {
    var s' := Begin(s, t, data);
    assert OwedBy(s', h) == OwedBy(s, h) == [];
    KeepsWaiting(s, s', t);
  }

  /** A queued byte stays asked for when the step neither queues nor stops asking and the
      moving task was not the one about to ask. */
  lemma KeepsWaiting(s: System, s': System, t: nat)
    requires t < |s.tasks| && |s'.tasks| == |s.tasks| && s'.ring == s.ring && s'.txe == s.txe
    requires forall u :: 0 <= u < |s.tasks| && u != t ==> s'.tasks[u] == s.tasks[u]
    requires !s.tasks[t].Enabling? && !s.tasks[t].Copying?
    requires s.ring.count > 0 && !s.txe ==>
               exists u :: 0 <= u < |s.tasks| && (s.tasks[u].Enabling? || s.tasks[u].Copying?)
    ensures s'.ring.count > 0 && !s'.txe ==>
              exists u :: 0 <= u < |s'.tasks| && (s'.tasks[u].Enabling? || s'.tasks[u].Copying?)
  {
    if s.ring.count > 0 && !s.txe {
      var u :| 0 <= u < |s.tasks| && (s.tasks[u].Enabling? || s.tasks[u].Copying?);
      assert s'.tasks[u] == s.tasks[u];
    }
  }

  lemma MaskKeeps(s: System, t: nat, h: nat)
    requires Inv(s, h) && Possible(s, Proceed(t)) && s.tasks[t].Called?
    ensures Inv(Continue(s, t), t)
  {
    var s' := Continue(s, t);
    assert OwedBy(s', t) == [] == OwedBy(s, h);
    KeepsWaiting(s, s', t);
  }

  lemma FlattenExtends(ws: seq<seq<byte>>, w: seq<byte>)
    ensures Flatten(ws + [w]) == Flatten(ws) + w
  {
    assert (ws + [w])[..|ws + [w]| - 1] == ws;
  }

  lemma DecideKeeps(s: System, t: nat, h: nat)
    requires Inv(s, h) && Possible(s, Proceed(t)) && s.tasks[t].Masked?
    ensures h == t && Inv(Continue(s, t), t)
  {
    var s' := Continue(s, t);
    var data := s.tasks[t].data;
    FlattenExtends(s.accepted, data);
    assert data[0..] == data;
    if s'.tasks[t].Copying? {
      assert OwedBy(s', t) == data;
      assert s'.tasks[t].Copying?;
    } else {
      KeepsWaiting(s, s', t);
    }
  }

  lemma CopyHolds(s: System, t: nat, h: nat)
    requires HeldBy(s, h) && s.ring.Valid()
    requires Possible(s, Proceed(t)) && s.tasks[t].Copying? && s.tasks[t].done < |s.tasks[t].data|
    ensures h == t && HeldBy(Continue(s, t), t)
  {
    hide Pushed, Ring.Valid;
  }

  lemma CopyMovesByte(s: System, t: nat)
    requires s.ring.Valid() && t < |s.tasks| && s.ring.count < |s.ring.buf|
    requires s.tasks[t].Copying? && s.tasks[t].done < |s.tasks[t].data|
    ensures var s' := Continue(s, t);
            && s'.ring.Valid() && |s'.ring.buf| == |s.ring.buf| && s'.ring.count == s.ring.count + 1
            && s'.wire == s.wire && s'.accepted == s.accepted && s'.txe == s.txe
            && |s'.tasks| == |s.tasks| && s'.tasks[t].Copying?
            && |OwedBy(s', t)| + 1 == |OwedBy(s, t)|
            && s'.wire + s'.ring.Contents() + OwedBy(s', t) == s.wire + s.ring.Contents() + OwedBy(s, t)
  {
    hide Ring.Contents;
    var data, done := s.tasks[t].data, s.tasks[t].done;
    PushAppends(s.ring, data[done]);
    assert OwedBy(s, t) == data[done..] == [data[done]] + data[done + 1..];
    assert OwedBy(Continue(s, t), t) == data[done + 1..];
    MoveByte(s.wire, s.ring.Contents(), data[done], data[done + 1..]);
  }

  lemma CopyKeeps(s: System, t: nat, h: nat)
    requires Inv(s, h) && Possible(s, Proceed(t)) && s.tasks[t].Copying? && s.tasks[t].done < |s.tasks[t].data|
    ensures h == t && Inv(Continue(s, t), t)
  {
    hide HeldBy, Continue, Ring.Valid, Ring.Contents;
    CopyHolds(s, t, h);
    CopyMovesByte(s, t);
  }

  lemma MoveByte(wire: seq<byte>, queue: seq<byte>, b: byte, owed: seq<byte>)
    ensures wire + queue + ([b] + owed) == wire + (queue + [b]) + owed
  {
  }

  lemma UnmaskKeeps(s: System, t: nat, h: nat)
    requires Inv(s, h) && Possible(s, Proceed(t)) && s.tasks[t].Copying? && s.tasks[t].done >= |s.tasks[t].data|
    ensures h == t && Inv(Continue(s, t), t)
  {
    var s' := Continue(s, t);
    assert OwedBy(s, t) == [] == OwedBy(s', t);
    assert s'.tasks[t].Enabling?;
  }

  lemma EnableKeeps(s: System, t: nat, h: nat)
    requires Inv(s, h) && Possible(s, Proceed(t)) && s.tasks[t].Enabling?
    ensures Inv(Continue(s, t), h)
  {
    var s' := Continue(s, t);
    assert OwedBy(s', h) == OwedBy(s, h);
  }

  lemma TransmitKeeps(s: System, h: nat)
    requires Inv(s, h) && Possible(s, Interrupt)
    ensures Inv(Transmit(s), h)
  {
    var s' := Transmit(s);
    PopTakesOldest(s.ring);
    assert OwedBy(s', h) == OwedBy(s, h) == [];
    assert s'.wire + s'.ring.Contents() == s.wire + s.ring.Contents();
  }

  lemma StepKeeps(s: System, a: Action, h: nat) returns (h': nat)
    requires Inv(s, h) && Possible(s, a)
    ensures Inv(Do(s, a), h')
  {
    h' := h;
    match a {
      case Call(t, data) => CallKeeps(s, t, data, h);
      case Interrupt => TransmitKeeps(s, h);
      case Proceed(t) =>
        match s.tasks[t] {
          case Called(_) => MaskKeeps(s, t, h); h' := t;
          case Masked(_, _) => DecideKeeps(s, t, h);
          case Copying(data, done, _) =>
            if done < |data| { CopyKeeps(s, t, h); } else { UnmaskKeeps(s, t, h); }
          case Enabling => EnableKeeps(s, t, h);
        }
    }
  }

  // -------------------------------------------------------------------- all runs

  ghost predicate Legal(s: System, run: seq<Action>)
    requires s.ring.Valid()
    decreases |run|
  {
    run != [] ==>
      && Possible(s, run[0])
      && Do(s, run[0]).ring.Valid()
      && Legal(Do(s, run[0]), run[1..])
  }

  function After(s: System, run: seq<Action>): System
    requires s.ring.Valid() && Legal(s, run)
    decreases |run|
  {
    if run == [] then s else After(Do(s, run[0]), run[1..])
  }

  function Start(buf: seq<byte>, tasks: nat): System {
    System(Ring(buf, 0, 0, 0), false, false, [], seq(tasks, _ => Idle), [])
  }

  lemma {:induction false} RunKeeps(s: System, run: seq<Action>, h: nat) returns (h': nat)
    requires Inv(s, h) && Legal(s, run)
    ensures Inv(After(s, run), h')
    decreases |run|
  {
    if run == [] {
      h' := h;
    } else {
      var h1 := StepKeeps(s, run[0], h);
      h' := RunKeeps(Do(s, run[0]), run[1..], h1);
    }
  }

  lemma StartIsInOrder(buf: seq<byte>, tasks: nat)
    requires |buf| == TX_CAPACITY
    ensures Inv(Start(buf, tasks), 0)
  {
  }

  predicate Quiet(s: System) {
    forall t :: 0 <= t < |s.tasks| ==> s.tasks[t].Idle?
  }

  /** Over every interleaving of any number of writing tasks with the interrupt: what is on
      the wire is always a prefix of the accepted writes in order, so no write is cut short
      or mixed with another; outside a masked section the wire and the queue are exactly the
      accepted writes; and when every task is done, queued bytes are being asked for. */
  lemma WritesStayWhole(buf: seq<byte>, tasks: nat, run: seq<Action>)
    requires |buf| == TX_CAPACITY && Legal(Start(buf, tasks), run)
    ensures var s := After(Start(buf, tasks), run);
            && s.ring.Valid()
            && s.wire <= Flatten(s.accepted)
            && (!s.masked ==> s.wire + s.ring.Contents() == Flatten(s.accepted))
            && (Quiet(s) && s.ring.count > 0 ==> s.txe)
  {
    StartIsInOrder(buf, tasks);
    var h := RunKeeps(Start(buf, tasks), run, 0);
    var s := After(Start(buf, tasks), run);
    if !s.masked {
      assert OwedBy(s, h) == [];
    }
  }

  function Interrupts(n: nat): seq<Action> {
    seq(n, _ => Interrupt)
  }

  /** Once every task is done, one interrupt per queued byte puts the rest on the wire. */
  lemma {:induction false} QueueDrains(s: System, h: nat)
    requires Inv(s, h) && Quiet(s) && !s.masked
    ensures Legal(s, Interrupts(s.ring.count))
    ensures After(s, Interrupts(s.ring.count)).wire == Flatten(s.accepted)
    decreases s.ring.count
  {
    assert OwedBy(s, h) == [];
    var run := Interrupts(s.ring.count);
    if run == [] {
      assert s.ring.Contents() == [];
    } else {
      assert s.txe;
      TransmitKeeps(s, h);
      PopTakesOldest(s.ring);
      QueueDrains(Transmit(s), h);
      assert run[1..] == Interrupts(s.ring.count - 1);
    }
  }

  // ------------------------------------------- the driver's calls as runs of steps

  predicate Accepts(s: System, data: seq<byte>)
    requires s.ring.Valid()
  {
    0 < |data| <= |s.ring.buf| - s.ring.count
  }

  function Proceeds(t: nat, n: nat): seq<Action> {
    if n == 0 then [] else [Proceed(t)] + Proceeds(t, n - 1)
  }

  /** All the steps of one write with nothing in between. */
  function WriteRun(s: System, t: nat, data: seq<byte>): seq<Action>
    requires s.ring.Valid()
  {
    [Call(t, data)] + Proceeds(t, if |data| == 0 || |data| > TX_CAPACITY then 0
                                  else if Accepts(s, data) then |data| + 4 else 2)
  }

  lemma CopyOnce(s: System, t: nat)
    requires s.ring.Valid() && t < |s.tasks| && s.ring.count < |s.ring.buf|
    requires s.tasks[t].Copying? && s.tasks[t].done < |s.tasks[t].data|
    ensures var data, done := s.tasks[t].data, s.tasks[t].done;
            var s' := Continue(s, t);
            && s' == s.(ring := s'.ring, tasks := s.tasks[t := Copying(data, done + 1, s.tasks[t].saved)])
            && s'.ring.Valid() && |s'.ring.buf| == |s.ring.buf| && s'.ring.count == s.ring.count + 1
            && s'.ring.Contents() == s.ring.Contents() + [data[done]]
  {
    hide Ring.Contents;
    PushAppends(s.ring, s.tasks[t].data[s.tasks[t].done]);
  }

  lemma {:induction false} CopyAlone(s: System, t: nat)
    requires s.ring.Valid() && s.masked && t < |s.tasks| && s.tasks[t].Copying? && !s.tasks[t].saved
    requires s.tasks[t].done <= |s.tasks[t].data|
    requires s.ring.count + |s.tasks[t].data| - s.tasks[t].done <= |s.ring.buf|
    ensures var rest := s.tasks[t].data[s.tasks[t].done..];
            var run := Proceeds(t, |rest| + 2);
            && Legal(s, run)
            && var r := After(s, run);
               && r == s.(ring := r.ring, masked := false, txe := true, tasks := s.tasks[t := Idle])
               && r.ring.Valid() && |r.ring.buf| == |s.ring.buf|
               && r.ring.Contents() == s.ring.Contents() + rest
    decreases |s.tasks[t].data| - s.tasks[t].done
  {
    hide Continue, Ring.Valid, Ring.Contents, Proceeds, Legal, After;
    var data, done := s.tasks[t].data, s.tasks[t].done;
    var s1 := Continue(s, t);
    if done < |data| {
      CopyOnce(s, t);
      CopyAlone(s1, t);
      assert s.tasks[t := Copying(data, done + 1, false)][t := Idle] == s.tasks[t := Idle];
      assert data[done..] == [data[done]] + data[done + 1..];
      NextProceed(s, t, |data| - done + 1);
    } else {
      CopyEnds(s, t);
      assert data[done..] == [];
    }
  }

  lemma CopyEnds(s: System, t: nat)
    requires s.ring.Valid() && t < |s.tasks| && s.tasks[t].Copying? && !s.tasks[t].saved
    requires s.masked && s.tasks[t].done >= |s.tasks[t].data|
    ensures Legal(s, Proceeds(t, 2))
    ensures After(s, Proceeds(t, 2)) == s.(masked := false, txe := true, tasks := s.tasks[t := Idle])
  {
    hide Ring.Valid, Proceeds, Legal, After;
    LastProceeds(s, t);
    assert s.tasks[t := Enabling][t := Idle] == s.tasks[t := Idle];
  }

  lemma NextProceed(s: System, t: nat, n: nat)
    requires s.ring.Valid() && Possible(s, Proceed(t)) && Continue(s, t).ring.Valid()
    requires Legal(Continue(s, t), Proceeds(t, n))
    ensures Legal(s, Proceeds(t, n + 1))
    ensures After(s, Proceeds(t, n + 1)) == After(Continue(s, t), Proceeds(t, n))
  {
    hide Continue, Ring.Valid;
    var run := Proceeds(t, n + 1);
    assert run[0] == Proceed(t) && run[1..] == Proceeds(t, n);
  }

  lemma NoProceed(s: System, t: nat)
    requires s.ring.Valid()
    ensures Legal(s, Proceeds(t, 0)) && After(s, Proceeds(t, 0)) == s
  {
  }

  lemma LastProceeds(s: System, t: nat)
    requires s.ring.Valid() && t < |s.tasks| && s.tasks[t].Copying? && !s.tasks[t].saved
    requires s.masked && s.tasks[t].done >= |s.tasks[t].data|
    ensures Legal(s, Proceeds(t, 2))
    ensures After(s, Proceeds(t, 2)) == Continue(Continue(s, t), t)
  {
    hide Ring.Valid, Proceeds, Legal, After;
    var s1 := Continue(s, t);
    NoProceed(Continue(s1, t), t);
    NextProceed(s1, t, 0);
    NextProceed(s, t, 1);
  }

  /** Nothing but the queue, the request for interrupts and the record of accepted writes. */
  predicate Written(s: System, r: System, data: seq<byte>)
    requires s.ring.Valid()
  {
    && r.ring.Valid() && |r.ring.buf| == |s.ring.buf|
    && r.wire == s.wire && r.tasks == s.tasks && r.masked == s.masked
    && (if Accepts(s, data) then
          r.ring.Contents() == s.ring.Contents() + data && r.txe && r.accepted == s.accepted + [data]
        else r.ring == s.ring && r.txe == s.txe && r.accepted == s.accepted)
  }

  lemma AcceptedAlone(s: System, t: nat, data: seq<byte>)
    requires s.ring.Valid() && |s.ring.buf| == TX_CAPACITY && !s.masked && Accepts(s, data)
    requires t < |s.tasks| && s.tasks[t] == Called(data)
    ensures var run := Proceeds(t, |data| + 4);
            Legal(s, run) && Written(s.(tasks := s.tasks[t := Idle]), After(s, run), data)
  {
    hide Pushed, Ring.Valid, Ring.Contents, Proceeds, Legal, After;
    var s1 := Continue(s, t);
    var s2 := Continue(s1, t);
    CopyAlone(s2, t);
    assert data[0..] == data && s2.tasks[t := Idle] == s.tasks[t := Idle];
    NextProceed(s1, t, |data| + 2);
    NextProceed(s, t, |data| + 3);
  }

  lemma RefusedAlone(s: System, t: nat, data: seq<byte>)
    requires s.ring.Valid() && |s.ring.buf| == TX_CAPACITY && !s.masked && 0 < |data| && !Accepts(s, data)
    requires t < |s.tasks| && s.tasks[t] == Called(data)
    ensures var run := Proceeds(t, 2);
            Legal(s, run) && Written(s.(tasks := s.tasks[t := Idle]), After(s, run), data)
  {
    hide Pushed, Ring.Valid, Ring.Contents, Proceeds, Legal, After;
    var s1 := Continue(s, t);
    var s2 := Continue(s1, t);
    assert s2.tasks == s.tasks[t := Idle];
    NoProceed(s2, t);
    NextProceed(s1, t, 0);
    NextProceed(s, t, 1);
  }

  /** The steps of one task, uninterrupted, have the effect of the driver's `Write`. */
  lemma WriteAlone(s: System, t: nat, data: seq<byte>)
    requires s.ring.Valid() && |s.ring.buf| == TX_CAPACITY && !s.masked && t < |s.tasks| && s.tasks[t].Idle?
    ensures Legal(s, WriteRun(s, t, data)) && Written(s, After(s, WriteRun(s, t, data)), data)
  {
    hide Pushed, Ring.Contents, Proceeds;
    var run, s1 := WriteRun(s, t, data), Begin(s, t, data);
    assert run[0] == Call(t, data);
    assert run[1..] == Proceeds(t, |run| - 1) by { ProceedsLength(t, |run| - 1); RunLength(s, t, data); }
    RunLength(s, t, data);
    if |data| == 0 || |data| > TX_CAPACITY {
      NoProceed(s1, t);
    } else {
      assert s1.tasks[t := Idle] == s.tasks;
      if Accepts(s, data) {
        AcceptedAlone(s1, t, data);
      } else {
        RefusedAlone(s1, t, data);
      }
    }
  }

  lemma {:induction false} ProceedsLength(t: nat, n: nat)
    ensures |Proceeds(t, n)| == n
  {
    if n > 0 {
      ProceedsLength(t, n - 1);
    }
  }

  lemma RunLength(s: System, t: nat, data: seq<byte>)
    requires s.ring.Valid()
    ensures var n := if |data| == 0 || |data| > TX_CAPACITY then 0 else if Accepts(s, data) then |data| + 4 else 2;
            |WriteRun(s, t, data)| == n + 1 && WriteRun(s, t, data)[1..] == Proceeds(t, n)
  {
    hide Proceeds;
    ProceedsLength(t, if |data| == 0 || |data| > TX_CAPACITY then 0 else if Accepts(s, data) then |data| + 4 else 2);
  }

  /** The driver object and a system agree on everything they both have. */
  ghost predicate Matches(u: Uart, s: System)
    reads u, u.tx, u.tx.buf
  {
    && u.Valid() && s.ring.Valid() && |s.ring.buf| == TX_CAPACITY
    && u.Queued() == s.ring.Contents() && u.wire == s.wire
    && u.txeEnabled == s.txe && u.primask == s.masked
  }

  /** The driver's `Write` is the uninterrupted run of one idle task. */
  method WriteAsSteps(u: Uart, data: array<byte>, len: nat, ghost s: System, ghost t: nat) returns (ok: bool)
    requires Matches(u, s) && u.initialised && !s.masked && t < |s.tasks| && s.tasks[t].Idle?
    requires data != u.tx.buf && len <= data.Length
    modifies u, u.tx, u.tx.buf
    ensures Legal(s, WriteRun(s, t, data[..len])) && Matches(u, After(s, WriteRun(s, t, data[..len])))
    ensures ok <==> len == 0 || Accepts(s, data[..len])
  {
    hide WriteRun, Ring.Contents, Pushed, Legal, After;
    ghost var w := data[..len];
    WriteAlone(s, t, w);
    QueueLength(s.ring);
    ok := u.Write(data, len);
  }

  lemma QueueLength<T>(r: Ring<T>)
    requires r.Valid()
    ensures |r.Contents()| == r.count
  {
  }

  /** The driver's interrupt handler is the interrupt step. */
  method InterruptAsStep(u: Uart, ghost s: System)
    requires Matches(u, s) && Possible(s, Interrupt)
    modifies u, u.tx
    ensures Transmit(s).ring.Valid() && Matches(u, Transmit(s))
  {
    PopTakesOldest(s.ring);
    QueueLength(s.ring);
    ghost var all := u.wire + u.Queued();
    u.OnTxEmpty();
    assert u.wire == all[..|u.wire|] && u.Queued() == all[|u.wire|..];
    assert s.wire + s.ring.Contents() == Transmit(s).wire + Transmit(s).ring.Contents();
    assert Transmit(s).wire == all[..|u.wire|] && Transmit(s).ring.Contents() == all[|u.wire|..];
  }
}
