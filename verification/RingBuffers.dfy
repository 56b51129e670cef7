/** The fixed-capacity FIFO under the UART queues. */
module RingBuffers {

  datatype Ring<T> = Ring(buf: seq<T>, head: nat, tail: nat, count: nat) {
    predicate Valid() {
      && 1 < |buf|
      && head < |buf| && tail < |buf| && count <= |buf|
      && head == Wrapped(tail + count)
    }

    /** An index less than two capacities, brought back into the buffer. */
    function Wrapped(i: nat): nat {
      if i < |buf| then i else i - |buf|
    }

    /** The queued items, oldest first. */
    function Contents(): (s: seq<T>)
      requires Valid()
      ensures |s| == count
    {
      seq(count, i requires 0 <= i < count => buf[Wrapped(tail + i)])
    }
  }

  function Next(i: nat, capacity: nat): nat
    requires i < capacity
  {
    (i + 1) % capacity
  }

  function Pushed<T>(r: Ring<T>, x: T): (Ring<T>, bool)
    requires r.Valid()
  {
    if r.count >= |r.buf| then (r, false)
    else (Ring(r.buf[r.head := x], Next(r.head, |r.buf|), r.tail, r.count + 1), true)
  }

  datatype Taken<T> = Nothing | Item(value: T)

  function Popped<T>(r: Ring<T>): (Ring<T>, Taken<T>)
    requires r.Valid()
  {
    if r.count == 0 then (r, Nothing)
    else (r.(tail := Next(r.tail, |r.buf|), count := r.count - 1), Item(r.buf[r.tail]))
  }

  lemma NextWraps(i: nat, capacity: nat)
    requires i < capacity
    ensures Next(i, capacity) == if i + 1 < capacity then i + 1 else 0
  {
  }

  /** A push appends, and drops the item only when the buffer is full. */
  lemma PushAppends<T>(r: Ring<T>, x: T)
    requires r.Valid()
    ensures var (s, ok) := Pushed(r, x);
            && s.Valid() && |s.buf| == |r.buf|
            && (ok <==> r.count < |r.buf|)
            && s.Contents() == if ok then r.Contents() + [x] else r.Contents()
  {
    NextWraps(r.head, |r.buf|);
    var (s, ok) := Pushed(r, x);
    if ok {
      forall i | 0 <= i < r.count
        ensures s.Contents()[i] == r.Contents()[i]
      {
        assert s.Wrapped(s.tail + i) == r.Wrapped(r.tail + i) != r.head;
        assert s.Contents()[i] == s.buf[s.Wrapped(s.tail + i)] == r.buf[r.Wrapped(r.tail + i)];
      }
      assert s.Wrapped(s.tail + r.count) == r.head;
      assert s.Contents()[r.count] == s.buf[r.head] == x;
      assert s.Contents() == r.Contents() + [x];
    }
  }

  /** A pop takes the oldest item, and nothing only when the buffer is empty. */
  lemma PopTakesOldest<T>(r: Ring<T>)
    requires r.Valid()
    ensures var (s, x) := Popped(r);
            && s.Valid() && |s.buf| == |r.buf|
            && (x.Nothing? <==> r.count == 0)
            && r.Contents() == (if x.Item? then [x.value] else []) + s.Contents()
  {
    NextWraps(r.tail, |r.buf|);
    var (s, x) := Popped(r);
    if x.Item? {
      forall i | 0 <= i < s.count
        ensures s.Contents()[i] == r.Contents()[i + 1]
      {
        assert s.Wrapped(s.tail + i) == r.Wrapped(r.tail + (i + 1));
        assert s.Contents()[i] == r.buf[r.Wrapped(r.tail + (i + 1))];
      }
      assert r.Contents()[0] == r.buf[r.Wrapped(r.tail)] == x.value;
      assert r.Contents() == [x.value] + s.Contents();
    }
  }

  class RingBuffer<T(0)> {
    const buf: array<T>
    var head: nat
    var tail: nat
    var count: nat

    ghost function Now(): Ring<T>
      reads this, buf
    {
      Ring(buf[..], head, tail, count)
    }

    ghost predicate Valid()
      reads this, buf
    {
      Now().Valid()
    }

    constructor (capacity: nat)
      requires 1 < capacity
      ensures Valid() && fresh(buf) && buf.Length == capacity && Now().Contents() == []
    {
      buf := new T[capacity];
      head := 0;
      tail := 0;
      count := 0;
    }

    method Push(x: T) returns (ok: bool)
      requires Valid()
      modifies this, buf
      ensures Valid() && (Now(), ok) == Pushed(old(Now()), x)
      ensures Now().Contents() == old(Now().Contents()) + if ok then [x] else []
    {
      PushAppends(Now(), x);
      if count >= buf.Length { return false; }
      buf[head] := x;
      head := Next(head, buf.Length);
      count := count + 1;
      ok := true;
    }

    method Pop() returns (x: Taken<T>)
      requires Valid()
      modifies this
      ensures Valid() && (Now(), x) == Popped(old(Now()))
      ensures old(Now().Contents()) == (if x.Item? then [x.value] else []) + Now().Contents()
    {
      PopTakesOldest(Now());
      if count == 0 { return Nothing; }
      x := Item(buf[tail]);
      tail := Next(tail, buf.Length);
      count := count - 1;
    }

    method Clear()
      requires Valid()
      modifies this
      ensures Valid() && Now().Contents() == []
    {
      head := 0;
      tail := 0;
      count := 0;
    }
  }
}
