/** The check-in protocol: supervised tasks set bits, the watchdog task waits for all. */
module Watchdog {
  datatype Task = Control | Sensor | Logger | Monitor

  const ALL_TASKS: set<Task> := {Control, Sensor, Logger, Monitor}

  /** Where the watchdog task stands: delayed until its next period, blocked on the bits,
      or back from the wait with its result. */
  datatype Place = Delayed | Waiting | Returned(all: bool)

  /** The bits set since they were last cleared, and the watchdog task. */
  datatype State = State(bits: set<Task>, place: Place)

  const STARTED: State := State({}, Waiting)

  /** The atomic steps: a task checks in; the wait times out; the watchdog task decides and
      goes to its delay; the delay ends and the wait begins. */
  datatype Event = CheckIn(task: Task) | TimeOut | Decide(healthy: bool) | Wake

  /** A wait ends as soon as all bits are set, and takes them. */
  function Waited(bits: set<Task>): State {
    if bits == ALL_TASKS then State({}, Returned(true)) else State(bits, Waiting)
  }

  /** An event that the watchdog task is not in the place for changes nothing. */
  function Next(s: State, e: Event): State {
    match e
    case CheckIn(t) =>
      if s.place.Waiting? then Waited(s.bits + {t}) else s.(bits := s.bits + {t})
    case TimeOut => if s.place.Waiting? then s.(place := Returned(false)) else s
    case Decide(_) => if s.place.Returned? then s.(place := Delayed) else s
    case Wake => if s.place.Delayed? then Waited(s.bits) else s
  }

  predicate Refreshes(s: State, e: Event) {
    e.Decide? && e.healthy && s.place == Returned(true)
  }

  class Supervisor {
    var bits: set<Task>
    var place: Place

    ghost function Now(): State
      reads this
    {
      State(bits, place)
    }

    constructor ()
      ensures Now() == STARTED
    {
      bits := {};
      place := Waiting;
    }

    method FinishWait()
      modifies this
      ensures Now() == Waited(old(bits))
    {
      if bits == ALL_TASKS {
        bits := {};
        place := Returned(true);
      } else {
        place := Waiting;
      }
    }

    method SetBit(t: Task)
      modifies this
      ensures Now() == Next(old(Now()), CheckIn(t))
    {
      bits := bits + {t};
      if place.Waiting? {
        FinishWait();
      }
    }

    method LetTimeOut()
      requires place.Waiting?
      modifies this
      ensures Now() == Next(old(Now()), TimeOut)
    {
      place := Returned(false);
    }

    /** What the watchdog task does between its wait and its delay. */
    method DecideOnRefresh(healthy: bool) returns (refresh: bool)
      requires place.Returned?
      modifies this
      ensures Now() == Next(old(Now()), Decide(healthy))
      ensures refresh <==> Refreshes(old(Now()), Decide(healthy))
    {
      refresh := place.all && healthy;
      place := Delayed;
    }

    method WakeUp()
      requires place.Delayed?
      modifies this
      ensures Now() == Next(old(Now()), Wake)
    {
      FinishWait();
    }
  }

  // ------------------------------------------------------------------------ all runs

  function After(es: seq<Event>): State {
    if es == [] then STARTED else Next(After(es[..|es| - 1]), es[|es| - 1])
  }

  /** Event i of the run refreshes the hardware watchdog. */
  predicate RefreshAt(es: seq<Event>, i: nat) {
    i < |es| && Refreshes(After(es[..i]), es[i])
  }

  /** Event i of the run completes the set of bits and so clears it. */
  predicate ClearAt(es: seq<Event>, i: nat) {
    && i < |es|
    && After(es[..i]).place != Returned(true) && After(es[..i + 1]).place == Returned(true)
  }

  /** The watchdog task outranks every task it supervises, so none of them runs between
      the end of its wait and its delay. */
  predicate Outranks(es: seq<Event>) {
    forall i :: 0 <= i < |es| && es[i].CheckIn? ==> !After(es[..i]).place.Returned?
  }

  predicate ChecksIn(es: seq<Event>, t: Task, from: nat, to: nat) {
    exists k :: from <= k < to <= |es| && es[k] == CheckIn(t)
  }

  /** The position just after the last clear. */
  function SinceClear(es: seq<Event>): (n: nat)
    ensures n <= |es|
  {
    if es == [] then 0
    else if ClearAt(es, |es| - 1) then |es|
    else SinceClear(es[..|es| - 1])
  }

  lemma ChecksInExtends(es: seq<Event>, t: Task, from: nat)
    requires from < |es|
    ensures ChecksIn(es, t, from, |es|)
       <==> ChecksIn(es[..|es| - 1], t, from, |es| - 1) || es[|es| - 1] == CheckIn(t)
  {
    var n := |es| - 1;
    if k :| from <= k < |es| && es[k] == CheckIn(t) && k < n {
      assert es[..n][k] == CheckIn(t);
    }
  }

  /** In every run a bit is set exactly when its task has checked in since the bits were
      last cleared; in particular a wait that times out loses no check-in. */
  lemma {:induction false} BitsAreCheckIns(es: seq<Event>, t: Task)
    ensures t in After(es).bits <==> ChecksIn(es, t, SinceClear(es), |es|)
  {
    if es != [] {
      var n := |es| - 1;
      BitsAreCheckIns(es[..n], t);
      assert es[..n + 1] == es;
      if !ClearAt(es, n) {
        ChecksInExtends(es, t, SinceClear(es));
      }
    }
  }

  /** Every supervised task checks in within a stretch of the run. */
  predicate AllCheckedIn(es: seq<Event>, from: nat, to: nat) {
    && ChecksIn(es, Control, from, to) && ChecksIn(es, Sensor, from, to)
    && ChecksIn(es, Logger, from, to) && ChecksIn(es, Monitor, from, to)
  }

  lemma FullSet(bits: set<Task>)
    ensures bits == ALL_TASKS <==> Control in bits && Sensor in bits && Logger in bits && Monitor in bits
  {
    if Control in bits && Sensor in bits && Logger in bits && Monitor in bits {
      forall t | t in bits
        ensures t in ALL_TASKS
      {
        match t {
          case Control =>
          case Sensor =>
          case Logger =>
          case Monitor =>
        }
      }
      assert bits == ALL_TASKS;
    }
  }

  lemma BitAfter(es: seq<Event>, e: Event, t: Task)
    ensures t in After(es).bits || e == CheckIn(t) <==> ChecksIn(es + [e], t, SinceClear(es), |es| + 1)
  {
    assert (es + [e])[..|es|] == es;
    BitsAreCheckIns(es, t);
    ChecksInExtends(es + [e], t, SinceClear(es));
  }

  /** A wait that begins or continues with event e ends at once exactly when by then every
      supervised task has checked in since the last clear. */
  lemma WaitEndsIffAllCheckedIn(es: seq<Event>, e: Event)
    requires var p := After(es).place; (p.Delayed? && e.Wake?) || (p.Waiting? && e.CheckIn?)
    ensures Next(After(es), e).place == Returned(true) <==> AllCheckedIn(es + [e], SinceClear(es), |es| + 1)
  {
    hide ChecksIn, After, SinceClear;
    BitAfter(es, e, Control);
    BitAfter(es, e, Sensor);
    BitAfter(es, e, Logger);
    BitAfter(es, e, Monitor);
    var bits := After(es).bits + if e.CheckIn? then {e.task} else {};
    FullSet(bits);
  }

  /** What a clear takes: every task's check-in since the clear before, the current event
      included. */
  lemma ClearNeedsAll(es: seq<Event>, j: nat, t: Task)
    requires ClearAt(es, j)
    ensures ChecksIn(es, t, SinceClear(es[..j]), j + 1)
  {
    BitsAreCheckIns(es[..j], t);
    assert es[..j + 1][..j] == es[..j] && es[..j + 1][j] == es[j];
    if t in After(es[..j]).bits {
      var k :| SinceClear(es[..j]) <= k < j && es[..j][k] == CheckIn(t);
      assert es[k] == CheckIn(t);
    } else {
      assert t in ALL_TASKS;
      assert es[j] == CheckIn(t);
    }
  }

  lemma {:induction false} SinceClearIsLate(es: seq<Event>, i: nat)
    requires ClearAt(es, i)
    ensures i < SinceClear(es)
  {
    var n := |es| - 1;
    if i < n {
      assert es[..n][..i] == es[..i] && es[..n][..i + 1] == es[..i + 1];
      SinceClearIsLate(es[..n], i);
    }
  }

  /** Whatever the priorities: after one complete set is taken, every supervised task must
      check in again before the next is. */
  lemma EveryTaskBetweenClears(es: seq<Event>, i: nat, j: nat, t: Task)
    requires i < j && ClearAt(es, i) && ClearAt(es, j)
    ensures ChecksIn(es, t, i + 1, j + 1)
  {
    assert es[..j][..i] == es[..i] && es[..j][..i + 1] == es[..i + 1];
    SinceClearIsLate(es[..j], i);
    ClearNeedsAll(es, j, t);
  }

  // ----------------------------------------------------------------------- refreshes

  /** The clear that a refresh acts on. */
  lemma {:induction false} RefreshFollowsClear(es: seq<Event>, i: nat) returns (c: nat)
    requires i <= |es| && After(es[..i]).place == Returned(true)
    ensures c < i && ClearAt(es, c)
    ensures forall k :: c < k <= i ==> After(es[..k]).place == Returned(true)
  {
    assert i > 0;
    assert es[..i][..i - 1] == es[..i - 1];
    if After(es[..i - 1]).place == Returned(true) {
      c := RefreshFollowsClear(es, i - 1);
    } else {
      c := i - 1;
    }
  }

  /** Between two refreshes, strictly, every supervised task has checked in. */
  lemma EveryTaskBetweenRefreshes(es: seq<Event>, i: nat, j: nat, t: Task)
    requires Outranks(es) && i < j && RefreshAt(es, i) && RefreshAt(es, j)
    ensures ChecksIn(es, t, i + 1, j)
  {
    var a := RefreshFollowsClear(es, i);
    var b := RefreshFollowsClear(es, j);
    assert es[..i + 1][..i] == es[..i] && es[..i + 1][i] == es[i];
    assert After(es[..i + 1]).place == Delayed;
    assert b > i;
    EveryTaskBetweenClears(es, a, b, t);
    var k :| a + 1 <= k < b + 1 && es[k] == CheckIn(t);
    assert k > i;
  }

  /** So a task that has stopped checking in is survived by at most one refresh. */
  lemma AtMostOneRefreshAfter(es: seq<Event>, n: nat, t: Task, i: nat, j: nat)
    requires Outranks(es) && n <= |es| && !ChecksIn(es, t, n, |es|)
    requires n <= i && n <= j && RefreshAt(es, i) && RefreshAt(es, j)
    ensures i == j
  {
    if i < j {
      EveryTaskBetweenRefreshes(es, i, j, t);
    } else if j < i {
      EveryTaskBetweenRefreshes(es, j, i, t);
    }
  }

  /** A task that never checked in prevents every refresh, whatever the priorities. */
  lemma NoRefreshWithoutAll(es: seq<Event>, i: nat, t: Task)
    requires RefreshAt(es, i)
    ensures ChecksIn(es, t, 0, i)
  {
    var c := RefreshFollowsClear(es, i);
    ClearNeedsAll(es, c, t);
    var k :| SinceClear(es[..c]) <= k < c + 1 && es[k] == CheckIn(t);
    assert 0 <= k < i && es[k] == CheckIn(t);
  }

  /** A run in which a supervised task checks in while the watchdog task is about to decide. */
  const OVERTAKEN: seq<Event> := [
    CheckIn(Control), CheckIn(Sensor), CheckIn(Logger), CheckIn(Monitor),
    CheckIn(Control), Decide(true),
    CheckIn(Sensor), CheckIn(Logger), CheckIn(Monitor), Wake, Decide(true)
  ]

  /** The watchdog task must outrank the others: otherwise two refreshes can follow the last
      check-in of a task. */
  lemma PriorityMatters()
    ensures RefreshAt(OVERTAKEN, 5) && RefreshAt(OVERTAKEN, 10) && !ChecksIn(OVERTAKEN, Control, 5, |OVERTAKEN|)
    ensures !Outranks(OVERTAKEN)
  {
    var s3 := State({Control, Sensor, Logger}, Waiting);
    var es := OVERTAKEN;
    assert After(es[..0]) == STARTED;
    PrefixStep(es, 0);
    PrefixStep(es, 1);
    PrefixStep(es, 2);
    assert After(es[..3]) == s3;
    PrefixStep(es, 3);
    assert After(es[..4]) == State({}, Returned(true));
    PrefixStep(es, 4);
    PrefixStep(es, 5);
    assert After(es[..6]) == State({Control}, Delayed);
    PrefixStep(es, 6);
    PrefixStep(es, 7);
    PrefixStep(es, 8);
    assert After(es[..9]) == State(ALL_TASKS, Delayed);
    PrefixStep(es, 9);
  }

  lemma PrefixStep(es: seq<Event>, i: nat)
    requires i < |es|
    ensures After(es[..i + 1]) == Next(After(es[..i]), es[i])
  {
    assert es[..i + 1][..i] == es[..i];
  }

  // ------------------------------------------------------------- exactly when it refreshes

  predicate NoDecision(es: seq<Event>, from: nat, to: nat) {
    forall k :: from <= k < to <= |es| ==> !es[k].Decide?
  }

  /** A complete set was taken at c and nothing has been decided on it since. */
  predicate Undecided(es: seq<Event>, c: nat, i: nat) {
    c < i <= |es| && ClearAt(es, c) && NoDecision(es, c + 1, i)
  }

  lemma {:induction false} SuccessWaits(es: seq<Event>, c: nat, i: nat)
    requires Undecided(es, c, i)
    ensures After(es[..i]).place == Returned(true)
    decreases i
  {
    if c + 1 < i {
      SuccessWaits(es, c, i - 1);
      PrefixStep(es, i - 1);
    }
  }

  lemma SuccessIsUndecided(es: seq<Event>, i: nat) returns (c: nat)
    requires i <= |es| && After(es[..i]).place == Returned(true)
    ensures Undecided(es, c, i)
  {
    c := RefreshFollowsClear(es, i);
    forall k | c + 1 <= k < i
      ensures !es[k].Decide?
    {
      PrefixStep(es, k);
    }
  }

  /** In every run a decision refreshes the hardware exactly when the diagnosis is healthy
      and a complete set has been taken that nothing was decided on yet. */
  lemma RefreshesIff(es: seq<Event>, i: nat)
    requires i < |es| && es[i].Decide?
    ensures RefreshAt(es, i) <==> es[i].healthy && exists c: nat :: Undecided(es, c, i)
  {
    if After(es[..i]).place == Returned(true) {
      var c := SuccessIsUndecided(es, i);
      assert Undecided(es, c, i);
    }
    forall c: nat | Undecided(es, c, i)
      ensures After(es[..i]).place == Returned(true)
    {
      SuccessWaits(es, c, i);
    }
  }
}
