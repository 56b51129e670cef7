/** The millisecond timer behind auto-lock, welcome light, link loss and chirps. */
module SoftTimers {
  import opened Integers

  datatype Timer = Timer(period: u32, remaining: u32, periodic: bool, running: bool) {
    /** What every sequence of calls keeps: a running timer has something left to count. */
    predicate Valid() {
      && remaining <= period
      && (running ==> 0 < remaining)
    }
  }

  const IDLE: Timer := Timer(0, 0, false, false)

  function Started(period: u32, periodic: bool): Timer {
    Timer(period, period, periodic, period > 0)
  }

  function Stopped(t: Timer): Timer {
    t.(running := false)
  }

  /** One update and whether it fires. */
  function Advance(t: Timer, dt: u32): (r: (Timer, bool))
    requires t.Valid()
    ensures r.0.Valid()
  {
    if !t.running then (t, false)
    else if dt >= t.remaining then
      if t.periodic && t.period > 0 then
        (t.(remaining := t.period - (dt - t.remaining) % t.period), true)
      else
        (t.(remaining := 0, running := false), true)
    else (t.(remaining := t.remaining - dt), false)
  }

  class SoftTimer {
    var period: u32
    var remaining: u32
    var periodic: bool
    var running: bool

    ghost function Now(): Timer
      reads this
    {
      Timer(period, remaining, periodic, running)
    }

    constructor ()
      ensures Now() == IDLE
    {
      period := 0;
      remaining := 0;
      periodic := false;
      running := false;
    }

    method Start(periodMs: u32, repeats: bool)
      modifies this
      ensures Now() == Started(periodMs, repeats)
    {
      period := periodMs;
      remaining := periodMs;
      periodic := repeats;
      running := periodMs > 0;
    }

    method Stop()
      modifies this
      ensures Now() == Stopped(old(Now()))
    {
      running := false;
    }

    method Update(dt: u32) returns (fired: bool)
      requires Now().Valid()
      modifies this
      ensures (Now(), fired) == Advance(old(Now()), dt)
    {
      if !running { return false; }
      if dt >= remaining {
        if periodic && period > 0 {
          var overshoot := dt - remaining;
          remaining := period - (overshoot % period);
        } else {
          remaining := 0;
          running := false;
        }
        return true;
      }
      remaining := remaining - dt;
      return false;
    }
  }

  // ------------------------------------------------------------ series of updates

  function AdvanceAll(t: Timer, dts: seq<u32>): (r: Timer)
    requires t.Valid()
    ensures r.Valid()
  {
    if dts == [] then t else Advance(AdvanceAll(t, dts[..|dts| - 1]), dts[|dts| - 1]).0
  }

  /** Whether update i of the series fires. */
  predicate Fires(t: Timer, dts: seq<u32>, i: nat)
    requires t.Valid() && i < |dts|
  {
    Advance(AdvanceAll(t, dts[..i]), dts[i]).1
  }

  lemma PeriodOver(p: u32, r: nat, d: nat)
    requires r < p
    ensures d < p - r ==> (r + d) % p == r + d && (r + d) / p == 0
    ensures p - r <= d ==> (r + d) % p == (d - (p - r)) % p && 1 <= (r + d) / p
  {
    if r + d < p {
      SmallQuotient(p, r + d);
    } else {
      LargeQuotient(p, r + d);
    }
  }

  /** A periodic step in closed form. */
  lemma PeriodicStep(p: u32, t: nat, d: u32)
    requires 0 < p
    ensures var (s, fired) := Advance(Timer(p, p - t % p, true, true), d);
            && s == Timer(p, p - (t + d) % p, true, true)
            && (fired <==> t / p < (t + d) / p)
  {
    ModuloAdds(p, t, d);
    PeriodOver(p, t % p, d);
  }

  /** A periodic timer never drifts: after any series of updates totalling T it has
      P - T mod P to go, and an update fires exactly when T div P grows. */
  lemma {:induction false} PeriodicLaw(p: u32, dts: seq<u32>)
    requires 0 < p
    ensures AdvanceAll(Started(p, true), dts) == Timer(p, p - Sum(dts) % p, true, true)
    ensures forall i: nat :: i < |dts| ==>
              (Fires(Started(p, true), dts, i) <==> Sum(dts[..i]) / p < Sum(dts[..i + 1]) / p)
  {
    if dts == [] {
      SmallQuotient(p, 0);
    } else {
      var n := |dts| - 1;
      PeriodicLaw(p, dts[..n]);
      PeriodicStep(p, Sum(dts[..n]), dts[n]);
      forall i: nat | i < |dts|
        ensures Fires(Started(p, true), dts, i) <==> Sum(dts[..i]) / p < Sum(dts[..i + 1]) / p
      {
        if i == n {
          assert dts[..i + 1] == dts;
        } else {
          PrefixOfPrefix(dts, i, n);
          assert Fires(Started(p, true), dts[..n], i) <==> Sum(dts[..n][..i]) / p < Sum(dts[..n][..i + 1]) / p;
        }
      }
    }
  }

  lemma PrefixOfPrefix(dts: seq<u32>, i: nat, n: nat)
    requires i < n <= |dts|
    ensures dts[..n][..i] == dts[..i] && dts[..n][..i + 1] == dts[..i + 1]
  {
  }

  /** A one-shot timer runs while the total is below its period, then stays stopped: it
      fires on the one update that reaches the period. */
  lemma {:induction false} OneShotLaw(p: u32, dts: seq<u32>)
    requires 0 < p
    ensures AdvanceAll(Started(p, false), dts)
         == if Sum(dts) < p then Timer(p, p - Sum(dts), false, true) else Timer(p, 0, false, false)
    ensures forall i: nat :: i < |dts| ==>
              (Fires(Started(p, false), dts, i) <==> Sum(dts[..i]) < p <= Sum(dts[..i + 1]))
  {
    if dts != [] {
      var n := |dts| - 1;
      OneShotLaw(p, dts[..n]);
      forall i: nat | i < |dts|
        ensures Fires(Started(p, false), dts, i) <==> Sum(dts[..i]) < p <= Sum(dts[..i + 1])
      {
        if i == n {
          assert dts[..i + 1] == dts;
        } else {
          PrefixOfPrefix(dts, i, n);
          assert Fires(Started(p, false), dts[..n], i) <==> Sum(dts[..n][..i]) < p <= Sum(dts[..n][..i + 1]);
        }
      }
    }
  }

  // ----------------------------------------------------------- once per expiry

  /** How many updates of the series fire. */
  function Firings(t: Timer, dts: seq<u32>): nat
    requires t.Valid()
  {
    if dts == [] then 0
    else
      var n := |dts| - 1;
      Firings(t, dts[..n]) + if Advance(AdvanceAll(t, dts[..n]), dts[n]).1 then 1 else 0
  }

  predicate NoLonger(longest: u32, dts: seq<u32>) {
    forall i :: 0 <= i < |dts| ==> dts[i] <= longest
  }

  lemma AtMostOneExpiry(p: u32, t: nat, d: u32)
    requires 0 < p && d <= p
    ensures (t + d) / p == t / p || (t + d) / p == t / p + 1
  {
    ModuloAdds(p, t, d);
    if t % p + d < p {
      SmallQuotient(p, t % p + d);
    } else {
      LargeQuotient(p, t % p + d);
      SmallQuotient(p, t % p + d - p);
    }
  }

  lemma {:induction false} ShortStepsFireOnce(p: u32, dts: seq<u32>)
    requires 0 < p && NoLonger(p, dts)
    ensures Firings(Started(p, true), dts) == Sum(dts) / p
  {
    if dts == [] {
      SmallQuotient(p, 0);
    } else {
      var n := |dts| - 1;
      ShortStepsFireOnce(p, dts[..n]);
      PeriodicLaw(p, dts[..n]);
      PeriodicStep(p, Sum(dts[..n]), dts[n]);
      AtMostOneExpiry(p, Sum(dts[..n]), dts[n]);
    }
  }

  /** An input: a step one short of a period and a step one longer pass two expiries and
      fire once. */
  lemma LongStepSkipsExpiry(p: u32)
    requires 0 < p && p + 1 < U32_LIMIT
    ensures var dts: seq<u32> := [p - 1, p + 1];
            Sum(dts) / p == 2 && Firings(Started(p, true), dts) == 1
  {
    var dts: seq<u32> := [p - 1, p + 1];
    assert dts[..1] == [p - 1] && dts[..1][..0] == [];
    assert Sum(dts[..1]) == p - 1 && Sum(dts) == 2 * p;
    DivisionIsUnique(p, 2, 0, 2 * p);
    assert NoLonger(p, dts[..1]);
    ShortStepsFireOnce(p, dts[..1]);
    SmallQuotient(p, p - 1);
    PeriodicLaw(p, dts[..1]);
    PeriodicStep(p, p - 1, p + 1);
  }

  predicate OncePerExpiry(p: u32, dts: seq<u32>)
    requires 0 < p
  {
    Firings(Started(p, true), dts) == Sum(dts) / p
  }

  /** A periodic timer fires once per expiry, over every series of steps of at most
      `longest`, exactly when no step is longer than the period. */
  lemma FiresOncePerExpiryIff(p: u32, longest: u32)
    requires 0 < p
    ensures (forall dts :: NoLonger(longest, dts) ==> OncePerExpiry(p, dts)) <==> longest <= p
  {
    if longest <= p {
      forall dts | NoLonger(longest, dts)
        ensures OncePerExpiry(p, dts)
      {
        ShortStepsFireOnce(p, dts);
      }
    } else {
      LongStepSkipsExpiry(p);
      assert !OncePerExpiry(p, [p - 1, p + 1]);
    }
  }
}
