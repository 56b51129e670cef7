/** The lamp pattern generator. */
module Blinkers {
  import opened Integers

  datatype Mode = Off | On | Blink

  datatype Pattern = Pattern(mode: Mode, onMs: u16, offMs: u16, elapsed: u16, output: bool)

  /** The catch-up loop: whole phases are taken off until less than one is left. A phase
      of length zero stops it. */
  function Settle(onMs: u16, offMs: u16, elapsed: u16, output: bool): (r: (u16, bool))
    decreases elapsed
  {
    var limit := if output then onMs else offMs;
    if limit == 0 || elapsed < limit then (elapsed, output)
    else Settle(onMs, offMs, elapsed - limit, !output)
  }

  function Blinking(p: Pattern, onMs: u16, offMs: u16, startOn: bool): Pattern {
    if p.mode == Blink && onMs == p.onMs && offMs == p.offMs then p
    else Pattern(Blink, onMs, offMs, 0, startOn)
  }

  /** One update; the elapsed time saturates at 16 bits. */
  function Tick(p: Pattern, dt: u16): Pattern {
    if p.mode != Blink then p
    else
      var (e, o) := Settle(p.onMs, p.offMs, Min(p.elapsed + dt, U16_LIMIT - 1), p.output);
      p.(elapsed := e, output := o)
  }

  class Blinker {
    var mode: Mode
    var onMs: u16
    var offMs: u16
    var elapsed: u16
    var output: bool

    ghost function Now(): Pattern
      reads this
    {
      Pattern(mode, onMs, offMs, elapsed, output)
    }

    constructor ()
      ensures Now() == Pattern(Off, 0, 0, 0, false)
    {
      mode := Off;
      onMs := 0;
      offMs := 0;
      elapsed := 0;
      output := false;
    }

    method SetOff()
      modifies this
      ensures Now() == old(Now()).(mode := Off, output := false, elapsed := 0)
    {
      mode := Off;
      output := false;
      elapsed := 0;
    }

    method SetOn()
      modifies this
      ensures Now() == old(Now()).(mode := On, output := true, elapsed := 0)
    {
      mode := On;
      output := true;
      elapsed := 0;
    }

    method SetBlink(on: u16, off: u16, startOn: bool)
      modifies this
      ensures Now() == Blinking(old(Now()), on, off, startOn)
    {
      if mode == Blink && on == onMs && off == offMs { return; }
      mode := Blink;
      onMs := on;
      offMs := off;
      output := startOn;
      elapsed := 0;
    }

    method Update(dt: u16) returns (lit: bool)
      modifies this
      ensures Now() == Tick(old(Now()), dt) && lit == output
    {
      if mode != Blink { return output; }
      var sum := elapsed + dt;
      elapsed := if sum > 0xFFFF then 0xFFFF else sum;
      ghost var settled := Settle(onMs, offMs, elapsed, output);
      while true
        invariant Settle(onMs, offMs, elapsed, output) == settled
        invariant mode == old(mode) && onMs == old(onMs) && offMs == old(offMs)
        decreases elapsed
      {
        var limit := if output then onMs else offMs;
        if limit == 0 || elapsed < limit { break; }
        elapsed := elapsed - limit;
        output := !output;
      }
      lit := output;
    }
  }

  // ------------------------------------------------------------------ closed form

  /** Both phases have a length, and less than one of them has passed. */
  predicate Steady(p: Pattern) {
    p.mode == Blink && 0 < p.onMs && 0 < p.offMs && p.elapsed < if p.output then p.onMs else p.offMs
  }

  /** The position in the cycle, counted from the start of the lit phase. */
  function Phase(p: Pattern): nat {
    if p.output then p.elapsed else p.onMs + p.elapsed
  }

  lemma {:induction false} SettleLaw(onMs: u16, offMs: u16, elapsed: u16, output: bool)
    requires 0 < onMs && 0 < offMs
    ensures var (e, o) := Settle(onMs, offMs, elapsed, output);
            && e < (if o then onMs else offMs)
            && (if o then e else onMs + e) == (if output then elapsed else onMs + elapsed) % (onMs + offMs)
    decreases elapsed
  {
    var cycle := onMs + offMs;
    var limit := if output then onMs else offMs;
    if elapsed < limit {
      SmallQuotient(cycle, if output then elapsed else onMs + elapsed);
    } else {
      SettleLaw(onMs, offMs, elapsed - limit, !output);
      if !output {
        LargeQuotient(cycle, onMs + elapsed);
      }
    }
  }

  /** An update moves the phase by the time passed, cut off where the 16-bit sum saturates. */
  lemma TickLaw(p: Pattern, dt: u16)
    requires Steady(p)
    ensures Steady(Tick(p, dt))
    ensures Phase(Tick(p, dt)) == (Phase(p) + Min(dt, U16_LIMIT - 1 - p.elapsed)) % (p.onMs + p.offMs)
  {
    SettleLaw(p.onMs, p.offMs, Min(p.elapsed + dt, U16_LIMIT - 1), p.output);
  }

  /** One update follows the cycle exactly when what its saturating sum drops is a whole
      number of cycles; nothing is dropped while the sum fits 16 bits. */
  lemma LongStepLaw(p: Pattern, dt: u16)
    requires Steady(p)
    ensures Phase(Tick(p, dt)) == (Phase(p) + dt) % (p.onMs + p.offMs)
       <==> Max(0, p.elapsed + dt - (U16_LIMIT - 1)) % (p.onMs + p.offMs) == 0
  {
    var kept := Min(dt, U16_LIMIT - 1 - p.elapsed);
    TickLaw(p, dt);
    ModuloUnmoved(p.onMs + p.offMs, Phase(p) + kept, dt - kept);
  }

  function TickAll(p: Pattern, dts: seq<u16>): Pattern {
    if dts == [] then p else Tick(TickAll(p, dts[..|dts| - 1]), dts[|dts| - 1])
  }

  /** What saturation cuts off over a series of updates. */
  function Dropped(p: Pattern, dts: seq<u16>): nat {
    if dts == [] then 0
    else
      var n := |dts| - 1;
      Dropped(p, dts[..n]) + Max(0, TickAll(p, dts[..n]).elapsed + dts[n] - (U16_LIMIT - 1))
  }

  lemma {:induction false} SteadySeries(p: Pattern, dts: seq<u16>)
    requires Steady(p)
    ensures var q := TickAll(p, dts);
            Steady(q) && q.onMs == p.onMs && q.offMs == p.offMs && Dropped(p, dts) <= Sum(dts)
  {
    if dts != [] {
      var n := |dts| - 1;
      SteadySeries(p, dts[..n]);
      TickLaw(TickAll(p, dts[..n]), dts[n]);
    }
  }

  lemma OneMoreTick(p: Pattern, dts: seq<u16>)
    requires dts != [] && Steady(p)
    ensures var n := |dts| - 1;
            var q := TickAll(p, dts[..n]);
            var kept := Min(dts[n], U16_LIMIT - 1 - q.elapsed);
            && q.onMs + q.offMs == p.onMs + p.offMs
            && Phase(TickAll(p, dts)) == (Phase(q) + kept) % (p.onMs + p.offMs)
            && Sum(dts) - Dropped(p, dts) == Sum(dts[..n]) - Dropped(p, dts[..n]) + kept
  {
    var n := |dts| - 1;
    SteadySeries(p, dts[..n]);
    TickLaw(TickAll(p, dts[..n]), dts[n]);
  }

  /** Over any series of updates, saturating ones included, the phase moves by the time that
      was not cut off. */
  lemma {:induction false} SeriesLaw(p: Pattern, dts: seq<u16>)
    requires Steady(p)
    ensures Dropped(p, dts) <= Sum(dts)
    ensures Phase(TickAll(p, dts)) == (Phase(p) + Sum(dts) - Dropped(p, dts)) % (p.onMs + p.offMs)
  {
    hide Sum, Dropped, TickAll, Phase, Steady;
    SteadySeries(p, dts);
    if dts == [] {
      NoTicks(p);
      SmallPhase(p);
    } else {
      var n := |dts| - 1;
      var q := TickAll(p, dts[..n]);
      SteadySeries(p, dts[..n]);
      SeriesLaw(p, dts[..n]);
      OneMoreTick(p, dts);
      PhaseAdds(p.onMs + p.offMs, Phase(p) + Sum(dts[..n]) - Dropped(p, dts[..n]), Phase(q),
                Min(dts[n], U16_LIMIT - 1 - q.elapsed), Phase(p) + Sum(dts) - Dropped(p, dts));
    }
  }

  lemma SmallPhase(p: Pattern)
    requires Steady(p)
    ensures 0 < p.onMs + p.offMs && Phase(p) % (p.onMs + p.offMs) == Phase(p)
  {
    SmallQuotient(p.onMs + p.offMs, Phase(p));
  }

  lemma PhaseAdds(cycle: nat, past: nat, phase: nat, kept: nat, total: nat)
    requires 0 < cycle && phase == past % cycle && total == past + kept
    ensures (phase + kept) % cycle == total % cycle
  {
    ModuloAdds(cycle, past, kept);
  }

  lemma NoTicks(p: Pattern)
    ensures TickAll(p, []) == p && Dropped(p, []) == 0 && Sum([]) == 0
  {
  }

  /** So a series leaves the phase right exactly when all that was cut off is a whole number
      of cycles. */
  lemma SeriesFollowsIff(p: Pattern, dts: seq<u16>)
    requires Steady(p)
    ensures Phase(TickAll(p, dts)) == (Phase(p) + Sum(dts)) % (p.onMs + p.offMs)
       <==> Dropped(p, dts) % (p.onMs + p.offMs) == 0
  {
    hide TickAll, Dropped, Sum, Phase;
    var kept, dropped := Phase(p) + Sum(dts) - Dropped(p, dts), Dropped(p, dts);
    SeriesLaw(p, dts);
    assert Phase(p) + Sum(dts) == kept + dropped;
    ModuloUnmoved(p.onMs + p.offMs, kept, dropped);
  }

  /** An input: 332 ms into a 333/333 pattern, one update of 65535 ms leaves the lamp lit
      where it should be dark. */
  lemma LongStepGoesStale(p: Pattern)
    requires p.mode != Blink
    ensures var q := TickAll(Blinking(p, 333, 333, true), [332, 65535]);
            q.output && (332 + 65535) % 666 >= 333
  {
    var start, dts: seq<u16> := Blinking(p, 333, 333, true), [332, 65535];
    assert dts[..1] == [332] && dts[..1][..0] == [];
    assert TickAll(start, dts[..1]) == Tick(start, 332);
    TickLaw(start, 332);
    TickLaw(Tick(start, 332), 65535);
  }

  /** No step is so long that the sum could saturate. */
  ghost predicate Paced(onMs: u16, offMs: u16, dts: seq<u16>) {
    AtMost(U16_LIMIT - Max(onMs, offMs), dts)
  }

  ghost predicate AtMost(longest: nat, dts: seq<u16>) {
    forall i :: 0 <= i < |dts| ==> dts[i] <= longest
  }

  /** However the time T is cut into updates, the lamp is lit exactly when T, counted from
      the phase it started in, falls into the lit part of the cycle. */
  lemma {:induction false} BlinkLaw(p: Pattern, onMs: u16, offMs: u16, startOn: bool, dts: seq<u16>)
    requires 0 < onMs && 0 < offMs && Paced(onMs, offMs, dts)
    requires p.mode != Blink || p.onMs != onMs || p.offMs != offMs
    ensures var q := TickAll(Blinking(p, onMs, offMs, startOn), dts);
            var origin := if startOn then 0 else onMs;
            && Steady(q) && q.onMs == onMs && q.offMs == offMs
            && Phase(q) == (origin + Sum(dts)) % (onMs + offMs)
            && (q.output <==> (origin + Sum(dts)) % (onMs + offMs) < onMs)
  {
    var start := Blinking(p, onMs, offMs, startOn);
    if dts == [] {
      SmallQuotient(onMs + offMs, Phase(start));
    } else {
      var n := |dts| - 1;
      var q := TickAll(start, dts[..n]);
      BlinkLaw(p, onMs, offMs, startOn, dts[..n]);
      TickLaw(q, dts[n]);
      ModuloAdds(onMs + offMs, (if startOn then 0 else onMs) + Sum(dts[..n]), dts[n]);
    }
  }

  /** Asking again for the pattern that is running changes nothing, so an indicator held on
      keeps flashing. */
  lemma BlinkingTwice(p: Pattern, onMs: u16, offMs: u16, startOn: bool, again: bool, dts: seq<u16>)
    ensures var q := TickAll(Blinking(p, onMs, offMs, startOn), dts);
            Blinking(q, onMs, offMs, again) == q
  {
    ParametersKept(Blinking(p, onMs, offMs, startOn), dts);
  }

  lemma {:induction false} ParametersKept(p: Pattern, dts: seq<u16>)
    ensures var q := TickAll(p, dts);
            q.mode == p.mode && q.onMs == p.onMs && q.offMs == p.offMs
  {
    if dts != [] {
      ParametersKept(p, dts[..|dts| - 1]);
    }
  }

  // ---------------------------------------------------------- the sharp step bound

  /** The series leaves the lamp where its total says. */
  predicate Follows(onMs: u16, offMs: u16, startOn: bool, dts: seq<u16>)
    requires 0 < onMs && 0 < offMs
  {
    var q := TickAll(Pattern(Blink, onMs, offMs, 0, startOn), dts);
    Phase(q) == ((if startOn then 0 else onMs) + Sum(dts)) % (onMs + offMs)
  }

  function Ones(n: nat): seq<u16> {
    if n == 0 then [] else Ones(n - 1) + [1]
  }

  lemma {:induction false} OnesAddUp(n: nat)
    ensures |Ones(n)| == n && Sum(Ones(n)) == n && AtMost(1, Ones(n))
  {
    if n > 0 {
      OnesAddUp(n - 1);
    }
  }

  /** How long after its start the pattern is at the last millisecond of its longer phase. */
  function LastOfLonger(onMs: u16, offMs: u16, startOn: bool): nat
    requires 0 < onMs && 0 < offMs
  {
    if startOn then if offMs <= onMs then onMs - 1 else onMs + offMs - 1
    else if offMs <= onMs then onMs + offMs - 1 else offMs - 1
  }

  lemma LastMillisecond(q: Pattern)
    requires Steady(q)
    requires Phase(q) == if q.offMs <= q.onMs then q.onMs - 1 else q.onMs + q.offMs - 1
    ensures q.elapsed == Max(q.onMs, q.offMs) - 1
  {
  }

  lemma LongerPhaseEnds(onMs: u16, offMs: u16, startOn: bool)
    requires 0 < onMs && 0 < offMs
    ensures var q := TickAll(Pattern(Blink, onMs, offMs, 0, startOn), Ones(LastOfLonger(onMs, offMs, startOn)));
            Steady(q) && q.onMs == onMs && q.offMs == offMs && q.elapsed == Max(onMs, offMs) - 1
  {
    hide TickAll, Steady, Phase, Sum, Ones;
    var n := LastOfLonger(onMs, offMs, startOn);
    var origin := if startOn then 0 else onMs;
    var target := if offMs <= onMs then onMs - 1 else onMs + offMs - 1;
    OnesAddUp(n);
    PhaseReached(onMs + offMs, origin + n, target);
    hide LastOfLonger, AtMost;
    OnesArePaced(onMs, offMs, Ones(n));
    BlinkLaw(Pattern(Off, onMs, offMs, 0, startOn), onMs, offMs, startOn, Ones(n));
    LastMillisecond(TickAll(Pattern(Blink, onMs, offMs, 0, startOn), Ones(n)));
  }

  lemma OnesArePaced(onMs: u16, offMs: u16, dts: seq<u16>)
    requires AtMost(1, dts)
    ensures Paced(onMs, offMs, dts)
  {
  }

  lemma PhaseReached(cycle: nat, time: nat, target: nat)
    requires target < cycle && (time == target || time == target + cycle)
    ensures time % cycle == target
  {
    SmallQuotient(cycle, target);
    AddOnce(cycle, target);
  }

  lemma DroppedExtends(p: Pattern, dts: seq<u16>, dt: u16)
    ensures Dropped(p, dts + [dt]) == Dropped(p, dts) + Max(0, TickAll(p, dts).elapsed + dt - (U16_LIMIT - 1))
  {
    hide TickAll;
    assert (dts + [dt])[..|dts|] == dts;
  }

  lemma DropIsSeen(onMs: u16, offMs: u16, startOn: bool, longest: u16)
    requires 0 < onMs && 0 < offMs && U16_LIMIT - Max(onMs, offMs) < longest
    ensures var dts := Ones(LastOfLonger(onMs, offMs, startOn)) + [longest];
            AtMost(longest, dts) && !Follows(onMs, offMs, startOn, dts)
  {
    hide TickAll, Dropped, LastOfLonger, Ones, Sum;
    var n := LastOfLonger(onMs, offMs, startOn);
    var start := Pattern(Blink, onMs, offMs, 0, startOn);
    OnesAddUp(n);
    LongerPhaseEnds(onMs, offMs, startOn);
    OnesDropNothing(onMs, offMs, startOn, n);
    DroppedExtends(start, Ones(n), longest);
    SeriesFollowsIff(start, Ones(n) + [longest]);
    var over := Max(onMs, offMs) - 1 + longest - (U16_LIMIT - 1);
    SmallQuotient(onMs + offMs, over);
  }

  lemma {:induction false} OnesDropNothing(onMs: u16, offMs: u16, startOn: bool, n: nat)
    requires 0 < onMs && 0 < offMs
    ensures Dropped(Pattern(Blink, onMs, offMs, 0, startOn), Ones(n)) == 0
  {
    hide TickAll, Dropped, Sum;
    var start := Pattern(Blink, onMs, offMs, 0, startOn);
    if n == 0 {
      NoTicks(start);
    } else {
      OnesDropNothing(onMs, offMs, startOn, n - 1);
      SteadySeries(start, Ones(n - 1));
      DroppedExtends(start, Ones(n - 1), 1);
    }
  }

  /** Every series of steps of at most `longest` leaves the lamp where its total says
      exactly when no such step can saturate the sum at the end of the longer phase. */
  lemma StepsFollowIff(onMs: u16, offMs: u16, startOn: bool, longest: u16)
    requires 0 < onMs && 0 < offMs
    ensures (forall dts :: AtMost(longest, dts) ==> Follows(onMs, offMs, startOn, dts))
       <==> longest <= U16_LIMIT - Max(onMs, offMs)
  {
    if longest <= U16_LIMIT - Max(onMs, offMs) {
      forall dts | AtMost(longest, dts)
        ensures Follows(onMs, offMs, startOn, dts)
      {
        BlinkLaw(Pattern(Off, onMs, offMs, 0, startOn), onMs, offMs, startOn, dts);
      }
    } else {
      DropIsSeen(onMs, offMs, startOn, longest);
    }
  }

  // ------------------------------------------------------------------ steady lamps

  /** A lamp that is on or off keeps its level, and everything else, through any updates. */
  lemma {:induction false} SteadyLampKeepsLevel(p: Pattern, dts: seq<u16>)
    requires p.mode != Blink
    ensures TickAll(p, dts) == p
  {
    if dts != [] {
      SteadyLampKeepsLevel(p, dts[..|dts| - 1]);
    }
  }
}
