/** What the power machine keeps over every run. */
module PowerLaws {
  import opened BcmTypes
  import opened Filters
  import opened Integers
  import opened PowerManager
  import opened SoftTimers
  import opened StateMachines

  /** The table as a decision by state and event. */
  function Decision(s: PowerState, e: PowerEvent, c: PowerContext): Effect<PowerState, PowerContext> {
    match (s, e)
    case (Sleep, IgnitionOn) => Moved(Wake, c)
    case (Shutdown, IgnitionOn) => Moved(Run, c)
    case (Wake, WakeComplete) => Moved(Run, c)
    case (Run, IgnitionOff) => Moved(Shutdown, c)
    case (Wake, IgnitionOff) => Moved(Shutdown, c)
    case (Run, InactivityElapsed) => Moved(Shutdown, c)
    case (Shutdown, ShutdownComplete) => Moved(Sleep, c)
    case _ => Ignored
  }

  lemma TableDecides(s: PowerState, e: PowerEvent, c: PowerContext)
    ensures Lookup(TABLE, 0, s, e, c) == Decision(s, e, c)
  {
    LookupEnds(TABLE, s, e, c);
    LookupRow(TABLE, 6, s, e, c);
    LookupRow(TABLE, 5, s, e, c);
    LookupRow(TABLE, 4, s, e, c);
    LookupRow(TABLE, 3, s, e, c);
    LookupRow(TABLE, 2, s, e, c);
    LookupRow(TABLE, 1, s, e, c);
  }

  // ---------------------------------------------------------------------- all runs

  datatype Op =
    | On
    | Off
    | Battery(permille: u16)
    | Elapse(dt: u32)
    | Restart

  function Do(cfg: Config, p: Power, op: Op): (r: Power)
    requires p.Valid()
    ensures r.Valid()
  {
    match op
    case On => AfterIgnitionOn(cfg, p)
    case Off => AfterIgnitionOff(p)
    case Battery(permille) => AfterBattery(p, permille)
    case Elapse(dt) => AfterUpdate(cfg, p, dt)
    case Restart => AfterReset(p)
  }

  function RunOf(cfg: Config, ops: seq<Op>): (r: Power)
    ensures r.Valid()
  {
    if ops == [] then NewPower(cfg) else Do(cfg, RunOf(cfg, ops[..|ops| - 1]), ops[|ops| - 1])
  }

  /** Wake and Shutdown are being timed; Run, and only Run, counts inactivity. A timer left
      over from an aborted shutdown may still run in Run. */
  predicate TimersMatch(cfg: Config, p: Power) {
    && p.Valid() && !p.transition.periodic && !p.inactivity.periodic
    && (p.fsm.state == Wake ==> p.transition.running && p.transition.remaining <= WAKE_MS)
    && (p.fsm.state == Shutdown ==> p.transition.running && p.transition.remaining <= SHUTDOWN_MS)
    && (p.fsm.state == Sleep ==> !p.transition.running)
    && (p.inactivity.running <==> p.fsm.state == Run)
    && (p.inactivity.running ==> p.inactivity.remaining <= cfg.sleepAfter)
  }

  lemma UpdateDecides(cfg: Config, p: Power, dt: u32)
    requires 0 < cfg.sleepAfter && TimersMatch(cfg, p)
    ensures var r := AfterUpdate(cfg, p, dt);
            && TimersMatch(cfg, r)
            && match p.fsm.state
               case Sleep => r.fsm.state == Sleep
               case Wake =>
                 if dt < p.transition.remaining then
                   r.fsm.state == Wake && r.transition.remaining == p.transition.remaining - dt
                 else if dt < cfg.sleepAfter then r.fsm.state == Run && r.inactivity.remaining == cfg.sleepAfter - dt
                 else r.fsm.state == Shutdown && r.transition.remaining == SHUTDOWN_MS
               case Run =>
                 if dt < p.inactivity.remaining then
                   r.fsm.state == Run && r.inactivity.remaining == p.inactivity.remaining - dt
                 else r.fsm.state == Shutdown && r.transition.remaining == SHUTDOWN_MS
               case Shutdown =>
                 if dt < p.transition.remaining then
                   r.fsm.state == Shutdown && r.transition.remaining == p.transition.remaining - dt
                 else r.fsm.state == Sleep
  {
    hide Lookup;
    var p1 := p.(transition := Advance(p.transition, dt).0);
    TableDecides(p1.fsm.state, WakeComplete, p1.ctx);
    TableDecides(p1.fsm.state, ShutdownComplete, p1.ctx);
    var p2 := TransitionTick(cfg, p, dt);
    var p3 := p2.(inactivity := Advance(p2.inactivity, dt).0);
    TableDecides(p3.fsm.state, InactivityElapsed, p3.ctx);
  }

  lemma OpKeepsTimers(cfg: Config, p: Power, op: Op)
    requires 0 < cfg.sleepAfter && TimersMatch(cfg, p)
    ensures TimersMatch(cfg, Do(cfg, p, op))
  {
    hide Lookup;
    match op {
      case On => TableDecides(p.fsm.state, IgnitionOn, p.ctx);
      case Off => TableDecides(p.fsm.state, IgnitionOff, p.ctx);
      case Elapse(dt) => UpdateDecides(cfg, p, dt);
      case _ =>
    }
  }

  lemma {:induction false} TimersFollowTheState(cfg: Config, ops: seq<Op>)
    requires 0 < cfg.sleepAfter
    ensures TimersMatch(cfg, RunOf(cfg, ops))
  {
    hide Do;
    if ops != [] {
      TimersFollowTheState(cfg, ops[..|ops| - 1]);
      OpKeepsTimers(cfg, RunOf(cfg, ops[..|ops| - 1]), ops[|ops| - 1]);
    }
  }

  // --------------------------------------------------------------- when it goes to sleep

  function Elapsed(cfg: Config, p: Power, dts: seq<u32>): (r: Power)
    requires p.Valid()
    ensures r.Valid()
  {
    if dts == [] then p else AfterUpdate(cfg, Elapsed(cfg, p, dts[..|dts| - 1]), dts[|dts| - 1])
  }

  /** The most time until Sleep. The update that ends Run is not charged to the shutdown. */
  function TimeLeft(cfg: Config, p: Power, longest: nat): nat {
    match p.fsm.state
    case Sleep => 0
    case Wake => p.transition.remaining + cfg.sleepAfter + SHUTDOWN_MS + longest
    case Run => p.inactivity.remaining + SHUTDOWN_MS + longest
    case Shutdown => p.transition.remaining
  }

  lemma {:induction false} TimeRunsOut(cfg: Config, p: Power, dts: seq<u32>, longest: nat)
    requires 0 < cfg.sleepAfter && TimersMatch(cfg, p)
    requires forall i :: 0 <= i < |dts| ==> dts[i] <= longest
    ensures var r := Elapsed(cfg, p, dts);
            TimersMatch(cfg, r) && TimeLeft(cfg, r, longest) <= Max(0, TimeLeft(cfg, p, longest) - Sum(dts))
  {
    hide AfterUpdate;
    if dts != [] {
      var n := |dts| - 1;
      TimeRunsOut(cfg, p, dts[..n], longest);
      UpdateDecides(cfg, Elapsed(cfg, p, dts[..n]), dts[n]);
    }
  }

  /** Without ignition events every reachable state is asleep once the wake time, the
      inactivity time, the shutdown time and the longest update have passed. */
  lemma SleepsInTheEnd(cfg: Config, ops: seq<Op>, dts: seq<u32>, longest: nat)
    requires 0 < cfg.sleepAfter
    requires forall i :: 0 <= i < |dts| ==> dts[i] <= longest
    requires WAKE_MS + SHUTDOWN_MS + cfg.sleepAfter + longest <= Sum(dts)
    ensures Elapsed(cfg, RunOf(cfg, ops), dts).fsm.state == Sleep
  {
    hide RunOf, Elapsed, Sum;
    TimersFollowTheState(cfg, ops);
    TimeRunsOut(cfg, RunOf(cfg, ops), dts, longest);
  }

  lemma {:induction false} AwakeWithoutTimeout(cfg: Config, p: Power, dts: seq<u32>)
    requires cfg.sleepAfter == 0 && p.Valid()
    requires !p.inactivity.running && (p.fsm.state == Wake || p.fsm.state == Run)
    ensures var r := Elapsed(cfg, p, dts);
            !r.inactivity.running && (r.fsm.state == Wake || r.fsm.state == Run)
  {
    hide Lookup;
    if dts != [] {
      var e, dt := Elapsed(cfg, p, dts[..|dts| - 1]), dts[|dts| - 1];
      AwakeWithoutTimeout(cfg, p, dts[..|dts| - 1]);
      var e1 := e.(transition := Advance(e.transition, dt).0);
      TableDecides(e1.fsm.state, WakeComplete, e1.ctx);
    }
  }

  /** Once woken, the machine goes back to sleep in some number of updates exactly when the
      inactivity time is not zero: zero switches that timer off. */
  lemma SleepsItselfIff(cfg: Config)
    ensures (exists dts :: Elapsed(cfg, AfterIgnitionOn(cfg, NewPower(cfg)), dts).fsm.state == Sleep)
       <==> 0 < cfg.sleepAfter
  {
    hide Lookup;
    var p := AfterIgnitionOn(cfg, NewPower(cfg));
    TableDecides(Sleep, IgnitionOn, PowerContext(false));
    if 0 < cfg.sleepAfter {
      var dts: seq<u32> := [WAKE_MS, cfg.sleepAfter, SHUTDOWN_MS];
      assert dts[..2] == [WAKE_MS, cfg.sleepAfter] && dts[..2][..1] == [WAKE_MS] && dts[..2][..1][..0] == [];
      UpdateDecides(cfg, Elapsed(cfg, p, []), WAKE_MS);
      UpdateDecides(cfg, Elapsed(cfg, p, dts[..2][..1]), cfg.sleepAfter);
      UpdateDecides(cfg, Elapsed(cfg, p, dts[..2]), SHUTDOWN_MS);
      assert dts[..|dts| - 1] == dts[..2];
      assert Elapsed(cfg, p, dts) == AfterUpdate(cfg, Elapsed(cfg, p, dts[..2]), SHUTDOWN_MS);
      assert Elapsed(cfg, AfterIgnitionOn(cfg, NewPower(cfg)), dts).fsm.state == Sleep;
    } else {
      forall dts ensures Elapsed(cfg, p, dts).fsm.state != Sleep {
        AwakeWithoutTimeout(cfg, p, dts);
      }
    }
  }

  // ------------------------------------------------------------------- load shedding

  /** The readings of a run, oldest first, and how many came since the last reset. */
  function Readings(ops: seq<Op>): seq<u16> {
    if ops == [] then []
    else
      var op := ops[|ops| - 1];
      Readings(ops[..|ops| - 1]) + if op.Battery? then [op.permille] else []
  }

  function SinceRestart(ops: seq<Op>): nat {
    if ops == [] then 0
    else
      var op := ops[|ops| - 1];
      if op.Restart? then 0 else SinceRestart(ops[..|ops| - 1]) + if op.Battery? then 1 else 0
  }

  lemma SheddingStep(cfg: Config, p: Power, op: Op)
    requires p.Valid()
    ensures var r := Do(cfg, p, op);
            && (op.Battery? || op.Restart?
                || (r.ctx == p.ctx && r.batteryOk == p.batteryOk && r.batteryKnown == p.batteryKnown))
            && (op.Restart? ==> !r.ctx.loadShed && r.batteryOk == p.batteryOk && !r.batteryKnown)
  {
    hide Lookup;
    TableDecides(p.fsm.state, IgnitionOn, p.ctx);
    TableDecides(p.fsm.state, IgnitionOff, p.ctx);
    if op.Elapse? {
      var p1 := p.(transition := Advance(p.transition, op.dt).0);
      TableDecides(p1.fsm.state, WakeComplete, p1.ctx);
      TableDecides(p1.fsm.state, ShutdownComplete, p1.ctx);
      var p2 := TransitionTick(cfg, p, op.dt);
      var p3 := p2.(inactivity := Advance(p2.inactivity, op.dt).0);
      TableDecides(p3.fsm.state, InactivityElapsed, p3.ctx);
    }
  }

  /** Load is shed exactly when at least two readings came since the last reset and the last
      reading since construction that fell outside the hysteresis band was low. */
  lemma {:induction false} SheddingLaw(cfg: Config, ops: seq<Op>)
    requires cfg.batteryLow < cfg.batteryOk
    ensures var p := RunOf(cfg, ops);
            var ok := LastOutside(cfg.batteryLow, cfg.batteryOk, true, Readings(ops));
            && p.batteryOk == Trigger(cfg.batteryLow, cfg.batteryOk, ok)
            && (p.batteryKnown <==> 1 <= SinceRestart(ops))
            && (p.ctx.loadShed <==> 2 <= SinceRestart(ops) && !ok)
  {
    hide Do, Lookup;
    if ops != [] {
      var before, op := ops[..|ops| - 1], ops[|ops| - 1];
      SheddingLaw(cfg, before);
      SheddingStep(cfg, RunOf(cfg, before), op);
      if op.Battery? {
        BatteryStep(cfg, RunOf(cfg, before), op.permille);
        var rs := Readings(ops);
        assert rs[..|rs| - 1] == Readings(before) && rs[|rs| - 1] == op.permille;
      } else {
        assert Readings(ops) == Readings(before);
      }
    }
  }

  lemma BatteryStep(cfg: Config, p: Power, permille: u16)
    requires p.Valid()
    ensures Do(cfg, p, Battery(permille)) == AfterBattery(p, permille)
  {
  }

  // ----------------------------------------------------------- how long a state lasts

  lemma {:induction false} ShutdownHolds(cfg: Config, p: Power, dts: seq<u32>)
    requires 0 < cfg.sleepAfter && TimersMatch(cfg, p) && p.fsm.state == Shutdown
    requires Sum(dts) < p.transition.remaining
    ensures var r := Elapsed(cfg, p, dts);
            && TimersMatch(cfg, r)
            && r.fsm.state == Shutdown && r.transition.remaining == p.transition.remaining - Sum(dts)
  {
    hide AfterUpdate;
    if dts != [] {
      ShutdownHolds(cfg, p, dts[..|dts| - 1]);
      UpdateDecides(cfg, Elapsed(cfg, p, dts[..|dts| - 1]), dts[|dts| - 1]);
    }
  }

  lemma {:induction false} WakeHolds(cfg: Config, p: Power, dts: seq<u32>)
    requires 0 < cfg.sleepAfter && TimersMatch(cfg, p) && p.fsm.state == Wake
    requires Sum(dts) < p.transition.remaining
    ensures var r := Elapsed(cfg, p, dts);
            TimersMatch(cfg, r) && r.fsm.state == Wake && r.transition.remaining == p.transition.remaining - Sum(dts)
  {
    hide AfterUpdate;
    if dts != [] {
      WakeHolds(cfg, p, dts[..|dts| - 1]);
      UpdateDecides(cfg, Elapsed(cfg, p, dts[..|dts| - 1]), dts[|dts| - 1]);
    }
  }

  lemma {:induction false} RunHolds(cfg: Config, p: Power, dts: seq<u32>)
    requires 0 < cfg.sleepAfter && TimersMatch(cfg, p) && p.fsm.state == Run
    requires Sum(dts) < p.inactivity.remaining
    ensures var r := Elapsed(cfg, p, dts);
            TimersMatch(cfg, r) && r.fsm.state == Run && r.inactivity.remaining == p.inactivity.remaining - Sum(dts)
  {
    hide AfterUpdate;
    if dts != [] {
      RunHolds(cfg, p, dts[..|dts| - 1]);
      UpdateDecides(cfg, Elapsed(cfg, p, dts[..|dts| - 1]), dts[|dts| - 1]);
    }
  }

  /** In every run: ignition off from Wake or Run shuts down for 500 ms, no less, and from
      Sleep and Shutdown does nothing. */
  lemma ShutdownLasts(cfg: Config, ops: seq<Op>, dts: seq<u32>)
    requires 0 < cfg.sleepAfter && Sum(dts) < 500
    ensures var p, off := RunOf(cfg, ops), AfterIgnitionOff(RunOf(cfg, ops));
            if p.fsm.state == Wake || p.fsm.state == Run then Elapsed(cfg, off, dts).fsm.state == Shutdown
            else off == p
  {
    hide Lookup;
    var p := RunOf(cfg, ops);
    TimersFollowTheState(cfg, ops);
    TableDecides(p.fsm.state, IgnitionOff, p.ctx);
    if p.fsm.state == Wake || p.fsm.state == Run {
      OpKeepsTimers(cfg, p, Op.Off);
      ShutdownHolds(cfg, AfterIgnitionOff(p), dts);
    }
  }

  /** In every run: ignition on from Sleep wakes for 200 ms, no less; from Shutdown it goes
      straight to Run for the whole inactivity time, whatever the stale shutdown timer does;
      and from Wake and Run it does nothing. */
  lemma SwitchedOnLasts(cfg: Config, ops: seq<Op>, dts: seq<u32>)
    requires 0 < cfg.sleepAfter
    ensures var p, on := RunOf(cfg, ops), AfterIgnitionOn(cfg, RunOf(cfg, ops));
            match p.fsm.state
            case Sleep => Sum(dts) < 200 ==> Elapsed(cfg, on, dts).fsm.state == Wake
            case Shutdown => Sum(dts) < cfg.sleepAfter ==> Elapsed(cfg, on, dts).fsm.state == Run
            case _ => on == p
  {
    hide Lookup;
    var p := RunOf(cfg, ops);
    TimersFollowTheState(cfg, ops);
    TableDecides(p.fsm.state, IgnitionOn, p.ctx);
    OpKeepsTimers(cfg, p, Op.On);
    var on := AfterIgnitionOn(cfg, p);
    if p.fsm.state == Sleep && Sum(dts) < 200 {
      WakeHolds(cfg, on, dts);
    } else if p.fsm.state == Shutdown && Sum(dts) < cfg.sleepAfter {
      RunHolds(cfg, on, dts);
    }
  }

  /** A reset goes to Sleep, sheds nothing and runs no timer; the battery trigger keeps its
      state, and the next reading counts as the first. */
  lemma ResetSleeps(p: Power)
    ensures var r := AfterReset(p);
            && r.fsm == Machine(Sleep, p.fsm.transitions, p.fsm.blocked) && !r.ctx.loadShed && !r.batteryKnown
            && !r.transition.running && !r.inactivity.running && r.batteryOk == p.batteryOk
  {
  }
}
