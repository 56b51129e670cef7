/** The power machine, its transition and inactivity timers, and load shedding. */
module PowerManager {
  import opened BcmTypes
  import opened Filters
  import opened Integers
  import opened SoftTimers
  import opened StateMachines

  datatype PowerState = Sleep | Wake | Run | Shutdown

  datatype PowerEvent = IgnitionOn | IgnitionOff | WakeComplete | ShutdownComplete | InactivityElapsed

  datatype PowerContext = PowerContext(loadShed: bool)

  type PowerRow = Row<PowerState, PowerEvent, PowerContext>

  const TABLE: seq<PowerRow> := [
    Row(Sleep, false, IgnitionOn, Wake, Always, Nothing),
    Row(Wake, false, WakeComplete, Run, Always, Nothing),
    Row(Run, false, IgnitionOff, Shutdown, Always, Nothing),
    Row(Wake, false, IgnitionOff, Shutdown, Always, Nothing),
    Row(Shutdown, false, ShutdownComplete, Sleep, Always, Nothing),
    Row(Shutdown, false, IgnitionOn, Run, Always, Nothing),
    Row(Run, false, InactivityElapsed, Shutdown, Always, Nothing)
  ]

  const WAKE_MS: u32 := 200
  const SHUTDOWN_MS: u32 := 500

  datatype Power = Power(
    fsm: Machine<PowerState>, ctx: PowerContext, batteryOk: Trigger,
    transition: Timer, inactivity: Timer, batteryKnown: bool)
  {
    predicate Valid() {
      transition.Valid() && inactivity.Valid()
    }

    predicate LampsPermitted() {
      fsm.state != Sleep
    }
  }

  function NewPower(cfg: Config): Power {
    Power(Machine(Sleep, 0, 0), PowerContext(false), Trigger(cfg.batteryLow, cfg.batteryOk, true), IDLE, IDLE, false)
  }

  function Offer(p: Power, e: PowerEvent): Effect<PowerState, PowerContext> {
    Lookup(TABLE, 0, p.fsm.state, e, p.ctx)
  }

  function Taken(p: Power, e: PowerEvent): Power {
    p.(fsm := Applied(p.fsm, Offer(p, e)), ctx := Context(Offer(p, e), p.ctx))
  }

  /** Back on during a shutdown leaves the shutdown timer running. */
  function AfterIgnitionOn(cfg: Config, p: Power): (r: Power)
    requires p.Valid()
    ensures r.Valid()
  {
    var p' := Taken(p, IgnitionOn);
    if !Offer(p, IgnitionOn).Moved? then p'
    else
      var p1 := if p'.fsm.state == Wake then p'.(transition := Started(WAKE_MS, false)) else p';
      if p1.fsm.state == Run then p1.(inactivity := Started(cfg.sleepAfter, false)) else p1
  }

  function AfterIgnitionOff(p: Power): (r: Power)
    requires p.Valid()
    ensures r.Valid()
  {
    var p' := Taken(p, IgnitionOff);
    if Offer(p, IgnitionOff).Moved? then
      p'.(transition := Started(SHUTDOWN_MS, false), inactivity := Stopped(p.inactivity))
    else p'
  }

  /** The first reading sets the trigger but sheds nothing. */
  function AfterBattery(p: Power, permille: u16): Power {
    var t := Switch(p.batteryOk, permille);
    if !p.batteryKnown then p.(batteryOk := t, batteryKnown := true)
    else p.(batteryOk := t, ctx := p.ctx.(loadShed := !t.state))
  }

  function TransitionTick(cfg: Config, p: Power, dt: u32): (r: Power)
    requires p.Valid()
    ensures r.Valid()
  {
    var (t, fired) := Advance(p.transition, dt);
    var p1 := p.(transition := t);
    if !fired then p1
    else if p1.fsm.state == Wake then Taken(p1, WakeComplete).(inactivity := Started(cfg.sleepAfter, false))
    else if p1.fsm.state == Shutdown then Taken(p1, ShutdownComplete)
    else p1
  }

  function InactivityTick(p: Power, dt: u32): (r: Power)
    requires p.Valid()
    ensures r.Valid()
  {
    var (t, fired) := Advance(p.inactivity, dt);
    var p1 := p.(inactivity := t);
    if fired && Offer(p1, InactivityElapsed).Moved? then
      Taken(p1, InactivityElapsed).(transition := Started(SHUTDOWN_MS, false))
    else if fired then Taken(p1, InactivityElapsed)
    else p1
  }

  function AfterUpdate(cfg: Config, p: Power, dt: u32): (r: Power)
    requires p.Valid()
    ensures r.Valid()
  {
    InactivityTick(TransitionTick(cfg, p, dt), dt)
  }

  /** The battery trigger is not part of a reset. */
  function AfterReset(p: Power): Power {
    p.(fsm := p.fsm.(state := Sleep), ctx := PowerContext(false),
       transition := Stopped(p.transition), inactivity := Stopped(p.inactivity), batteryKnown := false)
  }

  function Lit(p: Power, lamps: Lamps): Lamps {
    if p.fsm.state == Run || p.fsm.state == Wake then lamps[IGNITION := On] else lamps
  }

  class PowerMgr {
    const cfg: Config
    const fsm: Fsm<PowerState, PowerEvent, PowerContext>
    var ctx: PowerContext
    const batteryOk: Hysteresis
    const transition: SoftTimer
    const inactivity: SoftTimer
    var batteryKnown: bool

    ghost const Repr: set<object>

    ghost predicate Valid()
      reads this, Repr
    {
      && Repr == {this, fsm, batteryOk, transition, inactivity}
      && fsm.table == TABLE && transition != inactivity && transition.Now().Valid() && inactivity.Now().Valid()
    }

    ghost function Now(): (p: Power)
      requires Valid()
      reads this, Repr
      ensures p.Valid()
    {
      Power(fsm.Now(), ctx, batteryOk.Now(), transition.Now(), inactivity.Now(), batteryKnown)
    }

    function StateNow(): (s: PowerState)
      requires Valid()
      reads this, Repr
      ensures s == Now().fsm.state
    {
      fsm.state
    }

    function LoadShed(): (shed: bool)
      requires Valid()
      reads this, Repr
      ensures shed == Now().ctx.loadShed
    {
      ctx.loadShed
    }

    constructor (config: Config)
      ensures Valid() && cfg == config && this in Repr && fresh(Repr) && Now() == NewPower(config)
    {
      cfg := config;
      var machine := new Fsm(TABLE, Sleep);
      var trigger := new Hysteresis(config.batteryLow, config.batteryOk, true);
      var first := new SoftTimer();
      var second := new SoftTimer();
      fsm := machine;
      ctx := PowerContext(false);
      batteryOk := trigger;
      transition := first;
      inactivity := second;
      batteryKnown := false;
      Repr := {this, machine, trigger, first, second};
    }

    method IgnitionOn()
      requires Valid()
      modifies Repr
      ensures Valid() && Now() == AfterIgnitionOn(cfg, old(Now()))
    {
      hide Lookup;
      var fired, after := fsm.Dispatch(PowerEvent.IgnitionOn, ctx);
      ctx := after;
      if fired {
        if fsm.state == Wake {
          transition.Start(WAKE_MS, false);
        }
        if fsm.state == Run {
          inactivity.Start(cfg.sleepAfter, false);
        }
      }
    }

    method IgnitionOff()
      requires Valid()
      modifies Repr
      ensures Valid() && Now() == AfterIgnitionOff(old(Now()))
    {
      hide Lookup;
      var fired, after := fsm.Dispatch(PowerEvent.IgnitionOff, ctx);
      ctx := after;
      if fired {
        transition.Start(SHUTDOWN_MS, false);
        inactivity.Stop();
      }
    }

    method UpdateBattery(permille: u16)
      requires Valid()
      modifies Repr
      ensures Valid() && Now() == AfterBattery(old(Now()), permille)
    {
      var ok := batteryOk.Update(permille);
      if !batteryKnown {
        batteryKnown := true;
        return;
      }
      ctx := ctx.(loadShed := !ok);
    }

    method Update(dt: u32)
      requires Valid()
      modifies Repr
      ensures Valid() && Now() == AfterUpdate(cfg, old(Now()), dt)
    {
      hide Lookup;
      var done := transition.Update(dt);
      if done {
        if fsm.state == Wake {
          var _, after := fsm.Dispatch(WakeComplete, ctx);
          ctx := after;
          inactivity.Start(cfg.sleepAfter, false);
        } else if fsm.state == Shutdown {
          var _, after := fsm.Dispatch(ShutdownComplete, ctx);
          ctx := after;
        }
      }
      var idle := inactivity.Update(dt);
      if idle {
        var fired, after := fsm.Dispatch(InactivityElapsed, ctx);
        ctx := after;
        if fired {
          transition.Start(SHUTDOWN_MS, false);
        }
      }
    }

    method Apply(out: array<Drive>)
      requires Valid() && out.Length == LAMP_COUNT
      modifies out
      ensures out[..] == Lit(Now(), old(out[..]))
    {
      if fsm.state == Run || fsm.state == Wake {
        out[IGNITION] := On;
      }
    }

    method Reset()
      requires Valid()
      modifies Repr
      ensures Valid() && Now() == AfterReset(old(Now()))
    {
      fsm.SetState(Sleep);
      ctx := PowerContext(false);
      transition.Stop();
      inactivity.Stop();
      batteryKnown := false;
    }
  }
}
