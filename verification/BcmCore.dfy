/** The complete control cycle: edges, managers, faults, host merge, arbitration. */
module BcmCore {
  import opened BcmTypes
  import opened Carried
  import opened Filters
  import opened Integers
  import opened LampArbiter
  import D = DoorManager
  import L = LightingManager
  import P = PowerManager

  /** What the diagnostic host has asked for, and whether the link to it is down. */
  datatype Host = Host(
    request: Lamps, mask: u16, lock: bool, unlock: bool, lightMode: bool, commsLost: bool)

  /** What the cycle remembers from the one before. */
  datatype Memory = Memory(
    previous: Inputs, heldMs: u16, longPressFired: bool,
    loadShed: bool, commsLost: bool, door: D.DoorState, firstCycle: bool)

  datatype Core = Core(
    lighting: L.Lighting, door: D.Door, power: P.Power, horn: Horn, faults: Faults, log: Log,
    lamps: Lamps, inputs: Inputs, host: Host, memory: Memory)
  {
    predicate Valid() {
      door.Valid() && power.Valid() && horn.Valid()
    }
  }

  const NEW_MEMORY: Memory := Memory(NO_INPUTS, 0, false, false, false, D.Locked, true)

  function NewCore(cfg: Config): Core {
    Core(L.NewLighting(cfg), D.NEW_DOOR, P.NewPower(cfg), NEW_HORN, [], Log([], 0),
         Dark(), NO_INPUTS, Host(Dark(), 0, false, false, false, false), NEW_MEMORY)
  }

  function LightNumber(s: L.LightState): nat {
    match s
    case LightsOff => 0
    case Parking => 1
    case Drl => 2
    case LowBeam => 3
    case HighBeam => 4
  }

  function LoggedIf(log: Log, happened: bool, e: LogEvent): Log {
    if happened then Logged(log, e) else log
  }

  // ---------------------------------------------------------------------- edges

  /** The ignition button is down: a press long enough steps the lights, once. */
  function Press(cfg: Config, c: Core, dt: u16): Core {
    var held := Wrap16(c.memory.heldMs + dt);
    if !c.memory.longPressFired && held >= cfg.longPress then
      var l := L.AfterLight(c.lighting, L.ModeNext);
      c.(lighting := l, log := Logged(c.log, LogLightMode(LightNumber(l.light.state))),
         memory := c.memory.(heldMs := held, longPressFired := true))
    else c.(memory := c.memory.(heldMs := held))
  }

  /** The ignition button comes up: a short press toggles the power, and switching off must
      not leave the headlights burning. */
  function Release(cfg: Config, c: Core): (r: Core)
    requires c.Valid()
    ensures r.Valid()
  {
    var memory := c.memory.(heldMs := 0, longPressFired := false);
    if c.memory.longPressFired then c.(memory := memory)
    else if c.power.fsm.state == P.Run then
      c.(power := P.AfterIgnitionOff(c.power), lighting := L.AfterAllOff(c.lighting),
         log := Logged(c.log, LogIgnitionOff), memory := memory)
    else
      c.(power := P.AfterIgnitionOn(cfg, c.power), log := Logged(c.log, LogIgnitionOn), memory := memory)
  }

  function IgnitionEdge(cfg: Config, c: Core, dt: u16): (r: Core)
    requires c.Valid()
    ensures r.Valid()
  {
    if c.inputs.ignition then Press(cfg, c, dt)
    else if c.memory.previous.ignition then Release(cfg, c)
    else c
  }

  function LeftEdge(c: Core): Core {
    if c.inputs.indLeft && !c.memory.previous.indLeft then
      c.(lighting := L.AfterIndicator(c.lighting, L.LeftPressed), log := Logged(c.log, LogIndicatorLeft))
    else c
  }

  function RightEdge(c: Core): Core {
    if c.inputs.indRight && !c.memory.previous.indRight then
      c.(lighting := L.AfterIndicator(c.lighting, L.RightPressed), log := Logged(c.log, LogIndicatorRight))
    else c
  }

  function HazardEdge(c: Core): Core {
    if c.inputs.hazard && !c.memory.previous.hazard then
      var l := L.AfterHazard(c.lighting);
      c.(lighting := l, log := Logged(c.log, if l.indicator.state == L.Hazard then LogHazardOn else LogHazardOff))
    else c
  }

  /** The door switch toggles the lock. */
  function DoorPressed(cfg: Config, d: D.Door, open: bool, pressed: bool): (r: D.Door)
    requires d.Valid()
    ensures r.Valid()
  {
    hide D.AfterLockRequest, D.AfterUnlockRequest;
    var d0 := d.(ctx := d.ctx.(doorOpen := open));
    if !pressed then d0
    else if d0.fsm.state == D.Locked then D.AfterUnlockRequest(cfg, d0)
    else D.AfterLockRequest(d0)
  }

  function DoorHosted(cfg: Config, d: D.Door, lock: bool, unlock: bool): (r: D.Door)
    requires d.Valid()
    ensures r.Valid()
  {
    hide D.AfterLockRequest, D.AfterUnlockRequest;
    var d1 := if lock then D.AfterLockRequest(d) else d;
    if unlock then D.AfterUnlockRequest(cfg, d1) else d1
  }

  /** The switch comes first; the host's requests follow and are used up. */
  function DoorEdges(cfg: Config, c: Core): (r: Core)
    requires c.Valid()
    ensures r.Valid()
  {
    hide DoorPressed, DoorHosted;
    var d := DoorPressed(cfg, c.door, c.inputs.doorOpen, c.inputs.doorLock && !c.memory.previous.doorLock);
    c.(door := DoorHosted(cfg, d, c.host.lock, c.host.unlock), host := c.host.(lock := false, unlock := false))
  }

  function HostLightMode(c: Core): Core {
    if c.host.lightMode then
      c.(host := c.host.(lightMode := false), lighting := L.AfterLight(c.lighting, L.ModeNext))
    else c
  }

  function BrakeEdge(c: Core): Core {
    c.(log := LoggedIf(c.log, c.inputs.brake != c.memory.previous.brake,
                       if c.inputs.brake then LogBrakeApplied else LogBrakeReleased),
       memory := c.memory.(previous := c.inputs))
  }

  function SwitchEdges(cfg: Config, c: Core, dt: u16): (r: Core)
    requires c.Valid()
    ensures r.Valid()
  {
    HazardEdge(RightEdge(LeftEdge(IgnitionEdge(cfg, c, dt))))
  }

  /** On the first cycle the inputs only seed the history. */
  function Edges(cfg: Config, c: Core, dt: u16): (r: Core)
    requires c.Valid()
    ensures r.Valid()
  {
    if c.memory.firstCycle then c.(memory := c.memory.(previous := c.inputs, firstCycle := false))
    else BrakeEdge(HostLightMode(DoorEdges(cfg, SwitchEdges(cfg, c, dt))))
  }

  // ------------------------------------------------------------------- the cycle

  function Managers(cfg: Config, c: Core, dt: u16): (r: Core)
    requires c.Valid()
    ensures r.Valid()
  {
    c.(lighting := L.AfterAmbient(c.lighting, c.inputs.ambientPermille),
       power := P.AfterUpdate(cfg, P.AfterBattery(c.power, c.inputs.batteryPermille), dt),
       door := D.AfterUpdate(cfg, c.door, dt))
  }

  function Chirped(cfg: Config, h: Horn, lock: bool, unlock: bool): (r: Horn)
    requires h.Valid()
    ensures r.Valid()
  {
    var h1 := if lock then Chirp(cfg, h, 1) else h;
    if unlock then Chirp(cfg, h1, 2) else h1
  }

  /** What the door machine leaves for fault store and horn is taken once. */
  function DoorReports(cfg: Config, c: Core): (r: Core)
    requires c.Valid()
    ensures r.Valid()
  {
    var x := c.door.ctx;
    c.(faults := if x.lockRefused then SetFault(c.faults, LockRefusedDoorOpen) else c.faults,
       log := LoggedIf(c.log, x.lockRefused, LogLockRefused),
       horn := Chirped(cfg, c.horn, x.chirpLock, x.chirpUnlock),
       door := c.door.(ctx := x.(lockRefused := false, chirpLock := false, chirpUnlock := false)))
  }

  function Mirrored(fs: Faults, code: Dtc, present: bool): Faults {
    if present then SetFault(fs, code) else ClearFault(fs, code)
  }

  function FaultReports(c: Core): Core {
    c.(faults := Mirrored(Mirrored(c.faults, BatteryLow, c.power.ctx.loadShed), Dtc.CommsLost, c.host.commsLost))
  }

  function ChangeReports(c: Core): Core {
    var shed, lost, door := c.power.ctx.loadShed, c.host.commsLost, c.door.fsm.state;
    var log1 := LoggedIf(c.log, shed != c.memory.loadShed, if shed then LogBatteryLow else LogBatteryOk);
    var log2 := LoggedIf(log1, lost != c.memory.commsLost, if lost then LogCommsLost else LogCommsRestored);
    c.(log := LoggedIf(log2, door != c.memory.door, if door == D.Locked then LogDoorLocked else LogDoorUnlocked),
       memory := c.memory.(loadShed := shed, commsLost := lost, door := door))
  }

  function Bit(mask: u16, i: nat): bool {
    (mask / Pow2(i)) % 2 == 1
  }

  /** The host's lamps replace those its mask selects. */
  function Merged(wanted: Lamps, request: Lamps, mask: u16): Lamps {
    seq(LAMP_COUNT, i requires 0 <= i < LAMP_COUNT => if Bit(mask, i) then request[i] else wanted[i])
  }

  function Wanted(c: Core): Lamps {
    D.Lit(c.door, L.Lit(c.lighting, P.Lit(c.power, Dark())))
  }

  function SituationOf(c: Core): Situation {
    Situation(c.inputs.brake, c.inputs.reverseGear, c.power.LampsPermitted(), c.power.ctx.loadShed, c.host.commsLost)
  }

  function LampsSet(c: Core): Core {
    c.(lamps := Arbitrated(Merged(Wanted(c), c.host.request, c.host.mask), SituationOf(c)))
  }

  function HornSounded(cfg: Config, c: Core, dt: u16): (r: Core)
    requires c.Valid()
    ensures r.Valid()
  {
    c.(horn := HornTick(cfg, c.horn, dt))
  }

  function Reports(cfg: Config, c: Core): (r: Core)
    requires c.Valid()
    ensures r.Valid()
  {
    ChangeReports(FaultReports(DoorReports(cfg, c)))
  }

  function Step(cfg: Config, c: Core, dt: u16): (r: Core)
    requires c.Valid()
    ensures r.Valid()
  {
    hide Edges, Managers, Reports;
    HornSounded(cfg, LampsSet(Reports(cfg, Managers(cfg, Edges(cfg, c, dt), dt))), dt)
  }

  /** The host's lamp request and both triggers survive a reset; the host's mask does not. */
  function AfterReset(c: Core): (r: Core)
    requires c.Valid()
    ensures r.Valid()
  {
    Core(L.AfterReset(c.lighting), D.AfterReset(c.door), P.AfterReset(c.power), HornReset(c.horn), [], Log([], 0),
         Dark(), NO_INPUTS, Host(c.host.request, 0, false, false, false, false), NEW_MEMORY)
  }

  // ------------------------------------------------------------------ the object

  class BcmCore {
    const cfg: Config
    const lighting: L.LightingMgr
    const door: D.DoorMgr
    const power: P.PowerMgr
    var horn: Horn
    var faults: Faults
    var log: Log
    var lamps: Lamps
    var inputs: Inputs
    var host: Host
    var memory: Memory

    ghost const Repr: set<object>

    ghost predicate Valid()
      reads this, Repr
    {
      && Repr == {this} + lighting.Repr + door.Repr + power.Repr
      && lighting in lighting.Repr && door in door.Repr && power in power.Repr
      && lighting.Valid() && door.Valid() && power.Valid() && horn.Valid()
      && door.cfg == cfg && power.cfg == cfg
      && lighting.Repr !! door.Repr && lighting.Repr !! power.Repr && door.Repr !! power.Repr
      && this !in lighting.Repr && this !in door.Repr && this !in power.Repr
    }

    ghost function Now(): (c: Core)
      requires Valid()
      reads this, Repr
      ensures c.Valid()
    {
      Core(lighting.Now(), door.Now(), power.Now(), horn, faults, log, lamps, inputs, host, memory)
    }

    /** A change to the core's own fields leaves its managers as they were. */
    twostate lemma ManagersKept()
      requires old(Valid()) && horn.Valid() && unchanged(Repr - {this})
      ensures Valid() && lighting.Now() == old(lighting.Now())
      ensures door.Now() == old(door.Now()) && power.Now() == old(power.Now())
    {
    }

    constructor (config: Config)
      ensures Valid() && cfg == config && fresh(Repr) && Now() == NewCore(config)
    {
      cfg := config;
      var l := new L.LightingMgr(config);
      var d := new D.DoorMgr(config);
      var p := new P.PowerMgr(config);
      lighting := l;
      door := d;
      power := p;
      Repr := {this} + l.Repr + d.Repr + p.Repr;
      horn := NEW_HORN;
      faults := [];
      log := Log([], 0);
      lamps := Dark();
      inputs := NO_INPUTS;
      host := Host(Dark(), 0, false, false, false, false);
      memory := NEW_MEMORY;
    }

    method SetHostRequest(request: Lamps, mask: u16)
      requires Valid()
      modifies this
      ensures Valid() && Now() == old(Now()).(host := old(Now()).host.(request := request, mask := mask))
    {
      host := host.(request := request, mask := mask);
    }

    method PressIgnition(dt: u16)
      requires Valid()
      modifies this, lighting.Repr
      ensures Valid() && Now() == Press(cfg, old(Now()), dt)
    {
      hide D.DoorMgr.Valid, D.DoorMgr.Now, L.LightingMgr.Valid, L.LightingMgr.Now, P.PowerMgr.Valid, P.PowerMgr.Now;
      hide L.AfterLight;
      memory := memory.(heldMs := Wrap16(memory.heldMs + dt));
      if !memory.longPressFired && memory.heldMs >= cfg.longPress {
        memory := memory.(longPressFired := true);
        lighting.DispatchLight(L.ModeNext);
        log := Logged(log, LogLightMode(LightNumber(lighting.LightNow())));
      }
    }

    method ReleaseIgnition()
      requires Valid()
      modifies this, lighting.Repr, power.Repr
      ensures Valid() && Now() == Release(cfg, old(Now()))
    {
      hide D.DoorMgr.Valid, D.DoorMgr.Now, L.LightingMgr.Valid, L.LightingMgr.Now, P.PowerMgr.Valid, P.PowerMgr.Now;
      hide L.AfterAllOff, P.AfterIgnitionOff, P.AfterIgnitionOn;
      if !memory.longPressFired {
        if power.StateNow() == P.Run {
          power.IgnitionOff();
          log := Logged(log, LogIgnitionOff);
          lighting.TurnAllOff();
        } else {
          power.IgnitionOn();
          log := Logged(log, LogIgnitionOn);
        }
      }
      memory := memory.(heldMs := 0, longPressFired := false);
    }

    method SetInputs(now: Inputs)
      requires Valid()
      modifies this
      ensures Valid() && Now() == old(Now()).(inputs := now)
    {
      inputs := now;
    }

    method SetCommsLost(lost: bool)
      requires Valid()
      modifies this
      ensures Valid() && Now() == old(Now()).(host := old(Now()).host.(commsLost := lost))
    {
      host := host.(commsLost := lost);
    }

    method RequestDoorLock()
      requires Valid()
      modifies this
      ensures Valid() && Now() == old(Now()).(host := old(Now()).host.(lock := true))
    {
      host := host.(lock := true);
    }

    method RequestDoorUnlock()
      requires Valid()
      modifies this
      ensures Valid() && Now() == old(Now()).(host := old(Now()).host.(unlock := true))
    {
      host := host.(unlock := true);
    }

    method RequestLightMode()
      requires Valid()
      modifies this
      ensures Valid() && Now() == old(Now()).(host := old(Now()).host.(lightMode := true))
    {
      host := host.(lightMode := true);
    }

    method DirectionSwitches()
      requires Valid()
      modifies this, lighting.Repr
      ensures Valid() && Now() == RightEdge(LeftEdge(old(Now())))
    {
      hide D.DoorMgr.Valid, D.DoorMgr.Now, L.LightingMgr.Valid, L.LightingMgr.Now, P.PowerMgr.Valid, P.PowerMgr.Now;
      hide L.AfterLight, L.AfterIndicator, L.AfterHazard, L.AfterAllOff, L.AfterAmbient, L.AfterReset, L.Lit;
      if inputs.indLeft && !memory.previous.indLeft {
        lighting.DispatchIndicator(L.LeftPressed);
        log := Logged(log, LogIndicatorLeft);
      }
      if inputs.indRight && !memory.previous.indRight {
        lighting.DispatchIndicator(L.RightPressed);
        log := Logged(log, LogIndicatorRight);
      }
    }

    method HazardSwitch()
      requires Valid()
      modifies this, lighting.Repr
      ensures Valid() && Now() == HazardEdge(old(Now()))
    {
      hide L.AfterLight, L.AfterIndicator, L.AfterHazard, L.AfterAllOff, L.AfterAmbient, L.AfterReset, L.Lit;
      if inputs.hazard && !memory.previous.hazard {
        lighting.IndicatorHazard();
        log := Logged(log, if lighting.IndicatorNow() == L.Hazard then LogHazardOn else LogHazardOff);
      }
    }

    method DoorSwitch()
      requires Valid()
      modifies door.Repr
      ensures Valid()
      ensures Now() == old(Now()).(door := DoorPressed(cfg, old(Now()).door, inputs.doorOpen,
                                                       inputs.doorLock && !memory.previous.doorLock))
    {
      hide D.AfterLockRequest, D.AfterUnlockRequest, D.AfterUpdate, D.AfterReset, D.Lit;
      door.SetDoorOpen(inputs.doorOpen);
      if inputs.doorLock && !memory.previous.doorLock {
        if door.StateNow() == D.Locked {
          door.RequestUnlock();
        } else {
          door.RequestLock();
        }
      }
    }

    method DoorHost()
      requires Valid()
      modifies this, door.Repr
      ensures Valid()
      ensures Now() == old(Now()).(door := DoorHosted(cfg, old(Now()).door, old(host).lock, old(host).unlock),
                                   host := old(host).(lock := false, unlock := false))
    {
      hide D.AfterLockRequest, D.AfterUnlockRequest, D.AfterUpdate, D.AfterReset, D.Lit;
      if host.lock {
        door.RequestLock();
      }
      if host.unlock {
        door.RequestUnlock();
      }
      host := host.(lock := false, unlock := false);
    }

    method DoorSwitches()
      requires Valid()
      modifies this, door.Repr
      ensures Valid() && Now() == DoorEdges(cfg, old(Now()))
    {
      hide DoorPressed, DoorHosted;
      DoorSwitch();
      DoorHost();
    }

    method LightModeAndBrake()
      requires Valid()
      modifies this, lighting.Repr
      ensures Valid() && Now() == BrakeEdge(HostLightMode(old(Now())))
    {
      hide D.DoorMgr.Valid, D.DoorMgr.Now, L.LightingMgr.Valid, L.LightingMgr.Now, P.PowerMgr.Valid, P.PowerMgr.Now;
      hide L.AfterLight, L.AfterIndicator, L.AfterHazard, L.AfterAllOff, L.AfterAmbient, L.AfterReset, L.Lit;
      if host.lightMode {
        host := host.(lightMode := false);
        lighting.DispatchLight(L.ModeNext);
      }
      if inputs.brake != memory.previous.brake {
        log := Logged(log, if inputs.brake then LogBrakeApplied else LogBrakeReleased);
      }
      memory := memory.(previous := inputs);
    }

    method ApplyEdges(dt: u16)
      requires Valid()
      modifies Repr
      ensures Valid() && Now() == Edges(cfg, old(Now()), dt)
    {
      hide Press, Release, LeftEdge, RightEdge, HazardEdge, DoorEdges, HostLightMode, BrakeEdge;
      if memory.firstCycle {
        memory := memory.(previous := inputs, firstCycle := false);
        return;
      }
      if inputs.ignition {
        PressIgnition(dt);
      } else if memory.previous.ignition {
        ReleaseIgnition();
      }
      DirectionSwitches();
      HazardSwitch();
      DoorSwitches();
      LightModeAndBrake();
    }

    method UpdateManagers(dt: u16)
      requires Valid()
      modifies this, lighting.Repr, power.Repr, door.Repr
      ensures Valid() && Now() == Managers(cfg, old(Now()), dt)
    {
      hide L.AfterLight, L.AfterIndicator, L.AfterHazard, L.AfterAllOff, L.AfterAmbient, L.AfterReset, L.Lit;
      hide D.AfterLockRequest, D.AfterUnlockRequest, D.AfterUpdate, D.AfterReset, D.Lit;
      hide P.AfterIgnitionOn, P.AfterIgnitionOff, P.AfterBattery, P.AfterUpdate, P.AfterReset, P.Lit;
      lighting.UpdateAmbient(inputs.ambientPermille);
      power.UpdateBattery(inputs.batteryPermille);
      power.Update(dt);
      door.Update(dt);
    }

    method TakeDoorFlags() returns (refused: bool, locked: bool, unlocked: bool)
      requires Valid()
      modifies door.Repr
      ensures Valid()
      ensures var x := old(Now()).door.ctx;
              && refused == x.lockRefused && locked == x.chirpLock && unlocked == x.chirpUnlock
              && Now() == old(Now()).(door := old(Now()).door.(
                                        ctx := x.(lockRefused := false, chirpLock := false, chirpUnlock := false)))
    {
      refused := door.TakeLockRefused();
      locked := door.TakeChirpLock();
      unlocked := door.TakeChirpUnlock();
    }

    method NoteDoor(refused: bool, locked: bool, unlocked: bool)
      requires Valid()
      modifies this
      ensures Valid()
      ensures Now() == old(Now()).(
                faults := if refused then SetFault(old(faults), LockRefusedDoorOpen) else old(faults),
                log := LoggedIf(old(log), refused, LogLockRefused),
                horn := Chirped(cfg, old(horn), locked, unlocked))
    {
      hide SetFault, LoggedIf, Chirp;
      faults := if refused then SetFault(faults, LockRefusedDoorOpen) else faults;
      log := LoggedIf(log, refused, LogLockRefused);
      horn := if locked then Chirp(cfg, horn, 1) else horn;
      horn := if unlocked then Chirp(cfg, horn, 2) else horn;
      ManagersKept();
    }

    method ReportDoor()
      requires Valid()
      modifies this, door.Repr
      ensures Valid() && Now() == DoorReports(cfg, old(Now()))
    {
      hide SetFault, LoggedIf, Chirped;
      var refused, locked, unlocked := TakeDoorFlags();
      NoteDoor(refused, locked, unlocked);
    }

    method ReportFaults()
      requires Valid()
      modifies this
      ensures Valid() && Now() == FaultReports(old(Now()))
    {
      hide SetFault, ClearFault;
      faults := if power.LoadShed() then SetFault(faults, BatteryLow) else ClearFault(faults, BatteryLow);
      faults := if host.commsLost then SetFault(faults, Dtc.CommsLost) else ClearFault(faults, Dtc.CommsLost);
    }

    method ReportChanges()
      requires Valid()
      modifies this
      ensures Valid() && Now() == ChangeReports(old(Now()))
    {
      hide D.DoorMgr.Valid, D.DoorMgr.Now, L.LightingMgr.Valid, L.LightingMgr.Now, P.PowerMgr.Valid, P.PowerMgr.Now;
      hide Logged;
      var shed, doorNow := power.LoadShed(), door.StateNow();
      log := LoggedIf(log, shed != memory.loadShed, if shed then LogBatteryLow else LogBatteryOk);
      log := LoggedIf(log, host.commsLost != memory.commsLost,
                      if host.commsLost then LogCommsLost else LogCommsRestored);
      log := LoggedIf(log, doorNow != memory.door, if doorNow == D.Locked then LogDoorLocked else LogDoorUnlocked);
      memory := memory.(loadShed := shed, commsLost := host.commsLost, door := doorNow);
      ManagersKept();
    }

    /** What every manager wants lit. */
    method Collect(wanted: array<Drive>)
      requires Valid() && wanted.Length == LAMP_COUNT && wanted[..] == Dark() && wanted !in Repr
      modifies wanted
      ensures Valid() && Now() == old(Now()) && wanted[..] == Wanted(Now())
    {
      hide L.Lit, D.Lit, P.Lit;
      power.Apply(wanted);
      lighting.Apply(wanted);
      door.Apply(wanted);
    }

    /** The host's lamps, before arbitration. */
    static method Merge(wanted: array<Drive>, request: Lamps, mask: u16)
      requires wanted.Length == LAMP_COUNT
      modifies wanted
      ensures wanted[..] == Merged(old(wanted[..]), request, mask)
    {
      hide Bit;
      for i := 0 to LAMP_COUNT
        invariant forall k :: 0 <= k < LAMP_COUNT ==>
                    wanted[k] == if k < i && Bit(mask, k) then request[k] else old(wanted[k])
      {
        if Bit(mask, i) {
          wanted[i] := request[i];
        }
      }
    }

    method SetLamps()
      requires Valid()
      modifies this
      ensures Valid() && Now() == LampsSet(old(Now()))
    {
      hide Wanted, Merged, Arbitrated;
      var wanted := new Drive[LAMP_COUNT](i => Off);
      assert wanted[..] == Dark();
      Collect(wanted);
      Merge(wanted, host.request, host.mask);
      var permitted := power.StateNow() != P.Sleep;
      Arbitrate(wanted, Situation(inputs.brake, inputs.reverseGear, permitted, power.LoadShed(), host.commsLost));
      lamps := wanted[..];
    }

    method ReportAll()
      requires Valid()
      modifies this, door.Repr
      ensures Valid() && Now() == Reports(cfg, old(Now()))
    {
      hide DoorReports, FaultReports, ChangeReports;
      ReportDoor();
      ReportFaults();
      ReportChanges();
    }

    method SoundHorn(dt: u16)
      requires Valid()
      modifies this
      ensures Valid() && Now() == HornSounded(cfg, old(Now()), dt)
    {
      hide HornTick;
      horn := HornTick(cfg, horn, dt);
      ManagersKept();
    }

    method StepCycle(dt: u16)
      requires Valid()
      modifies Repr
      ensures Valid() && Now() == Step(cfg, old(Now()), dt)
    {
      hide Edges, Managers, Reports, LampsSet, HornSounded, Now;
      ApplyEdges(dt);
      UpdateManagers(dt);
      ReportAll();
      SetLamps();
      SoundHorn(dt);
    }

    method ResetManagers()
      requires Valid()
      modifies lighting.Repr, door.Repr, power.Repr
      ensures Valid()
      ensures Now() == old(Now()).(lighting := L.AfterReset(old(Now()).lighting), door := D.AfterReset(old(Now()).door),
                                   power := P.AfterReset(old(Now()).power))
    {
      hide L.AfterLight, L.AfterIndicator, L.AfterHazard, L.AfterAllOff, L.AfterAmbient, L.AfterReset, L.Lit;
      hide D.AfterLockRequest, D.AfterUnlockRequest, D.AfterUpdate, D.AfterReset, D.Lit;
      hide P.AfterIgnitionOn, P.AfterIgnitionOff, P.AfterBattery, P.AfterUpdate, P.AfterReset, P.Lit;
      lighting.Reset();
      door.Reset();
      power.Reset();
    }

    method ResetOwn()
      requires Valid()
      modifies this
      ensures Valid()
      ensures Now() == Core(old(Now()).lighting, old(Now()).door, old(Now()).power, HornReset(old(horn)),
                            [], Log([], 0), Dark(), NO_INPUTS,
                            Host(old(host).request, 0, false, false, false, false), NEW_MEMORY)
    {
      horn := HornReset(horn);
      faults := [];
      log := Log([], 0);
      inputs := NO_INPUTS;
      lamps := Dark();
      host := Host(host.request, 0, false, false, false, false);
      memory := NEW_MEMORY;
      ManagersKept();
    }

    method Reset()
      requires Valid()
      modifies Repr
      ensures Valid() && Now() == AfterReset(old(Now()))
    {
      hide L.AfterReset, D.AfterReset, P.AfterReset, HornReset;
      ResetManagers();
      ResetOwn();
    }
  }
}
