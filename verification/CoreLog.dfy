/** What a cycle writes to the log, and what a reset leaves of a core. */
module CoreLog {
  import opened BcmCore
  import opened BcmTypes
  import opened Carried
  import opened CarriedLaws
  import CD = CoreDoors
  import CL = CoreLamps
  import opened CoreLaws
  import CR = CoreRuns
  import D = DoorManager
  import DL = DoorLaws
  import F = Filters
  import opened Integers
  import opened LampArbiter
  import L = LightingManager
  import LL = LightingLaws
  import P = PowerManager
  import S = StateMachines

  function When(happened: bool, e: LogEvent): seq<LogEvent> {
    if happened then [e] else []
  }

  lemma LoggedWhen(log: Log, happened: bool, e: LogEvent)
    ensures LoggedIf(log, happened, e) == LogAll(log, When(happened, e))
    ensures LogAll(log, [e]) == Logged(log, e) && LogAll(log, []) == log
  {
    hide Logged;
    assert [e][..0] == [];
    assert LogAll(log, [e][..0]) == log;
  }

  /** The number of the mode that follows a mode. */
  function NextNumber(s: L.LightState): nat {
    match s
    case LightsOff => 1
    case Parking => 2
    case Drl => 3
    case LowBeam => 4
    case HighBeam => 0
  }

  /** The ignition button: a press that has just become long logs the new light mode; the
      release of a short one logs what it does to the power. */
  function IgnitionEvents(cfg: Config, c: Core, dt: u16): seq<LogEvent> {
    if c.inputs.ignition then
      When(!c.memory.longPressFired && cfg.longPress <= Wrap16(c.memory.heldMs + dt),
           LogLightMode(NextNumber(c.lighting.light.state)))
    else
      When(c.memory.previous.ignition && !c.memory.longPressFired,
           if c.power.fsm.state == P.Run then LogIgnitionOff else LogIgnitionOn)
  }

  /** The indicator switches: each rising edge, and for the hazards what it leads to. */
  function SwitchEvents(c: Core): seq<LogEvent> {
    var now, before := c.inputs, c.memory.previous;
    var hazards := CL.AllSwitched(c.lighting.indicator.state, now, before) == L.Hazard;
    When(now.indLeft && !before.indLeft, LogIndicatorLeft)
    + When(now.indRight && !before.indRight, LogIndicatorRight)
    + When(now.hazard && !before.hazard, if hazards then LogHazardOn else LogHazardOff)
  }

  function BrakeEvents(c: Core): seq<LogEvent> {
    When(c.inputs.brake && !c.memory.previous.brake, LogBrakeApplied)
    + When(!c.inputs.brake && c.memory.previous.brake, LogBrakeReleased)
  }

  /** A refusal, and every change since the last cycle of shedding, link and doors. */
  function ChangeEvents(refused: bool, m: Memory, r: Core): seq<LogEvent> {
    var shed, lost, door := r.power.ctx.loadShed, r.host.commsLost, r.door.fsm.state;
    When(refused, LogLockRefused)
    + When(shed != m.loadShed, if shed then LogBatteryLow else LogBatteryOk)
    + When(lost != m.commsLost, if lost then LogCommsLost else LogCommsRestored)
    + When(door != m.door, if door == D.Locked then LogDoorLocked else LogDoorUnlocked)
  }

  /** Everything a cycle logs, from its inputs, the states before it and the states r after
      it. The first cycle sees no edges. */
  function CycleEvents(cfg: Config, c: Core, dt: u16, r: Core): seq<LogEvent>
    requires c.Valid()
  {
    var edges := if c.memory.firstCycle then [] else IgnitionEvents(cfg, c, dt) + SwitchEvents(c) + BrakeEvents(c);
    edges + ChangeEvents(CD.Reported(cfg, c, dt).lockRefused, c.memory, r)
  }

  // ------------------------------------------------------------------------- the stages

  lemma IgnitionLogs(cfg: Config, c: Core, dt: u16)
    requires c.Valid()
    ensures IgnitionEdge(cfg, c, dt).log == LogAll(c.log, IgnitionEvents(cfg, c, dt))
  {
    hide Logged, S.Lookup, L.AfterAllOff, P.AfterIgnitionOn, P.AfterIgnitionOff, LogAll;
    LL.TableDecides(c.lighting.light.state, L.ModeNext, c.lighting.ctx);
    LoggedWhen(c.log, true, LogLightMode(NextNumber(c.lighting.light.state)));
    LoggedWhen(c.log, true, LogIgnitionOff);
    LoggedWhen(c.log, true, LogIgnitionOn);
  }

  lemma SwitchesLog(c: Core)
    requires LL.Shaped(c.lighting)
    ensures HazardEdge(RightEdge(LeftEdge(c))).log == LogAll(c.log, SwitchEvents(c))
  {
    hide Logged, L.AfterIndicator, L.AfterHazard, LogAll, LL.Shaped, CL.AllSwitched;
    var now, before := c.inputs, c.memory.previous;
    var hazards := CL.AllSwitched(c.lighting.indicator.state, now, before) == L.Hazard;
    var a := When(now.indLeft && !before.indLeft, LogIndicatorLeft);
    var b := When(now.indRight && !before.indRight, LogIndicatorRight);
    var e := When(now.hazard && !before.hazard, if hazards then LogHazardOn else LogHazardOff);
    CL.SwitchesSwitch(c);
    LoggedWhen(c.log, now.indLeft && !before.indLeft, LogIndicatorLeft);
    LoggedWhen(LeftEdge(c).log, now.indRight && !before.indRight, LogIndicatorRight);
    LoggedWhen(RightEdge(LeftEdge(c)).log, now.hazard && !before.hazard, if hazards then LogHazardOn else LogHazardOff);
    LogAllConcat(c.log, a, b);
    LogAllConcat(c.log, a + b, e);
  }

  lemma BrakeLogs(c: Core)
    ensures BrakeEdge(c).log == LogAll(c.log, BrakeEvents(c))
  {
    hide Logged, LogAll;
    var now, before := c.inputs.brake, c.memory.previous.brake;
    LoggedWhen(c.log, now != before, if now then LogBrakeApplied else LogBrakeReleased);
    assert BrakeEvents(c) == When(now != before, if now then LogBrakeApplied else LogBrakeReleased);
  }

  lemma DoorsAndModeKeepLog(cfg: Config, c: Core)
    requires c.Valid()
    ensures var r := HostLightMode(DoorEdges(cfg, c));
            r.log == c.log && r.inputs == c.inputs && r.memory == c.memory
  {
    hide DoorPressed, DoorHosted, L.AfterLight;
  }

  lemma SwitchesKeepMemory(c: Core)
    ensures var r := HazardEdge(RightEdge(LeftEdge(c))); r.inputs == c.inputs && r.memory == c.memory
  {
    hide Logged, L.AfterIndicator, L.AfterHazard;
  }

  lemma EdgesLog(cfg: Config, c: Core, dt: u16)
    requires c.Valid() && LL.Shaped(c.lighting) && !c.memory.firstCycle
    ensures Edges(cfg, c, dt).log
         == LogAll(c.log, IgnitionEvents(cfg, c, dt) + SwitchEvents(c) + BrakeEvents(c))
  {
    hide IgnitionEdge, LeftEdge, RightEdge, HazardEdge, DoorEdges, HostLightMode, LL.Shaped, LogAll, Logged,
      IgnitionEvents, CL.AllSwitched;
    var i := IgnitionEdge(cfg, c, dt);
    var s := SwitchEdges(cfg, c, dt);
    var m := HostLightMode(DoorEdges(cfg, s));
    IgnitionLogs(cfg, c, dt);
    CL.IgnitionKeepsShape(cfg, c, dt);
    CL.IgnitionKeepsIndicators(cfg, c, dt);
    SwitchesLog(i);
    SwitchesKeepMemory(i);
    DoorsAndModeKeepLog(cfg, s);
    BrakeLogs(m);
    LogAllConcat(c.log, IgnitionEvents(cfg, c, dt), SwitchEvents(c));
    LogAllConcat(c.log, IgnitionEvents(cfg, c, dt) + SwitchEvents(c), BrakeEvents(c));
  }

  lemma EdgesKeepChanges(cfg: Config, c: Core, dt: u16)
    requires c.Valid()
    ensures var m := Edges(cfg, c, dt).memory;
            m.loadShed == c.memory.loadShed && m.commsLost == c.memory.commsLost && m.door == c.memory.door
  {
    hide IgnitionEdge, LeftEdge, RightEdge, HazardEdge, DoorEdges, HostLightMode;
    if !c.memory.firstCycle {
      IgnitionKeepsChanges(cfg, c, dt);
      SwitchesKeepMemory(IgnitionEdge(cfg, c, dt));
      DoorsAndModeKeepLog(cfg, SwitchEdges(cfg, c, dt));
    }
  }

  lemma IgnitionKeepsChanges(cfg: Config, c: Core, dt: u16)
    requires c.Valid()
    ensures var m := IgnitionEdge(cfg, c, dt).memory;
            m.loadShed == c.memory.loadShed && m.commsLost == c.memory.commsLost && m.door == c.memory.door
  {
    hide Logged, L.AfterLight, L.AfterAllOff, P.AfterIgnitionOn, P.AfterIgnitionOff;
  }

  lemma DoorReportsLog(cfg: Config, c: Core)
    requires c.Valid()
    ensures var r := FaultReports(DoorReports(cfg, c));
            && r.log == LogAll(c.log, When(c.door.ctx.lockRefused, LogLockRefused))
            && r.memory == c.memory && r.power == c.power && r.host == c.host && r.door.fsm == c.door.fsm
  {
    hide Logged, LogAll, LoggedIf, When, Mirrored, Chirped, SetFault;
    LoggedWhen(c.log, c.door.ctx.lockRefused, LogLockRefused);
  }

  /** What changed, without the refusal. */
  function Changes(m: Memory, shed: bool, lost: bool, door: D.DoorState): seq<LogEvent> {
    When(shed != m.loadShed, if shed then LogBatteryLow else LogBatteryOk)
    + When(lost != m.commsLost, if lost then LogCommsLost else LogCommsRestored)
    + When(door != m.door, if door == D.Locked then LogDoorLocked else LogDoorUnlocked)
  }

  lemma ChangeReportsLog(c: Core)
    ensures ChangeReports(c).log
         == LogAll(c.log, Changes(c.memory, c.power.ctx.loadShed, c.host.commsLost, c.door.fsm.state))
  {
    hide Logged, LogAll, LoggedIf, When;
    var shed, lost, door, m := c.power.ctx.loadShed, c.host.commsLost, c.door.fsm.state, c.memory;
    var l2 := LoggedIf(c.log, shed != m.loadShed, if shed then LogBatteryLow else LogBatteryOk);
    var l3 := LoggedIf(l2, lost != m.commsLost, if lost then LogCommsLost else LogCommsRestored);
    var b := When(shed != m.loadShed, if shed then LogBatteryLow else LogBatteryOk);
    var d := When(lost != m.commsLost, if lost then LogCommsLost else LogCommsRestored);
    var e := When(door != m.door, if door == D.Locked then LogDoorLocked else LogDoorUnlocked);
    LoggedWhen(c.log, shed != m.loadShed, if shed then LogBatteryLow else LogBatteryOk);
    LoggedWhen(l2, lost != m.commsLost, if lost then LogCommsLost else LogCommsRestored);
    LoggedWhen(l3, door != m.door, if door == D.Locked then LogDoorLocked else LogDoorUnlocked);
    LogAllConcat(c.log, b, d);
    LogAllConcat(c.log, b + d, e);
  }

  lemma RefusalThenChanges(refused: bool, m: Memory, r: Core)
    ensures ChangeEvents(refused, m, r)
         == When(refused, LogLockRefused) + Changes(m, r.power.ctx.loadShed, r.host.commsLost, r.door.fsm.state)
  {
    hide When;
  }

  lemma ChangesAreRemembered(c: Core)
    ensures var r := ChangeReports(c);
            && r.power == c.power && r.host == c.host && r.door == c.door
            && r.memory.loadShed == c.power.ctx.loadShed && r.memory.commsLost == c.host.commsLost
            && r.memory.door == c.door.fsm.state
  {
    hide LoggedIf;
  }

  lemma ReportsLog(cfg: Config, c: Core)
    requires c.Valid()
    ensures var r := Reports(cfg, c);
            && r.log == LogAll(c.log, ChangeEvents(c.door.ctx.lockRefused, c.memory, r))
            && r.memory.loadShed == r.power.ctx.loadShed && r.memory.commsLost == r.host.commsLost
            && r.memory.door == r.door.fsm.state
  {
    hide LogAll, DoorReports, FaultReports, ChangeReports, ChangeEvents, Changes, When;
    var f := FaultReports(DoorReports(cfg, c));
    var x := c.door.ctx.lockRefused;
    DoorReportsLog(cfg, c);
    ChangeReportsLog(f);
    ChangesAreRemembered(f);
    RefusalThenChanges(x, c.memory, ChangeReports(f));
    LogAllConcat(c.log, When(x, LogLockRefused),
                 Changes(f.memory, f.power.ctx.loadShed, f.host.commsLost, f.door.fsm.state));
  }

  lemma LampsKeepValid(c: Core)
    requires c.Valid()
    ensures LampsSet(c).Valid()
  {
    hide Arbitrated, Merged;
  }

  lemma LampsAndHornKeepLog(cfg: Config, c: Core, dt: u16)
    requires c.Valid()
    ensures var r := HornSounded(cfg, LampsSet(c), dt);
            && r.log == c.log && r.memory == c.memory && r.power == c.power && r.host == c.host && r.door == c.door
  {
    hide Arbitrated, Merged, HornTick;
  }

  lemma ManagersKeepLog(cfg: Config, c: Core, dt: u16)
    requires c.Valid()
    ensures Managers(cfg, c, dt).log == c.log
    ensures Managers(cfg, c, dt).door.ctx.lockRefused
         == if c.door.fsm.state != D.Locked && D.AfterUpdate(cfg, c.door, dt).fsm.state == D.Locked then false
            else c.door.ctx.lockRefused
  {
    hide L.AfterAmbient, P.AfterBattery, P.AfterUpdate, D.AfterUpdate;
    DL.UpdateChirps(cfg, c.door, dt);
  }

  lemma FirstEdgesKeepLog(cfg: Config, c: Core, dt: u16)
    requires c.Valid() && c.memory.firstCycle
    ensures Edges(cfg, c, dt).log == c.log
  {
    hide SwitchEdges, DoorEdges, HostLightMode, BrakeEdge;
  }

  /** In every run a cycle adds to the log exactly these events, in this order, and remembers
      what it has compared. */
  lemma CycleLogs(cfg: Config, ops: seq<Op>, dt: u16)
    ensures var c := Run(cfg, ops);
            var r := Step(cfg, c, dt);
            && r.log == LogAll(c.log, CycleEvents(cfg, c, dt, r))
            && r.memory.loadShed == r.power.ctx.loadShed && r.memory.commsLost == r.host.commsLost
            && r.memory.door == r.door.fsm.state
  {
    hide Run, Edges, Managers, Reports, LampsSet, HornSounded, LogAll, Logged, LL.Shaped, D.AfterUpdate,
      IgnitionEvents, SwitchEvents, BrakeEvents, ChangeEvents;
    var c := Run(cfg, ops);
    var e := Edges(cfg, c, dt);
    var m := Managers(cfg, e, dt);
    var r := Reports(cfg, m);
    var edges := if c.memory.firstCycle then [] else IgnitionEvents(cfg, c, dt) + SwitchEvents(c) + BrakeEvents(c);
    CL.CoreIsShaped(cfg, ops);
    if c.memory.firstCycle {
      FirstEdgesKeepLog(cfg, c, dt);
      LoggedWhen(c.log, false, LogIgnitionOn);
    } else {
      EdgesLog(cfg, c, dt);
    }
    EdgesKeepChanges(cfg, c, dt);
    ManagersKeepLog(cfg, e, dt);
    CR.ManagersKeepMemory(cfg, e, dt);
    ReportsLog(cfg, m);
    LampsKeepValid(r);
    LampsAndHornKeepLog(cfg, r, dt);
    var f := HornSounded(cfg, LampsSet(r), dt);
    var refused := m.door.ctx.lockRefused;
    SameChanges(refused, m.memory, c.memory, r, f);
    LogAllConcat(c.log, edges, ChangeEvents(refused, c.memory, f));
    assert f == Step(cfg, c, dt) && refused == CD.Reported(cfg, c, dt).lockRefused;
  }

  lemma SameChanges(refused: bool, m: Memory, m': Memory, r: Core, r': Core)
    requires m.loadShed == m'.loadShed && m.commsLost == m'.commsLost && m.door == m'.door
    requires r.power == r'.power && r.host == r'.host && r.door == r'.door
    ensures ChangeEvents(refused, m, r) == ChangeEvents(refused, m', r')
  {
  }

  // -------------------------------------------------------------------------- a reset

  /** After a reset nothing is lit, sounding, active, logged, requested or remembered; the
      managers are back in their first states. The host's lamp request stays, without its
      mask, and so do both triggers and the machines' counters. */
  lemma ResetStartsOver(c: Core)
    requires c.Valid()
    ensures var r := AfterReset(c);
            && r.door.fsm.state == D.Locked && r.power.fsm.state == P.Sleep
            && r.lighting.light.state == L.LightsOff && r.lighting.indicator.state == L.Idle
            && r.horn.chirpsLeft == 0 && !r.horn.chirpOn && !r.horn.continuous && !r.horn.output && r.horn.onTime == 0
            && !r.horn.timer.running
            && r.faults == [] && r.log.records == [] && r.log.dropped == 0
            && (forall i :: 0 <= i < LAMP_COUNT ==> r.lamps[i] == Off)
            && r.inputs == Inputs(false, false, false, false, false, false, false, false, 0, 1000)
            && r.host == Host(c.host.request, 0, false, false, false, false)
            && r.memory == Memory(r.inputs, 0, false, false, false, D.Locked, true)
            && r.lighting.dark == c.lighting.dark && r.power.batteryOk == c.power.batteryOk
  {
    DL.ResetLocks(c.door);
  }

  /** A new core is as clear as a reset one, with the thresholds of its settings and both
      triggers in their first states: not dark, and the battery good. */
  lemma NewIsClear(cfg: Config)
    ensures var r := NewCore(cfg);
            && r.door.fsm == S.Machine(D.Locked, 0, 0) && r.power.fsm == S.Machine(P.Sleep, 0, 0)
            && r.lighting.light == S.Machine(L.LightsOff, 0, 0) && r.lighting.indicator == S.Machine(L.Idle, 0, 0)
            && r.horn.chirpsLeft == 0 && !r.horn.chirpOn && !r.horn.continuous && !r.horn.output && r.horn.onTime == 0
            && !r.horn.timer.running
            && r.faults == [] && r.log.records == [] && r.log.dropped == 0
            && (forall i :: 0 <= i < LAMP_COUNT ==> r.lamps[i] == Off && r.host.request[i] == Off)
            && r.inputs == Inputs(false, false, false, false, false, false, false, false, 0, 1000)
            && r.host == Host(r.host.request, 0, false, false, false, false)
            && r.memory == Memory(r.inputs, 0, false, false, false, D.Locked, true)
            && r.lighting.dark == F.Trigger(cfg.ambientDark, cfg.ambientLight, false)
            && r.power.batteryOk == F.Trigger(cfg.batteryLow, cfg.batteryOk, true)
            && !r.lighting.darkKnown && !r.power.batteryKnown && !r.power.ctx.loadShed
            && !r.door.welcome.running && !r.door.autoLock.running
            && !r.power.transition.running && !r.power.inactivity.running
            && r.door.ctx == D.DoorContext(false, false, false, false)
            && r.lighting.ctx == L.LightContext(false, false) && !r.lighting.indCtx.hazardLatched
  {
  }
}
