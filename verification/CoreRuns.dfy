/** Laws over runs of the control cycle that need its history. */
module CoreRuns {
  import opened BcmCore
  import opened BcmTypes
  import opened Carried
  import opened CoreLaws
  import opened Integers
  import D = DoorManager
  import DL = DoorLaws
  import L = LightingManager
  import P = PowerManager
  import opened LampArbiter

  // ----------------------------------------------------------- never lock a door open

  /** Before the first cycle the doors are locked and no door timer runs, so the cycle that
      only seeds the history cannot lock on a stale door switch. */
  predicate Seeded(c: Core) {
    c.memory.firstCycle ==> c.door.fsm.state == D.Locked && !c.door.welcome.running && !c.door.autoLock.running
  }

  lemma StepClearsFirstCycle(cfg: Config, c: Core, dt: u16)
    requires c.Valid()
    ensures !Step(cfg, c, dt).memory.firstCycle
  {
    hide SwitchEdges, DoorPressed, DoorHosted, Managers, Logged, Mirrored, Chirped, HornTick;
    hide Wanted, Merged, L.AfterLight;
    if !c.memory.firstCycle {
      SwitchEdgesKeepCycle(cfg, c, dt);
    }
    ManagersKeepMemory(cfg, Edges(cfg, c, dt), dt);
  }

  lemma SwitchEdgesKeepCycle(cfg: Config, c: Core, dt: u16)
    requires c.Valid()
    ensures SwitchEdges(cfg, c, dt).memory.firstCycle == c.memory.firstCycle
    ensures SwitchEdges(cfg, c, dt).memory.previous == c.memory.previous
  {
    hide Logged, L.AfterLight, L.AfterIndicator, L.AfterHazard, L.AfterAllOff, P.AfterIgnitionOn, P.AfterIgnitionOff;
    var c1 := IgnitionEdge(cfg, c, dt);
    assert c1.memory.firstCycle == c.memory.firstCycle && c1.memory.previous == c.memory.previous;
    var c3 := RightEdge(LeftEdge(c1));
    assert c3.memory == c1.memory;
  }

  lemma ManagersKeepMemory(cfg: Config, c: Core, dt: u16)
    requires c.Valid()
    ensures Managers(cfg, c, dt).memory == c.memory && Managers(cfg, c, dt).host == c.host
    ensures Managers(cfg, c, dt).inputs == c.inputs
    ensures Managers(cfg, c, dt).door == D.AfterUpdate(cfg, c.door, dt)
  {
  }

  lemma OpKeepsSeeded(cfg: Config, c: Core, op: Op)
    requires c.Valid() && Seeded(c)
    ensures Seeded(Do(cfg, c, op))
  {
    hide Step, L.AfterReset, P.AfterReset, HornReset, SetFault, Popped;
    if op.Cycle? {
      StepClearsFirstCycle(cfg, c, op.dt);
    }
  }

  lemma {:induction false} RunIsSeeded(cfg: Config, ops: seq<Op>)
    ensures Seeded(Run(cfg, ops))
  {
    hide Do, Seeded;
    if ops == [] {
      NewIsSeeded(cfg);
    } else {
      RunIsSeeded(cfg, ops[..|ops| - 1]);
      OpKeepsSeeded(cfg, Run(cfg, ops[..|ops| - 1]), ops[|ops| - 1]);
    }
  }

  lemma NewIsSeeded(cfg: Config)
    ensures Seeded(NewCore(cfg))
  {
  }

  lemma OpenDoorIsAsked(cfg: Config, d: D.Door, pressed: bool, lock: bool, unlock: bool)
    requires d.Valid()
    ensures var r := DoorHosted(cfg, DoorPressed(cfg, d, true, pressed), lock, unlock);
            r.ctx.doorOpen && DL.NotEntered(d, r)
  {
    hide D.AfterLockRequest, D.AfterUnlockRequest;
    var d0 := d.(ctx := d.ctx.(doorOpen := true));
    OpenRequests(cfg, d0);
    var d1 := DoorPressed(cfg, d, true, pressed);
    OpenRequests(cfg, d1);
    var d2 := if lock then D.AfterLockRequest(d1) else d1;
    OpenRequests(cfg, d2);
  }

  lemma OpenRequests(cfg: Config, d: D.Door)
    requires d.Valid() && d.ctx.doorOpen
    ensures D.AfterLockRequest(d).ctx.doorOpen && D.AfterUnlockRequest(cfg, d).ctx.doorOpen
    ensures DL.NotEntered(d, D.AfterLockRequest(d)) && DL.NotEntered(d, D.AfterUnlockRequest(cfg, d))
  {
    hide D.Offer;
    DL.DoorOpenIsKept(d, D.LockRequest);
    DL.DoorOpenIsKept(d, D.UnlockRequest);
    DL.OpenDoorsAreNotLocked(cfg, d, 0);
  }

  lemma EdgesOnDoor(cfg: Config, c: Core, dt: u16)
    requires c.Valid()
    ensures Edges(cfg, c, dt).door
         == if c.memory.firstCycle then c.door
            else
              var pressed := c.inputs.doorLock && !c.memory.previous.doorLock;
              DoorHosted(cfg, DoorPressed(cfg, c.door, c.inputs.doorOpen, pressed), c.host.lock, c.host.unlock)
  {
    hide SwitchEdges, DoorPressed, DoorHosted, Logged, L.AfterLight;
    SwitchEdgesCarry(cfg, c, dt);
    SwitchEdgesKeepCycle(cfg, c, dt);
  }

  lemma StepOnDoor(cfg: Config, c: Core, dt: u16)
    requires c.Valid()
    ensures Step(cfg, c, dt).door.fsm == D.AfterUpdate(cfg, Edges(cfg, c, dt).door, dt).fsm
  {
    hide Edges, Step, D.AfterUpdate;
    StepParts(cfg, c, dt);
    ManagersKeepMemory(cfg, Edges(cfg, c, dt), dt);
  }

  /** In every run, a cycle that enters Locked, by switch, by host or by the auto-lock, even
      one that began there and unlocked first, has a door input that says shut; the first
      cycle included. */
  lemma LocksOnlyShut(cfg: Config, ops: seq<Op>, dt: u16)
    requires !DL.NotEntered(Run(cfg, ops).door, Step(cfg, Run(cfg, ops), dt).door)
    ensures !Run(cfg, ops).inputs.doorOpen
  {
    hide Run, Step, Edges, DoorPressed, DoorHosted, D.AfterUpdate;
    var c := Run(cfg, ops);
    var e := Edges(cfg, c, dt).door;
    RunIsSeeded(cfg, ops);
    StepOnDoor(cfg, c, dt);
    EdgesOnDoor(cfg, c, dt);
    if c.memory.firstCycle {
      DL.LockedIgnoresTimers(cfg, e, dt);
    } else if c.inputs.doorOpen {
      OpenDoorIsAsked(cfg, c.door, c.inputs.doorLock && !c.memory.previous.doorLock, c.host.lock, c.host.unlock);
      DL.OpenDoorsAreNotLocked(cfg, e, dt);
    }
  }

  /** The door machine through one cycle: as it is found, then after the switch, the host's
      lock, the host's unlock, the welcome timer and the auto-lock timer. On the first cycle
      only the timers run. */
  function DoorStages(cfg: Config, c: Core, dt: u16): seq<D.Door>
    requires c.Valid()
  {
    if c.memory.firstCycle then
      [c.door, D.WelcomeTick(cfg, c.door, dt), D.AfterUpdate(cfg, c.door, dt)]
    else
      var d1 := DoorPressed(cfg, c.door, c.inputs.doorOpen, c.inputs.doorLock && !c.memory.previous.doorLock);
      var d2 := DoorHosted(cfg, d1, c.host.lock, false);
      var d3 := DoorHosted(cfg, d1, c.host.lock, c.host.unlock);
      [c.door, d1, d2, d3, D.WelcomeTick(cfg, d3, dt), D.AfterUpdate(cfg, d3, dt)]
  }

  /** The last stage is what the cycle leaves. */
  lemma StagesEndInStep(cfg: Config, c: Core, dt: u16)
    requires c.Valid()
    ensures var ds := DoorStages(cfg, c, dt); 0 < |ds| && Step(cfg, c, dt).door.fsm == ds[|ds| - 1].fsm
  {
    hide Step, Edges, DoorPressed, DoorHosted, D.AfterUpdate, D.WelcomeTick;
    StepOnDoor(cfg, c, dt);
    EdgesOnDoor(cfg, c, dt);
  }

  lemma OpenSwitch(cfg: Config, d: D.Door, pressed: bool)
    requires d.Valid()
    ensures var r := DoorPressed(cfg, d, true, pressed); r.ctx.doorOpen && DL.NotEntered(d, r)
  {
    hide D.AfterLockRequest, D.AfterUnlockRequest;
    OpenRequests(cfg, d.(ctx := d.ctx.(doorOpen := true)));
  }

  lemma OpenHost(cfg: Config, d: D.Door, lock: bool, unlock: bool)
    requires d.Valid() && d.ctx.doorOpen
    ensures var r1, r2 := DoorHosted(cfg, d, lock, false), DoorHosted(cfg, d, lock, unlock);
            DL.NotEntered(d, r1) && DL.NotEntered(r1, r2) && r2.ctx.doorOpen
  {
    hide D.AfterLockRequest, D.AfterUnlockRequest;
    OpenRequests(cfg, d);
    OpenRequests(cfg, if lock then D.AfterLockRequest(d) else d);
  }

  lemma OpenTimers(cfg: Config, d: D.Door, dt: u32)
    requires d.Valid() && (d.ctx.doorOpen || (d.fsm.state == D.Locked && !d.welcome.running && !d.autoLock.running))
    ensures var r1, r2 := D.WelcomeTick(cfg, d, dt), D.AfterUpdate(cfg, d, dt);
            DL.NotEntered(d, r1) && DL.NotEntered(r1, r2)
  {
    DL.OpenDoorTicks(cfg, d, dt);
  }

  /** In every run, while the door input says open no stage of a cycle enters Locked, not
      even to leave it again before the cycle ends. */
  lemma NoStageLocksOpen(cfg: Config, ops: seq<Op>, dt: u16)
    requires Run(cfg, ops).inputs.doorOpen
    ensures var ds := DoorStages(cfg, Run(cfg, ops), dt);
            forall i :: 0 <= i < |ds| - 1 ==> DL.NotEntered(ds[i], ds[i + 1])
  {
    hide Run, DoorPressed, DoorHosted, D.AfterUpdate, D.WelcomeTick, DL.NotEntered;
    var c := Run(cfg, ops);
    RunIsSeeded(cfg, ops);
    if c.memory.firstCycle {
      OpenTimers(cfg, c.door, dt);
    } else {
      var pressed := c.inputs.doorLock && !c.memory.previous.doorLock;
      var d1 := DoorPressed(cfg, c.door, true, pressed);
      OpenSwitch(cfg, c.door, pressed);
      OpenHost(cfg, d1, c.host.lock, c.host.unlock);
      OpenTimers(cfg, DoorHosted(cfg, d1, c.host.lock, c.host.unlock), dt);
    }
  }

  // ------------------------------------------------------------------ trouble codes

  lemma StepOnFaults(cfg: Config, c: Core, dt: u16)
    requires c.Valid()
    ensures var m := Managers(cfg, Edges(cfg, c, dt), dt);
            var r := Step(cfg, c, dt);
            var fs := if m.door.ctx.lockRefused then SetFault(c.faults, LockRefusedDoorOpen) else c.faults;
            && r.faults == Mirrored(Mirrored(fs, BatteryLow, r.power.ctx.loadShed), Dtc.CommsLost, r.host.commsLost)
            && r.host.commsLost == c.host.commsLost
  {
    hide Edges, Mirrored, Chirped, HornTick, LoggedIf, Arbitrated, Merged, SetFault;
    EdgesKeepFaults(cfg, c, dt);
    EdgesCarry(cfg, c, dt);
  }

  lemma EdgesKeepFaults(cfg: Config, c: Core, dt: u16)
    requires c.Valid()
    ensures Edges(cfg, c, dt).faults == c.faults
  {
    hide DoorPressed, DoorHosted, Logged, L.AfterLight, L.AfterIndicator, L.AfterHazard, L.AfterAllOff;
    hide P.AfterIgnitionOn, P.AfterIgnitionOff;
    var c1 := IgnitionEdge(cfg, c, dt);
    assert c1.faults == c.faults;
    var c3 := RightEdge(LeftEdge(c1));
    assert c3.faults == c.faults;
  }

  lemma MirrorLaw(fs: Faults, code: Dtc, present: bool, other: Dtc)
    requires Distinct(fs)
    ensures Distinct(Mirrored(fs, code, present))
    ensures IsActive(Mirrored(fs, code, present), other) == if other == code then present else IsActive(fs, other)
  {
    hide SetFault, ClearFault, IsActive, Distinct;
    SetIsIndependent(fs, code, other);
    ClearIsIndependent(fs, code, other);
  }

  lemma CycleKeepsDistinct(cfg: Config, c: Core, dt: u16)
    requires c.Valid() && Distinct(c.faults)
    ensures Distinct(Step(cfg, c, dt).faults)
  {
    hide Step, Edges, Managers, SetFault, Mirrored, Distinct;
    StepOnFaults(cfg, c, dt);
    SetIsIndependent(c.faults, LockRefusedDoorOpen, BatteryLow);
    var m := Managers(cfg, Edges(cfg, c, dt), dt);
    var fs := if m.door.ctx.lockRefused then SetFault(c.faults, LockRefusedDoorOpen) else c.faults;
    var shed := Step(cfg, c, dt).power.ctx.loadShed;
    MirrorLaw(fs, BatteryLow, shed, BatteryLow);
    MirrorLaw(Mirrored(fs, BatteryLow, shed), Dtc.CommsLost, c.host.commsLost, BatteryLow);
  }

  lemma OpKeepsDistinct(cfg: Config, c: Core, op: Op)
    requires c.Valid() && Distinct(c.faults)
    ensures Distinct(Do(cfg, c, op).faults)
  {
    hide Step, SetFault, L.AfterReset, D.AfterReset, P.AfterReset, HornReset, Popped;
    if op.RaiseFault? {
      SetIsIndependent(c.faults, op.code, op.code);
    } else if op.Cycle? {
      CycleKeepsDistinct(cfg, c, op.dt);
    }
  }

  lemma {:induction false} FaultsStayDistinct(cfg: Config, ops: seq<Op>)
    ensures Distinct(Run(cfg, ops).faults)
  {
    hide Do;
    if ops != [] {
      FaultsStayDistinct(cfg, ops[..|ops| - 1]);
      OpKeepsDistinct(cfg, Run(cfg, ops[..|ops| - 1]), ops[|ops| - 1]);
    }
  }

  /** In every run, after a cycle the battery code is active exactly while load is shed, the
      link code exactly while the link is down, and the refusal code stays once set. */
  lemma CodesMirrorTheState(cfg: Config, ops: seq<Op>, dt: u16)
    ensures var c := Run(cfg, ops);
            var r := Step(cfg, c, dt);
            && (IsActive(r.faults, BatteryLow) <==> r.power.ctx.loadShed)
            && (IsActive(r.faults, Dtc.CommsLost) <==> r.host.commsLost)
            && (IsActive(c.faults, LockRefusedDoorOpen) ==> IsActive(r.faults, LockRefusedDoorOpen))
  {
    hide Run, Step, Edges, Managers, SetFault, IsActive, Distinct, Mirrored;
    var c := Run(cfg, ops);
    var r := Step(cfg, c, dt);
    FaultsStayDistinct(cfg, ops);
    StepOnFaults(cfg, c, dt);
    var m := Managers(cfg, Edges(cfg, c, dt), dt);
    var fs := if m.door.ctx.lockRefused then SetFault(c.faults, LockRefusedDoorOpen) else c.faults;
    SetIsIndependent(c.faults, LockRefusedDoorOpen, LockRefusedDoorOpen);
    var gs := Mirrored(fs, BatteryLow, r.power.ctx.loadShed);
    MirrorLaw(fs, BatteryLow, r.power.ctx.loadShed, BatteryLow);
    MirrorLaw(fs, BatteryLow, r.power.ctx.loadShed, LockRefusedDoorOpen);
    MirrorLaw(gs, Dtc.CommsLost, r.host.commsLost, BatteryLow);
    MirrorLaw(gs, Dtc.CommsLost, r.host.commsLost, Dtc.CommsLost);
    MirrorLaw(gs, Dtc.CommsLost, r.host.commsLost, LockRefusedDoorOpen);
  }
}
