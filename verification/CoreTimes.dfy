/** When a car left alone locks itself and falls asleep, over runs of the control cycle. */
module CoreTimes {
  import opened BcmCore
  import opened BcmTypes
  import opened Carried
  import opened CoreLaws
  import CR = CoreRuns
  import D = DoorManager
  import DL = DoorLaws
  import opened Integers
  import opened LampArbiter
  import L = LightingManager
  import P = PowerManager
  import PL = PowerLaws
  import S = StateMachines

  // ----------------------------------------------------------------------- asleep

  /** What the ignition button makes of the power in one cycle. */
  function PowerEdge(cfg: Config, c: Core): (p: P.Power)
    requires c.Valid()
    ensures p.Valid()
  {
    if c.memory.firstCycle || c.inputs.ignition || !c.memory.previous.ignition || c.memory.longPressFired then c.power
    else if c.power.fsm.state == P.Run then P.AfterIgnitionOff(c.power)
    else P.AfterIgnitionOn(cfg, c.power)
  }

  lemma IgnitionOnPower(cfg: Config, c: Core, dt: u16)
    requires c.Valid() && !c.memory.firstCycle
    ensures IgnitionEdge(cfg, c, dt).power == PowerEdge(cfg, c)
  {
    hide Logged, L.AfterLight, L.AfterAllOff, P.AfterIgnitionOn, P.AfterIgnitionOff;
  }

  lemma SwitchesKeepPower(c: Core)
    requires c.Valid()
    ensures HazardEdge(RightEdge(LeftEdge(c))).power == c.power
  {
    hide Logged, L.AfterIndicator, L.AfterHazard;
  }

  lemma EdgesOnPower(cfg: Config, c: Core, dt: u16)
    requires c.Valid()
    ensures Edges(cfg, c, dt).power == PowerEdge(cfg, c)
  {
    hide IgnitionEdge, LeftEdge, RightEdge, HazardEdge, DoorPressed, DoorHosted, Logged, L.AfterLight;
    if !c.memory.firstCycle {
      IgnitionOnPower(cfg, c, dt);
      SwitchesKeepPower(IgnitionEdge(cfg, c, dt));
    }
  }

  lemma StepOnPower(cfg: Config, c: Core, dt: u16)
    requires c.Valid()
    ensures Step(cfg, c, dt).power
         == P.AfterUpdate(cfg, P.AfterBattery(PowerEdge(cfg, c), c.inputs.batteryPermille), dt)
  {
    hide Step, Edges, P.AfterBattery, P.AfterUpdate, PowerEdge, L.AfterAmbient, D.AfterUpdate;
    StepParts(cfg, c, dt);
    EdgesOnPower(cfg, c, dt);
    EdgesCarry(cfg, c, dt);
  }

  lemma CycleKeepsPowerTimers(cfg: Config, c: Core, dt: u16)
    requires c.Valid() && 0 < cfg.sleepAfter && PL.TimersMatch(cfg, c.power)
    ensures PL.TimersMatch(cfg, Step(cfg, c, dt).power)
  {
    hide Step, P.AfterIgnitionOn, P.AfterIgnitionOff, P.AfterUpdate, P.AfterBattery, PL.TimersMatch;
    var p := PowerEdge(cfg, c);
    StepOnPower(cfg, c, dt);
    PL.OpKeepsTimers(cfg, c.power, PL.On);
    PL.OpKeepsTimers(cfg, c.power, PL.Off);
    PL.OpKeepsTimers(cfg, p, PL.Battery(c.inputs.batteryPermille));
    PL.OpKeepsTimers(cfg, P.AfterBattery(p, c.inputs.batteryPermille), PL.Elapse(dt));
  }

  lemma OpKeepsPowerTimers(cfg: Config, c: Core, op: Op)
    requires c.Valid() && 0 < cfg.sleepAfter && PL.TimersMatch(cfg, c.power)
    ensures PL.TimersMatch(cfg, Do(cfg, c, op).power)
  {
    hide Step, SetFault, Popped, P.AfterReset, L.AfterReset, D.AfterReset, HornReset, PL.TimersMatch;
    if op.Cycle? {
      CycleKeepsPowerTimers(cfg, c, op.dt);
    } else if op.Restart? {
      PL.OpKeepsTimers(cfg, c.power, PL.Restart);
    }
  }

  /** In every run of the core the power timers follow the power state. */
  lemma {:induction false} PowerTimersFollow(cfg: Config, ops: seq<Op>)
    requires 0 < cfg.sleepAfter
    ensures PL.TimersMatch(cfg, Run(cfg, ops).power)
  {
    hide Do;
    if ops != [] {
      PowerTimersFollow(cfg, ops[..|ops| - 1]);
      OpKeepsPowerTimers(cfg, Run(cfg, ops[..|ops| - 1]), ops[|ops| - 1]);
    }
  }

  /** The ignition button is up and has been seen up. */
  predicate ButtonUp(c: Core) {
    !c.inputs.ignition && !c.memory.previous.ignition
  }

  predicate LeavesButton(op: Op) {
    op.SetInputs? ==> !op.inputs.ignition
  }

  function Elapsing(op: Op): nat {
    if op.Cycle? then op.dt else 0
  }

  lemma CycleRunsOut(cfg: Config, c: Core, dt: u16, longest: nat)
    requires c.Valid() && 0 < cfg.sleepAfter && PL.TimersMatch(cfg, c.power) && ButtonUp(c) && dt <= longest
    ensures PL.TimeLeft(cfg, Step(cfg, c, dt).power, longest) <= Max(0, PL.TimeLeft(cfg, c.power, longest) - dt)
  {
    hide Step, P.AfterIgnitionOn, P.AfterIgnitionOff, P.AfterUpdate;
    StepOnPower(cfg, c, dt);
    PL.UpdateDecides(cfg, P.AfterBattery(c.power, c.inputs.batteryPermille), dt);
  }

  lemma CycleLeavesButton(cfg: Config, c: Core, dt: u16)
    requires c.Valid() && ButtonUp(c)
    ensures ButtonUp(Step(cfg, c, dt))
  {
    hide Step;
    StepSeesInputs(cfg, c, dt);
  }

  lemma StepSeesInputs(cfg: Config, c: Core, dt: u16)
    requires c.Valid()
    ensures Step(cfg, c, dt).inputs == c.inputs && Step(cfg, c, dt).memory.previous == c.inputs
  {
    hide Step, Edges, Managers, DoorReports, FaultReports, LampsSet, HornTick;
    StepParts(cfg, c, dt);
    EdgesSeeInputs(cfg, c, dt);
    CR.ManagersKeepMemory(cfg, Edges(cfg, c, dt), dt);
    StepKeepsPrevious(cfg, c, dt);
  }

  lemma StepKeepsPrevious(cfg: Config, c: Core, dt: u16)
    requires c.Valid()
    ensures Step(cfg, c, dt).memory.previous == Managers(cfg, Edges(cfg, c, dt), dt).memory.previous
  {
    hide Edges, Managers, Arbitrated, Merged, Mirrored, Chirped, HornTick, LoggedIf;
  }

  lemma EdgesSeeInputs(cfg: Config, c: Core, dt: u16)
    requires c.Valid()
    ensures Edges(cfg, c, dt).memory.previous == c.inputs
  {
    hide SwitchEdges, DoorPressed, DoorHosted, Logged, L.AfterLight;
    SwitchEdgesCarry(cfg, c, dt);
  }

  lemma OpRunsOut(cfg: Config, c: Core, op: Op, longest: nat)
    requires c.Valid() && 0 < cfg.sleepAfter && PL.TimersMatch(cfg, c.power)
    requires ButtonUp(c) && LeavesButton(op) && Elapsing(op) <= longest
    ensures ButtonUp(Do(cfg, c, op))
    ensures PL.TimeLeft(cfg, Do(cfg, c, op).power, longest)
         <= Max(0, PL.TimeLeft(cfg, c.power, longest) - Elapsing(op))
  {
    hide Step, SetFault, Popped, L.AfterReset, D.AfterReset, HornReset;
    if op.Cycle? {
      CycleRunsOut(cfg, c, op.dt, longest);
      CycleLeavesButton(cfg, c, op.dt);
    }
  }

  lemma {:induction false} PowerRunsOut(cfg: Config, c: Core, ops: seq<Op>, longest: nat)
    requires c.Valid() && 0 < cfg.sleepAfter && PL.TimersMatch(cfg, c.power) && ButtonUp(c)
    requires forall i :: 0 <= i < |ops| ==> LeavesButton(ops[i]) && Elapsing(ops[i]) <= longest
    ensures var r := Later(cfg, c, ops);
            && PL.TimersMatch(cfg, r.power) && ButtonUp(r)
            && PL.TimeLeft(cfg, r.power, longest) <= Max(0, PL.TimeLeft(cfg, c.power, longest) - Sum(Times(ops)))
  {
    hide Do, PL.TimersMatch, PL.TimeLeft;
    if ops != [] {
      var n := |ops| - 1;
      PowerRunsOut(cfg, c, ops[..n], longest);
      OpKeepsPowerTimers(cfg, Later(cfg, c, ops[..n]), ops[n]);
      OpRunsOut(cfg, Later(cfg, c, ops[..n]), ops[n], longest);
      TimesExtend(ops);
    }
  }

  lemma TimesExtend(ops: seq<Op>)
    requires ops != []
    ensures Sum(Times(ops)) == Sum(Times(ops[..|ops| - 1])) + Elapsing(ops[|ops| - 1])
  {
    var n := |ops| - 1;
    if ops[n].Cycle? {
      assert Times(ops)[..|Times(ops)| - 1] == Times(ops[..n]);
    } else {
      assert Times(ops) == Times(ops[..n]);
    }
  }

  /** From every reachable core with the ignition button up, the car is asleep once cycles
      totalling the wake time, the inactivity time, the shutdown time and the longest cycle
      have passed without the button, whatever else is read, asked or reset meanwhile. */
  lemma CoreSleepsInTheEnd(cfg: Config, before: seq<Op>, ops: seq<Op>, longest: nat)
    requires 0 < cfg.sleepAfter && ButtonUp(Run(cfg, before))
    requires forall i :: 0 <= i < |ops| ==> LeavesButton(ops[i]) && Elapsing(ops[i]) <= longest
    requires P.WAKE_MS + P.SHUTDOWN_MS + cfg.sleepAfter + longest <= Sum(Times(ops))
    ensures Later(cfg, Run(cfg, before), ops).power.fsm.state == P.Sleep
  {
    hide Run, Later, Times, Sum;
    PowerTimersFollow(cfg, before);
    PowerRunsOut(cfg, Run(cfg, before), ops, longest);
    AsleepWhenOut(cfg, Run(cfg, before).power, longest);
    AsleepWhenOut(cfg, Later(cfg, Run(cfg, before), ops).power, longest);
  }

  lemma AsleepWhenOut(cfg: Config, p: P.Power, longest: nat)
    requires PL.TimersMatch(cfg, p)
    ensures PL.TimeLeft(cfg, p, longest) <= P.WAKE_MS + P.SHUTDOWN_MS + cfg.sleepAfter + longest
    ensures PL.TimeLeft(cfg, p, longest) == 0 ==> p.fsm.state == P.Sleep
  {
  }

  // ----------------------------------------------------------------------- locked

  lemma StepOnDoorTimers(cfg: Config, c: Core, dt: u16)
    requires c.Valid()
    ensures var r, d := Step(cfg, c, dt).door, D.AfterUpdate(cfg, Edges(cfg, c, dt).door, dt);
            r.fsm == d.fsm && r.welcome == d.welcome && r.autoLock == d.autoLock
  {
    hide Edges, Step, D.AfterUpdate;
    StepParts(cfg, c, dt);
    CR.ManagersKeepMemory(cfg, Edges(cfg, c, dt), dt);
  }

  lemma TimersAreEnough(cfg: Config, d: D.Door, r: D.Door)
    requires r.fsm == d.fsm && r.welcome == d.welcome && r.autoLock == d.autoLock
    ensures DL.TimersMatch(cfg, r) == DL.TimersMatch(cfg, d) && DL.TimeLeft(cfg, r) == DL.TimeLeft(cfg, d)
  {
  }

  lemma RequestsKeepTimers(cfg: Config, d: D.Door, open: bool, pressed: bool, lock: bool, unlock: bool)
    requires DL.Timed(cfg) && DL.TimersMatch(cfg, d)
    ensures DL.TimersMatch(cfg, DoorHosted(cfg, DoorPressed(cfg, d, open, pressed), lock, unlock))
  {
    hide D.AfterLockRequest, D.AfterUnlockRequest, DL.TimersMatch;
    var d0 := d.(ctx := d.ctx.(doorOpen := open));
    DL.OpKeepsTimers(cfg, d, DL.SetOpen(open));
    DL.OpKeepsTimers(cfg, d0, DL.Lock);
    DL.OpKeepsTimers(cfg, d0, DL.Unlock);
    var d1 := DoorPressed(cfg, d, open, pressed);
    DL.OpKeepsTimers(cfg, d1, DL.Lock);
    var d2 := if lock then D.AfterLockRequest(d1) else d1;
    DL.OpKeepsTimers(cfg, d2, DL.Unlock);
  }

  lemma EdgesKeepDoorTimers(cfg: Config, c: Core, dt: u16)
    requires c.Valid() && DL.Timed(cfg) && DL.TimersMatch(cfg, c.door)
    ensures DL.TimersMatch(cfg, Edges(cfg, c, dt).door)
  {
    hide Edges, DoorPressed, DoorHosted, DL.TimersMatch;
    CR.EdgesOnDoor(cfg, c, dt);
    RequestsKeepTimers(cfg, c.door, c.inputs.doorOpen, c.inputs.doorLock && !c.memory.previous.doorLock,
                       c.host.lock, c.host.unlock);
  }

  lemma OpKeepsDoorTimers(cfg: Config, c: Core, op: Op)
    requires c.Valid() && DL.Timed(cfg) && DL.TimersMatch(cfg, c.door)
    ensures DL.TimersMatch(cfg, Do(cfg, c, op).door)
  {
    hide Step, Edges, SetFault, Popped, P.AfterReset, L.AfterReset, D.AfterReset, D.AfterUpdate, HornReset,
      DL.TimersMatch;
    if op.Cycle? {
      var e := Edges(cfg, c, op.dt).door;
      EdgesKeepDoorTimers(cfg, c, op.dt);
      DL.OpKeepsTimers(cfg, e, DL.Elapse(op.dt));
      StepOnDoorTimers(cfg, c, op.dt);
      TimersAreEnough(cfg, D.AfterUpdate(cfg, e, op.dt), Step(cfg, c, op.dt).door);
    } else if op.Restart? {
      DL.OpKeepsTimers(cfg, c.door, DL.Restart);
    }
  }

  /** In every run of the core the door timers follow the door state. */
  lemma {:induction false} DoorTimersFollow(cfg: Config, ops: seq<Op>)
    requires DL.Timed(cfg)
    ensures DL.TimersMatch(cfg, Run(cfg, ops).door)
  {
    hide Do;
    if ops != [] {
      DoorTimersFollow(cfg, ops[..|ops| - 1]);
      OpKeepsDoorTimers(cfg, Run(cfg, ops[..|ops| - 1]), ops[|ops| - 1]);
    }
  }

  /** The doors are shut and nobody is asking to unlock them. */
  predicate DoorsAlone(c: Core) {
    !c.inputs.doorOpen && !c.inputs.doorLock && !c.host.unlock && CR.Seeded(c)
  }

  predicate LeavesDoors(op: Op) {
    && !op.AskUnlock?
    && (op.SetInputs? ==> !op.inputs.doorOpen && !op.inputs.doorLock)
  }

  /** A lock request can only bring the locking forward. */
  lemma ShutDoorsAreAsked(cfg: Config, d: D.Door, lock: bool)
    requires DL.TimersMatch(cfg, d) && DL.Timed(cfg)
    ensures var r := DoorHosted(cfg, DoorPressed(cfg, d, false, false), lock, false);
            && DL.TimersMatch(cfg, r) && !r.ctx.doorOpen
            && DL.TimeLeft(cfg, r) <= DL.TimeLeft(cfg, d)
  {
    hide S.Lookup;
    var d0 := d.(ctx := d.ctx.(doorOpen := false));
    DL.TableDecides(d0.fsm.state, D.LockRequest, d0.ctx);
    RequestsKeepTimers(cfg, d, false, false, lock, false);
  }

  lemma ShutDoorsRunOut(cfg: Config, d: D.Door, dt: u32)
    requires DL.Timed(cfg) && DL.TimersMatch(cfg, d) && (d.ctx.doorOpen ==> d.fsm.state == D.Locked)
    ensures DL.TimeLeft(cfg, D.AfterUpdate(cfg, d, dt)) <= Max(0, DL.TimeLeft(cfg, d) - dt)
  {
    hide D.AfterUpdate;
    DL.UpdateDecides(cfg, d, dt);
  }

  lemma CycleLocksOn(cfg: Config, c: Core, dt: u16)
    requires c.Valid() && DL.Timed(cfg) && DL.TimersMatch(cfg, c.door) && DoorsAlone(c)
    ensures DL.TimeLeft(cfg, Step(cfg, c, dt).door) <= Max(0, DL.TimeLeft(cfg, c.door) - dt)
  {
    hide Step, Edges, DoorPressed, DoorHosted, D.AfterUpdate, DL.TimersMatch;
    var e := Edges(cfg, c, dt).door;
    CR.EdgesOnDoor(cfg, c, dt);
    EdgesKeepDoorTimers(cfg, c, dt);
    ShutDoorsAreAsked(cfg, c.door, c.host.lock);
    ShutDoorsRunOut(cfg, e, dt);
    StepOnDoorTimers(cfg, c, dt);
    TimersAreEnough(cfg, D.AfterUpdate(cfg, e, dt), Step(cfg, c, dt).door);
  }

  lemma CycleLeavesDoors(cfg: Config, c: Core, dt: u16)
    requires c.Valid() && DoorsAlone(c)
    ensures DoorsAlone(Step(cfg, c, dt))
  {
    hide Step;
    StepSeesInputs(cfg, c, dt);
    StepUsesRequests(cfg, c, dt);
    CR.OpKeepsSeeded(cfg, c, Cycle(dt));
  }

  lemma StepUsesRequests(cfg: Config, c: Core, dt: u16)
    requires c.Valid()
    ensures !c.host.unlock ==> !Step(cfg, c, dt).host.unlock
  {
    hide Step, Edges;
    StepKeepsHost(cfg, c, dt);
    CR.ManagersKeepMemory(cfg, Edges(cfg, c, dt), dt);
    EdgesUseRequests(cfg, c, dt);
  }

  lemma StepKeepsHost(cfg: Config, c: Core, dt: u16)
    requires c.Valid()
    ensures Step(cfg, c, dt).host == Managers(cfg, Edges(cfg, c, dt), dt).host
  {
    hide Edges, Managers, Arbitrated, Merged, Mirrored, Chirped, HornTick, LoggedIf;
  }

  lemma EdgesUseRequests(cfg: Config, c: Core, dt: u16)
    requires c.Valid()
    ensures !c.host.unlock ==> !Edges(cfg, c, dt).host.unlock
  {
    hide SwitchEdges, DoorPressed, DoorHosted, Logged, L.AfterLight;
    SwitchEdgesCarry(cfg, c, dt);
  }

  lemma OpLocksOn(cfg: Config, c: Core, op: Op)
    requires c.Valid() && DL.Timed(cfg) && DL.TimersMatch(cfg, c.door)
    requires DoorsAlone(c) && LeavesDoors(op)
    ensures DoorsAlone(Do(cfg, c, op))
    ensures DL.TimeLeft(cfg, Do(cfg, c, op).door) <= Max(0, DL.TimeLeft(cfg, c.door) - Elapsing(op))
  {
    hide Step, SetFault, Popped, L.AfterReset, P.AfterReset, HornReset;
    if op.Cycle? {
      CycleLocksOn(cfg, c, op.dt);
      CycleLeavesDoors(cfg, c, op.dt);
    }
  }

  lemma {:induction false} DoorRunsOut(cfg: Config, c: Core, ops: seq<Op>)
    requires c.Valid() && DL.Timed(cfg) && DL.TimersMatch(cfg, c.door) && DoorsAlone(c)
    requires forall i :: 0 <= i < |ops| ==> LeavesDoors(ops[i])
    ensures var r := Later(cfg, c, ops);
            && DL.TimersMatch(cfg, r.door) && DoorsAlone(r)
            && DL.TimeLeft(cfg, r.door) <= Max(0, DL.TimeLeft(cfg, c.door) - Sum(Times(ops)))
  {
    hide Do, DL.TimersMatch, DL.TimeLeft, DoorsAlone;
    if ops != [] {
      var n := |ops| - 1;
      DoorRunsOut(cfg, c, ops[..n]);
      OpKeepsDoorTimers(cfg, Later(cfg, c, ops[..n]), ops[n]);
      OpLocksOn(cfg, Later(cfg, c, ops[..n]), ops[n]);
      TimesExtend(ops);
    }
  }

  /** From every reachable core with the doors shut, the switch up and no unlock request
      pending, cycles totalling the welcome duration plus the auto-lock delay lock the car,
      whatever else is read, asked or reset meanwhile. */
  lemma CoreLocksInTheEnd(cfg: Config, before: seq<Op>, ops: seq<Op>)
    requires DL.Timed(cfg)
    requires var c := Run(cfg, before); !c.inputs.doorOpen && !c.inputs.doorLock && !c.host.unlock
    requires forall i :: 0 <= i < |ops| ==> LeavesDoors(ops[i])
    requires cfg.welcomeDuration + cfg.autoLockDelay <= Sum(Times(ops))
    ensures Later(cfg, Run(cfg, before), ops).door.fsm.state == D.Locked
  {
    hide Run, Later, Times, Sum;
    DoorTimersFollow(cfg, before);
    CR.RunIsSeeded(cfg, before);
    DoorRunsOut(cfg, Run(cfg, before), ops);
    LockedWhenOut(cfg, Run(cfg, before).door);
    LockedWhenOut(cfg, Later(cfg, Run(cfg, before), ops).door);
  }

  lemma LockedWhenOut(cfg: Config, d: D.Door)
    requires DL.TimersMatch(cfg, d)
    ensures DL.TimeLeft(cfg, d) <= cfg.welcomeDuration + cfg.autoLockDelay
    ensures DL.TimeLeft(cfg, d) == 0 ==> d.fsm.state == D.Locked
  {
  }
}
