/** What the door switch and the host do to the doors, and where it is reported. */
module CoreDoors {
  import opened BcmCore
  import opened BcmTypes
  import opened Carried
  import opened CoreLaws
  import CR = CoreRuns
  import CT = CoreTimes
  import D = DoorManager
  import DL = DoorLaws
  import opened Integers
  import opened LampArbiter
  import L = LightingManager
  import P = PowerManager
  import opened SoftTimers

  // ----------------------------------------------------------------- requests in a cycle

  /** The lock switch has just been pressed. */
  predicate Pressed(c: Core) {
    c.inputs.doorLock && !c.memory.previous.doorLock
  }

  predicate HostSilent(c: Core) {
    !c.host.lock && !c.host.unlock
  }

  /** A lock by switch or host: with the doors shut they end locked with the lock chirp; with
      one open unlocked doors stay as they are and the refusal is flagged. */
  predicate LockTried(d: D.Door, r: D.Door, open: bool) {
    if d.fsm.state == D.Locked then r.fsm.state == D.Locked && SameFlags(d, r)
    else if open then
      r.fsm.state == d.fsm.state && r.ctx == D.DoorContext(true, true, d.ctx.chirpLock, d.ctx.chirpUnlock)
    else r.fsm.state == D.Locked && r.ctx == D.DoorContext(false, false, true, d.ctx.chirpUnlock)
  }

  /** An unlock by switch or host: locked doors go to the welcome light with the unlock chirp. */
  predicate UnlockTried(d: D.Door, r: D.Door, open: bool) {
    if d.fsm.state == D.Locked then
      r.fsm.state == D.Welcome && r.ctx == D.DoorContext(open, false, d.ctx.chirpLock, true)
    else r.fsm.state == d.fsm.state && SameFlags(d, r)
  }

  predicate SameFlags(d: D.Door, r: D.Door) {
    && r.ctx.lockRefused == d.ctx.lockRefused
    && r.ctx.chirpLock == d.ctx.chirpLock && r.ctx.chirpUnlock == d.ctx.chirpUnlock
  }

  lemma LockTries(d: D.Door)
    requires d.Valid()
    ensures LockTried(d, D.AfterLockRequest(d), d.ctx.doorOpen)
  {
    hide D.AfterLockRequest;
    if d.ctx.doorOpen {
      DL.LockRequestRefused(d);
    } else {
      DL.LockRequestLocks(d);
    }
  }

  lemma UnlockTries(cfg: Config, d: D.Door)
    requires d.Valid()
    ensures UnlockTried(d, D.AfterUnlockRequest(cfg, d), d.ctx.doorOpen)
  {
    hide D.AfterUnlockRequest;
    DL.UnlockRequestUnlocks(cfg, d);
  }

  /** After the first cycle the edges of a cycle do to the doors what their switch and the
      host ask, the switch first and toggling, the host's unlock after its lock. */
  lemma DoorsAreAsked(cfg: Config, c: Core, dt: u16)
    requires c.Valid() && !c.memory.firstCycle
    ensures var d, r, open := c.door, Edges(cfg, c, dt).door, c.inputs.doorOpen;
            && r.ctx.doorOpen == open
            && (HostSilent(c) && Pressed(c) && d.fsm.state == D.Locked ==> UnlockTried(d, r, open))
            && (HostSilent(c) && Pressed(c) && d.fsm.state != D.Locked ==> LockTried(d, r, open))
            && (HostSilent(c) && !Pressed(c) ==> r.fsm == d.fsm && SameFlags(d, r))
            && (!Pressed(c) && c.host.lock && !c.host.unlock ==> LockTried(d, r, open))
            && (!Pressed(c) && !c.host.lock && c.host.unlock ==> UnlockTried(d, r, open))
            && (c.host.unlock ==> r.fsm.state != D.Locked)
            && (c.host.lock && !c.host.unlock && !open ==> r.fsm.state == D.Locked)
  {
    hide Edges, D.AfterLockRequest, D.AfterUnlockRequest;
    CR.EdgesOnDoor(cfg, c, dt);
    var d0 := c.door.(ctx := c.door.ctx.(doorOpen := c.inputs.doorOpen));
    LockTries(d0);
    UnlockTries(cfg, d0);
    DL.LockKeepsOpen(d0);
    DL.UnlockKeepsOpen(cfg, d0);
    var d1 := DoorPressed(cfg, c.door, c.inputs.doorOpen, Pressed(c));
    LockTries(d1);
    UnlockTries(cfg, d1);
    DL.LockKeepsOpen(d1);
    var d2 := if c.host.lock then D.AfterLockRequest(d1) else d1;
    UnlockTries(cfg, d2);
    DL.UnlockKeepsOpen(cfg, d2);
  }

  // ------------------------------------------------------------------------ the reports

  /** What the doors have to report at the end of a cycle: the flags the edges left, and the
      lock chirp of an auto-lock. */
  function Reported(cfg: Config, c: Core, dt: u16): D.DoorContext
    requires c.Valid()
  {
    var d := Edges(cfg, c, dt).door;
    if d.fsm.state != D.Locked && D.AfterUpdate(cfg, d, dt).fsm.state == D.Locked then
      D.DoorContext(false, false, true, d.ctx.chirpUnlock)
    else d.ctx
  }

  /** After every cycle what the doors had to report is with the fault store and the horn,
      one chirp for locking and two for unlocking, and the doors have forgotten it. */
  lemma DoorsReport(cfg: Config, c: Core, dt: u16)
    requires c.Valid()
    ensures var r, x := Step(cfg, c, dt), Reported(cfg, c, dt);
            && r.door.ctx == D.DoorContext(x.doorOpen, false, false, false)
            && r.horn == HornTick(cfg, Told(cfg, c.horn, x), dt)
  {
    hide Edges, D.AfterUpdate, HornTick, Mirrored, SetFault, LoggedIf, Arbitrated, Merged;
    DL.UpdateChirps(cfg, Edges(cfg, c, dt).door, dt);
    EdgesKeepHorn(cfg, c, dt);
  }

  /** The horn with new chirps to sound. */
  function Told(cfg: Config, h: Horn, x: D.DoorContext): (r: Horn)
    requires h.Valid()
    ensures r.Valid()
  {
    var t := Timer(cfg.chirpMs, cfg.chirpMs, false, cfg.chirpMs > 0);
    if x.chirpUnlock then h.(chirpsLeft := 2, chirpOn := true, timer := t)
    else if x.chirpLock then h.(chirpsLeft := 1, chirpOn := true, timer := t)
    else h
  }

  lemma EdgesKeepHorn(cfg: Config, c: Core, dt: u16)
    requires c.Valid()
    ensures Edges(cfg, c, dt).horn == c.horn
  {
    hide IgnitionEdge, DoorPressed, DoorHosted, Logged, L.AfterLight, L.AfterIndicator, L.AfterHazard;
    if !c.memory.firstCycle {
      IgnitionKeepsHorn(cfg, c, dt);
    }
  }

  lemma IgnitionKeepsHorn(cfg: Config, c: Core, dt: u16)
    requires c.Valid()
    ensures IgnitionEdge(cfg, c, dt).horn == c.horn
  {
    hide Logged, L.AfterLight, L.AfterAllOff, P.AfterIgnitionOn, P.AfterIgnitionOff;
  }

  /** A refusal flagged in a cycle raises its trouble code in the same cycle. */
  lemma RefusalsAreRaised(cfg: Config, ops: seq<Op>, dt: u16)
    requires Reported(cfg, Run(cfg, ops), dt).lockRefused
    ensures IsActive(Step(cfg, Run(cfg, ops), dt).faults, LockRefusedDoorOpen)
  {
    hide Run, Step, Edges, Mirrored, SetFault, IsActive, Distinct, D.AfterUpdate;
    var c := Run(cfg, ops);
    var r := Step(cfg, c, dt);
    CR.FaultsStayDistinct(cfg, ops);
    CR.StepOnFaults(cfg, c, dt);
    CR.ManagersKeepMemory(cfg, Edges(cfg, c, dt), dt);
    DL.UpdateChirps(cfg, Edges(cfg, c, dt).door, dt);
    SetIsIndependent(c.faults, LockRefusedDoorOpen, LockRefusedDoorOpen);
    var fs := SetFault(c.faults, LockRefusedDoorOpen);
    CR.MirrorLaw(fs, BatteryLow, r.power.ctx.loadShed, LockRefusedDoorOpen);
    CR.MirrorLaw(Mirrored(fs, BatteryLow, r.power.ctx.loadShed), Dtc.CommsLost, c.host.commsLost, LockRefusedDoorOpen);
  }

  /** So pressing the switch of unlocked doors with one open raises the code in that cycle. */
  lemma OpenPressRaisesCode(cfg: Config, ops: seq<Op>, dt: u16)
    requires var c := Run(cfg, ops);
             && !c.memory.firstCycle && Pressed(c) && HostSilent(c)
             && c.inputs.doorOpen && c.door.fsm.state != D.Locked
    ensures IsActive(Step(cfg, Run(cfg, ops), dt).faults, LockRefusedDoorOpen)
    ensures Edges(cfg, Run(cfg, ops), dt).door.fsm.state == Run(cfg, ops).door.fsm.state
  {
    hide Run, Step, Edges, D.AfterUpdate;
    var c := Run(cfg, ops);
    var e := Edges(cfg, c, dt).door;
    DoorsAreAsked(cfg, c, dt);
    DL.OpenDoorsAreNotLocked(cfg, e, dt);
    RefusalsAreRaised(cfg, ops, dt);
  }

  // ------------------------------------------------------------------ requests are used

  /** The host's door and light requests wait through the first cycle and are used up by any
      other; its lamp request, mask and link state stay through both. */
  lemma RequestsAreUsed(cfg: Config, c: Core, dt: u16)
    requires c.Valid()
    ensures var h, r := c.host, Step(cfg, c, dt).host;
            r == if c.memory.firstCycle then h else Host(h.request, h.mask, false, false, false, h.commsLost)
  {
    hide Step, Edges;
    CT.StepKeepsHost(cfg, c, dt);
    CR.ManagersKeepMemory(cfg, Edges(cfg, c, dt), dt);
    EdgesUseAll(cfg, c, dt);
  }

  lemma EdgesUseAll(cfg: Config, c: Core, dt: u16)
    requires c.Valid()
    ensures var h, r := c.host, Edges(cfg, c, dt).host;
            r == if c.memory.firstCycle then h else Host(h.request, h.mask, false, false, false, h.commsLost)
  {
    hide SwitchEdges, DoorPressed, DoorHosted, Logged, L.AfterLight;
    SwitchEdgesCarry(cfg, c, dt);
  }
}
