/** The door machine: locking, welcome light and auto-lock. */
module DoorManager {
  import opened BcmTypes
  import opened Integers
  import opened SoftTimers
  import opened StateMachines

  datatype DoorState = Locked | Unlocked | Welcome

  datatype DoorEvent = LockRequest | UnlockRequest | WelcomeExpired | AutoLockElapsed

  datatype DoorContext = DoorContext(doorOpen: bool, lockRefused: bool, chirpLock: bool, chirpUnlock: bool)

  const NEW_CONTEXT: DoorContext := DoorContext(false, false, false, false)

  predicate NoDoorOpen(c: DoorContext) {
    !c.doorOpen
  }

  function OnLocked(c: DoorContext): DoorContext {
    c.(chirpLock := true, lockRefused := false)
  }

  function OnUnlocked(c: DoorContext): DoorContext {
    c.(chirpUnlock := true, lockRefused := false)
  }

  type DoorRow = Row<DoorState, DoorEvent, DoorContext>

  /** Every row into Locked carries the open-door guard. */
  const TABLE: seq<DoorRow> := [
    Row(Unlocked, false, LockRequest, Locked, When(NoDoorOpen), Do(OnLocked)),
    Row(Welcome, false, LockRequest, Locked, When(NoDoorOpen), Do(OnLocked)),
    Row(Locked, false, UnlockRequest, Welcome, Always, Do(OnUnlocked)),
    Row(Welcome, false, WelcomeExpired, Unlocked, Always, Nothing),
    Row(Unlocked, false, AutoLockElapsed, Locked, When(NoDoorOpen), Do(OnLocked))
  ]

  datatype Door = Door(fsm: Machine<DoorState>, ctx: DoorContext, welcome: Timer, autoLock: Timer) {
    predicate Valid() {
      welcome.Valid() && autoLock.Valid()
    }
  }

  const NEW_DOOR: Door := Door(Machine(Locked, 0, 0), NEW_CONTEXT, IDLE, IDLE)

  function Offer(d: Door, e: DoorEvent): Effect<DoorState, DoorContext> {
    Lookup(TABLE, 0, d.fsm.state, e, d.ctx)
  }

  /** The door after an event, timers aside. */
  function Taken(d: Door, e: DoorEvent): Door {
    d.(fsm := Applied(d.fsm, Offer(d, e)), ctx := Context(Offer(d, e), d.ctx))
  }

  function AfterLockRequest(d: Door): (r: Door)
    requires d.Valid()
    ensures r.Valid()
  {
    var d' := Taken(d, LockRequest);
    if !Offer(d, LockRequest).Moved? then
      if d'.fsm.blocked != d.fsm.blocked then d'.(ctx := d'.ctx.(lockRefused := true)) else d'
    else d'.(welcome := Stopped(d.welcome), autoLock := Stopped(d.autoLock))
  }

  function AfterUnlockRequest(cfg: Config, d: Door): (r: Door)
    requires d.Valid()
    ensures r.Valid()
  {
    var d' := Taken(d, UnlockRequest);
    if Offer(d, UnlockRequest).Moved? then
      d'.(welcome := Started(cfg.welcomeDuration, false), autoLock := Stopped(d.autoLock))
    else d'
  }

  /** The first half of an update: the welcome timer, which arms the auto-lock. */
  function WelcomeTick(cfg: Config, d: Door, dt: u32): (r: Door)
    requires d.Valid()
    ensures r.Valid()
  {
    var (t, fired) := Advance(d.welcome, dt);
    var d1 := d.(welcome := t);
    if fired then Taken(d1, WelcomeExpired).(autoLock := Started(cfg.autoLockDelay, false)) else d1
  }

  /** The second half, charged the same time: the auto-lock timer, re-armed when refused. */
  function AutoLockTick(cfg: Config, d: Door, dt: u32): (r: Door)
    requires d.Valid()
    ensures r.Valid()
  {
    var (t, fired) := Advance(d.autoLock, dt);
    var d1 := d.(autoLock := t);
    if fired then
      var d2 := Taken(d1, AutoLockElapsed);
      if Offer(d1, AutoLockElapsed).Moved? then d2 else d2.(autoLock := Started(cfg.autoLockDelay, false))
    else d1
  }

  function AfterUpdate(cfg: Config, d: Door, dt: u32): (r: Door)
    requires d.Valid()
    ensures r.Valid()
  {
    AutoLockTick(cfg, WelcomeTick(cfg, d, dt), dt)
  }

  function AfterReset(d: Door): Door {
    Door(d.fsm.(state := Locked), NEW_CONTEXT, Stopped(d.welcome), Stopped(d.autoLock))
  }

  function Lit(d: Door, lamps: Lamps): Lamps {
    match d.fsm.state
    case Locked => lamps[DOOR_LOCK := On]
    case Welcome => lamps[DRL := On]
    case Unlocked => lamps
  }

  class DoorMgr {
    const cfg: Config
    const fsm: Fsm<DoorState, DoorEvent, DoorContext>
    var ctx: DoorContext
    const welcome: SoftTimer
    const autoLock: SoftTimer

    ghost const Repr: set<object>

    ghost predicate Valid()
      reads this, Repr
    {
      && Repr == {this, fsm, welcome, autoLock}
      && fsm.table == TABLE && welcome != autoLock && welcome.Now().Valid() && autoLock.Now().Valid()
    }

    ghost function Now(): (d: Door)
      requires Valid()
      reads this, Repr
      ensures d.Valid()
    {
      Door(fsm.Now(), ctx, welcome.Now(), autoLock.Now())
    }

    function StateNow(): (s: DoorState)
      requires Valid()
      reads this, Repr
      ensures s == Now().fsm.state
    {
      fsm.state
    }

    constructor (config: Config)
      ensures Valid() && cfg == config && this in Repr && fresh(Repr) && Now() == NEW_DOOR
    {
      cfg := config;
      var machine := new Fsm(TABLE, Locked);
      var first := new SoftTimer();
      var second := new SoftTimer();
      fsm := machine;
      ctx := NEW_CONTEXT;
      welcome := first;
      autoLock := second;
      Repr := {this, machine, first, second};
    }

    method SetDoorOpen(open: bool)
      requires Valid()
      modifies this
      ensures Valid() && Now() == old(Now()).(ctx := old(Now()).ctx.(doorOpen := open))
    {
      ctx := ctx.(doorOpen := open);
    }

    method RequestLock()
      requires Valid()
      modifies Repr
      ensures Valid() && Now() == AfterLockRequest(old(Now()))
    {
      hide Lookup;
      var before := fsm.blocked;
      var fired, after := fsm.Dispatch(LockRequest, ctx);
      ctx := after;
      if !fired {
        if fsm.blocked != before {
          ctx := ctx.(lockRefused := true);
        }
        return;
      }
      welcome.Stop();
      autoLock.Stop();
    }

    method RequestUnlock()
      requires Valid()
      modifies Repr
      ensures Valid() && Now() == AfterUnlockRequest(cfg, old(Now()))
    {
      hide Lookup;
      var fired, after := fsm.Dispatch(UnlockRequest, ctx);
      ctx := after;
      if fired {
        welcome.Start(cfg.welcomeDuration, false);
        autoLock.Stop();
      }
    }

    method Update(dt: u32)
      requires Valid()
      modifies Repr
      ensures Valid() && Now() == AfterUpdate(cfg, old(Now()), dt)
    {
      hide Lookup;
      var expired := welcome.Update(dt);
      if expired {
        var _, after := fsm.Dispatch(WelcomeExpired, ctx);
        ctx := after;
        autoLock.Start(cfg.autoLockDelay, false);
      }
      var elapsed := autoLock.Update(dt);
      if elapsed {
        var fired, after := fsm.Dispatch(AutoLockElapsed, ctx);
        ctx := after;
        if !fired {
          autoLock.Start(cfg.autoLockDelay, false);
        }
      }
    }

    method Apply(out: array<Drive>)
      requires Valid() && out.Length == LAMP_COUNT
      modifies out
      ensures out[..] == Lit(Now(), old(out[..]))
    {
      if fsm.state == Locked {
        out[DOOR_LOCK] := On;
      }
      if fsm.state == Welcome {
        out[DRL] := On;
      }
    }

    method TakeLockRefused() returns (was: bool)
      requires Valid()
      modifies this
      ensures Valid() && was == old(Now()).ctx.lockRefused
      ensures Now() == old(Now()).(ctx := old(Now()).ctx.(lockRefused := false))
    {
      was := ctx.lockRefused;
      ctx := ctx.(lockRefused := false);
    }

    method TakeChirpLock() returns (was: bool)
      requires Valid()
      modifies this
      ensures Valid() && was == old(Now()).ctx.chirpLock
      ensures Now() == old(Now()).(ctx := old(Now()).ctx.(chirpLock := false))
    {
      was := ctx.chirpLock;
      ctx := ctx.(chirpLock := false);
    }

    method TakeChirpUnlock() returns (was: bool)
      requires Valid()
      modifies this
      ensures Valid() && was == old(Now()).ctx.chirpUnlock
      ensures Now() == old(Now()).(ctx := old(Now()).ctx.(chirpUnlock := false))
    {
      was := ctx.chirpUnlock;
      ctx := ctx.(chirpUnlock := false);
    }

    method Reset()
      requires Valid()
      modifies Repr
      ensures Valid() && Now() == AfterReset(old(Now()))
    {
      fsm.SetState(Locked);
      ctx := NEW_CONTEXT;
      welcome.Stop();
      autoLock.Stop();
    }
  }
}
