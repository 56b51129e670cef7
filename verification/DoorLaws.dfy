/** What the door machine keeps over every run. */
module DoorLaws {
  import opened BcmTypes
  import opened DoorManager
  import opened Integers
  import opened SoftTimers
  import opened StateMachines

  // --------------------------------------------------------------- the table, read

  /** The table as a decision by state and event. */
  function Decision(s: DoorState, e: DoorEvent, c: DoorContext): Effect<DoorState, DoorContext> {
    match (s, e)
    case (Locked, UnlockRequest) => Moved(Welcome, OnUnlocked(c))
    case (Welcome, WelcomeExpired) => Moved(Unlocked, c)
    case (Locked, _) => Ignored
    case (_, LockRequest) => if c.doorOpen then Refused else Moved(Locked, OnLocked(c))
    case (Unlocked, AutoLockElapsed) => if c.doorOpen then Refused else Moved(Locked, OnLocked(c))
    case _ => Ignored
  }

  lemma TableDecides(s: DoorState, e: DoorEvent, c: DoorContext)
    ensures Lookup(TABLE, 0, s, e, c) == Decision(s, e, c)
  {
    LookupEnds(TABLE, s, e, c);
    LookupRow(TABLE, 4, s, e, c);
    LookupRow(TABLE, 3, s, e, c);
    LookupRow(TABLE, 2, s, e, c);
    LookupRow(TABLE, 1, s, e, c);
  }

  // ------------------------------------------------------------- never lock it open

  lemma LockedIsGuarded(c: DoorContext)
    requires c.doorOpen
    ensures Barred(TABLE, Locked, c)
  {
  }

  /** With a door open no event locks, because every row into Locked refuses. */
  lemma OpenDoorBars(d: Door, e: DoorEvent)
    requires d.ctx.doorOpen
    ensures Taken(d, e).fsm.state == Locked ==> d.fsm.state == Locked
  {
    LockedIsGuarded(d.ctx);
    BarredIsNotEntered(TABLE, 0, d.fsm.state, e, d.ctx, Locked);
  }

  lemma DoorOpenIsKept(d: Door, e: DoorEvent)
    ensures Taken(d, e).ctx.doorOpen == d.ctx.doorOpen
  {
    TableDecides(d.fsm.state, e, d.ctx);
  }

  /** No operation moves the machine into Locked while a door is open. */
  lemma NeverLocksOpen(cfg: Config, d: Door, dt: u32)
    requires d.ctx.doorOpen && d.Valid() && d.fsm.state != Locked
    ensures AfterLockRequest(d).fsm.state != Locked
    ensures AfterUnlockRequest(cfg, d).fsm.state != Locked
    ensures AfterUpdate(cfg, d, dt).fsm.state != Locked
  {
    hide Lookup;
    OpenDoorBars(d, LockRequest);
    OpenDoorBars(d, UnlockRequest);
    var d1 := d.(welcome := Advance(d.welcome, dt).0);
    OpenDoorBars(d1, WelcomeExpired);
    DoorOpenIsKept(d1, WelcomeExpired);
    var d2 := WelcomeTick(cfg, d, dt);
    OpenDoorBars(d2.(autoLock := Advance(d2.autoLock, dt).0), AutoLockElapsed);
  }

  /** The machine did not enter Locked between d and r: if it is there, it was there and
      has not moved. */
  predicate NotEntered(d: Door, r: Door) {
    r.fsm.state == Locked ==> d.fsm.state == Locked && r.fsm.transitions == d.fsm.transitions
  }

  /** With a door open no operation enters Locked, not even by leaving it first. */
  lemma OpenDoorsAreNotLocked(cfg: Config, d: Door, dt: u32)
    requires d.ctx.doorOpen && d.Valid()
    ensures NotEntered(d, AfterLockRequest(d)) && NotEntered(d, AfterUnlockRequest(cfg, d))
    ensures NotEntered(d, AfterUpdate(cfg, d, dt))
  {
    hide Lookup;
    if d.fsm.state != Locked {
      NeverLocksOpen(cfg, d, dt);
    } else {
      TableDecides(Locked, LockRequest, d.ctx);
      TableDecides(Locked, UnlockRequest, d.ctx);
      LockedIgnoresTimers(cfg, d, dt);
    }
  }

  /** Neither timer enters Locked with a door open, or when neither runs. */
  lemma OpenDoorTicks(cfg: Config, d: Door, dt: u32)
    requires d.Valid() && (d.ctx.doorOpen || (d.fsm.state == Locked && !d.welcome.running && !d.autoLock.running))
    ensures NotEntered(d, WelcomeTick(cfg, d, dt))
    ensures NotEntered(WelcomeTick(cfg, d, dt), AfterUpdate(cfg, d, dt))
  {
    hide Lookup;
    var d1 := d.(welcome := Advance(d.welcome, dt).0);
    TableDecides(d1.fsm.state, WelcomeExpired, d1.ctx);
    var d2 := WelcomeTick(cfg, d, dt);
    TableDecides(d2.fsm.state, AutoLockElapsed, d2.ctx);
  }

  lemma LockedIgnoresTimers(cfg: Config, d: Door, dt: u32)
    requires d.Valid() && d.fsm.state == Locked
    ensures AfterUpdate(cfg, d, dt).fsm == d.fsm
  {
    hide Lookup;
    TableDecides(Locked, WelcomeExpired, d.ctx);
    TableDecides(Locked, AutoLockElapsed, d.ctx);
  }

  /** A lock request with a door open is reported; any other leaves no report behind that
      was not there. */
  lemma RefusalIsReported(d: Door)
    requires d.Valid()
    ensures AfterLockRequest(d).ctx.lockRefused
       <==> if d.fsm.state == Locked then d.ctx.lockRefused else d.ctx.doorOpen
  {
    TableDecides(d.fsm.state, LockRequest, d.ctx);
  }

  /** Unlocking is never refused. */
  lemma UnlockAlwaysWorks(cfg: Config, d: Door)
    requires d.Valid()
    ensures AfterUnlockRequest(cfg, d).fsm.state == if d.fsm.state == Locked then Welcome else d.fsm.state
  {
    TableDecides(d.fsm.state, UnlockRequest, d.ctx);
  }

  // ---------------------------------------------------------------------- all runs

  datatype Op =
    | SetOpen(open: bool)
    | Lock
    | Unlock
    | Elapse(dt: u32)
    | TakeFlags
    | Restart

  function Do(cfg: Config, d: Door, op: Op): (r: Door)
    requires d.Valid()
    ensures r.Valid()
  {
    match op
    case SetOpen(open) => d.(ctx := d.ctx.(doorOpen := open))
    case Lock => AfterLockRequest(d)
    case Unlock => AfterUnlockRequest(cfg, d)
    case Elapse(dt) => AfterUpdate(cfg, d, dt)
    case TakeFlags => d.(ctx := d.ctx.(lockRefused := false, chirpLock := false, chirpUnlock := false))
    case Restart => AfterReset(d)
  }

  function Run(cfg: Config, ops: seq<Op>): (r: Door)
    ensures r.Valid()
  {
    if ops == [] then NEW_DOOR else Do(cfg, Run(cfg, ops[..|ops| - 1]), ops[|ops| - 1])
  }

  /** Each timer runs exactly in its own state, for at most its own period. */
  predicate TimersMatch(cfg: Config, d: Door) {
    && d.Valid() && !d.welcome.periodic && !d.autoLock.periodic
    && (d.welcome.running <==> d.fsm.state == Welcome)
    && (d.autoLock.running <==> d.fsm.state == Unlocked)
    && (d.welcome.running ==> d.welcome.remaining <= cfg.welcomeDuration)
    && (d.autoLock.running ==> d.autoLock.remaining <= cfg.autoLockDelay)
  }

  predicate Timed(cfg: Config) {
    0 < cfg.welcomeDuration && 0 < cfg.autoLockDelay
  }

  lemma UpdateDecides(cfg: Config, d: Door, dt: u32)
    requires Timed(cfg) && TimersMatch(cfg, d)
    ensures var r := AfterUpdate(cfg, d, dt);
            && TimersMatch(cfg, r) && r.ctx.doorOpen == d.ctx.doorOpen
            && match d.fsm.state
               case Locked => r.fsm.state == Locked
               case Unlocked =>
                 if dt < d.autoLock.remaining then
                   r.fsm.state == Unlocked && r.autoLock.remaining == d.autoLock.remaining - dt
                 else if d.ctx.doorOpen then r.fsm.state == Unlocked && r.autoLock.remaining == cfg.autoLockDelay
                 else r.fsm.state == Locked
               case Welcome =>
                 if dt < d.welcome.remaining then
                   r.fsm.state == Welcome && r.welcome.remaining == d.welcome.remaining - dt
                 else if dt < cfg.autoLockDelay then
                   r.fsm.state == Unlocked && r.autoLock.remaining == cfg.autoLockDelay - dt
                 else if d.ctx.doorOpen then r.fsm.state == Unlocked && r.autoLock.remaining == cfg.autoLockDelay
                 else r.fsm.state == Locked
  {
    hide Lookup;
    var d1 := d.(welcome := Advance(d.welcome, dt).0);
    TableDecides(d1.fsm.state, WelcomeExpired, d1.ctx);
    var d2 := WelcomeTick(cfg, d, dt);
    var d3 := d2.(autoLock := Advance(d2.autoLock, dt).0);
    TableDecides(d3.fsm.state, AutoLockElapsed, d3.ctx);
  }

  lemma OpKeepsTimers(cfg: Config, d: Door, op: Op)
    requires Timed(cfg) && TimersMatch(cfg, d)
    ensures TimersMatch(cfg, Do(cfg, d, op))
  {
    hide Lookup;
    match op {
      case Lock => TableDecides(d.fsm.state, LockRequest, d.ctx);
      case Unlock => TableDecides(d.fsm.state, UnlockRequest, d.ctx);
      case Elapse(dt) => UpdateDecides(cfg, d, dt);
      case _ =>
    }
  }

  /** In every run the welcome timer runs exactly in Welcome and the auto-lock timer exactly
      in Unlocked. */
  lemma {:induction false} TimersFollowTheState(cfg: Config, ops: seq<Op>)
    requires Timed(cfg)
    ensures TimersMatch(cfg, Run(cfg, ops))
  {
    hide Do;
    if ops != [] {
      TimersFollowTheState(cfg, ops[..|ops| - 1]);
      OpKeepsTimers(cfg, Run(cfg, ops[..|ops| - 1]), ops[|ops| - 1]);
    }
  }

  // ------------------------------------------------------------- when it locks itself

  function Elapsed(cfg: Config, d: Door, dts: seq<u32>): (r: Door)
    requires d.Valid()
    ensures r.Valid()
  {
    if dts == [] then d else AfterUpdate(cfg, Elapsed(cfg, d, dts[..|dts| - 1]), dts[|dts| - 1])
  }

  /** The most time that can pass before the doors lock by themselves. */
  function TimeLeft(cfg: Config, d: Door): nat {
    match d.fsm.state
    case Locked => 0
    case Unlocked => d.autoLock.remaining
    case Welcome => d.welcome.remaining + cfg.autoLockDelay
  }

  lemma {:induction false} TimeRunsOut(cfg: Config, d: Door, dts: seq<u32>)
    requires Timed(cfg) && TimersMatch(cfg, d) && !d.ctx.doorOpen
    ensures var r := Elapsed(cfg, d, dts);
            && TimersMatch(cfg, r) && !r.ctx.doorOpen
            && TimeLeft(cfg, r) <= Max(0, TimeLeft(cfg, d) - Sum(dts))
  {
    hide AfterUpdate;
    if dts != [] {
      var n := |dts| - 1;
      TimeRunsOut(cfg, d, dts[..n]);
      UpdateDecides(cfg, Elapsed(cfg, d, dts[..n]), dts[n]);
    }
  }

  /** With the doors shut and no requests, any updates totalling the welcome duration plus
      the auto-lock delay lock the doors, from every reachable state. */
  lemma LocksInTheEnd(cfg: Config, ops: seq<Op>, dts: seq<u32>)
    requires Timed(cfg) && !Run(cfg, ops).ctx.doorOpen
    requires cfg.welcomeDuration + cfg.autoLockDelay <= Sum(dts)
    ensures Elapsed(cfg, Run(cfg, ops), dts).fsm.state == Locked
  {
    TimersFollowTheState(cfg, ops);
    TimeRunsOut(cfg, Run(cfg, ops), dts);
  }

  /** The least time that must pass, when no update is longer than `longest`: the update in
      which the welcome light ends is charged to both timers. */
  function LeastLeft(cfg: Config, d: Door, longest: nat): int {
    match d.fsm.state
    case Locked => 0
    case Unlocked => d.autoLock.remaining
    case Welcome => d.welcome.remaining + cfg.autoLockDelay - longest
  }

  lemma {:induction false} TimeIsNeeded(cfg: Config, d: Door, dts: seq<u32>, longest: nat)
    requires Timed(cfg) && TimersMatch(cfg, d)
    requires forall i :: 0 <= i < |dts| ==> dts[i] <= longest
    ensures var r := Elapsed(cfg, d, dts);
            TimersMatch(cfg, r) && LeastLeft(cfg, d, longest) - Sum(dts) <= LeastLeft(cfg, r, longest)
  {
    hide AfterUpdate;
    if dts != [] {
      var n := |dts| - 1;
      TimeIsNeeded(cfg, d, dts[..n], longest);
      UpdateDecides(cfg, Elapsed(cfg, d, dts[..n]), dts[n]);
    }
  }

  /** After an unlock the doors stay unlocked while less than the welcome duration plus the
      auto-lock delay, minus the longest update, has passed. */
  lemma StaysUnlocked(cfg: Config, ops: seq<Op>, dts: seq<u32>, longest: nat)
    requires Timed(cfg) && Run(cfg, ops).fsm.state == Locked
    requires forall i :: 0 <= i < |dts| ==> dts[i] <= longest
    requires Sum(dts) < cfg.welcomeDuration + cfg.autoLockDelay - longest
    ensures Elapsed(cfg, AfterUnlockRequest(cfg, Run(cfg, ops)), dts).fsm.state != Locked
  {
    hide Lookup;
    var d := Run(cfg, ops);
    TimersFollowTheState(cfg, ops);
    OpKeepsTimers(cfg, d, Unlock);
    TableDecides(d.fsm.state, UnlockRequest, d.ctx);
    TimeIsNeeded(cfg, AfterUnlockRequest(cfg, d), dts, longest);
  }

  lemma {:induction false} StuckWithoutTimers(cfg: Config, d: Door, dts: seq<u32>)
    requires !Timed(cfg) && d.Valid()
    requires !d.autoLock.running && !d.welcome.periodic && d.fsm.state != Locked
    requires d.welcome.running ==> cfg.autoLockDelay == 0
    ensures var r := Elapsed(cfg, d, dts);
            && !r.autoLock.running && !r.welcome.periodic && r.fsm.state != Locked
            && (r.welcome.running ==> cfg.autoLockDelay == 0)
  {
    hide Lookup;
    if dts != [] {
      var e, dt := Elapsed(cfg, d, dts[..|dts| - 1]), dts[|dts| - 1];
      StuckWithoutTimers(cfg, d, dts[..|dts| - 1]);
      var e1 := e.(welcome := Advance(e.welcome, dt).0);
      TableDecides(e1.fsm.state, WelcomeExpired, e1.ctx);
    }
  }

  /** Unlocked doors lock themselves in some number of updates exactly when both delays are
      set: a delay of zero switches its timer off instead of expiring at once. */
  lemma LocksItselfIff(cfg: Config)
    ensures (exists dts :: Elapsed(cfg, AfterUnlockRequest(cfg, NEW_DOOR), dts).fsm.state == Locked) <==> Timed(cfg)
  {
    hide Lookup;
    var d := AfterUnlockRequest(cfg, NEW_DOOR);
    TableDecides(Locked, UnlockRequest, NEW_CONTEXT);
    if Timed(cfg) {
      var dts: seq<u32> := [cfg.welcomeDuration, cfg.autoLockDelay];
      assert dts[..|dts| - 1] == [cfg.welcomeDuration] && dts[..|dts| - 1][..0] == [];
      assert Sum(dts[..|dts| - 1]) == cfg.welcomeDuration;
      TimeRunsOut(cfg, d, dts);
    } else {
      forall dts ensures Elapsed(cfg, d, dts).fsm.state != Locked {
        StuckWithoutTimers(cfg, d, dts);
      }
    }
  }

  // ------------------------------------------------------------ what the requests do

  /** A lock request with the doors shut ends in Locked; if it locks them, both timers are
      stopped, the lock chirp is asked for and an earlier refusal forgotten. */
  lemma LockRequestLocks(d: Door)
    requires d.Valid() && !d.ctx.doorOpen
    ensures var r := AfterLockRequest(d);
            && r.fsm.state == Locked
            && (if d.fsm.state == Locked then r == d
                else !r.welcome.running && !r.autoLock.running
                     && r.ctx == DoorContext(false, false, true, d.ctx.chirpUnlock))
  {
    TableDecides(d.fsm.state, LockRequest, d.ctx);
  }

  /** With a door open it only flags the refusal, unless the doors are locked already. */
  lemma LockRequestRefused(d: Door)
    requires d.Valid() && d.ctx.doorOpen
    ensures var r := AfterLockRequest(d);
            && r.fsm.state == d.fsm.state && r.welcome == d.welcome && r.autoLock == d.autoLock
            && r.ctx == d.ctx.(lockRefused := d.ctx.lockRefused || d.fsm.state != Locked)
  {
    TableDecides(d.fsm.state, LockRequest, d.ctx);
  }

  /** An unlock request opens locked doors to the welcome light for its duration, asks for
      the unlock chirp and forgets a refusal; other doors it leaves alone. */
  lemma UnlockRequestUnlocks(cfg: Config, d: Door)
    requires d.Valid()
    ensures var r := AfterUnlockRequest(cfg, d);
            if d.fsm.state == Locked then
              && r.fsm.state == Welcome && !r.autoLock.running
              && r.welcome == Timer(cfg.welcomeDuration, cfg.welcomeDuration, false, cfg.welcomeDuration > 0)
              && r.ctx == DoorContext(d.ctx.doorOpen, false, d.ctx.chirpLock, true)
            else r == d
  {
    TableDecides(d.fsm.state, UnlockRequest, d.ctx);
  }

  /** An update asks for the lock chirp exactly when it locks the doors, and then forgets a
      refusal; it touches no other flag. */
  lemma UpdateChirps(cfg: Config, d: Door, dt: u32)
    requires d.Valid()
    ensures var r := AfterUpdate(cfg, d, dt);
            var locks := d.fsm.state != Locked && r.fsm.state == Locked;
            r.ctx == if locks then DoorContext(false, false, true, d.ctx.chirpUnlock) else d.ctx
  {
    hide Lookup;
    var d1 := d.(welcome := Advance(d.welcome, dt).0);
    TableDecides(d1.fsm.state, WelcomeExpired, d1.ctx);
    var d2 := WelcomeTick(cfg, d, dt);
    var d3 := d2.(autoLock := Advance(d2.autoLock, dt).0);
    TableDecides(d3.fsm.state, AutoLockElapsed, d3.ctx);
  }

  /** A reset locks the doors, clears every flag and runs no timer; only counters stay. */
  lemma ResetLocks(d: Door)
    ensures var r := AfterReset(d);
            && r.fsm == Machine(Locked, d.fsm.transitions, d.fsm.blocked)
            && r.ctx == DoorContext(false, false, false, false) && !r.welcome.running && !r.autoLock.running
  {
  }

  lemma LockKeepsOpen(d: Door)
    requires d.Valid()
    ensures AfterLockRequest(d).ctx.doorOpen == d.ctx.doorOpen
  {
    DoorOpenIsKept(d, LockRequest);
  }

  lemma UnlockKeepsOpen(cfg: Config, d: Door)
    requires d.Valid()
    ensures AfterUnlockRequest(cfg, d).ctx.doorOpen == d.ctx.doorOpen
  {
    DoorOpenIsKept(d, UnlockRequest);
  }
}
