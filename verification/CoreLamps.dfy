/** What every lamp shows after a cycle, read off the states of the managers. */
module CoreLamps {
  import opened BcmCore
  import opened BcmTypes
  import opened CoreLaws
  import D = DoorManager
  import opened Carried
  import opened Filters
  import opened Integers
  import opened LampArbiter
  import L = LightingManager
  import LL = LightingLaws
  import P = PowerManager
  import PR = Presses
  import S = StateMachines

  // ------------------------------------------------------------------ lamp by lamp

  /** Bit i of a lamp mask, for the ten lamps. */
  lemma BitIsBit(mask: u16)
    ensures Bit(mask, 0) == (mask % 2 == 1) && Bit(mask, 1) == (mask / 2 % 2 == 1)
    ensures Bit(mask, 2) == (mask / 4 % 2 == 1) && Bit(mask, 3) == (mask / 8 % 2 == 1)
    ensures Bit(mask, 4) == (mask / 16 % 2 == 1) && Bit(mask, 5) == (mask / 32 % 2 == 1)
    ensures Bit(mask, 6) == (mask / 64 % 2 == 1) && Bit(mask, 7) == (mask / 128 % 2 == 1)
    ensures Bit(mask, 8) == (mask / 256 % 2 == 1) && Bit(mask, 9) == (mask / 512 % 2 == 1)
  {
    PowersOfTwo();
    hide Pow2;
  }

  lemma PowersOfTwo()
    ensures Pow2(0) == 1 && Pow2(1) == 2 && Pow2(2) == 4 && Pow2(3) == 8 && Pow2(4) == 16
    ensures Pow2(5) == 32 && Pow2(6) == 64 && Pow2(7) == 128 && Pow2(8) == 256 && Pow2(9) == 512
  {
    assert Pow2(3) == 8;
    assert Pow2(6) == 64;
  }

  /** What the managers want lit: ignition while waking or running; daytime lights with any
      light mode and in welcome; the beams by mode; the indicators; the lock lamp when locked. */
  function Shown(c: Core, id: nat): Drive
    requires id < LAMP_COUNT
  {
    match id
    case 0 => if c.power.fsm.state == P.Wake || c.power.fsm.state == P.Run then On else Off
    case 1 => if c.lighting.light.state != L.LightsOff || c.door.fsm.state == D.Welcome then On else Off
    case 2 => if c.lighting.light.state == L.LowBeam || c.lighting.light.state == L.HighBeam then On else Off
    case 3 => if c.lighting.light.state == L.HighBeam then On else Off
    case 4 => if c.lighting.indicator.state == L.Left || c.lighting.indicator.state == L.Hazard then Blink else Off
    case 5 => if c.lighting.indicator.state == L.Right || c.lighting.indicator.state == L.Hazard then Blink else Off
    case 6 => if c.lighting.indicator.state == L.Hazard then Blink else Off
    case 9 => if c.door.fsm.state == D.Locked then On else Off
    case _ => Off
  }

  lemma ManagersShow(c: Core, id: nat)
    requires id < LAMP_COUNT
    ensures Wanted(c)[id] == Shown(c, id)
  {
  }

  /** The host's wish where the mask covers the lamp, the managers' elsewhere. */
  function Wish(c: Core, id: nat): Drive
    requires id < LAMP_COUNT
  {
    if Bit(c.host.mask, id) then c.host.request[id] else Shown(c, id)
  }

  /** A rule puts the lamp out: all but the lock lamp asleep, the high beam without a link,
      and lamps 0, 1, 3 and 9 when shedding. */
  predicate PutOut(c: Core, id: nat) {
    || (c.power.fsm.state == P.Sleep && id != 9)
    || (c.host.commsLost && id == 3)
    || (c.power.ctx.loadShed && (id == 0 || id == 1 || id == 3 || id == 9))
  }

  /** After every cycle from every state every lamp shows the wish for it unless a rule puts
      it out; reverse needs gear, link and wakefulness, and brake shows the pedal. */
  lemma EveryLamp(cfg: Config, c: Core, dt: u16, id: nat)
    requires c.Valid() && id < LAMP_COUNT
    ensures Step(cfg, c, dt).lamps[id]
         == var r := Step(cfg, c, dt);
            if id == 7 then if c.inputs.brake then On else Off
            else if id == 8 then
              if c.inputs.reverseGear && !c.host.commsLost && r.power.fsm.state != P.Sleep then Wish(r, 8) else Off
            else if PutOut(r, id) then Off else Wish(r, id)
  {
    hide Step, Edges, Managers, Bit, Shown, Wanted;
    var r := Step(cfg, c, dt);
    StepParts(cfg, c, dt);
    ManagersShow(r, id);
    var wanted := Merged(Wanted(r), r.host.request, r.host.mask);
    WishesPass(wanted, SituationOf(r));
    SafetyRules(wanted, SituationOf(r));
  }

  /** So with the load not shed and the lock lamp left to the car, it shows exactly whether
      the doors are locked, asleep or awake. */
  lemma LockLampShowsLocked(cfg: Config, c: Core, dt: u16)
    requires c.Valid() && !Bit(c.host.mask, DOOR_LOCK)
    ensures var r := Step(cfg, c, dt);
            !r.power.ctx.loadShed ==> r.lamps[DOOR_LOCK] == if r.door.fsm.state == D.Locked then On else Off
  {
    hide Step, Bit, Edges, Managers, Wanted, Merged, Arbitrated;
    StepParts(cfg, c, dt);
    EveryLamp(cfg, c, dt, 9);
  }

  // ---------------------------------------------------------------- indicator switches

  lemma EdgesKeepShape(cfg: Config, c: Core, dt: u16)
    requires c.Valid() && LL.Shaped(c.lighting)
    ensures LL.Shaped(Edges(cfg, c, dt).lighting)
  {
    hide Edges, IgnitionEdge, LL.Shaped, L.AfterLight, L.AfterAllOff;
    if !c.memory.firstCycle {
      IgnitionKeepsShape(cfg, c, dt);
      SwitchesKeepShape(IgnitionEdge(cfg, c, dt));
      EdgesOnLighting(cfg, c, dt);
      LL.OpKeepsShape(SwitchEdges(cfg, c, dt).lighting, LL.Next);
    } else {
      FirstEdgesKeepLighting(cfg, c, dt);
    }
  }

  lemma FirstEdgesKeepLighting(cfg: Config, c: Core, dt: u16)
    requires c.Valid() && c.memory.firstCycle
    ensures Edges(cfg, c, dt).lighting == c.lighting
  {
    hide SwitchEdges, DoorEdges, HostLightMode, BrakeEdge;
  }

  lemma EdgesOnLighting(cfg: Config, c: Core, dt: u16)
    requires c.Valid() && !c.memory.firstCycle
    ensures Edges(cfg, c, dt).lighting == PR.Stepped(SwitchEdges(cfg, c, dt).lighting, c.host.lightMode)
  {
    hide SwitchEdges, DoorPressed, DoorHosted, Logged, L.AfterLight;
    SwitchEdgesCarry(cfg, c, dt);
  }

  lemma IgnitionKeepsShape(cfg: Config, c: Core, dt: u16)
    requires c.Valid() && LL.Shaped(c.lighting)
    ensures LL.Shaped(IgnitionEdge(cfg, c, dt).lighting)
  {
    hide LL.Shaped, L.AfterLight, L.AfterAllOff, P.AfterIgnitionOn, P.AfterIgnitionOff, Logged;
    LL.OpKeepsShape(c.lighting, LL.Next);
    LL.OpKeepsShape(c.lighting, LL.AllLightsOff);
  }

  lemma SwitchesKeepShape(c: Core)
    requires LL.Shaped(c.lighting)
    ensures LL.Shaped(HazardEdge(RightEdge(LeftEdge(c))).lighting)
  {
    hide LL.Shaped, L.AfterHazard, LeftEdge, RightEdge, Logged;
    DirectionsKeepShape(c);
    LL.OpKeepsShape(RightEdge(LeftEdge(c)).lighting, LL.HazardSwitch);
  }

  lemma OpKeepsShape(cfg: Config, c: Core, op: Op)
    requires c.Valid() && LL.Shaped(c.lighting)
    ensures LL.Shaped(Do(cfg, c, op).lighting)
  {
    hide Step, Edges, LL.Shaped, L.AfterReset, L.AfterAmbient, P.AfterReset, D.AfterReset, HornReset, SetFault, Popped;
    if op.Cycle? {
      var e := Edges(cfg, c, op.dt);
      EdgesKeepShape(cfg, c, op.dt);
      StepParts(cfg, c, op.dt);
      PR.ManagersOnLights(cfg, e, op.dt);
      LL.OpKeepsShape(e.lighting, LL.Ambient(e.inputs.ambientPermille));
    } else if op.Restart? {
      LL.OpKeepsShape(c.lighting, LL.Restart);
    }
  }

  /** In every run of the core the lights have the shapes of the lighting machine's own runs. */
  lemma {:induction false} CoreIsShaped(cfg: Config, ops: seq<Op>)
    ensures LL.Shaped(Run(cfg, ops).lighting)
  {
    hide Do, LL.Shaped;
    if ops == [] {
      LL.NewIsShaped(cfg);
    } else {
      CoreIsShaped(cfg, ops[..|ops| - 1]);
      OpKeepsShape(cfg, Run(cfg, ops[..|ops| - 1]), ops[|ops| - 1]);
    }
  }

  /** The left switch starts the left indicator, ends it, or replaces the right one; it does
      nothing to the hazards. */
  function LeftSwitched(s: L.IndState, rising: bool): L.IndState {
    if !rising || s == L.Hazard then s else if s == L.Left then L.Idle else L.Left
  }

  function RightSwitched(s: L.IndState, rising: bool): L.IndState {
    if !rising || s == L.Hazard then s else if s == L.Right then L.Idle else L.Right
  }

  /** The hazard switch starts the hazards from anything and ends them to idle. */
  function HazardSwitched(s: L.IndState, rising: bool): L.IndState {
    if !rising then s else if s == L.Hazard then L.Idle else L.Hazard
  }

  /** The rising edges between two cycles' inputs, in the order of the cycle. */
  function AllSwitched(s: L.IndState, now: Inputs, before: Inputs): L.IndState {
    var left := LeftSwitched(s, now.indLeft && !before.indLeft);
    var right := RightSwitched(left, now.indRight && !before.indRight);
    HazardSwitched(right, now.hazard && !before.hazard)
  }

  lemma LeftSwitches(c: Core)
    ensures LeftEdge(c).lighting.indicator.state
         == LeftSwitched(c.lighting.indicator.state, c.inputs.indLeft && !c.memory.previous.indLeft)
    ensures LeftEdge(c).inputs == c.inputs && LeftEdge(c).memory == c.memory
  {
    hide S.Lookup, Logged;
    LL.IndTableDecides(c.lighting.indicator.state, L.LeftPressed, c.lighting.indCtx);
  }

  lemma RightSwitches(c: Core)
    ensures RightEdge(c).lighting.indicator.state
         == RightSwitched(c.lighting.indicator.state, c.inputs.indRight && !c.memory.previous.indRight)
    ensures RightEdge(c).inputs == c.inputs && RightEdge(c).memory == c.memory
  {
    hide S.Lookup, Logged;
    LL.IndTableDecides(c.lighting.indicator.state, L.RightPressed, c.lighting.indCtx);
  }

  lemma HazardSwitches(c: Core)
    requires LL.Shaped(c.lighting)
    ensures HazardEdge(c).lighting.indicator.state
         == HazardSwitched(c.lighting.indicator.state, c.inputs.hazard && !c.memory.previous.hazard)
  {
    hide S.Lookup, Logged;
    LL.IndTableDecides(c.lighting.indicator.state, L.HazardPressed, c.lighting.indCtx);
    LL.IndTableDecides(c.lighting.indicator.state, L.Cancel, c.lighting.indCtx);
  }

  lemma SwitchesSwitch(c: Core)
    requires LL.Shaped(c.lighting)
    ensures HazardEdge(RightEdge(LeftEdge(c))).lighting.indicator.state
         == AllSwitched(c.lighting.indicator.state, c.inputs, c.memory.previous)
  {
    hide LeftEdge, RightEdge, HazardEdge, LL.Shaped, LeftSwitched, RightSwitched, HazardSwitched;
    DirectionsKeepShape(c);
    LeftSwitches(c);
    RightSwitches(LeftEdge(c));
    HazardSwitches(RightEdge(LeftEdge(c)));
  }

  lemma DirectionsKeepShape(c: Core)
    requires LL.Shaped(c.lighting)
    ensures LL.Shaped(RightEdge(LeftEdge(c)).lighting)
  {
    hide LL.Shaped, L.AfterIndicator, Logged;
    LL.OpKeepsShape(c.lighting, LL.Indicate(L.LeftPressed));
    LL.OpKeepsShape(LeftEdge(c).lighting, LL.Indicate(L.RightPressed));
  }

  lemma IgnitionKeepsIndicators(cfg: Config, c: Core, dt: u16)
    requires c.Valid()
    ensures var r := IgnitionEdge(cfg, c, dt);
            && r.lighting.indicator == c.lighting.indicator && r.lighting.indCtx == c.lighting.indCtx
            && r.inputs == c.inputs && r.memory.previous == c.memory.previous
  {
    hide Logged, S.Lookup, P.AfterIgnitionOn, P.AfterIgnitionOff;
  }

  lemma LightsKeepIndicators(l: L.Lighting, steps: bool, permille: u16)
    ensures PR.Stepped(l, steps).indicator == l.indicator
    ensures L.AfterAmbient(l, permille).indicator == l.indicator
  {
    hide S.Lookup;
  }

  /** In every run, after a cycle other than the first the indicators are what the rising
      edges of the three switches make of them, in that order; `EveryLamp` says which lamps
      blink for them. */
  lemma IndicatorsFollowSwitches(cfg: Config, ops: seq<Op>, dt: u16)
    requires !Run(cfg, ops).memory.firstCycle
    ensures Step(cfg, Run(cfg, ops), dt).lighting.indicator.state
         == var c := Run(cfg, ops); AllSwitched(c.lighting.indicator.state, c.inputs, c.memory.previous)
  {
    hide Run, Step, Edges, IgnitionEdge, LeftEdge, RightEdge, HazardEdge, L.AfterAmbient, PR.Stepped, LL.Shaped,
      AllSwitched;
    var c := Run(cfg, ops);
    var e, i := Edges(cfg, c, dt), IgnitionEdge(cfg, c, dt);
    CoreIsShaped(cfg, ops);
    IgnitionKeepsShape(cfg, c, dt);
    IgnitionKeepsIndicators(cfg, c, dt);
    SwitchesSwitch(i);
    EdgesOnLighting(cfg, c, dt);
    LightsKeepIndicators(SwitchEdges(cfg, c, dt).lighting, c.host.lightMode, 0);
    StepParts(cfg, c, dt);
    PR.ManagersOnLights(cfg, e, dt);
    LightsKeepIndicators(e.lighting, false, e.inputs.ambientPermille);
  }
}
