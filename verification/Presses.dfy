/** What a press of the ignition button does: a long one steps the lights once, a short one
    toggles the power. */
module Presses {
  import opened BcmCore
  import opened BcmTypes
  import opened Carried
  import opened CoreLaws
  import CR = CoreRuns
  import opened Integers
  import opened LampArbiter
  import D = DoorManager
  import L = LightingManager
  import P = PowerManager
  import S = StateMachines

  // ----------------------------------------------------------- the 16-bit hold time

  /** Some cycle of the hold finds the hold time, as the core counts it, at or over the
      threshold. */
  predicate LongEnough(threshold: u16, dts: seq<u16>) {
    dts != [] && (LongEnough(threshold, dts[..|dts| - 1]) || threshold <= Wrap16(Sum(dts)))
  }

  lemma LongEnoughExtends(threshold: u16, dts: seq<u16>, dt: u16)
    ensures Sum(dts + [dt]) == Sum(dts) + dt
    ensures LongEnough(threshold, dts + [dt])
       <==> LongEnough(threshold, dts) || threshold <= Wrap16(Sum(dts) + dt)
  {
    hide Wrap16;
    assert (dts + [dt])[..|dts|] == dts;
  }

  /** If no cycle is longer than the threshold leaves room for, a hold is long exactly when
      its cycles add up to the threshold. */
  lemma {:induction false} LongMeansLong(threshold: u16, dts: seq<u16>)
    requires dts != []
    requires forall i :: 0 <= i < |dts| ==> dts[i] <= U16_LIMIT - threshold
    ensures LongEnough(threshold, dts) <==> threshold <= Sum(dts)
  {
    var n := |dts| - 1;
    assert dts == dts[..n] + [dts[n]];
    LongEnoughExtends(threshold, dts[..n], dts[n]);
    if n > 0 {
      LongMeansLong(threshold, dts[..n]);
    }
  }

  predicate AtMost(longest: u16, dts: seq<u16>) {
    forall i :: 0 <= i < |dts| ==> dts[i] <= longest
  }

  /** The hold counts as long exactly when its cycles add up to the threshold. */
  predicate Judged(threshold: u16, dts: seq<u16>) {
    LongEnough(threshold, dts) <==> threshold <= Sum(dts)
  }

  /** Cycles of at most `longest` that add up to `total`. */
  function Fill(total: nat, longest: u16): seq<u16>
    requires 0 < longest
  {
    if total == 0 then []
    else if total <= longest then [total]
    else Fill(total - longest, longest) + [longest]
  }

  lemma {:induction false} FillAddsUp(total: nat, longest: u16)
    requires 0 < longest
    ensures Sum(Fill(total, longest)) == total && AtMost(longest, Fill(total, longest))
  {
    if longest < total {
      FillAddsUp(total - longest, longest);
      LongEnoughExtends(0, Fill(total - longest, longest), longest);
    }
  }

  lemma {:induction false} ShortTotalIsShort(threshold: u16, dts: seq<u16>)
    requires Sum(dts) < threshold
    ensures !LongEnough(threshold, dts)
  {
    if dts != [] {
      ShortTotalIsShort(threshold, dts[..|dts| - 1]);
    }
  }

  /** A hold of 65536 ms: one short of the threshold, then up to where the counter wraps. */
  function LostHold(threshold: u16, longest: u16): seq<u16>
    requires 2 <= threshold && U16_LIMIT - threshold < longest
  {
    Fill(threshold - 1, longest) + [U16_LIMIT - threshold + 1]
  }

  /** A hold of 65536 ms that the wrapping counter never shows as long. */
  lemma LongPressCanBeLost(threshold: u16, longest: u16)
    requires 2 <= threshold && U16_LIMIT - threshold < longest
    ensures var dts := LostHold(threshold, longest);
            AtMost(longest, dts) && Sum(dts) == U16_LIMIT && !LongEnough(threshold, dts)
  {
    hide Fill, Sum, LongEnough, Wrap16;
    var start := Fill(threshold - 1, longest);
    FillAddsUp(threshold - 1, longest);
    ShortTotalIsShort(threshold, start);
    LongEnoughExtends(threshold, start, U16_LIMIT - threshold + 1);
    assert Wrap16(U16_LIMIT) == 0 by { WrapsToZero(); }
  }

  lemma WrapsToZero()
    ensures Wrap16(U16_LIMIT) == 0
  {
  }

  /** Holds are judged by their length for every cutting into cycles of at most `longest`
      exactly when the last cycle short of the threshold cannot carry the counter past its
      end; below 2 there is no cycle short of the threshold. */
  lemma HoldsAreJudgedIff(threshold: u16, longest: u16)
    ensures (forall dts :: dts != [] && AtMost(longest, dts) ==> Judged(threshold, dts))
       <==> threshold <= 1 || longest <= U16_LIMIT - threshold
  {
    if threshold <= 1 || longest <= U16_LIMIT - threshold {
      forall dts | dts != [] && AtMost(longest, dts)
        ensures Judged(threshold, dts)
      {
        LongMeansLong(threshold, dts);
      }
    } else {
      LongPressCanBeLost(threshold, longest);
      assert !Judged(threshold, LostHold(threshold, longest));
    }
  }

  // --------------------------------------------------------------------- the button

  /** The button is down and the hold has not been counted yet. */
  predicate JustPressed(c: Core) {
    c.inputs.ignition && c.memory.heldMs == 0 && !c.memory.longPressFired && !c.memory.firstCycle
  }

  /** Nothing during the hold lets go of the button or restarts the core. */
  predicate Holding(ops: seq<Op>) {
    forall i :: 0 <= i < |ops| ==> !ops[i].Restart? && (ops[i].SetInputs? ==> ops[i].inputs.ignition)
  }

  lemma StepOnMemory(cfg: Config, c: Core, dt: u16)
    requires c.Valid() && !c.memory.firstCycle
    ensures var r, pressed := Step(cfg, c, dt).memory, IgnitionEdge(cfg, c, dt).memory;
            && r.heldMs == pressed.heldMs && r.longPressFired == pressed.longPressFired
            && !r.firstCycle && r.previous == c.inputs
  {
    hide Edges, Managers, IgnitionEdge, FaultReports, LampsSet, HornTick, DoorReports, Step;
    StepKeepsEdgeMemory(cfg, c, dt);
    EdgesOnMemory(cfg, c, dt);
    IgnitionKeepsCycle(cfg, c, dt);
    CR.ManagersKeepMemory(cfg, Edges(cfg, c, dt), dt);
  }

  lemma StepKeepsEdgeMemory(cfg: Config, c: Core, dt: u16)
    requires c.Valid()
    ensures var m, r := Managers(cfg, Edges(cfg, c, dt), dt).memory, Step(cfg, c, dt).memory;
            && r.heldMs == m.heldMs && r.longPressFired == m.longPressFired
            && r.firstCycle == m.firstCycle && r.previous == m.previous
  {
    hide Edges, Managers, Arbitrated, Merged, Mirrored, Chirped, HornTick, LoggedIf;
  }

  lemma EdgesOnMemory(cfg: Config, c: Core, dt: u16)
    requires c.Valid() && !c.memory.firstCycle
    ensures Edges(cfg, c, dt).memory == IgnitionEdge(cfg, c, dt).memory.(previous := c.inputs)
  {
    hide IgnitionEdge, DoorPressed, DoorHosted, Logged, L.AfterLight, L.AfterIndicator, L.AfterHazard;
    SwitchEdgesCarry(cfg, c, dt);
  }

  lemma IgnitionKeepsCycle(cfg: Config, c: Core, dt: u16)
    requires c.Valid()
    ensures IgnitionEdge(cfg, c, dt).memory.firstCycle == c.memory.firstCycle
  {
    hide Logged, L.AfterLight, L.AfterAllOff, P.AfterIgnitionOff, P.AfterIgnitionOn;
  }

  lemma PressOnMemory(cfg: Config, c: Core, dt: u16)
    requires c.Valid() && c.inputs.ignition
    ensures var r := IgnitionEdge(cfg, c, dt).memory;
            && r.heldMs == Wrap16(c.memory.heldMs + dt)
            && (r.longPressFired <==> c.memory.longPressFired || cfg.longPress <= r.heldMs)
  {
    hide Logged, L.AfterLight;
  }

  lemma PressOnLighting(cfg: Config, c: Core, dt: u16)
    requires c.Valid() && c.inputs.ignition
    ensures var r := IgnitionEdge(cfg, c, dt);
            && r.power == c.power
            && r.lighting == if !c.memory.longPressFired && cfg.longPress <= Wrap16(c.memory.heldMs + dt)
                             then L.AfterLight(c.lighting, L.ModeNext) else c.lighting
  {
    hide Logged, L.AfterLight;
  }

  lemma WrapAdds(a: nat, b: nat)
    ensures Wrap16(Wrap16(a) + b) == Wrap16(a + b)
  {
    ModuloAdds(U16_LIMIT, a, b);
  }

  predicate Measured(cfg: Config, c: Core, dts: seq<u16>) {
    && c.inputs.ignition && !c.memory.firstCycle
    && c.memory.heldMs == Wrap16(Sum(dts))
    && (c.memory.longPressFired <==> LongEnough(cfg.longPress, dts))
  }

  lemma CycleIsMeasured(cfg: Config, c: Core, dts: seq<u16>, dt: u16)
    requires c.Valid() && Measured(cfg, c, dts)
    ensures Measured(cfg, Step(cfg, c, dt), dts + [dt])
  {
    hide Step, Edges, Managers, IgnitionEdge, LongEnough;
    StepOnMemory(cfg, c, dt);
    PressOnMemory(cfg, c, dt);
    StepKeepsInputs(cfg, c, dt);
    LongEnoughExtends(cfg.longPress, dts, dt);
    WrapAdds(Sum(dts), dt);
    assert (dts + [dt])[..|dts|] == dts;
  }

  lemma StepKeepsInputs(cfg: Config, c: Core, dt: u16)
    requires c.Valid()
    ensures Step(cfg, c, dt).inputs == c.inputs
  {
    hide Step, Edges, Managers;
    StepParts(cfg, c, dt);
  }

  lemma OpIsMeasured(cfg: Config, c: Core, dts: seq<u16>, op: Op)
    requires c.Valid() && Measured(cfg, c, dts)
    requires !op.Restart? && (op.SetInputs? ==> op.inputs.ignition)
    ensures Measured(cfg, Do(cfg, c, op), if op.Cycle? then dts + [op.dt] else dts)
  {
    hide Step, LongEnough, SetFault, Popped;
    if op.Cycle? {
      CycleIsMeasured(cfg, c, dts, op.dt);
    }
  }

  /** Throughout a hold, whatever else happens in it, the core knows the wrapped total of
      its cycles and whether that has been long enough. */
  lemma {:induction false} HoldIsMeasured(cfg: Config, c: Core, ops: seq<Op>)
    requires c.Valid() && JustPressed(c) && Holding(ops)
    ensures Measured(cfg, Later(cfg, c, ops), Times(ops))
  {
    hide Do;
    if ops != [] {
      var n := |ops| - 1;
      hide Measured;
      HoldIsMeasured(cfg, c, ops[..n]);
      OpIsMeasured(cfg, Later(cfg, c, ops[..n]), Times(ops[..n]), ops[n]);
      assert Times(ops[..n]) + [] == Times(ops[..n]);
    }
  }

  lemma NextIsMeasured(cfg: Config, c: Core, dts: seq<u16>, dt: u16)
    requires c.Valid() && Measured(cfg, c, dts)
    ensures !c.memory.longPressFired && cfg.longPress <= Wrap16(c.memory.heldMs + dt)
       <==> !LongEnough(cfg.longPress, dts) && LongEnough(cfg.longPress, dts + [dt])
  {
    hide LongEnough, Wrap16;
    LongEnoughExtends(cfg.longPress, dts, dt);
    WrapAdds(Sum(dts), dt);
  }

  /** The condition under which a cycle's ignition edge steps the lights. */
  predicate Fires(cfg: Config, c: Core, dt: u16) {
    && c.inputs.ignition && !c.memory.firstCycle
    && !c.memory.longPressFired && cfg.longPress <= Wrap16(c.memory.heldMs + dt)
  }

  /** The light machine's share of the lighting manager, without the indicators. */
  datatype LightPart = LightPart(light: L.LightState, ctx: L.LightContext)

  function LightsOf(l: L.Lighting): LightPart {
    LightPart(l.light.state, l.ctx)
  }

  /** The mode steps of one cycle. */
  function Stepped(l: L.Lighting, steps: bool): L.Lighting {
    if steps then L.AfterLight(l, L.ModeNext) else l
  }

  lemma IndicatorsKeepLights(c: Core)
    ensures var r := HazardEdge(RightEdge(LeftEdge(c)));
            && r.lighting.light == c.lighting.light && r.lighting.ctx == c.lighting.ctx
            && r.lighting.dark == c.lighting.dark && r.lighting.darkKnown == c.lighting.darkKnown
            && r.power == c.power && r.inputs == c.inputs && r.host == c.host
  {
    hide Logged, L.IndOffer;
  }

  lemma SameLightsStep(l: L.Lighting, r: L.Lighting, steps: bool)
    requires r == l.(indicator := r.indicator, indCtx := r.indCtx)
    ensures Stepped(r, steps) == Stepped(l, steps).(indicator := r.indicator, indCtx := r.indCtx)
  {
    hide S.Lookup;
  }

  lemma SameLightsRead(l: L.Lighting, r: L.Lighting, permille: u16)
    requires r == l.(indicator := r.indicator, indCtx := r.indCtx)
    ensures LightsOf(L.AfterAmbient(r, permille)) == LightsOf(L.AfterAmbient(l, permille))
  {
    hide S.Lookup;
  }

  /** A cycle with the button down, on lights and power: the lights step if the hold has
      just become long, once more if the host asked, and then follow the sensor; the power
      sees only its battery reading and the time. */
  lemma HeldCycle(cfg: Config, c: Core, dt: u16)
    requires c.Valid() && c.inputs.ignition && !c.memory.firstCycle
    ensures var r := Step(cfg, c, dt);
            && LightsOf(r.lighting) == LightsOf(L.AfterAmbient(
                 Stepped(Stepped(c.lighting, Fires(cfg, c, dt)), c.host.lightMode), c.inputs.ambientPermille))
            && r.power == P.AfterUpdate(cfg, P.AfterBattery(c.power, c.inputs.batteryPermille), dt)
  {
    hide Step, Edges, Managers;
    StepParts(cfg, c, dt);
    HeldEdges(cfg, c, dt);
    var e := Edges(cfg, c, dt);
    var l := Stepped(Stepped(c.lighting, Fires(cfg, c, dt)), c.host.lightMode);
    SameLightsRead(l, e.lighting, c.inputs.ambientPermille);
    ManagersOnLights(cfg, e, dt);
  }

  lemma ManagersOnLights(cfg: Config, c: Core, dt: u16)
    requires c.Valid()
    ensures Managers(cfg, c, dt).lighting == L.AfterAmbient(c.lighting, c.inputs.ambientPermille)
    ensures Managers(cfg, c, dt).power == P.AfterUpdate(cfg, P.AfterBattery(c.power, c.inputs.batteryPermille), dt)
  {
    hide L.AfterAmbient, P.AfterUpdate, P.AfterBattery, D.AfterUpdate;
  }

  /** What the edges of a cycle do to lights and power: what the ignition button does, then
      the host's light step. */
  lemma EdgesOnLights(cfg: Config, c: Core, dt: u16)
    requires c.Valid() && !c.memory.firstCycle
    ensures var e, i := Edges(cfg, c, dt), IgnitionEdge(cfg, c, dt);
            && e.power == i.power && e.inputs == c.inputs && !e.host.lightMode
            && e.lighting == Stepped(i.lighting, c.host.lightMode).(
                               indicator := e.lighting.indicator, indCtx := e.lighting.indCtx)
  {
    hide IgnitionEdge, LeftEdge, RightEdge, HazardEdge, DoorPressed, DoorHosted, Logged, L.AfterLight;
    var c1 := IgnitionEdge(cfg, c, dt);
    IndicatorsKeepLights(c1);
    IgnitionKeepsRest(cfg, c, dt);
    SameLightsStep(c1.lighting, HazardEdge(RightEdge(LeftEdge(c1))).lighting, c.host.lightMode);
  }

  lemma HeldEdges(cfg: Config, c: Core, dt: u16)
    requires c.Valid() && c.inputs.ignition && !c.memory.firstCycle
    ensures var e := Edges(cfg, c, dt);
            && e.power == c.power && e.inputs == c.inputs
            && e.lighting == Stepped(Stepped(c.lighting, Fires(cfg, c, dt)), c.host.lightMode).(
                               indicator := e.lighting.indicator, indCtx := e.lighting.indCtx)
  {
    hide Edges, IgnitionEdge, L.AfterLight;
    PressOnLighting(cfg, c, dt);
    EdgesOnLights(cfg, c, dt);
  }

  lemma IgnitionKeepsRest(cfg: Config, c: Core, dt: u16)
    requires c.Valid()
    ensures IgnitionEdge(cfg, c, dt).inputs == c.inputs && IgnitionEdge(cfg, c, dt).host == c.host
  {
    hide Logged, L.AfterLight, L.AfterAllOff, P.AfterIgnitionOff, P.AfterIgnitionOn;
  }

  /** How many cycles of a hold step the lights by the button. */
  function Firings(cfg: Config, c: Core, ops: seq<Op>): nat
    requires c.Valid()
  {
    if ops == [] then 0
    else
      var n := |ops| - 1;
      Firings(cfg, c, ops[..n])
      + if ops[n].Cycle? && Fires(cfg, Later(cfg, c, ops[..n]), ops[n].dt) then 1 else 0
  }

  /** Over a whole hold, whatever else happens in it, the button steps the lights once if
      the hold gets long enough and not at all otherwise. */
  lemma {:induction false} LongPressStepsOnce(cfg: Config, c: Core, ops: seq<Op>)
    requires c.Valid() && JustPressed(c) && Holding(ops)
    ensures Firings(cfg, c, ops) == if LongEnough(cfg.longPress, Times(ops)) then 1 else 0
  {
    hide Measured, Later, LongEnough;
    if ops == [] {
      assert !LongEnough(cfg.longPress, []) by { ShortTotal(cfg.longPress); }
    } else {
      var n := |ops| - 1;
      LongPressStepsOnce(cfg, c, ops[..n]);
      HoldIsMeasured(cfg, c, ops[..n]);
      assert Times(ops[..n]) + [] == Times(ops[..n]);
      if ops[n].Cycle? {
        MeasuredFires(cfg, Later(cfg, c, ops[..n]), Times(ops[..n]), ops[n].dt);
      }
    }
  }

  lemma ShortTotal(threshold: u16)
    ensures !LongEnough(threshold, [])
  {
  }

  lemma MeasuredFires(cfg: Config, c: Core, dts: seq<u16>, dt: u16)
    requires c.Valid() && Measured(cfg, c, dts)
    ensures Fires(cfg, c, dt) <==> !LongEnough(cfg.longPress, dts) && LongEnough(cfg.longPress, dts + [dt])
    ensures LongEnough(cfg.longPress, dts) ==> LongEnough(cfg.longPress, dts + [dt])
  {
    hide LongEnough, Wrap16;
    NextIsMeasured(cfg, c, dts, dt);
    LongEnoughExtends(cfg.longPress, dts, dt);
  }

  function Cycles(dts: seq<u16>): seq<Op> {
    seq(|dts|, i requires 0 <= i < |dts| => Cycle(dts[i]))
  }

  lemma {:induction false} TimesOfCycles(dts: seq<u16>)
    ensures Times(Cycles(dts)) == dts
  {
    if dts != [] {
      var n := |dts| - 1;
      TimesOfCycles(dts[..n]);
      assert Cycles(dts)[..n] == Cycles(dts[..n]);
      assert dts[..n] + [dts[n]] == dts;
    }
  }

  /** The lost hold in the core: for every threshold of at least 2 and every longest cycle
      over the bound, some 65536 ms of cycles, none longer, leave a pressed button without
      its long press. */
  lemma CoreLosesLongPress(cfg: Config, c: Core, longest: u16)
    requires c.Valid() && JustPressed(c)
    requires 2 <= cfg.longPress && U16_LIMIT - cfg.longPress < longest
    ensures var ops := Cycles(LostHold(cfg.longPress, longest));
            && Holding(ops) && AtMost(longest, Times(ops)) && Sum(Times(ops)) == U16_LIMIT
            && Firings(cfg, c, ops) == 0 && !Later(cfg, c, ops).memory.longPressFired
  {
    hide Later, LongEnough, Firings, LostHold, Sum;
    var dts := LostHold(cfg.longPress, longest);
    LongPressCanBeLost(cfg.longPress, longest);
    TimesOfCycles(dts);
    LongPressStepsOnce(cfg, c, Cycles(dts));
    HoldIsMeasured(cfg, c, Cycles(dts));
  }

  /** Letting go after a hold that was not long enough toggles the power, and switching off
      clears the lights; after a long one it changes neither. Either way the next press
      starts from nothing. */
  lemma ReleaseTogglesIffShort(cfg: Config, c: Core, ops: seq<Op>, now: Inputs, dt: u16)
    requires c.Valid() && JustPressed(c) && Holding(ops)
    requires !now.ignition && Later(cfg, c, ops).memory.previous.ignition
    ensures var h := Later(cfg, c, ops).(inputs := now);
            var r := IgnitionEdge(cfg, h, dt);
            var short := !LongEnough(cfg.longPress, Times(ops));
            var running := h.power.fsm.state == P.Run;
            && r.power == (if !short then h.power
                           else if running then P.AfterIgnitionOff(h.power) else P.AfterIgnitionOn(cfg, h.power))
            && r.lighting == (if short && running then L.AfterAllOff(h.lighting) else h.lighting)
            && r.memory.heldMs == 0 && !r.memory.longPressFired
  {
    hide LongEnough, Logged, L.AfterAllOff, P.AfterIgnitionOff, P.AfterIgnitionOn;
    HoldIsMeasured(cfg, c, ops);
  }

  // ------------------------------------------------------------- where presses begin

  /** With the button up the hold counter is clear, so every press begins as JustPressed. */
  predicate Rested(c: Core) {
    !c.memory.previous.ignition ==> c.memory.heldMs == 0 && !c.memory.longPressFired
  }

  lemma FirstStepOnMemory(cfg: Config, c: Core, dt: u16)
    requires c.Valid() && c.memory.firstCycle
    ensures var r := Step(cfg, c, dt).memory;
            r.heldMs == c.memory.heldMs && r.longPressFired == c.memory.longPressFired && r.previous == c.inputs
  {
    hide Edges, Managers, Step;
    StepKeepsEdgeMemory(cfg, c, dt);
    CR.ManagersKeepMemory(cfg, Edges(cfg, c, dt), dt);
    FirstEdges(cfg, c, dt);
  }

  lemma FirstEdges(cfg: Config, c: Core, dt: u16)
    requires c.Valid() && c.memory.firstCycle
    ensures Edges(cfg, c, dt).memory == c.memory.(previous := c.inputs, firstCycle := false)
  {
    hide SwitchEdges, DoorEdges, HostLightMode, BrakeEdge;
  }

  lemma ReleaseOnMemory(cfg: Config, c: Core, dt: u16)
    requires c.Valid() && !c.inputs.ignition && Rested(c)
    ensures var r := IgnitionEdge(cfg, c, dt).memory;
            r.heldMs == 0 && !r.longPressFired
  {
    hide Logged, L.AfterAllOff, P.AfterIgnitionOff, P.AfterIgnitionOn;
  }

  /** Nothing has been held before the first cycle either. */
  predicate Unheld(c: Core) {
    c.memory.firstCycle ==> c.memory.heldMs == 0 && !c.memory.longPressFired
  }

  lemma OpKeepsRested(cfg: Config, c: Core, op: Op)
    requires c.Valid() && Rested(c) && Unheld(c)
    ensures Rested(Do(cfg, c, op)) && Unheld(Do(cfg, c, op))
  {
    hide Step, IgnitionEdge, L.AfterReset, D.AfterReset, P.AfterReset, HornReset, SetFault, Popped;
    if op.Cycle? {
      CR.StepClearsFirstCycle(cfg, c, op.dt);
      if c.memory.firstCycle {
        FirstStepOnMemory(cfg, c, op.dt);
      } else {
        StepOnMemory(cfg, c, op.dt);
        if !c.inputs.ignition {
          ReleaseOnMemory(cfg, c, op.dt);
        }
      }
    }
  }

  /** In every run, a button that was up in the last cycle and is down now begins a hold. */
  lemma {:induction false} EveryPressBegins(cfg: Config, ops: seq<Op>)
    ensures var c := Run(cfg, ops);
            && Rested(c) && Unheld(c)
            && (c.inputs.ignition && !c.memory.previous.ignition && !c.memory.firstCycle ==> JustPressed(c))
  {
    hide Do;
    if ops != [] {
      EveryPressBegins(cfg, ops[..|ops| - 1]);
      OpKeepsRested(cfg, Run(cfg, ops[..|ops| - 1]), ops[|ops| - 1]);
    }
  }
}
