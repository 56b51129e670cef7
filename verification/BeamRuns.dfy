/** Runs in which a host request lights the high beam without the low beam. */
module BeamRuns {
  import opened BcmCore
  import opened BcmTypes
  import opened CoreLaws
  import CR = CoreRuns
  import CT = CoreTimes
  import opened Filters
  import opened Integers
  import L = LightingManager
  import LL = LightingLaws
  import P = PowerManager
  import PL = PowerLaws
  import opened Presses
  import S = StateMachines
  import opened SoftTimers

  // --------------------------------------------------------------- states on the way

  /** A healthy battery, daylight, and the ignition button up or down. */
  const UP: Inputs := NO_INPUTS.(batteryPermille := 1000)

  const DOWN: Inputs := UP.(ignition := true)

  /** Asleep, or waking with `left` milliseconds to go. */
  predicate Powered(p: P.Power, s: P.PowerState, left: u32) {
    && p.fsm.state == s && (s == P.Sleep || s == P.Wake)
    && p.batteryKnown && p.batteryOk == Trigger(300, 350, true) && !p.ctx.loadShed
    && !p.inactivity.running && p.inactivity.Valid()
    && (s == P.Sleep ==> p.transition == IDLE)
    && (s == P.Wake ==> 0 < left <= P.WAKE_MS && p.transition == Timer(P.WAKE_MS, left, false, true))
  }

  /** A mode the driver chose, in daylight. */
  predicate Chosen(l: L.Lighting, s: L.LightState) {
    && l.light.state == s && l.ctx == L.LightContext(false, s != L.LightsOff)
    && l.dark == Trigger(300, 400, false) && l.darkKnown
  }

  function NextMode(s: L.LightState): L.LightState {
    match s
    case LightsOff => L.Parking
    case Parking => L.Drl
    case Drl => L.LowBeam
    case LowBeam => L.HighBeam
    case HighBeam => L.LightsOff
  }

  /** Nothing is pending, and the last cycle saw `seen`. */
  predicate Settled(c: Core, seen: Inputs, light: L.LightState) {
    && c.Valid() && c.inputs == seen && c.memory.previous == seen && !c.memory.firstCycle
    && !c.host.lightMode && !c.host.commsLost && Chosen(c.lighting, light)
  }

  // ------------------------------------------------------------------ parts of a cycle

  lemma PowerRests(p: P.Power)
    requires Powered(p, P.Sleep, 0)
    ensures p.Valid() && Powered(P.AfterUpdate(DEFAULTS, P.AfterBattery(p, 1000), 5), P.Sleep, 0)
  {
    hide S.Lookup;
  }

  lemma PowerWakes(p: P.Power, left: u32)
    requires Powered(p, P.Wake, left) && 5 < left
    ensures p.Valid() && Powered(P.AfterUpdate(DEFAULTS, P.AfterBattery(p, 1000), 5), P.Wake, left - 5)
  {
    hide S.Lookup;
  }

  lemma PowerIsSwitchedOn(p: P.Power)
    requires Powered(p, P.Sleep, 0)
    ensures p.Valid() && Powered(P.AfterIgnitionOn(DEFAULTS, p), P.Wake, 200)
  {
    hide S.Lookup;
    PL.TableDecides(P.Sleep, P.IgnitionOn, p.ctx);
  }

  lemma ModeSteps(l: L.Lighting, s: L.LightState)
    requires Chosen(l, s)
    ensures Chosen(L.AfterLight(l, L.ModeNext), NextMode(s))
  {
    hide S.Lookup;
    LL.TableDecides(s, L.ModeNext, l.ctx);
  }

  lemma DaylightKeepsMode(l: L.Lighting, r: L.Lighting, s: L.LightState)
    requires Chosen(l, s) && r == l.(indicator := r.indicator, indCtx := r.indCtx)
    ensures Chosen(L.AfterAmbient(r, 1000), s)
  {
    hide S.Lookup;
    LL.TableDecides(s, L.AutoOff, l.ctx);
  }

  lemma StepKeepsLightMode(cfg: Config, c: Core, dt: u16)
    requires c.Valid()
    ensures Step(cfg, c, dt).host == Edges(cfg, c, dt).host
  {
    hide Step, Edges, Managers;
    CT.StepKeepsHost(cfg, c, dt);
    CR.ManagersKeepMemory(cfg, Edges(cfg, c, dt), dt);
  }

  /** A cycle after the first in which the button does nothing to the lights. */
  lemma LightsFollowHost(c: Core, light: L.LightState)
    requires c.Valid() && !c.memory.firstCycle && !c.host.commsLost && c.inputs.ambientPermille == 1000
    requires Chosen(c.lighting, light) && IgnitionEdge(DEFAULTS, c, 5).lighting == c.lighting
    ensures Settled(Step(DEFAULTS, c, 5), c.inputs, if c.host.lightMode then NextMode(light) else light)
  {
    hide Step, Edges, Managers, IgnitionEdge, L.AfterLight, L.AfterAmbient, Chosen;
    var e := Edges(DEFAULTS, c, 5);
    StepParts(DEFAULTS, c, 5);
    EdgesOnLights(DEFAULTS, c, 5);
    ManagersOnLights(DEFAULTS, e, 5);
    StepKeepsLightMode(DEFAULTS, c, 5);
    CT.StepSeesInputs(DEFAULTS, c, 5);
    CR.StepClearsFirstCycle(DEFAULTS, c, 5);
    ModeSteps(c.lighting, light);
    DaylightKeepsMode(Stepped(c.lighting, c.host.lightMode), e.lighting,
                      if c.host.lightMode then NextMode(light) else light);
  }

  lemma ButtonKeepsLights(c: Core)
    requires c.Valid() && !c.inputs.ignition
    requires c.memory.previous.ignition ==> !c.memory.longPressFired && c.power.fsm.state != P.Run
    ensures IgnitionEdge(DEFAULTS, c, 5).lighting == c.lighting
  {
    hide P.AfterIgnitionOn, P.AfterIgnitionOff, L.AfterAllOff;
  }

  // -------------------------------------------------------------------------- the run

  lemma RunExtends(ops: seq<Op>, op: Op)
    ensures Run(DEFAULTS, ops + [op]) == Do(DEFAULTS, Run(DEFAULTS, ops), op)
  {
    hide Do;
    assert (ops + [op])[..|ops|] == ops;
  }

  lemma RunIsFresh()
    ensures Run(DEFAULTS, []) == NewCore(DEFAULTS)
  {
  }

  /** The first cycle only takes the inputs in. */
  lemma FirstCycle()
    ensures var c := NewCore(DEFAULTS).(inputs := UP);
            c.Valid() && var r := Step(DEFAULTS, c, 5);
            && Settled(r, UP, L.LightsOff) && Powered(r.power, P.Sleep, 0)
            && r.memory.heldMs == 0 && !r.memory.longPressFired
  {
    hide Step, Edges, Managers;
    var c := NewCore(DEFAULTS).(inputs := UP);
    var e := Edges(DEFAULTS, c, 5);
    StepParts(DEFAULTS, c, 5);
    FirstCycleEdges(c);
    ManagersOnLights(DEFAULTS, e, 5);
    StepKeepsLightMode(DEFAULTS, c, 5);
    CT.StepSeesInputs(DEFAULTS, c, 5);
    CR.StepClearsFirstCycle(DEFAULTS, c, 5);
    FirstStepOnMemory(DEFAULTS, c, 5);
    FirstReadings();
  }

  lemma FirstCycleEdges(c: Core)
    requires c.Valid() && c.memory.firstCycle
    ensures Edges(DEFAULTS, c, 5) == c.(memory := c.memory.(previous := c.inputs, firstCycle := false))
  {
    hide SwitchEdges, DoorEdges, HostLightMode, BrakeEdge;
  }

  lemma FirstReadings()
    ensures Chosen(L.AfterAmbient(L.NewLighting(DEFAULTS), 1000), L.LightsOff)
    ensures Powered(P.AfterUpdate(DEFAULTS, P.AfterBattery(P.NewPower(DEFAULTS), 1000), 5), P.Sleep, 0)
  {
    hide S.Lookup;
  }

  lemma ButtonGoesDown(c: Core)
    requires Settled(c, UP, L.LightsOff) && Powered(c.power, P.Sleep, 0)
    requires c.memory.heldMs == 0 && !c.memory.longPressFired
    ensures var r := Step(DEFAULTS, c.(inputs := DOWN), 5);
            && Settled(r, DOWN, L.LightsOff) && Powered(r.power, P.Sleep, 0) && !r.memory.longPressFired
  {
    hide Step, IgnitionEdge, Chosen, Powered, P.AfterUpdate, P.AfterBattery;
    var d := c.(inputs := DOWN);
    PressOnLighting(DEFAULTS, d, 5);
    PressOnMemory(DEFAULTS, d, 5);
    LightsFollowHost(d, L.LightsOff);
    StepOnMemory(DEFAULTS, d, 5);
    CT.StepOnPower(DEFAULTS, d, 5);
    PowerRests(c.power);
  }

  lemma ButtonComesUp(c: Core)
    requires Settled(c, DOWN, L.LightsOff) && Powered(c.power, P.Sleep, 0) && !c.memory.longPressFired
    ensures var r := Step(DEFAULTS, c.(inputs := UP), 5);
            Settled(r, UP, L.LightsOff) && Powered(r.power, P.Wake, 195)
  {
    hide Step, IgnitionEdge, Chosen, P.AfterUpdate, P.AfterBattery, P.AfterIgnitionOn, P.AfterIgnitionOff;
    var u := c.(inputs := UP);
    ButtonKeepsLights(u);
    LightsFollowHost(u, L.LightsOff);
    CT.StepOnPower(DEFAULTS, u, 5);
    PowerIsSwitchedOn(c.power);
    PowerWakes(P.AfterIgnitionOn(DEFAULTS, c.power), 200);
  }

  lemma WakingCycle(c: Core, light: L.LightState, left: u32, ask: bool)
    requires Settled(c, UP, light) && Powered(c.power, P.Wake, left) && 5 < left
    ensures var r := Step(DEFAULTS, c.(host := c.host.(lightMode := ask)), 5);
            Settled(r, UP, if ask then NextMode(light) else light) && Powered(r.power, P.Wake, left - 5)
  {
    hide Step, IgnitionEdge, Chosen, Powered, P.AfterUpdate, P.AfterBattery, P.AfterIgnitionOn, P.AfterIgnitionOff;
    var a := c.(host := c.host.(lightMode := ask));
    ButtonKeepsLights(a);
    LightsFollowHost(a, light);
    CT.StepOnPower(DEFAULTS, a, 5);
    PowerWakes(c.power, left);
  }

  /** A cycle with new inputs, appended to a run. */
  function Seen(before: seq<Op>, now: Inputs): seq<Op> {
    before + [SetInputs(now)] + [Cycle(5)]
  }

  lemma SeenInputs(before: seq<Op>, now: Inputs)
    ensures Run(DEFAULTS, Seen(before, now)) == Step(DEFAULTS, Run(DEFAULTS, before).(inputs := now), 5)
  {
    hide Step, Run;
    RunExtends(before, SetInputs(now));
    RunExtends(before + [SetInputs(now)], Cycle(5));
  }

  /** A short press of the ignition button wakes the car. */
  function WakeUp(): seq<Op> {
    Seen(Seen(Seen([], UP), DOWN), UP)
  }

  lemma CarWakes()
    ensures var c := Run(DEFAULTS, WakeUp());
            Settled(c, UP, L.LightsOff) && Powered(c.power, P.Wake, 195)
  {
    hide Step, Run, Settled, Powered, Seen;
    var ops1 := Seen([], UP);
    var ops2 := Seen(ops1, DOWN);
    RunIsFresh();
    SeenInputs([], UP);
    FirstCycle();
    SeenInputs(ops1, DOWN);
    ButtonGoesDown(Run(DEFAULTS, ops1));
    SeenInputs(ops2, UP);
    ButtonComesUp(Run(DEFAULTS, ops2));
  }

  /** The host steps the light mode n times, once a cycle. */
  function Stepping(n: nat): seq<Op> {
    if n == 0 then WakeUp() else Stepping(n - 1) + [AskLightMode] + [Cycle(5)]
  }

  function ModeAfter(n: nat): L.LightState {
    if n == 0 then L.LightsOff else NextMode(ModeAfter(n - 1))
  }

  lemma {:induction false} CarSteps(n: nat)
    requires n <= 4
    ensures var c := Run(DEFAULTS, Stepping(n));
            Settled(c, UP, ModeAfter(n)) && Powered(c.power, P.Wake, 195 - 5 * n)
  {
    hide Step, Run, Settled, Powered;
    if n == 0 {
      CarWakes();
    } else {
      var before := Stepping(n - 1);
      CarSteps(n - 1);
      RunExtends(before, AskLightMode);
      RunExtends(before + [AskLightMode], Cycle(5));
      WakingCycle(Run(DEFAULTS, before), ModeAfter(n - 1), 195 - 5 * (n - 1), true);
    }
  }

  lemma RequestIsTaken(ops: seq<Op>, request: Lamps, mask: u16)
    ensures Run(DEFAULTS, ops + [SetHostRequest(request, mask)])
         == Run(DEFAULTS, ops).(host := Run(DEFAULTS, ops).host.(request := request, mask := mask))
  {
    RunExtends(ops, SetHostRequest(request, mask));
  }

  /** The run that splits the beams: wake up, leave the lights off or step them to high beam,
      and set the request. */
  function SplitRun(request: Lamps, mask: u16): seq<Op> {
    Stepping(if Bit(mask, HIGH_BEAM) then 0 else 4) + [SetHostRequest(request, mask)]
  }

  lemma ModesReached()
    ensures ModeAfter(0) == L.LightsOff && ModeAfter(4) == L.HighBeam
  {
    assert ModeAfter(1) == L.Parking && ModeAfter(2) == L.Drl && ModeAfter(3) == L.LowBeam;
  }

  lemma WakingCarSplits(h: Core, light: L.LightState, left: u32)
    requires Settled(h, UP, light) && Powered(h.power, P.Wake, left) && 5 < left
    requires SetsBeamsApart(h.host.request, h.host.mask)
    requires light == if Bit(h.host.mask, HIGH_BEAM) then L.LightsOff else L.HighBeam
    ensures Splits(DEFAULTS, h, 5)
  {
    hide Run, Step, Bit, Edges, Managers;
    WakingCycle(h, light, left, false);
    assert h.(host := h.host.(lightMode := false)) == h;
    StepParts(DEFAULTS, h, 5);
    HighBeamAloneIff(DEFAULTS, h, 5);
  }

  lemma SplitRunSplits(request: Lamps, mask: u16)
    requires SetsBeamsApart(request, mask)
    ensures var c := Run(DEFAULTS, SplitRun(request, mask));
            Splits(DEFAULTS, c, 5) && c.host.request == request && c.host.mask == mask
  {
    hide Run, Step, Bit, Stepping, SetsBeamsApart, Splits, Powered, Chosen;
    var n := if Bit(mask, HIGH_BEAM) then 0 else 4;
    CarSteps(n);
    ModesReached();
    RequestIsTaken(Stepping(n), request, mask);
    WakingCarSplits(Run(DEFAULTS, SplitRun(request, mask)), ModeAfter(n), 195 - 5 * n);
  }

  /** The run ends in a core with this request and mask, and its next cycle splits the beams. */
  predicate SplitAfter(ops: seq<Op>, request: Lamps, mask: u16) {
    var host := Run(DEFAULTS, ops).host;
    Splits(DEFAULTS, Run(DEFAULTS, ops), 5) && host.request == request && host.mask == mask
  }

  /** A host request can split the beams in some run exactly when it sets them apart. */
  lemma HostCanSplitBeamsIff(request: Lamps, mask: u16)
    ensures (exists ops :: SplitAfter(ops, request, mask)) <==> SetsBeamsApart(request, mask)
  {
    hide Splits, Run, SetsBeamsApart, SplitRun;
    if SetsBeamsApart(request, mask) {
      SplitRunSplits(request, mask);
      assert SplitAfter(SplitRun(request, mask), request, mask);
    }
    forall ops | SplitAfter(ops, request, mask)
      ensures SetsBeamsApart(request, mask)
    {
      SplitIsAsked(DEFAULTS, Run(DEFAULTS, ops), 5);
    }
  }

  /** An input: after the short press the host selects the high beam and no other lamp. */
  lemma HostCanSplitBeams()
    ensures SplitAfter(WakeUp() + [SetHostRequest(Dark()[HIGH_BEAM := On], 8)], Dark()[HIGH_BEAM := On], 8)
  {
    hide Splits, Run, WakeUp;
    SplitRunSplits(Dark()[HIGH_BEAM := On], 8);
    assert SplitRun(Dark()[HIGH_BEAM := On], 8) == WakeUp() + [SetHostRequest(Dark()[HIGH_BEAM := On], 8)];
  }
}
