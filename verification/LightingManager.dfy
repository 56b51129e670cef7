/** The lighting machine with its ambient trigger, and the indicator machine. */
module LightingManager {
  import opened BcmTypes
  import opened Filters
  import opened Integers
  import opened StateMachines

  datatype LightState = LightsOff | Parking | Drl | LowBeam | HighBeam

  datatype LightEvent = ModeNext | AllOff | AutoOn | AutoOff

  datatype LightContext = LightContext(autoActive: bool, manual: bool)

  function MarkManual(c: LightContext): LightContext { c.(manual := true) }

  function ClearManual(c: LightContext): LightContext { LightContext(false, false) }

  function MarkAuto(c: LightContext): LightContext { c.(autoActive := true) }

  function ClearAuto(c: LightContext): LightContext { c.(autoActive := false) }

  predicate AutoAllowed(c: LightContext) { !c.manual }

  predicate AutoOwnsLamps(c: LightContext) { c.autoActive }

  type LightRow = Row<LightState, LightEvent, LightContext>

  const LIGHT_TABLE: seq<LightRow> := [
    Row(LightsOff, false, ModeNext, Parking, Always, Do(MarkManual)),
    Row(Parking, false, ModeNext, Drl, Always, Do(MarkManual)),
    Row(Drl, false, ModeNext, LowBeam, Always, Do(MarkManual)),
    Row(LowBeam, false, ModeNext, HighBeam, Always, Do(MarkManual)),
    Row(HighBeam, false, ModeNext, LightsOff, Always, Do(ClearManual)),
    Row(LightsOff, false, AutoOn, LowBeam, When(AutoAllowed), Do(MarkAuto)),
    Row(Parking, false, AutoOn, LowBeam, When(AutoAllowed), Do(MarkAuto)),
    Row(Drl, false, AutoOn, LowBeam, When(AutoAllowed), Do(MarkAuto)),
    Row(LowBeam, false, AutoOff, LightsOff, When(AutoOwnsLamps), Do(ClearAuto)),
    Row(LightsOff, true, AllOff, LightsOff, Always, Do(ClearManual))
  ]

  datatype IndState = Idle | Left | Right | Hazard

  datatype IndEvent = LeftPressed | RightPressed | HazardPressed | Cancel

  datatype IndContext = IndContext(hazardLatched: bool)

  function LatchHazard(c: IndContext): IndContext { c.(hazardLatched := true) }

  function UnlatchHazard(c: IndContext): IndContext { c.(hazardLatched := false) }

  type IndRow = Row<IndState, IndEvent, IndContext>

  const IND_TABLE: seq<IndRow> := [
    Row(Idle, true, HazardPressed, Hazard, Always, Do(LatchHazard)),
    Row(Idle, false, LeftPressed, Left, Always, Nothing),
    Row(Right, false, LeftPressed, Left, Always, Nothing),
    Row(Left, false, LeftPressed, Idle, Always, Nothing),
    Row(Idle, false, RightPressed, Right, Always, Nothing),
    Row(Left, false, RightPressed, Right, Always, Nothing),
    Row(Right, false, RightPressed, Idle, Always, Nothing),
    Row(Idle, true, Cancel, Idle, Always, Do(UnlatchHazard))
  ]

  datatype Lighting = Lighting(
    light: Machine<LightState>, indicator: Machine<IndState>,
    ctx: LightContext, indCtx: IndContext, dark: Trigger, darkKnown: bool)

  function NewLighting(cfg: Config): Lighting {
    Lighting(Machine(LightsOff, 0, 0), Machine(Idle, 0, 0), LightContext(false, false), IndContext(false),
             Trigger(cfg.ambientDark, cfg.ambientLight, false), false)
  }

  function LightOffer(l: Lighting, e: LightEvent): Effect<LightState, LightContext> {
    Lookup(LIGHT_TABLE, 0, l.light.state, e, l.ctx)
  }

  function AfterLight(l: Lighting, e: LightEvent): Lighting {
    l.(light := Applied(l.light, LightOffer(l, e)), ctx := Context(LightOffer(l, e), l.ctx))
  }

  function IndOffer(l: Lighting, e: IndEvent): Effect<IndState, IndContext> {
    Lookup(IND_TABLE, 0, l.indicator.state, e, l.indCtx)
  }

  function AfterIndicator(l: Lighting, e: IndEvent): Lighting {
    l.(indicator := Applied(l.indicator, IndOffer(l, e)), indCtx := Context(IndOffer(l, e), l.indCtx))
  }

  function AfterAllOff(l: Lighting): Lighting {
    var l' := AfterLight(l, AllOff);
    l'.(light := l'.light.(state := LightsOff))
  }

  /** The hazard switch is a toggle. */
  function AfterHazard(l: Lighting): Lighting {
    AfterIndicator(l, if l.indCtx.hazardLatched then Cancel else HazardPressed)
  }

  /** The trigger looks at the complement: it is true when it is dark. */
  function Darkness(permille: u16): u16 {
    if permille > 1000 then 0 else 1000 - permille
  }

  /** The first reading switches the lamps on if it is dark, but never off. */
  function AfterAmbient(l: Lighting, permille: u16): Lighting {
    var t := Switch(l.dark, Darkness(permille));
    var l' := l.(dark := t, darkKnown := true);
    if !l.darkKnown && !t.state then l'
    else AfterLight(l', if t.state then AutoOn else AutoOff)
  }

  /** The ambient trigger is not part of a reset. */
  function AfterReset(l: Lighting): Lighting {
    l.(light := l.light.(state := LightsOff), indicator := l.indicator.(state := Idle),
       ctx := LightContext(false, false), indCtx := IndContext(false), darkKnown := false)
  }

  function LitLights(s: LightState, lamps: Lamps): Lamps {
    match s
    case LightsOff => lamps
    case Parking => lamps[DRL := On]
    case Drl => lamps[DRL := On]
    case LowBeam => lamps[DRL := On][LOW_BEAM := On]
    case HighBeam => lamps[DRL := On][LOW_BEAM := On][HIGH_BEAM := On]
  }

  function LitIndicators(s: IndState, lamps: Lamps): Lamps {
    match s
    case Idle => lamps
    case Left => lamps[IND_LEFT := Blink]
    case Right => lamps[IND_RIGHT := Blink]
    case Hazard => lamps[IND_LEFT := Blink][IND_RIGHT := Blink][HAZARD := Blink]
  }

  function Lit(l: Lighting, lamps: Lamps): Lamps {
    LitIndicators(l.indicator.state, LitLights(l.light.state, lamps))
  }

  class LightingMgr {
    const cfg: Config
    const light: Fsm<LightState, LightEvent, LightContext>
    const indicator: Fsm<IndState, IndEvent, IndContext>
    var ctx: LightContext
    var indCtx: IndContext
    const dark: Hysteresis
    var darkKnown: bool

    ghost const Repr: set<object>

    ghost predicate Valid() {
      && Repr == {this, light, indicator, dark}
      && light.table == LIGHT_TABLE && indicator.table == IND_TABLE
    }

    ghost function Now(): Lighting
      requires Valid()
      reads this, Repr
    {
      Lighting(light.Now(), indicator.Now(), ctx, indCtx, dark.Now(), darkKnown)
    }

    function LightNow(): (s: LightState)
      requires Valid()
      reads this, Repr
      ensures s == Now().light.state
    {
      light.state
    }

    function IndicatorNow(): (s: IndState)
      requires Valid()
      reads this, Repr
      ensures s == Now().indicator.state
    {
      indicator.state
    }

    constructor (config: Config)
      ensures Valid() && cfg == config && this in Repr && fresh(Repr) && Now() == NewLighting(config)
    {
      cfg := config;
      var lights := new Fsm(LIGHT_TABLE, LightsOff);
      var indicators := new Fsm(IND_TABLE, Idle);
      var trigger := new Hysteresis(config.ambientDark, config.ambientLight, false);
      light := lights;
      indicator := indicators;
      ctx := LightContext(false, false);
      indCtx := IndContext(false);
      dark := trigger;
      darkKnown := false;
      Repr := {this, lights, indicators, trigger};
    }

    method DispatchLight(e: LightEvent)
      requires Valid()
      modifies Repr
      ensures Valid() && Now() == AfterLight(old(Now()), e)
    {
      hide Lookup;
      var _, after := light.Dispatch(e, ctx);
      ctx := after;
    }

    method DispatchIndicator(e: IndEvent)
      requires Valid()
      modifies Repr
      ensures Valid() && Now() == AfterIndicator(old(Now()), e)
    {
      hide Lookup;
      var _, after := indicator.Dispatch(e, indCtx);
      indCtx := after;
    }

    method TurnAllOff()
      requires Valid()
      modifies Repr
      ensures Valid() && Now() == AfterAllOff(old(Now()))
    {
      hide Lookup;
      DispatchLight(AllOff);
      light.SetState(LightsOff);
    }

    method UpdateAmbient(permille: u16)
      requires Valid()
      modifies Repr
      ensures Valid() && Now() == AfterAmbient(old(Now()), permille)
    {
      hide Lookup;
      var inverted: u16 := if permille > 1000 then 0 else 1000 - permille;
      var isDark := dark.Update(inverted);
      if !darkKnown {
        darkKnown := true;
        if !isDark { return; }
      }
      if isDark {
        DispatchLight(AutoOn);
      } else {
        DispatchLight(AutoOff);
      }
    }

    method IndicatorHazard()
      requires Valid()
      modifies Repr
      ensures Valid() && Now() == AfterHazard(old(Now()))
    {
      hide Lookup;
      if indCtx.hazardLatched {
        DispatchIndicator(Cancel);
      } else {
        DispatchIndicator(HazardPressed);
      }
    }

    method Apply(out: array<Drive>)
      requires Valid() && out.Length == LAMP_COUNT
      modifies out
      ensures out[..] == Lit(Now(), old(out[..]))
    {
      match light.state {
        case LightsOff =>
        case Parking => out[DRL] := On;
        case Drl => out[DRL] := On;
        case LowBeam =>
          out[DRL] := On;
          out[LOW_BEAM] := On;
        case HighBeam =>
          out[DRL] := On;
          out[LOW_BEAM] := On;
          out[HIGH_BEAM] := On;
      }
      assert out[..] == LitLights(light.state, old(out[..]));
      match indicator.state {
        case Idle =>
        case Left => out[IND_LEFT] := Blink;
        case Right => out[IND_RIGHT] := Blink;
        case Hazard =>
          out[IND_LEFT] := Blink;
          out[IND_RIGHT] := Blink;
          out[HAZARD] := Blink;
      }
    }

    method Reset()
      requires Valid()
      modifies Repr
      ensures Valid() && Now() == AfterReset(old(Now()))
    {
      light.SetState(LightsOff);
      indicator.SetState(Idle);
      ctx := LightContext(false, false);
      indCtx := IndContext(false);
      darkKnown := false;
    }
  }
}
