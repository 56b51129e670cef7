/** What the lighting and indicator machines keep over every run. */
module LightingLaws {
  import opened BcmTypes
  import opened Filters
  import opened Integers
  import opened LightingManager
  import opened StateMachines

  /** The light table as a decision by event and state. */
  function Decision(s: LightState, e: LightEvent, c: LightContext): Effect<LightState, LightContext> {
    match e
    case AllOff => Moved(LightsOff, LightContext(false, false))
    case ModeNext =>
      (match s
       case LightsOff => Moved(Parking, c.(manual := true))
       case Parking => Moved(Drl, c.(manual := true))
       case Drl => Moved(LowBeam, c.(manual := true))
       case LowBeam => Moved(HighBeam, c.(manual := true))
       case HighBeam => Moved(LightsOff, LightContext(false, false)))
    case AutoOn =>
      if s == LowBeam || s == HighBeam then Ignored
      else if c.manual then Refused
      else Moved(LowBeam, c.(autoActive := true))
    case AutoOff =>
      if s != LowBeam then Ignored
      else if !c.autoActive then Refused
      else Moved(LightsOff, c.(autoActive := false))
  }

  lemma UpperRows(s: LightState, e: LightEvent, c: LightContext)
    ensures Lookup(LIGHT_TABLE, 5, s, e, c) == if e == ModeNext then Ignored else Decision(s, e, c)
  {
    LookupEnds(LIGHT_TABLE, s, e, c);
    LookupRow(LIGHT_TABLE, 9, s, e, c);
    LookupRow(LIGHT_TABLE, 8, s, e, c);
    LookupRow(LIGHT_TABLE, 7, s, e, c);
    LookupRow(LIGHT_TABLE, 6, s, e, c);
  }

  lemma TableDecides(s: LightState, e: LightEvent, c: LightContext)
    ensures Lookup(LIGHT_TABLE, 0, s, e, c) == Decision(s, e, c)
  {
    UpperRows(s, e, c);
    LookupRow(LIGHT_TABLE, 4, s, e, c);
    LookupRow(LIGHT_TABLE, 3, s, e, c);
    LookupRow(LIGHT_TABLE, 2, s, e, c);
    LookupRow(LIGHT_TABLE, 1, s, e, c);
  }

  /** The indicator table as a decision: a direction toggles itself and replaces the other,
      and neither gets past the hazards. */
  function IndDecision(s: IndState, e: IndEvent, c: IndContext): Effect<IndState, IndContext> {
    match e
    case HazardPressed => Moved(Hazard, IndContext(true))
    case Cancel => Moved(Idle, IndContext(false))
    case LeftPressed => if s == Hazard then Ignored else Moved(if s == Left then Idle else Left, c)
    case RightPressed => if s == Hazard then Ignored else Moved(if s == Right then Idle else Right, c)
  }

  lemma IndTableDecides(s: IndState, e: IndEvent, c: IndContext)
    ensures Lookup(IND_TABLE, 0, s, e, c) == IndDecision(s, e, c)
  {
    LookupEnds(IND_TABLE, s, e, c);
    LookupRow(IND_TABLE, 7, s, e, c);
    LookupRow(IND_TABLE, 6, s, e, c);
    LookupRow(IND_TABLE, 5, s, e, c);
    LookupRow(IND_TABLE, 4, s, e, c);
    LookupRow(IND_TABLE, 3, s, e, c);
    LookupRow(IND_TABLE, 2, s, e, c);
    LookupRow(IND_TABLE, 1, s, e, c);
  }

  // ---------------------------------------------------------------------- all runs

  datatype Op =
    | Next
    | Ambient(permille: u16)
    | AllLightsOff
    | Indicate(e: IndEvent)
    | HazardSwitch
    | Restart

  function Do(l: Lighting, op: Op): Lighting {
    match op
    case Next => AfterLight(l, ModeNext)
    case Ambient(permille) => AfterAmbient(l, permille)
    case AllLightsOff => AfterAllOff(l)
    case Indicate(e) => if e.LeftPressed? || e.RightPressed? || e.Cancel? then AfterIndicator(l, e) else l
    case HazardSwitch => AfterHazard(l)
    case Restart => AfterReset(l)
  }

  function Run(cfg: Config, ops: seq<Op>): Lighting {
    if ops == [] then NewLighting(cfg) else Do(Run(cfg, ops[..|ops| - 1]), ops[|ops| - 1])
  }

  /** Who owns the lamps: Off by nobody, Parking and Drl by the driver, low beam by exactly
      one of driver and sensor, high beam by the driver. Lamps the sensor owns imply a
      reading. */
  predicate Shaped(l: Lighting) {
    && (match l.light.state
        case LightsOff => !l.ctx.manual && !l.ctx.autoActive
        case Parking => l.ctx.manual && !l.ctx.autoActive
        case Drl => l.ctx.manual && !l.ctx.autoActive
        case LowBeam => l.ctx.manual != l.ctx.autoActive
        case HighBeam => l.ctx.manual)
    && (l.ctx.autoActive ==> l.darkKnown)
    && (l.indCtx.hazardLatched <==> l.indicator.state == Hazard)
  }

  lemma OpKeepsShape(l: Lighting, op: Op)
    requires Shaped(l)
    ensures Shaped(Do(l, op))
  {
    hide Lookup;
    TableDecides(l.light.state, ModeNext, l.ctx);
    TableDecides(l.light.state, AllOff, l.ctx);
    TableDecides(l.light.state, AutoOn, l.ctx);
    TableDecides(l.light.state, AutoOff, l.ctx);
    match op {
      case Indicate(e) => IndTableDecides(l.indicator.state, e, l.indCtx);
      case HazardSwitch =>
        IndTableDecides(l.indicator.state, Cancel, l.indCtx);
        IndTableDecides(l.indicator.state, HazardPressed, l.indCtx);
      case _ =>
    }
  }

  lemma {:induction false} RunIsShaped(cfg: Config, ops: seq<Op>)
    ensures Shaped(Run(cfg, ops))
  {
    hide Do, Shaped;
    if ops == [] {
      NewIsShaped(cfg);
    } else {
      RunIsShaped(cfg, ops[..|ops| - 1]);
      OpKeepsShape(Run(cfg, ops[..|ops| - 1]), ops[|ops| - 1]);
    }
  }

  lemma NewIsShaped(cfg: Config)
    ensures Shaped(NewLighting(cfg))
  {
  }

  // --------------------------------------------------------------- the ambient sensor

  /** One reading: a mode the driver chose stays, and otherwise the lamps follow the
      trigger. */
  lemma ReadingDecides(l: Lighting, permille: u16)
    requires Shaped(l)
    ensures var r := AfterAmbient(l, permille);
            && r.dark == Switch(l.dark, Darkness(permille)) && r.darkKnown
            && r.indicator == l.indicator && r.indCtx == l.indCtx
            && if l.ctx.manual then r.light.state == l.light.state && r.ctx == l.ctx
               else r.light.state == (if r.dark.state then LowBeam else LightsOff) && !r.ctx.manual
  {
    hide Lookup;
    TableDecides(l.light.state, AutoOn, l.ctx);
    TableDecides(l.light.state, AutoOff, l.ctx);
  }

  /** The darkness readings of a run, oldest first; a reset does not end them. */
  function Readings(ops: seq<Op>): seq<u16> {
    if ops == [] then []
    else
      var op := ops[|ops| - 1];
      Readings(ops[..|ops| - 1]) + if op.Ambient? then [Darkness(op.permille)] else []
  }

  lemma TriggerMovesOnlyByReadings(l: Lighting, op: Op)
    ensures Do(l, op).dark == if op.Ambient? then Switch(l.dark, Darkness(op.permille)) else l.dark
  {
    hide Lookup;
  }

  lemma {:induction false} TriggerFollowsReadings(cfg: Config, ops: seq<Op>)
    ensures Run(cfg, ops).dark == SwitchAll(Trigger(cfg.ambientDark, cfg.ambientLight, false), Readings(ops))
  {
    hide Do;
    if ops != [] {
      var before, op := ops[..|ops| - 1], ops[|ops| - 1];
      TriggerFollowsReadings(cfg, before);
      TriggerMovesOnlyByReadings(Run(cfg, before), op);
      var rs := Readings(ops);
      if op.Ambient? {
        assert rs[..|rs| - 1] == Readings(before) && rs[|rs| - 1] == Darkness(op.permille);
      } else {
        assert rs == Readings(before);
      }
    }
  }

  /** In every run: no reading changes a mode the driver chose; after any other reading the
      low beam is on exactly when the last reading since construction outside the band of
      the trigger was dark, and otherwise the lights are off. */
  lemma AmbientLaw(cfg: Config, ops: seq<Op>, permille: u16)
    requires cfg.ambientDark < cfg.ambientLight
    ensures var l, r := Run(cfg, ops), Run(cfg, ops + [Ambient(permille)]);
            if l.ctx.manual then r.light.state == l.light.state && r.ctx == l.ctx
            else
              var dark := LastOutside(cfg.ambientDark, cfg.ambientLight, false, Readings(ops + [Ambient(permille)]));
              r.light.state == if dark then LowBeam else LightsOff
  {
    hide Lookup;
    var all := ops + [Ambient(permille)];
    assert all[..|all| - 1] == ops && all[|all| - 1] == Ambient(permille);
    RunIsShaped(cfg, ops);
    ReadingDecides(Run(cfg, ops), permille);
    TriggerFollowsReadings(cfg, all);
    TriggerRemembers(Trigger(cfg.ambientDark, cfg.ambientLight, false), Readings(all));
  }

  /** No sequence of readings changes a mode the driver chose. */
  lemma {:induction false} ManualModeStays(l: Lighting, readings: seq<u16>)
    requires Shaped(l) && l.ctx.manual
    ensures var r := Fed(l, readings);
            Shaped(r) && r.light.state == l.light.state && r.ctx == l.ctx
  {
    hide Lookup, Do;
    if readings != [] {
      var n := |readings| - 1;
      ManualModeStays(l, readings[..n]);
      ReadingDecides(Fed(l, readings[..n]), readings[n]);
      OpKeepsShape(Fed(l, readings[..n]), Ambient(readings[n]));
      AmbientIsReading(Fed(l, readings[..n]), readings[n]);
    }
  }

  lemma AmbientIsReading(l: Lighting, permille: u16)
    ensures Do(l, Ambient(permille)) == AfterAmbient(l, permille)
  {
  }

  function Fed(l: Lighting, readings: seq<u16>): Lighting {
    if readings == [] then l else AfterAmbient(Fed(l, readings[..|readings| - 1]), readings[|readings| - 1])
  }

  /** What one reading does for any thresholds: they apply to the complement, so it is dark
      up to 1000 - high and light from 1000 - low on. */
  lemma ThresholdsMirror(t: Trigger, permille: u16)
    requires t.low < t.high
    ensures Switch(t, Darkness(permille)).state
         == if permille <= 1000 - t.high then true else if permille >= 1000 - t.low then false else t.state
  {
  }

  /** The settings' own words: dark below the one threshold, light above the other. */
  predicate AsDocumented(t: Trigger, permille: u16) {
    var dark := Switch(t, Darkness(permille)).state;
    (permille < t.low ==> dark) && (permille > t.high ==> !dark)
  }

  /** The code does what the settings say for all readings exactly when the thresholds are
      each other's complement, give or take one; a low threshold of 0 promises no dark. */
  lemma DocumentedIffMirrored(low: u16, high: u16)
    requires low < high
    ensures (forall state: bool, permille: u16 :: AsDocumented(Trigger(low, high, state), permille))
       <==> 999 <= low + high && (low == 0 || low + high <= 1001)
  {
    if 999 <= low + high && (low == 0 || low + high <= 1001) {
      forall state: bool, permille: u16
        ensures AsDocumented(Trigger(low, high, state), permille)
      {
        ThresholdsMirror(Trigger(low, high, state), permille);
      }
    } else if low + high < 999 {
      assert !AsDocumented(Trigger(low, high, true), high + 1);
    } else {
      assert !AsDocumented(Trigger(low, high, false), low - 1);
    }
  }

  /** With the default thresholds, 300 and 400, dark is a reading of at most 600 and light
      one of at least 700; so 500, documented as light, switches the low beam on. */
  lemma DefaultThresholds(t: Trigger, permille: u16)
    requires t.low == DEFAULTS.ambientDark && t.high == DEFAULTS.ambientLight
    ensures Switch(t, Darkness(permille)).state
         == if permille <= 600 then true else if permille >= 700 then false else t.state
    ensures permille == 500 ==> !AsDocumented(t, permille)
  {
    ThresholdsMirror(t, permille);
  }

  // -------------------------------------------------------------------- indicators

  /** While the hazards are on, direction presses change nothing; the hazard switch returns
      to idle and from anything else to hazards. */
  lemma HazardsWin(cfg: Config, ops: seq<Op>, e: IndEvent)
    requires e.LeftPressed? || e.RightPressed?
    ensures var l := Run(cfg, ops);
            && (l.indicator.state == Hazard ==> AfterIndicator(l, e) == l)
            && AfterHazard(l).indicator.state == if l.indicator.state == Hazard then Idle else Hazard
  {
    hide Lookup;
    var l := Run(cfg, ops);
    RunIsShaped(cfg, ops);
    IndTableDecides(l.indicator.state, e, l.indCtx);
    IndTableDecides(l.indicator.state, Cancel, l.indCtx);
    IndTableDecides(l.indicator.state, HazardPressed, l.indCtx);
  }

  /** Five mode steps from a mode the driver controls come back to where they started. */
  lemma ModeCycle(l: Lighting)
    requires Shaped(l) && !l.ctx.autoActive
    ensures var l2 := AfterLight(AfterLight(l, ModeNext), ModeNext);
            var r := AfterLight(AfterLight(AfterLight(l2, ModeNext), ModeNext), ModeNext);
            r.light.state == l.light.state && r.ctx == l.ctx
  {
    hide Lookup;
    var l1 := AfterLight(l, ModeNext);
    TableDecides(l.light.state, ModeNext, l.ctx);
    var l2 := AfterLight(l1, ModeNext);
    TableDecides(l1.light.state, ModeNext, l1.ctx);
    var l3 := AfterLight(l2, ModeNext);
    TableDecides(l2.light.state, ModeNext, l2.ctx);
    var l4 := AfterLight(l3, ModeNext);
    TableDecides(l3.light.state, ModeNext, l3.ctx);
    TableDecides(l4.light.state, ModeNext, l4.ctx);
  }

  // ------------------------------------------------------------------ all off, reset

  /** Forcing the lights off ends any mode and anybody's hold on it, and leaves indicators and
      trigger alone. */
  lemma AllOffClears(l: Lighting)
    ensures var r := AfterAllOff(l);
            && r.light.state == LightsOff && !r.ctx.manual && !r.ctx.autoActive
            && r.indicator == l.indicator && r.indCtx == l.indCtx && r.dark == l.dark && r.darkKnown == l.darkKnown
  {
    TableDecides(l.light.state, AllOff, l.ctx);
  }

  /** A reset turns everything off and forgets that there was a reading; the ambient trigger
      keeps its state. */
  lemma ResetTurnsOff(l: Lighting)
    ensures var r := AfterReset(l);
            && r.light == Machine(LightsOff, l.light.transitions, l.light.blocked)
            && r.indicator == Machine(Idle, l.indicator.transitions, l.indicator.blocked)
            && r.ctx == LightContext(false, false) && !r.indCtx.hazardLatched && !r.darkKnown && r.dark == l.dark
  {
  }
}
