/** What the control cycle keeps over every run. */
module CoreLaws {
  import opened BcmCore
  import opened BcmTypes
  import opened Carried
  import opened Integers
  import opened LampArbiter
  import D = DoorManager
  import L = LightingManager
  import P = PowerManager

  /** Everything the application does to a core, in any order. */
  datatype Op =
    | SetInputs(inputs: Inputs)
    | SetCommsLost(lost: bool)
    | SetHostRequest(request: Lamps, mask: u16)
    | AskLock
    | AskUnlock
    | AskLightMode
    | RaiseFault(code: Dtc)
    | ClearFaults
    | TakeRecord
    | Cycle(dt: u16)
    | Restart

  function Do(cfg: Config, c: Core, op: Op): (r: Core)
    requires c.Valid()
    ensures r.Valid()
  {
    hide Step, AfterReset, SetFault;
    match op
    case SetInputs(inputs) => c.(inputs := inputs)
    case SetCommsLost(lost) => c.(host := c.host.(commsLost := lost))
    case SetHostRequest(request, mask) => c.(host := c.host.(request := request, mask := mask))
    case AskLock => c.(host := c.host.(lock := true))
    case AskUnlock => c.(host := c.host.(unlock := true))
    case AskLightMode => c.(host := c.host.(lightMode := true))
    case RaiseFault(code) => c.(faults := SetFault(c.faults, code))
    case ClearFaults => c.(faults := [])
    case TakeRecord => c.(log := Popped(c.log))
    case Cycle(dt) => Step(cfg, c, dt)
    case Restart => AfterReset(c)
  }

  function Run(cfg: Config, ops: seq<Op>): (r: Core)
    ensures r.Valid()
  {
    hide Do;
    if ops == [] then NewCore(cfg) else Do(cfg, Run(cfg, ops[..|ops| - 1]), ops[|ops| - 1])
  }

  /** The core after further operations. */
  function Later(cfg: Config, c: Core, ops: seq<Op>): (r: Core)
    requires c.Valid()
    ensures r.Valid()
  {
    hide Do;
    if ops == [] then c else Do(cfg, Later(cfg, c, ops[..|ops| - 1]), ops[|ops| - 1])
  }

  /** The lengths of the cycles among ops. */
  function Times(ops: seq<Op>): seq<u16> {
    if ops == [] then []
    else Times(ops[..|ops| - 1]) + if ops[|ops| - 1].Cycle? then [ops[|ops| - 1].dt] else []
  }

  // ------------------------------------------------------------- what a stage touches

  /** The parts a stage reads and leaves alone: inputs, link state, host lamps. */
  predicate Carries(c: Core, r: Core) {
    && r.inputs == c.inputs && r.host.commsLost == c.host.commsLost
    && r.host.request == c.host.request && r.host.mask == c.host.mask
  }

  lemma SwitchEdgesCarry(cfg: Config, c: Core, dt: u16)
    requires c.Valid()
    ensures var r := SwitchEdges(cfg, c, dt);
            Carries(c, r) && r.lamps == c.lamps && r.door == c.door && r.host == c.host
  {
    hide Logged, L.AfterLight, L.AfterIndicator, L.AfterHazard, L.AfterAllOff, P.AfterIgnitionOn, P.AfterIgnitionOff;
    var c1 := IgnitionEdge(cfg, c, dt);
    assert c1.inputs == c.inputs && c1.host == c.host && c1.lamps == c.lamps && c1.door == c.door;
    var c2 := LeftEdge(c1);
    assert c2.inputs == c.inputs && c2.host == c.host && c2.lamps == c.lamps && c2.door == c.door;
    var c3 := RightEdge(c2);
    assert c3.inputs == c.inputs && c3.host == c.host && c3.lamps == c.lamps && c3.door == c.door;
  }

  lemma EdgesCarry(cfg: Config, c: Core, dt: u16)
    requires c.Valid()
    ensures Carries(c, Edges(cfg, c, dt)) && Edges(cfg, c, dt).lamps == c.lamps
  {
    hide SwitchEdges, DoorPressed, DoorHosted, Logged, L.AfterLight;
    SwitchEdgesCarry(cfg, c, dt);
  }

  lemma StepParts(cfg: Config, c: Core, dt: u16)
    requires c.Valid()
    ensures var m := Managers(cfg, Edges(cfg, c, dt), dt);
            var r := Step(cfg, c, dt);
            && Carries(c, m) && Carries(c, r)
            && r.lighting == m.lighting && r.power == m.power
            && r.door.fsm == m.door.fsm && r.door.welcome == m.door.welcome && r.door.autoLock == m.door.autoLock
            && r.door.ctx.doorOpen == m.door.ctx.doorOpen
            && r.lamps == Arbitrated(Merged(Wanted(r), r.host.request, r.host.mask), SituationOf(r))
  {
    hide Edges, Arbitrated, Merged, Mirrored, Chirped, HornTick, LoggedIf;
    EdgesCarry(cfg, c, dt);
  }

  // ------------------------------------------------------------------------- lamps

  /** After every cycle, whatever the state, the host's request and its mask: the brake lamp
      shows the brake; reverse is lit only with the gear selected, the link up, awake and at
      the host's wish; asleep only the lock and brake lamps can be lit; shedding leaves only
      essential lamps; and a lost link puts out the high beam. */
  lemma LampsAreSafe(cfg: Config, c: Core, dt: u16)
    requires c.Valid()
    ensures var r := Step(cfg, c, dt);
            && r.lamps[BRAKE] == (if c.inputs.brake then On else Off)
            && (r.lamps[REVERSE] != Off ==>
                  && c.inputs.reverseGear && !c.host.commsLost
                  && r.power.fsm.state != P.Sleep && Bit(c.host.mask, REVERSE))
            && (r.power.fsm.state == P.Sleep ==>
                  forall i :: 0 <= i < LAMP_COUNT && r.lamps[i] != Off ==> i == DOOR_LOCK || i == BRAKE)
            && (r.power.ctx.loadShed ==>
                  forall i :: 0 <= i < LAMP_COUNT && r.lamps[i] != Off ==> IsEssential(i))
            && (c.host.commsLost ==> r.lamps[HIGH_BEAM] == Off)
  {
    hide Step, Edges, Managers, Bit;
    var r := Step(cfg, c, dt);
    StepParts(cfg, c, dt);
    var wanted := Merged(Wanted(r), r.host.request, r.host.mask);
    SafetyRules(wanted, SituationOf(r));
    assert r.lamps[REVERSE] == Ruling(wanted, SituationOf(r), REVERSE);
    NobodyWantsReverse(r);
  }

  lemma NobodyWantsReverse(c: Core)
    ensures Wanted(c)[REVERSE] == Off && Wanted(c)[BRAKE] == Off
  {
  }

  /** A beam is wanted by the host where its mask covers it, and else by the light mode. */
  predicate HighWanted(c: Core) {
    if Bit(c.host.mask, HIGH_BEAM) then c.host.request[HIGH_BEAM] != Off else c.lighting.light.state == L.HighBeam
  }

  predicate LowWanted(c: Core) {
    if Bit(c.host.mask, LOW_BEAM) then c.host.request[LOW_BEAM] != Off
    else c.lighting.light.state == L.LowBeam || c.lighting.light.state == L.HighBeam
  }

  /** The high beam burns without the low beam exactly when the host drives one of them
      apart from the other while nothing forces the high beam out: no rule of the arbiter
      ties the two together. */
  lemma HighBeamAloneIff(cfg: Config, c: Core, dt: u16)
    requires c.Valid()
    ensures var r := Step(cfg, c, dt);
            (r.lamps[HIGH_BEAM] != Off && r.lamps[LOW_BEAM] == Off <==>
              && HighWanted(r) && !LowWanted(r)
              && r.power.fsm.state != P.Sleep && !r.power.ctx.loadShed && !r.host.commsLost)
  {
    hide Step, Edges, Managers, Bit;
    var r := Step(cfg, c, dt);
    StepParts(cfg, c, dt);
    var wanted := Merged(Wanted(r), r.host.request, r.host.mask);
    assert r.lamps[HIGH_BEAM] == Ruling(wanted, SituationOf(r), HIGH_BEAM);
    assert r.lamps[LOW_BEAM] == Ruling(wanted, SituationOf(r), LOW_BEAM);
    BeamsWanted(r);
  }

  lemma BeamsWanted(c: Core)
    ensures Wanted(c)[HIGH_BEAM] != Off <==> c.lighting.light.state == L.HighBeam
    ensures Wanted(c)[LOW_BEAM] != Off <==> c.lighting.light.state == L.LowBeam || c.lighting.light.state == L.HighBeam
  {
  }

  /** The high beam burns without the low beam in this cycle. */
  predicate Splits(cfg: Config, c: Core, dt: u16) {
    c.Valid() && Step(cfg, c, dt).lamps[HIGH_BEAM] != Off && Step(cfg, c, dt).lamps[LOW_BEAM] == Off
  }

  /** A request that sets the beams apart: it asks for the high beam and not for the low
      one, or leaves the high beam to the light mode and puts out the low one. */
  predicate SetsBeamsApart(request: Lamps, mask: u16) {
    if Bit(mask, HIGH_BEAM) then request[HIGH_BEAM] != Off && !(Bit(mask, LOW_BEAM) && request[LOW_BEAM] != Off)
    else Bit(mask, LOW_BEAM) && request[LOW_BEAM] == Off
  }

  /** In every core and every cycle the beams are split only by a request that sets them
      apart; every other request leaves the high beam to burn with the low one. */
  lemma SplitIsAsked(cfg: Config, c: Core, dt: u16)
    requires c.Valid()
    ensures Splits(cfg, c, dt) ==> SetsBeamsApart(c.host.request, c.host.mask)
  {
    hide Step, Edges, Managers, Bit;
    StepParts(cfg, c, dt);
    HighBeamAloneIff(cfg, c, dt);
  }

  // -------------------------------------------------------- what the host cannot reach

  /** The same core with other lamps and another host request. */
  function With(c: Core, lamps: Lamps, request: Lamps, mask: u16): Core {
    c.(lamps := lamps, host := c.host.(request := request, mask := mask))
  }

  lemma PressIgnores(cfg: Config, c: Core, dt: u16, lamps: Lamps, request: Lamps, mask: u16)
    ensures Press(cfg, With(c, lamps, request, mask), dt) == With(Press(cfg, c, dt), lamps, request, mask)
  {
    hide Logged, L.AfterLight;
  }

  lemma ReleaseIgnores(cfg: Config, c: Core, lamps: Lamps, request: Lamps, mask: u16)
    requires c.Valid()
    ensures Release(cfg, With(c, lamps, request, mask)) == With(Release(cfg, c), lamps, request, mask)
  {
    hide Logged, L.AfterAllOff, P.AfterIgnitionOn, P.AfterIgnitionOff;
  }

  lemma IgnitionIgnores(cfg: Config, c: Core, dt: u16, lamps: Lamps, request: Lamps, mask: u16)
    requires c.Valid()
    ensures IgnitionEdge(cfg, With(c, lamps, request, mask), dt) == With(IgnitionEdge(cfg, c, dt), lamps, request, mask)
  {
    hide Press, Release;
    PressIgnores(cfg, c, dt, lamps, request, mask);
    ReleaseIgnores(cfg, c, lamps, request, mask);
  }

  lemma IndicatorsIgnore(c: Core, lamps: Lamps, request: Lamps, mask: u16)
    ensures LeftEdge(With(c, lamps, request, mask)) == With(LeftEdge(c), lamps, request, mask)
    ensures RightEdge(With(c, lamps, request, mask)) == With(RightEdge(c), lamps, request, mask)
    ensures HazardEdge(With(c, lamps, request, mask)) == With(HazardEdge(c), lamps, request, mask)
  {
    hide Logged, L.AfterIndicator, L.AfterHazard;
  }

  lemma SwitchEdgesIgnore(cfg: Config, c: Core, dt: u16, lamps: Lamps, request: Lamps, mask: u16)
    requires c.Valid()
    ensures SwitchEdges(cfg, With(c, lamps, request, mask), dt) == With(SwitchEdges(cfg, c, dt), lamps, request, mask)
  {
    hide IgnitionEdge, LeftEdge, RightEdge, HazardEdge, With;
    var c1 := IgnitionEdge(cfg, c, dt);
    IgnitionIgnores(cfg, c, dt, lamps, request, mask);
    IndicatorsIgnore(c1, lamps, request, mask);
    IndicatorsIgnore(LeftEdge(c1), lamps, request, mask);
    IndicatorsIgnore(RightEdge(LeftEdge(c1)), lamps, request, mask);
  }

  lemma DoorEdgesIgnore(cfg: Config, c: Core, lamps: Lamps, request: Lamps, mask: u16)
    requires c.Valid()
    ensures DoorEdges(cfg, With(c, lamps, request, mask)) == With(DoorEdges(cfg, c), lamps, request, mask)
  {
    hide DoorPressed, DoorHosted;
  }

  lemma LightAndBrakeIgnore(c: Core, lamps: Lamps, request: Lamps, mask: u16)
    ensures HostLightMode(With(c, lamps, request, mask)) == With(HostLightMode(c), lamps, request, mask)
    ensures BrakeEdge(With(c, lamps, request, mask)) == With(BrakeEdge(c), lamps, request, mask)
  {
    hide Logged, L.AfterLight;
  }

  lemma FirstEdgesIgnore(cfg: Config, c: Core, dt: u16, lamps: Lamps, request: Lamps, mask: u16)
    requires c.Valid() && c.memory.firstCycle
    ensures Edges(cfg, With(c, lamps, request, mask), dt) == With(Edges(cfg, c, dt), lamps, request, mask)
  {
    hide SwitchEdges, DoorEdges, HostLightMode, BrakeEdge;
  }

  lemma EdgesIgnore(cfg: Config, c: Core, dt: u16, lamps: Lamps, request: Lamps, mask: u16)
    requires c.Valid()
    ensures Edges(cfg, With(c, lamps, request, mask), dt) == With(Edges(cfg, c, dt), lamps, request, mask)
  {
    if c.memory.firstCycle {
      FirstEdgesIgnore(cfg, c, dt, lamps, request, mask);
    } else {
      assert With(c, lamps, request, mask).memory == c.memory;
      hide SwitchEdges, DoorEdges, HostLightMode, BrakeEdge, With;
      var c1 := SwitchEdges(cfg, c, dt);
      var c2 := DoorEdges(cfg, c1);
      SwitchEdgesIgnore(cfg, c, dt, lamps, request, mask);
      DoorEdgesIgnore(cfg, c1, lamps, request, mask);
      LightAndBrakeIgnore(c2, lamps, request, mask);
      LightAndBrakeIgnore(HostLightMode(c2), lamps, request, mask);
    }
  }

  lemma RestIgnores(cfg: Config, c: Core, dt: u16, lamps: Lamps, request: Lamps, mask: u16)
    requires c.Valid()
    ensures Reports(cfg, Managers(cfg, With(c, lamps, request, mask), dt))
         == With(Reports(cfg, Managers(cfg, c, dt)), lamps, request, mask)
  {
    hide Logged, Mirrored, Chirped, L.AfterAmbient, P.AfterBattery, P.AfterUpdate, D.AfterUpdate;
  }

  lemma StepIgnores(cfg: Config, c: Core, dt: u16, lamps: Lamps, request: Lamps, mask: u16)
    requires c.Valid()
    ensures Step(cfg, With(c, lamps, request, mask), dt)
         == With(Step(cfg, c, dt), Step(cfg, With(c, lamps, request, mask), dt).lamps, request, mask)
  {
    hide Edges, Managers, Reports, Arbitrated, Merged, Wanted, HornTick;
    EdgesIgnore(cfg, c, dt, lamps, request, mask);
    RestIgnores(cfg, Edges(cfg, c, dt), dt, lamps, request, mask);
  }

  /** Equal in everything but the host's request, its mask and the lamps other than brake. */
  predicate Agree(c: Core, r: Core) {
    r == With(c, r.lamps, r.host.request, r.host.mask) && r.lamps[BRAKE] == c.lamps[BRAKE]
  }

  lemma StepKeepsAgreement(cfg: Config, c: Core, r: Core, dt: u16)
    requires c.Valid() && r.Valid() && Agree(c, r)
    ensures Agree(Step(cfg, c, dt), Step(cfg, r, dt))
  {
    hide Step;
    StepIgnores(cfg, c, dt, r.lamps, r.host.request, r.host.mask);
    LampsAreSafe(cfg, c, dt);
    LampsAreSafe(cfg, r, dt);
  }

  lemma OpKeepsAgreement(cfg: Config, c: Core, r: Core, op: Op)
    requires c.Valid() && r.Valid() && Agree(c, r)
    ensures Agree(Do(cfg, c, op), Do(cfg, r, op))
    ensures op.SetHostRequest? ==> Agree(c, Do(cfg, r, op))
  {
    hide Step, L.AfterReset, D.AfterReset, P.AfterReset, HornReset, SetFault, Popped;
    if op.Cycle? {
      StepKeepsAgreement(cfg, c, r, op.dt);
    }
  }

  /** A run without its host lamp requests. */
  function WithoutRequests(ops: seq<Op>): seq<Op> {
    if ops == [] then []
    else
      var op := ops[|ops| - 1];
      WithoutRequests(ops[..|ops| - 1]) + if op.SetHostRequest? then [] else [op]
  }

  lemma {:induction false} RequestsDoNotMatter(cfg: Config, ops: seq<Op>)
    ensures Agree(Run(cfg, WithoutRequests(ops)), Run(cfg, ops))
  {
    hide Do, Agree;
    if ops == [] {
      AgreeWithItself(NewCore(cfg));
    } else {
      var before, op := ops[..|ops| - 1], ops[|ops| - 1];
      RequestsDoNotMatter(cfg, before);
      OpKeepsAgreement(cfg, Run(cfg, WithoutRequests(before)), Run(cfg, before), op);
      var rest := WithoutRequests(ops);
      if op.SetHostRequest? {
        assert rest == WithoutRequests(before);
      } else {
        assert rest[..|rest| - 1] == WithoutRequests(before) && rest[|rest| - 1] == op;
      }
    }
  }

  lemma AgreeWithItself(c: Core)
    ensures Agree(c, c)
  {
  }

  /** Two runs that differ only in host lamp requests agree, at every point that the
      requests do not distinguish, on all managers, the horn, the trouble codes, the log,
      every other part of the core and the brake lamp. */
  lemma HostCannotReach(cfg: Config, ops: seq<Op>, ops': seq<Op>)
    requires WithoutRequests(ops) == WithoutRequests(ops')
    ensures Agree(Run(cfg, ops), Run(cfg, ops'))
  {
    hide Run;
    RequestsDoNotMatter(cfg, ops);
    RequestsDoNotMatter(cfg, ops');
  }
}
