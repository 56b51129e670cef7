/** The last word on every lamp. */
module LampArbiter {
  import opened BcmTypes

  datatype Situation = Situation(
    brakePressed: bool, reverseGear: bool, lampsPermitted: bool, loadShed: bool, commsLost: bool)

  predicate IsEssential(id: nat) {
    id == BRAKE || id == IND_LEFT || id == IND_RIGHT || id == HAZARD || id == LOW_BEAM || id == REVERSE
  }

  /** What each lamp gets, whatever the order of the rules. */
  function Ruling(wanted: Lamps, s: Situation, id: nat): Drive
    requires id < LAMP_COUNT
  {
    if id == BRAKE then if s.brakePressed then On else Off
    else if id == REVERSE then
      if s.reverseGear && !s.commsLost && s.lampsPermitted then wanted[REVERSE] else Off
    else if !s.lampsPermitted && id != DOOR_LOCK then Off
    else if s.commsLost && id == HIGH_BEAM then Off
    else if s.loadShed && !IsEssential(id) then Off
    else wanted[id]
  }

  function Arbitrated(wanted: Lamps, s: Situation): Lamps {
    seq(LAMP_COUNT, i requires 0 <= i < LAMP_COUNT => Ruling(wanted, s, i))
  }

  method BlankAll(lamps: array<Drive>)
    requires lamps.Length == LAMP_COUNT
    modifies lamps
    ensures lamps[..] == Dark()
  {
    for i := 0 to LAMP_COUNT
      invariant forall k :: 0 <= k < i ==> lamps[k] == Off
    {
      lamps[i] := Off;
    }
  }

  method Shed(lamps: array<Drive>)
    requires lamps.Length == LAMP_COUNT
    modifies lamps
    ensures forall k :: 0 <= k < LAMP_COUNT ==> lamps[k] == if IsEssential(k) then old(lamps[k]) else Off
  {
    for i := 0 to LAMP_COUNT
      invariant forall k :: 0 <= k < i ==> lamps[k] == if IsEssential(k) then old(lamps[k]) else Off
      invariant forall k :: i <= k < LAMP_COUNT ==> lamps[k] == old(lamps[k])
    {
      if !IsEssential(i) {
        lamps[i] := Off;
      }
    }
  }

  /** The five rules in their order, in place. */
  method Arbitrate(lamps: array<Drive>, s: Situation)
    requires lamps.Length == LAMP_COUNT
    modifies lamps
    ensures lamps[..] == Arbitrated(old(lamps[..]), s)
  {
    if !s.lampsPermitted {
      var lock := lamps[DOOR_LOCK];
      BlankAll(lamps);
      assert forall k :: 0 <= k < LAMP_COUNT ==> lamps[k] == lamps[..][k] == Off;
      lamps[DOOR_LOCK] := lock;
    }
    if s.commsLost {
      lamps[HIGH_BEAM] := Off;
      lamps[REVERSE] := Off;
    }
    if s.loadShed {
      Shed(lamps);
    }
    lamps[REVERSE] := if s.reverseGear then lamps[REVERSE] else Off;
    lamps[BRAKE] := if s.brakePressed then On else Off;
  }

  /** Arbitrating again changes nothing. */
  lemma ArbitrationIsIdempotent(wanted: Lamps, s: Situation)
    ensures Arbitrated(Arbitrated(wanted, s), s) == Arbitrated(wanted, s)
  {
    var once := Arbitrated(wanted, s);
    forall i | 0 <= i < LAMP_COUNT ensures Ruling(once, s, i) == once[i] {
    }
  }

  /** The safety rules, read off the outcome. */
  lemma SafetyRules(wanted: Lamps, s: Situation)
    ensures var out := Arbitrated(wanted, s);
            && (out[BRAKE] == On <==> s.brakePressed) && (out[BRAKE] == Off <==> !s.brakePressed)
            && (out[REVERSE] != Off ==> s.reverseGear && !s.commsLost && s.lampsPermitted)
            && (!s.lampsPermitted ==> forall i :: 0 <= i < LAMP_COUNT && out[i] != Off ==> i == DOOR_LOCK || i == BRAKE)
            && (s.loadShed ==> forall i :: 0 <= i < LAMP_COUNT && out[i] != Off ==> IsEssential(i))
            && (s.commsLost ==> out[HIGH_BEAM] == Off)
  {
    var out := Arbitrated(wanted, s);
    assert forall i :: 0 <= i < LAMP_COUNT ==> out[i] == Ruling(wanted, s, i);
  }

  /** What the rules leave alone. Asleep, the lock lamp; awake, every lamp but brake, reverse,
      the high beam of a lost link and, when shedding, lamps 0, 1, 3 and 9; and reverse itself
      with the gear in, the link up and awake. */
  lemma WishesPass(wanted: Lamps, s: Situation)
    ensures var out := Arbitrated(wanted, s);
            && (!s.loadShed ==> out[DOOR_LOCK] == wanted[DOOR_LOCK])
            && (s.lampsPermitted && !s.loadShed && !s.commsLost ==>
                  forall i :: 0 <= i < LAMP_COUNT && i != BRAKE && i != REVERSE ==> out[i] == wanted[i])
            && (s.lampsPermitted && !s.loadShed ==>
                  forall i :: 0 <= i < LAMP_COUNT && i != BRAKE && i != REVERSE && i != HIGH_BEAM ==>
                    out[i] == wanted[i])
            && (s.lampsPermitted ==>
                  out[2] == wanted[2] && out[4] == wanted[4] && out[5] == wanted[5] && out[6] == wanted[6])
            && (s.lampsPermitted && s.reverseGear && !s.commsLost ==> out[8] == wanted[8])
            && (s.loadShed ==> out[0] == Off && out[1] == Off && out[3] == Off && out[9] == Off)
  {
    var out := Arbitrated(wanted, s);
    assert forall i :: 0 <= i < LAMP_COUNT ==> out[i] == Ruling(wanted, s, i);
  }
}
