/** Horn, trouble codes and event log, as the values the control cycle carries along. */
module Carried {
  import opened BcmTypes
  import opened Integers
  import opened SoftTimers

  // ------------------------------------------------------------------------ horn

  datatype Horn = Horn(chirpsLeft: u8, chirpOn: bool, continuous: bool, output: bool, onTime: u32, timer: Timer) {
    predicate Valid() {
      timer.Valid()
    }
  }

  const NEW_HORN: Horn := Horn(0, false, false, false, 0, IDLE)

  function Chirp(cfg: Config, h: Horn, count: u8): (r: Horn)
    requires h.Valid()
    ensures r.Valid()
  {
    if count == 0 then h
    else h.(chirpsLeft := count, chirpOn := true, timer := Started(cfg.chirpMs, false))
  }

  function HornTick(cfg: Config, h: Horn, dt: u32): (r: Horn)
    requires h.Valid()
    ensures r.Valid()
  {
    if h.chirpsLeft > 0 then
      var (t, fired) := Advance(h.timer, dt);
      var h1 :=
        if !fired then h.(timer := t)
        else if h.chirpOn then
          h.(timer := Started(cfg.chirpGapMs, false), chirpOn := false, chirpsLeft := h.chirpsLeft - 1)
        else h.(timer := Started(cfg.chirpMs, false), chirpOn := true);
      h1.(output := h1.chirpsLeft > 0 && h1.chirpOn)
    else if h.continuous then
      var time := Wrap32(h.onTime + dt);
      h.(onTime := time, output := time < cfg.hornMaxOn)
    else h.(output := false)
  }

  function HornReset(h: Horn): Horn {
    Horn(0, false, false, false, 0, Stopped(h.timer))
  }

  // --------------------------------------------------------------- trouble codes

  datatype Dtc = BatteryLow | CommsLost | LockRefusedDoorOpen | WatchdogReset | UartOverrun | PostFailed

  datatype Entry = Entry(code: Dtc, occurrences: u16, active: bool)

  const MAX_DTC: nat := 8

  type Faults = seq<Entry>

  /** The index of a code, or the length when it has no entry. */
  function Find(fs: Faults, code: Dtc): (i: nat)
    ensures i <= |fs|
    ensures i < |fs| ==> fs[i].code == code
    ensures forall k :: 0 <= k < i ==> fs[k].code != code
  {
    if fs == [] then 0 else if fs[0].code == code then 0 else 1 + Find(fs[1..], code)
  }

  predicate IsActive(fs: Faults, code: Dtc) {
    var i := Find(fs, code);
    i < |fs| && fs[i].active
  }

  function SetFault(fs: Faults, code: Dtc): Faults {
    var i := Find(fs, code);
    if i < |fs| then
      fs[i := Entry(code, if fs[i].occurrences < U16_LIMIT - 1 then fs[i].occurrences + 1 else fs[i].occurrences, true)]
    else if |fs| >= MAX_DTC then fs
    else fs + [Entry(code, 1, true)]
  }

  function ClearFault(fs: Faults, code: Dtc): Faults {
    var i := Find(fs, code);
    if i < |fs| then fs[i := fs[i].(active := false)] else fs
  }

  /** No code has two entries. */
  predicate Distinct(fs: Faults) {
    forall i, j :: 0 <= i < j < |fs| ==> fs[i].code != fs[j].code
  }

  function CodeAt(fs: Faults, i: nat): Dtc {
    if i < |fs| then fs[i].code else PostFailed
  }

  lemma Pigeonhole(a: Dtc, b: Dtc, c: Dtc, d: Dtc, e: Dtc, f: Dtc, g: Dtc)
    ensures a in {b, c, d, e, f, g} || b in {c, d, e, f, g} || c in {d, e, f, g}
         || d in {e, f, g} || e in {f, g} || f == g
  {
  }

  lemma AtMostSix(fs: Faults)
    requires Distinct(fs)
    ensures |fs| <= 6
  {
    Pigeonhole(CodeAt(fs, 0), CodeAt(fs, 1), CodeAt(fs, 2), CodeAt(fs, 3), CodeAt(fs, 4), CodeAt(fs, 5), CodeAt(fs, 6));
  }

  lemma FindIs(fs: Faults, code: Dtc, i: nat)
    requires Distinct(fs) && i < |fs| && fs[i].code == code
    ensures Find(fs, code) == i
  {
  }

  lemma SetStaysDistinct(fs: Faults, code: Dtc)
    requires Distinct(fs)
    ensures Distinct(SetFault(fs, code))
  {
    hide Find;
  }

  /** Setting a code keeps the others, and there is always room for it. */
  lemma SetIsIndependent(fs: Faults, code: Dtc, other: Dtc)
    requires Distinct(fs)
    ensures Distinct(SetFault(fs, code))
    ensures IsActive(SetFault(fs, code), other) == (other == code || IsActive(fs, other))
  {
    hide Find, Distinct;
    AtMostSix(fs);
    SetStaysDistinct(fs, code);
    var r, i, o := SetFault(fs, code), Find(fs, code), Find(fs, other);
    if o < |fs| {
      FindIs(r, other, o);
    } else if other == code {
      FindIs(r, code, |fs|);
    }
  }

  lemma ClearIsIndependent(fs: Faults, code: Dtc, other: Dtc)
    requires Distinct(fs)
    ensures Distinct(ClearFault(fs, code))
    ensures IsActive(ClearFault(fs, code), other) == (other != code && IsActive(fs, other))
  {
    hide Find;
    var r, o := ClearFault(fs, code), Find(fs, other);
    if o < |fs| {
      FindIs(r, other, o);
    }
  }

  // ------------------------------------------------------------------------- log

  datatype LogEvent =
    | LogIgnitionOn | LogIgnitionOff | LogLightMode(mode: nat) | LogIndicatorLeft | LogIndicatorRight
    | LogHazardOn | LogHazardOff | LogBrakeApplied | LogBrakeReleased | LogDoorLocked | LogDoorUnlocked
    | LogLockRefused | LogBatteryLow | LogBatteryOk | LogCommsLost | LogCommsRestored

  const LOG_CAPACITY: nat := 32

  /** The newest records, oldest first, and how many were overwritten. */
  datatype Log = Log(records: seq<LogEvent>, dropped: u16)

  function Logged(log: Log, e: LogEvent): Log {
    if |log.records| < LOG_CAPACITY then log.(records := log.records + [e])
    else Log(log.records[1..] + [e], if log.dropped < U16_LIMIT - 1 then log.dropped + 1 else log.dropped)
  }

  /** The log without its oldest record. */
  function Popped(log: Log): Log {
    if log.records == [] then log else log.(records := log.records[1..])
  }
}
