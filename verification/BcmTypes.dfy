/** Lamps, inputs and tunables shared by the managers. */
module BcmTypes {
  import opened Integers

  /** Lamp identities, with the numbers of the interface document. */
  const IGNITION: nat := 0
  const DRL: nat := 1
  const LOW_BEAM: nat := 2
  const HIGH_BEAM: nat := 3
  const IND_LEFT: nat := 4
  const IND_RIGHT: nat := 5
  const HAZARD: nat := 6
  const BRAKE: nat := 7
  const REVERSE: nat := 8
  const DOOR_LOCK: nat := 9
  const LAMP_COUNT: nat := 10

  datatype Drive = Off | On | Blink

  type Lamps = s: seq<Drive> | |s| == LAMP_COUNT
    witness seq(LAMP_COUNT, _ => Off)

  function Dark(): Lamps {
    seq(LAMP_COUNT, _ => Off)
  }

  /** One cycle's debounced switches and filtered analog values. */
  datatype Inputs = Inputs(
    ignition: bool, indLeft: bool, indRight: bool, hazard: bool, brake: bool, doorLock: bool,
    reverseGear: bool, doorOpen: bool, batteryPermille: u16, ambientPermille: u16)

  const NO_INPUTS: Inputs := Inputs(false, false, false, false, false, false, false, false, 0, 1000)

  datatype Config = Config(
    ambientDark: u16, ambientLight: u16,
    autoLockDelay: u32, welcomeDuration: u32,
    chirpMs: u16, chirpGapMs: u16, hornMaxOn: u32,
    batteryLow: u16, batteryOk: u16, sleepAfter: u32, longPress: u16)

  const DEFAULTS: Config := Config(300, 400, 3000, 2000, 80, 120, 10000, 300, 350, 30000, 800)
}
