/** What horn, trouble codes and log do over whole series. */
module CarriedLaws {
  import opened BcmTypes
  import opened Carried
  import opened Integers
  import opened SoftTimers

  // ------------------------------------------------------------------------- chirps

  function HornAll(cfg: Config, h: Horn, dts: seq<u32>): (r: Horn)
    requires h.Valid()
    ensures r.Valid()
  {
    if dts == [] then h else HornTick(cfg, HornAll(cfg, h, dts[..|dts| - 1]), dts[|dts| - 1])
  }

  /** In the middle of a series of chirps: the timer of the phase is running. */
  predicate Chirping(h: Horn) {
    && h.chirpsLeft > 0 && h.timer.running && 0 < h.timer.remaining <= h.timer.period && !h.timer.periodic
  }

  /** Asking for chirps starts sounding the first of them for the chirp time. */
  lemma ChirpStarts(cfg: Config, h: Horn, n: u8)
    requires h.Valid() && 0 < n && 0 < cfg.chirpMs
    ensures var r := Chirp(cfg, h, n);
            Chirping(r) && r.chirpsLeft == n && r.chirpOn && r.timer.remaining == cfg.chirpMs
  {
  }

  /** Until its time is up a phase lasts: the horn sounds in a chirp and is silent in a gap. */
  lemma {:induction false} PhaseHolds(cfg: Config, h: Horn, dts: seq<u32>)
    requires h.Valid() && Chirping(h) && dts != [] && Sum(dts) < h.timer.remaining
    ensures var r := HornAll(cfg, h, dts);
            && r.output == h.chirpOn && r.chirpOn == h.chirpOn && r.chirpsLeft == h.chirpsLeft
            && Chirping(r) && r.timer.remaining == h.timer.remaining - Sum(dts)
  {
    var n := |dts| - 1;
    if n > 0 {
      PhaseHolds(cfg, h, dts[..n]);
    }
  }

  /** The update that reaches the end of a chirp silences the horn and counts the chirp; the
      one that reaches the end of a gap sounds the next chirp. */
  lemma PhaseEnds(cfg: Config, h: Horn, dt: u32)
    requires h.Valid() && Chirping(h) && h.timer.remaining <= dt && 0 < cfg.chirpMs && 0 < cfg.chirpGapMs
    ensures var r := HornTick(cfg, h, dt);
            if h.chirpOn then
              && !r.output && !r.chirpOn && r.chirpsLeft == h.chirpsLeft - 1
              && r.timer.remaining == cfg.chirpGapMs && (0 < r.chirpsLeft ==> Chirping(r))
            else
              && r.output && r.chirpOn && r.chirpsLeft == h.chirpsLeft
              && r.timer.remaining == cfg.chirpMs && Chirping(r)
  {
  }

  /** The most time until the horn has done its chirps, with no update over `longest`: each
      phase can lose that much at its end. */
  function ChirpTime(cfg: Config, left: nat, longest: nat): nat {
    if left == 0 then 0 else cfg.chirpMs + cfg.chirpGapMs + 2 * longest + ChirpTime(cfg, left - 1, longest)
  }

  function TimeLeft(cfg: Config, h: Horn, longest: nat): nat {
    if h.chirpsLeft == 0 then 0
    else if h.chirpOn then h.timer.remaining + longest + ChirpTime(cfg, h.chirpsLeft - 1, longest)
    else h.timer.remaining + cfg.chirpMs + 2 * longest + ChirpTime(cfg, h.chirpsLeft - 1, longest)
  }

  lemma TickRunsOut(cfg: Config, h: Horn, dt: u32, longest: nat)
    requires h.Valid() && 0 < cfg.chirpMs && 0 < cfg.chirpGapMs && dt <= longest
    requires h.chirpsLeft > 0 ==> Chirping(h)
    ensures var r := HornTick(cfg, h, dt);
            && (r.chirpsLeft > 0 ==> Chirping(r))
            && TimeLeft(cfg, r, longest) <= Max(0, TimeLeft(cfg, h, longest) - dt)
  {
  }

  lemma {:induction false} ChirpsRunOut(cfg: Config, h: Horn, dts: seq<u32>, longest: nat)
    requires h.Valid() && 0 < cfg.chirpMs && 0 < cfg.chirpGapMs
    requires (h.chirpsLeft > 0 ==> Chirping(h)) && forall i :: 0 <= i < |dts| ==> dts[i] <= longest
    ensures var r := HornAll(cfg, h, dts);
            && (r.chirpsLeft > 0 ==> Chirping(r))
            && TimeLeft(cfg, r, longest) <= Max(0, TimeLeft(cfg, h, longest) - Sum(dts))
  {
    hide HornTick, TimeLeft;
    if dts != [] {
      ChirpsRunOut(cfg, h, dts[..|dts| - 1], longest);
      TickRunsOut(cfg, HornAll(cfg, h, dts[..|dts| - 1]), dts[|dts| - 1], longest);
    }
  }

  /** How many chirps have ended over a series of updates. */
  function Ended(cfg: Config, h: Horn, dts: seq<u32>): nat
    requires h.Valid()
  {
    if dts == [] then 0
    else
      var before, after := HornAll(cfg, h, dts[..|dts| - 1]), HornAll(cfg, h, dts);
      Ended(cfg, h, dts[..|dts| - 1]) + if before.chirpOn && !after.chirpOn then 1 else 0
  }

  lemma {:induction false} ChirpsAreCounted(cfg: Config, h: Horn, dts: seq<u32>)
    requires h.Valid() && (h.chirpsLeft == 0 ==> !h.chirpOn)
    ensures var r := HornAll(cfg, h, dts);
            Ended(cfg, h, dts) + r.chirpsLeft == h.chirpsLeft && (r.chirpsLeft == 0 ==> !r.chirpOn)
  {
    if dts != [] {
      ChirpsAreCounted(cfg, h, dts[..|dts| - 1]);
    }
  }

  /** n chirps are n chirps: after enough time exactly n have sounded and ended, and none is
      left, in whatever steps the time passes. */
  lemma ChirpsAsAsked(cfg: Config, h: Horn, n: u8, dts: seq<u32>, longest: nat)
    requires h.Valid() && 0 < n && 0 < cfg.chirpMs && 0 < cfg.chirpGapMs
    requires forall i :: 0 <= i < |dts| ==> dts[i] <= longest
    requires ChirpTime(cfg, n, longest) <= Sum(dts)
    ensures var start := Chirp(cfg, h, n);
            HornAll(cfg, start, dts).chirpsLeft == 0 && Ended(cfg, start, dts) == n
  {
    var start := Chirp(cfg, h, n);
    ChirpStarts(cfg, h, n);
    ChirpsRunOut(cfg, start, dts, longest);
    ChirpsAreCounted(cfg, start, dts);
  }

  lemma {:induction false} StuckPhase(cfg: Config, h: Horn, dts: seq<u32>)
    requires h.Valid() && 0 < h.chirpsLeft && !h.timer.running
    ensures var r := HornAll(cfg, h, dts);
            r.chirpsLeft == h.chirpsLeft && r.chirpOn == h.chirpOn && !r.timer.running
    ensures dts != [] ==> HornAll(cfg, h, dts).output == h.chirpOn
  {
    if dts != [] {
      StuckPhase(cfg, h, dts[..|dts| - 1]);
    }
  }

  /** With no chirp time set the first chirp never ends: the horn sounds through any series of
      updates. */
  lemma NoChirpTimeSticks(cfg: Config, h: Horn, n: u8, dts: seq<u32>)
    requires h.Valid() && 0 < n && cfg.chirpMs == 0 && dts != []
    ensures HornAll(cfg, Chirp(cfg, h, n), dts).output
  {
    StuckPhase(cfg, Chirp(cfg, h, n), dts);
  }

  /** Held down without chirps, the horn sounds while its total time is under the limit. */
  lemma {:induction false} HornIsLimited(cfg: Config, h: Horn, dts: seq<u32>)
    requires h.Valid() && h.chirpsLeft == 0 && h.continuous
    ensures var r := HornAll(cfg, h, dts);
            && r.chirpsLeft == 0 && r.continuous && r.onTime == Wrap32(h.onTime + Sum(dts))
            && (dts != [] ==> (r.output <==> r.onTime < cfg.hornMaxOn))
  {
    hide Wrap32;
    if dts == [] {
      WrapSmall(h.onTime);
    } else {
      HornIsLimited(cfg, h, dts[..|dts| - 1]);
      WrapAgain(h.onTime + Sum(dts[..|dts| - 1]), dts[|dts| - 1]);
    }
  }

  /** Released and without chirps it is silent. */
  lemma HornIsSilent(cfg: Config, h: Horn, dt: u32)
    requires h.Valid() && h.chirpsLeft == 0 && !h.continuous
    ensures HornTick(cfg, h, dt) == h.(output := false)
  {
  }

  lemma WrapSmall(x: u32)
    ensures Wrap32(x) == x
  {
  }

  lemma WrapAgain(x: nat, y: nat)
    ensures Wrap32(Wrap32(x) + y) == Wrap32(x + y)
  {
    ModuloAdds(U32_LIMIT, x, y);
  }

  // ------------------------------------------------------------------- trouble codes

  function SetTimes(fs: Faults, code: Dtc, n: nat): Faults {
    if n == 0 then fs else SetFault(SetTimes(fs, code, n - 1), code)
  }

  /** A code set n times for the first time has one active entry that counts n, up to 65535. */
  lemma {:induction false} OccurrencesCount(fs: Faults, code: Dtc, n: nat)
    requires Distinct(fs) && Find(fs, code) == |fs| && 0 < n
    ensures var r := SetTimes(fs, code, n);
            r == fs + [Entry(code, if n < 65535 then n else 65535, true)]
  {
    hide Distinct;
    AtMostSix(fs);
    if n > 1 {
      OccurrencesCount(fs, code, n - 1);
      FindLast(fs, Entry(code, if n - 1 < 65535 then n - 1 else 65535, true));
    }
  }

  lemma {:induction false} FindLast(fs: Faults, e: Entry)
    requires Find(fs, e.code) == |fs|
    ensures Find(fs + [e], e.code) == |fs|
  {
    if fs != [] {
      assert (fs + [e])[1..] == fs[1..] + [e];
      FindLast(fs[1..], e);
    }
  }

  /** Clearing a code keeps every entry and count and only ends its activity. */
  lemma ClearKeepsCounts(fs: Faults, code: Dtc)
    ensures var r := ClearFault(fs, code);
            && |r| == |fs|
            && forall i :: 0 <= i < |fs| ==> r[i].code == fs[i].code && r[i].occurrences == fs[i].occurrences
  {
  }

  // ------------------------------------------------------------------------------ log

  function LogAll(log: Log, es: seq<LogEvent>): Log {
    if es == [] then log else Logged(LogAll(log, es[..|es| - 1]), es[|es| - 1])
  }

  /** The newest 32 of a series of events, oldest first. */
  function Newest(es: seq<LogEvent>): seq<LogEvent> {
    if |es| <= 32 then es else es[|es| - 32..]
  }

  lemma NewestExtends(es: seq<LogEvent>, e: LogEvent)
    ensures Newest(es + [e]) == if |es| < 32 then Newest(es) + [e] else Newest(es)[1..] + [e]
    ensures |Newest(es)| == if |es| < 32 then |es| else 32
  {
  }

  /** The log keeps the newest 32 records in order and counts the others as dropped, up to
      65535. */
  lemma {:induction false} LogKeepsNewest(es: seq<LogEvent>)
    ensures LogAll(Log([], 0), es) == Log(Newest(es), Min(65535, Max(0, |es| - 32)))
  {
    hide Newest;
    if es == [] {
      NewestExtends([], LogIgnitionOn);
      assert Newest(es) == [];
    } else {
      var before, e := es[..|es| - 1], es[|es| - 1];
      LogKeepsNewest(before);
      NewestExtends(before, e);
      assert before + [e] == es;
    }
  }

  /** Taking a record takes the oldest. */
  lemma PopTakesOldest(log: Log)
    ensures log.records != [] ==> [log.records[0]] + Popped(log).records == log.records
    ensures log.records == [] ==> Popped(log) == log
    ensures Popped(log).dropped == log.dropped
  {
  }

  lemma {:induction false} LogAllConcat(log: Log, a: seq<LogEvent>, b: seq<LogEvent>)
    ensures LogAll(log, a + b) == LogAll(LogAll(log, a), b)
  {
    hide Logged;
    if b == [] {
      assert a + b == a;
    } else {
      LogAllConcat(log, a, b[..|b| - 1]);
      assert (a + b)[..|a + b| - 1] == a + b[..|b| - 1];
    }
  }
}
