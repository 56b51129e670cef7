/** The integer low-pass filter and the Schmitt trigger behind both analog inputs. */
module Filters {
  import opened Integers

  function Pow2(k: nat): (p: nat)
    ensures 0 < p
  {
    if k == 0 then 1 else 2 * Pow2(k - 1)
  }

  // ---------------------------------------------------------------- low-pass filter

  datatype Smooth = Smooth(shift: nat, acc: nat, primed: bool) {
    function Scale(): (p: nat)
      ensures 0 < p
    {
      Pow2(shift)
    }

    /** The output: the accumulator without its fraction. */
    function Value(): nat {
      Quotient(acc, Scale())
    }
  }

  /** One sample, in unbounded arithmetic. */
  function Sample(s: Smooth, x: nat): Smooth {
    if !s.primed then s.(acc := x * s.Scale(), primed := true)
    else
      QuotientParts(s.acc, s.Scale());
      s.(acc := s.acc - s.Value() + x)
  }

  /** One sample as the code takes it, in 32-bit arithmetic. */
  function Sample32(s: Smooth, x: nat): Smooth {
    if !s.primed then s.(acc := Wrap32(x * s.Scale()), primed := true)
    else
      QuotientParts(s.acc, s.Scale());
      s.(acc := Wrap32(s.acc - s.Value() + x))
  }

  lemma {:induction false} Pow2AtMost(k: nat, n: nat)
    requires k <= n
    ensures Pow2(k) <= Pow2(n)
    decreases n
  {
    if k < n {
      Pow2AtMost(k, n - 1);
    }
  }

  class ExpFilter {
    const shift: nat
    var acc: u32
    var primed: bool

    ghost function Now(): Smooth
      reads this
    {
      Smooth(shift, acc, primed)
    }

    /** A shift by the accumulator's width or more has no meaning in the source. */
    predicate Valid()
      reads this
    {
      shift < 32
    }

    constructor (s: nat)
      requires s < 32
      ensures Valid() && Now() == Smooth(s, 0, false)
    {
      shift := s;
      acc := 0;
      primed := false;
    }

    method Update(x: u16) returns (value: u16)
      requires Valid()
      modifies this
      ensures Valid() && Now() == Sample32(old(Now()), x)
      ensures value == Wrap16(Now().Value())
    {
      QuotientParts(acc, Pow2(shift));
      if !primed {
        acc := Wrap32(x * Pow2(shift));
        primed := true;
      } else {
        acc := Wrap32(acc - Quotient(acc, Pow2(shift)) + x);
      }
      value := Wrap16(Quotient(acc, Pow2(shift)));
    }

    method Reset()
      requires Valid()
      modifies this
      ensures Valid() && Now() == Smooth(shift, 0, false)
    {
      acc := 0;
      primed := false;
    }
  }

  /** Losing its own quotient keeps a number on its side of m p - m. */
  lemma Shrink(a: nat, m: nat, p: nat)
    requires 0 < p
    ensures var q := Quotient(a, p);
            && (a <= m * p ==> q <= m && a - q <= m * p - m)
            && (m * p <= a ==> m <= q && m * p - m <= a - q)
  {
    var q := Quotient(a, p);
    QuotientParts(a, p);
    var d := m - q;
    assert m * p - p * q == p * d;
    ShrinkGap(p, d, a - p * q);
  }

  lemma ShrinkGap(p: nat, d: int, r: nat)
    requires r < p
    ensures r <= p * d ==> 0 <= d && r <= p * d - d
    ensures p * d <= r ==> d <= 0 && p * d - d <= r
  {
    assert p * d - d == (p - 1) * d;
    ProductAtLeast(p, d);
    if p > 1 {
      ProductAtLeast(p - 1, d);
    }
  }

  /** Samples on one side of m keep accumulator and output on that side. */
  lemma SampleStays(s: Smooth, x: nat, m: nat)
    ensures x <= m && (s.primed ==> s.acc <= m * s.Scale()) ==>
              Sample(s, x).acc <= m * s.Scale() && Sample(s, x).Value() <= m
    ensures m <= x && (s.primed ==> m * s.Scale() <= s.acc) ==>
              m * s.Scale() <= Sample(s, x).acc && m <= Sample(s, x).Value()
  {
    var p := s.Scale();
    Shrink(s.acc, m, p);
    Shrink(Sample(s, x).acc, m, p);
    ScaleKeepsOrder(x, m, p);
    ScaleKeepsOrder(m, x, p);
  }

  lemma ScaleKeepsOrder(x: nat, m: nat, p: nat)
    ensures x <= m ==> x * p <= m * p
  {
  }

  lemma ScaleOf16Bits(m: nat, shift: nat)
    requires m < U16_LIMIT && shift <= 16
    ensures m * Pow2(shift) < U32_LIMIT
  {
    Pow2AtMost(shift, 16);
    assert Pow2(4) == 16 && Pow2(8) == 256 && Pow2(12) == 4096 && Pow2(16) == 65536;
    ScaleKeepsOrder(m, 65535, Pow2(shift));
  }

  /** For 16-bit samples and a shift of at most 16 the accumulator never needs more than 32
      bits, nor the output more than 16. */
  lemma SampleFits(s: Smooth, x: nat)
    requires x < U16_LIMIT && s.shift <= 16 && s.acc <= (U16_LIMIT - 1) * s.Scale()
    ensures Sample(s, x).acc <= (U16_LIMIT - 1) * s.Scale() < U32_LIMIT
    ensures Sample(s, x).Value() < U16_LIMIT
  {
    SampleStays(s, x, U16_LIMIT - 1);
    ScaleOf16Bits(U16_LIMIT - 1, s.shift);
  }

  function SampleAll(s: Smooth, xs: seq<nat>): Smooth {
    if xs == [] then s else Sample(SampleAll(s, xs[..|xs| - 1]), xs[|xs| - 1])
  }

  function SampleAll32(s: Smooth, xs: seq<u16>): Smooth {
    if xs == [] then s else Sample32(SampleAll32(s, xs[..|xs| - 1]), xs[|xs| - 1])
  }

  /** Up to a shift of 16 the 32-bit accumulator is exact for every series of samples, so
      the laws of `Sample` are laws of the code. */
  lemma {:induction false} NothingWraps(shift: nat, xs: seq<u16>)
    requires shift <= 16
    ensures var s := SampleAll32(Smooth(shift, 0, false), xs);
            && s == SampleAll(Smooth(shift, 0, false), xs) && s.shift == shift
            && s.acc <= (U16_LIMIT - 1) * s.Scale() && s.Value() < U16_LIMIT
  {
    hide Pow2;
    if xs == [] {
      Shrink(0, 0, Pow2(shift));
    } else {
      var n := |xs| - 1;
      NothingWraps(shift, xs[..n]);
      var s := SampleAll(Smooth(shift, 0, false), xs[..n]);
      SampleFits(s, xs[n]);
    }
  }

  /** Beyond 16 the very first sample can lose its top. */
  lemma FarShiftWraps(shift: nat)
    requires 16 < shift < 32
    ensures var xs: seq<u16> := [65535];
            SampleAll32(Smooth(shift, 0, false), xs) != SampleAll(Smooth(shift, 0, false), xs)
  {
    hide Pow2;
    var xs: seq<u16> := [65535];
    assert xs[..|xs| - 1] == [];
    Pow2AtMost(17, shift);
    PowerOf17();
    ScaleKeepsOrder(131072, Pow2(shift), 65535);
  }

  lemma PowerOf17()
    ensures Pow2(17) == 131072
  {
    assert Pow2(4) == 16 && Pow2(8) == 256 && Pow2(12) == 4096 && Pow2(16) == 65536;
  }

  /** 32 bits are enough for every series of samples exactly up to a shift of 16. */
  lemma WrapsIffShiftedFar(shift: nat)
    requires shift < 32
    ensures (forall xs: seq<u16> :: SampleAll32(Smooth(shift, 0, false), xs) == SampleAll(Smooth(shift, 0, false), xs))
       <==> shift <= 16
  {
    hide SampleAll32, SampleAll;
    if shift <= 16 {
      forall xs: seq<u16>
        ensures SampleAll32(Smooth(shift, 0, false), xs) == SampleAll(Smooth(shift, 0, false), xs)
      {
        NothingWraps(shift, xs);
      }
    } else {
      FarShiftWraps(shift);
    }
  }

  /** The output always lies between the least and the greatest sample since reset. */
  lemma {:induction false} BetweenSamples(shift: nat, xs: seq<nat>, lo: nat, hi: nat)
    requires xs != [] && forall i :: 0 <= i < |xs| ==> lo <= xs[i] <= hi
    ensures var s := SampleAll(Smooth(shift, 0, false), xs);
            && s.primed && s.shift == shift
            && lo * s.Scale() <= s.acc <= hi * s.Scale() && lo <= s.Value() <= hi
  {
    var n := |xs| - 1;
    var s := SampleAll(Smooth(shift, 0, false), xs[..n]);
    if n > 0 {
      BetweenSamples(shift, xs[..n], lo, hi);
    }
    SampleStays(s, xs[n], lo);
    SampleStays(s, xs[n], hi);
  }

  /** n updates with the same sample. */
  function Hold(s: Smooth, x: nat, n: nat): Smooth {
    if n == 0 then s else Sample(Hold(s, x, n - 1), x)
  }

  lemma ExactValue(x: nat, p: nat)
    requires 0 < p
    ensures Quotient(x * p, p) == x
  {
    Shrink(x * p, x, p);
  }

  /** From above, a constant input pulls the output down to it and no further. */
  lemma {:induction false} SettlesFromAbove(s: Smooth, x: nat, n: nat)
    requires s.primed && x * s.Scale() <= s.acc
    ensures var t := Hold(s, x, n);
            && t.primed && t.shift == s.shift
            && x * s.Scale() <= t.acc <= s.acc && x <= t.Value() <= s.Value()
            && (t.Value() == x || t.acc + n <= s.acc)
  {
    Shrink(s.acc, x, s.Scale());
    if n > 0 {
      var t := Hold(s, x, n - 1);
      SettlesFromAbove(s, x, n - 1);
      SampleStays(t, x, x);
      QuotientGrows(Sample(t, x).acc, t.acc, s.Scale());
    }
  }

  /** From below, it pulls the output up to it and no further. */
  lemma {:induction false} SettlesFromBelow(s: Smooth, x: nat, n: nat)
    requires s.primed && s.acc <= x * s.Scale()
    ensures var t := Hold(s, x, n);
            && t.primed && t.shift == s.shift
            && s.acc <= t.acc <= x * s.Scale() && s.Value() <= t.Value() <= x
            && (t.Value() == x || s.acc + n <= t.acc)
  {
    Shrink(s.acc, x, s.Scale());
    if n > 0 {
      var t := Hold(s, x, n - 1);
      SettlesFromBelow(s, x, n - 1);
      SampleStays(t, x, x);
      QuotientGrows(t.acc, Sample(t, x).acc, s.Scale());
    }
  }

  lemma QuotientGrows(a: nat, b: nat, p: nat)
    requires a <= b && 0 < p
    ensures Quotient(a, p) <= Quotient(b, p)
  {
    QuotientParts(a, p);
    Shrink(b, Quotient(a, p), p);
  }

  /** A constant input x is reached exactly, without overshoot, after as many updates as
      the accumulator is away from x at the most, and then held. */
  lemma ConstantInput(s: Smooth, x: nat, n: nat)
    requires s.primed
    ensures Min(s.Value(), x) <= Hold(s, x, n).Value() <= Max(s.Value(), x)
    ensures Max(s.acc - x * s.Scale(), x * s.Scale() - s.acc) <= n ==> Hold(s, x, n).Value() == x
  {
    ExactValue(x, s.Scale());
    if x * s.Scale() <= s.acc {
      SettlesFromAbove(s, x, n);
    } else {
      SettlesFromBelow(s, x, n);
    }
  }

  function Repeated(x: u16, n: nat): seq<u16> {
    if n == 0 then [] else Repeated(x, n - 1) + [x]
  }

  lemma {:induction false} HoldIsSampling(s: Smooth, xs: seq<u16>, x: u16, n: nat)
    ensures SampleAll(s, xs + Repeated(x, n)) == Hold(SampleAll(s, xs), x, n)
  {
    hide Sample;
    var all := xs + Repeated(x, n);
    if n == 0 {
      assert all == xs;
    } else {
      HoldIsSampling(s, xs, x, n - 1);
      assert all == xs + Repeated(x, n - 1) + [x];
      assert all[..|all| - 1] == xs + Repeated(x, n - 1);
    }
  }

  lemma Distance(acc: nat, x: nat, p: nat)
    requires acc <= (U16_LIMIT - 1) * p && x < U16_LIMIT
    ensures Max(acc - x * p, x * p - acc) <= (U16_LIMIT - 1) * p
  {
    ScaleKeepsOrder(x, U16_LIMIT - 1, p);
  }

  /** So the 32-bit filter reaches a constant input exactly, whatever it saw before. */
  lemma SettlesOnInput(shift: nat, xs: seq<u16>, x: u16, n: nat)
    requires shift <= 16 && xs != [] && (U16_LIMIT - 1) * Pow2(shift) <= n
    ensures SampleAll32(Smooth(shift, 0, false), xs + Repeated(x, n)).Value() == x
  {
    hide Pow2, Quotient, Hold, Sample, Repeated, SampleAll, SampleAll32;
    var s := SampleAll(Smooth(shift, 0, false), xs);
    NothingWraps(shift, xs + Repeated(x, n));
    HoldIsSampling(Smooth(shift, 0, false), xs, x, n);
    BetweenSamples(shift, xs, 0, U16_LIMIT - 1);
    Distance(s.acc, x, Pow2(shift));
    ConstantInput(s, x, n);
  }

  // -------------------------------------------------------------- how fast it follows

  function Gap(a: int, b: int): nat {
    if a <= b then b - a else a - b
  }

  lemma ProductMoves(p: nat, v: int, w: int)
    ensures p * w - p * v == p * (w - v)
  {
  }

  lemma MoveOfQuotient(a: nat, b: nat, p: nat)
    requires 0 < p
    ensures var v, w := Quotient(a, p), Quotient(b, p);
            && p * Gap(w, v) < Gap(b, a) + p
            && Gap(b, a) < p * (Gap(w, v) + 1)
  {
    var v, w := Quotient(a, p), Quotient(b, p);
    QuotientParts(a, p);
    QuotientParts(b, p);
    ProductMoves(p, v, w);
    ProductMoves(p, w, v);
    assert p * (Gap(w, v) + 1) == p * Gap(w, v) + p;
  }

  /** A sample adds its distance from the output to the accumulator, no more and no less. */
  lemma SampleAddsGap(s: Smooth, x: nat)
    requires s.primed
    ensures Sample(s, x).acc - s.acc == x - s.Value() && Sample(s, x).shift == s.shift
  {
    QuotientParts(s.acc, s.Scale());
  }

  /** The promised rate: after a first sample, which it takes over, the filter moves by the
      distance to each sample divided by 2^shift, give or take less than one. */
  lemma FollowsAtRate(shift: nat, xs: seq<u16>, x: u16)
    requires shift <= 16
    ensures var s, t := SampleAll32(Smooth(shift, 0, false), xs), SampleAll32(Smooth(shift, 0, false), xs + [x]);
            var v, w, p := s.Value(), t.Value(), Pow2(shift);
            if xs == [] then w == x
            else p * Gap(w, v) < Gap(x, v) + p && Gap(x, v) < p * (Gap(w, v) + 1)
  {
    hide Pow2, SampleAll32, Quotient;
    var start, all := Smooth(shift, 0, false), xs + [x];
    NothingWraps(shift, xs);
    NothingWraps(shift, all);
    assert all[..|all| - 1] == xs;
    var s := SampleAll(start, xs);
    assert SampleAll(start, all) == Sample(s, x);
    if xs == [] {
      ExactValue(x, Pow2(shift));
    } else {
      BetweenSamples(shift, xs, 0, U16_LIMIT - 1);
      SampleAddsGap(s, x);
      MoveOfQuotient(s.acc, Sample(s, x).acc, Pow2(shift));
    }
  }

  lemma {:induction false} HoldMoves(s: Smooth, x: nat, n: nat)
    requires s.primed
    ensures Hold(s, x, n).primed && Hold(s, x, n).shift == s.shift
    ensures Gap(Hold(s, x, n).acc, s.acc) <= n * Gap(x, s.Value())
  {
    if n > 0 {
      var t := Hold(s, x, n - 1);
      HoldMoves(s, x, n - 1);
      ConstantInput(s, x, n - 1);
      SampleAddsGap(t, x);
      assert Gap(x, t.Value()) <= Gap(x, s.Value());
      assert n * Gap(x, s.Value()) == (n - 1) * Gap(x, s.Value()) + Gap(x, s.Value());
    }
  }

  /** n equal samples move the output by at most n times the first step's share. */
  lemma HoldIsSlow(s: Smooth, x: nat, n: nat)
    requires s.primed
    ensures s.Scale() * Gap(Hold(s, x, n).Value(), s.Value()) < n * Gap(x, s.Value()) + s.Scale()
  {
    HoldMoves(s, x, n);
    MoveOfQuotient(s.acc, Hold(s, x, n).acc, s.Scale());
  }

  // ---------------------------------------------------------------- Schmitt trigger

  datatype Trigger = Trigger(low: u16, high: u16, state: bool)

  function Switch(t: Trigger, v: u16): Trigger {
    if !t.state && v >= t.high then t.(state := true)
    else if t.state && v <= t.low then t.(state := false)
    else t
  }

  class Hysteresis {
    const low: u16
    const high: u16
    var state: bool

    ghost function Now(): Trigger
      reads this
    {
      Trigger(low, high, state)
    }

    constructor (lo: u16, hi: u16, initial: bool)
      ensures Now() == Trigger(lo, hi, initial)
    {
      low := lo;
      high := hi;
      state := initial;
    }

    method Update(v: u16) returns (r: bool)
      modifies this
      ensures Now() == Switch(old(Now()), v) && r == state
    {
      if !state && v >= high {
        state := true;
      } else if state && v <= low {
        state := false;
      }
      r := state;
    }
  }

  function SwitchAll(t: Trigger, vs: seq<u16>): Trigger {
    if vs == [] then t else Switch(SwitchAll(t, vs[..|vs| - 1]), vs[|vs| - 1])
  }

  /** What the last reading outside the band between the thresholds says. */
  function LastOutside(low: u16, high: u16, initial: bool, vs: seq<u16>): bool {
    if vs == [] then initial
    else
      var v := vs[|vs| - 1];
      if v >= high then true
      else if v <= low then false
      else LastOutside(low, high, initial, vs[..|vs| - 1])
  }

  lemma {:induction false} TriggerRemembers(t: Trigger, vs: seq<u16>)
    requires t.low < t.high
    ensures SwitchAll(t, vs) == t.(state := LastOutside(t.low, t.high, t.state, vs))
  {
    if vs != [] {
      TriggerRemembers(t, vs[..|vs| - 1]);
    }
  }

  /** The trigger follows the last reading outside its band exactly when the band is not
      empty: with the thresholds crossed, a reading on both sides flips it every time. */
  lemma TriggerLaw(t: Trigger)
    ensures (forall vs :: SwitchAll(t, vs).state == LastOutside(t.low, t.high, t.state, vs)) <==> t.low < t.high
  {
    if t.low < t.high {
      forall vs ensures SwitchAll(t, vs).state == LastOutside(t.low, t.high, t.state, vs) {
        TriggerRemembers(t, vs);
      }
    } else {
      var once: seq<u16>, twice: seq<u16> := [t.high], [t.high, t.high];
      assert once[..|once| - 1] == [] && twice[..|twice| - 1] == once;
      assert SwitchAll(t, []) == t;
      if t.state {
        assert SwitchAll(t, once).state != LastOutside(t.low, t.high, t.state, once);
      } else {
        assert SwitchAll(t, twice).state != LastOutside(t.low, t.high, t.state, twice);
      }
    }
  }
}
