/** The mix bus: master gain with its ramp, DC blocker, speaker EQ, make-up gain
    and limiter (lib/AudioEngine/AudioEngine.cpp). BusTick is one sample through
    all of it. */
module Bus {
  import opened Fixed
  import opened Mealy
  import opened Eq
  import opened Front

  const ONE_Q30: int := 0x4000_0000
  const RAMP_SAMPLES: nat := 441
  const DC_POLE_Q15: int := 32604
  const LIM_KNEE: int := 30000
  const LIM_CEILING: int := 32700
  // The largest input of the bus, and the largest output of the DC blocker.
  const IN_PEAK: int := MIX_PEAK
  const DC_PEAK: int := 2 * MIX_PEAK

  // ---- master gain and DC blocker ----

  datatype MixStage = MixStage(master: int, target: int, step: int, rampLeft: nat, dcX: int, dcY: int)

  /** Multiply by the pole, rounding toward zero. */
  function MulPole(v: int): int {
    if 0 <= v then v * DC_POLE_Q15 / 32768 else -((-v) * DC_POLE_Q15 / 32768)
  }

  function Ramped(m: MixStage): MixStage {
    if m.rampLeft == 0 then m
    else m.(rampLeft := m.rampLeft - 1, master := if m.rampLeft == 1 then m.target else m.master + m.step)
  }

  function Gained(master: int, a: int): int {
    a * (master / 32768) / 32768
  }

  function MixTick(m: MixStage, a: int): (MixStage, int) {
    var r := Ramped(m);
    var x := Gained(r.master, a);
    var d := x - r.dcX + MulPole(r.dcY);
    (r.(dcX := x, dcY := d), d)
  }

  function SetMaster(m: MixStage, q15: int, sounding: bool): MixStage {
    var target := (if 32768 < q15 then 32768 else q15) * 32768;
    var diff := target - m.master;
    if diff == 0 || !sounding then m.(target := target, master := target, rampLeft := 0)
    else m.(target := target, step := TruncDiv(diff, RAMP_SAMPLES), rampLeft := RAMP_SAMPLES)
  }

  predicate GainOk(g: int) {
    0 <= g <= ONE_Q30
  }

  predicate MixStageOk(m: MixStage) {
    && GainOk(m.master) && GainOk(m.target) && m.rampLeft <= RAMP_SAMPLES
    && (0 < m.rampLeft ==> GainOk(m.master + m.rampLeft * m.step))
    && Abs(m.dcX) <= IN_PEAK
    && Abs(m.dcY - m.dcX) <= IN_PEAK
  }

  lemma RampStep(master: int, left: nat, step: int)
    requires 0 < left && GainOk(master) && GainOk(master + left * step)
    ensures GainOk(master + step) && master + step + (left - 1) * step == master + left * step
  {
    assert left * step == (left - 1) * step + step;
    if 0 <= step {
      MulAtMost(left - 1, step, left - 1, step);
    } else {
      MulAtMost(left - 1, -step, left - 1, -step);
      assert (left - 1) * -step == -((left - 1) * step);
    }
  }

  lemma RampedOk(m: MixStage)
    requires MixStageOk(m)
    ensures MixStageOk(Ramped(m))
  {
    if 0 < m.rampLeft { RampStep(m.master, m.rampLeft, m.step); }
  }

  lemma SetMasterOk(m: MixStage, q15: nat, sounding: bool)
    requires MixStageOk(m)
    ensures MixStageOk(SetMaster(m, q15, sounding))
  {
    var target := (if 32768 < q15 then 32768 else q15) * 32768;
    TruncDivTimes(target - m.master, RAMP_SAMPLES);
  }

  lemma GainedSmaller(master: int, a: int)
    requires GainOk(master)
    ensures Abs(Gained(master, a)) <= Abs(a)
    ensures Abs(a * (master / 32768)) <= Abs(a) * 32768
  {
    var g := master / 32768;
    MulAbs(a, g, Abs(a), 32768);
    if 0 <= a { MulAtMost(a, g, a, 32768); } else { MulAtMost(-a, g, -a, 32768); assert -a * g == -(a * g); }
  }

  /** The blocker's invariant is on its output minus its input: with both under
      the peak they stay under it, so the output never exceeds twice the peak. */
  lemma DcStaysBounded(dcX: int, dcY: int, x: int)
    requires Abs(dcX) <= IN_PEAK && Abs(dcY - dcX) <= IN_PEAK && Abs(x) <= IN_PEAK
    ensures var d := x - dcX + MulPole(dcY); Abs(d - x) <= IN_PEAK && Abs(d) <= DC_PEAK
  {
  }

  lemma MixTickOk(m: MixStage, a: int)
    requires MixStageOk(m) && Abs(a) <= IN_PEAK
    ensures MixStageOk(MixTick(m, a).0) && Abs(MixTick(m, a).1) <= DC_PEAK && InRange(MixTick(m, a).1)
    ensures var r := Ramped(m);
            Fits64(a * (r.master / 32768)) && Fits32(Gained(r.master, a) - r.dcX + MulPole(r.dcY))
  {
    hide Gained, MulPole;
    RampedOk(m);
    var r := Ramped(m);
    GainedSmaller(r.master, a);
    DcStaysBounded(r.dcX, r.dcY, Gained(r.master, a));
  }

  function MixAfter(m: MixStage, xs: seq<int>): MixStage {
    Run(MixTick, m, xs).0
  }

  /** After a volume change the gain moves evenly and stands exactly on its
      target after 441 samples, whatever is played meanwhile. */
  lemma {:induction false} RampLandsOnTarget(m: MixStage, q15: nat, xs: seq<int>)
    requires MixStageOk(m)
    requires m.master != (if 32768 < q15 then 32768 else q15) * 32768
    ensures var s := SetMaster(m, q15, true); var r := MixAfter(s, xs);
            && (|xs| < RAMP_SAMPLES ==> r.master == m.master + |xs| * s.step && r.rampLeft == RAMP_SAMPLES - |xs|)
            && (RAMP_SAMPLES <= |xs| ==> r.master == (if 32768 < q15 then 32768 else q15) * 32768 && r.rampLeft == 0)
            && r.target == s.target && r.step == s.step
  {
    hide Gained, MulPole, GainOk, TruncDiv;
    if xs != [] {
      RampLandsOnTarget(m, q15, xs[..|xs| - 1]);
      var step := SetMaster(m, q15, true).step;
      assert |xs| * step == (|xs| - 1) * step + step;
    }
  }

  function Decayed(v: int, n: nat): int {
    if n == 0 then v else MulPole(Decayed(v, n - 1))
  }

  /** Rounding toward zero lets the filter state die out completely. */
  lemma {:induction false} SilenceDecaysToZero(v: int, n: nat)
    ensures Abs(Decayed(v, n)) <= if n <= Abs(v) then Abs(v) - n else 0
  {
    if n != 0 {
      SilenceDecaysToZero(v, n - 1);
      PoleShrinks(Decayed(v, n - 1));
    }
  }

  lemma PoleShrinks(v: int)
    ensures v != 0 ==> Abs(MulPole(v)) < Abs(v)
    ensures MulPole(0) == 0
  {
  }

  // ---- make-up gain and limiter ----

  datatype OutStage = OutStage(eqOn: bool, gainQ8: int, limGain: int, clips: nat)

  function Recovering(g: int): int {
    var gap := ONE_Q30 - g;
    var up := gap / 1024;
    g + if up != 0 then up else gap
  }

  /** The gain that brings a peak of ax down to its allowed peak. */
  function LimTarget(ax: int): int
    requires LIM_KNEE < ax
  {
    var soft := LIM_KNEE + (ax - LIM_KNEE) / 4;
    var peak := if LIM_CEILING < soft then LIM_CEILING else soft;
    peak * 32768 / ax * 32768
  }

  function LimGain(g: int, ax: int): int {
    var r := if g != ONE_Q30 then Recovering(g) else g;
    if LIM_KNEE < ax && LimTarget(ax) < r then LimTarget(ax) else r
  }

  function MadeUp(o: OutStage, y: int): int {
    if o.eqOn then Clamp(y * o.gainQ8 / 256, BUS_SAT) else y
  }

  function OutTick(o: OutStage, y: int): (OutStage, int) {
    var z := MadeUp(o, y);
    var limited := o.limGain != ONE_Q30 || LIM_KNEE < Abs(z);
    var g := if limited then LimGain(o.limGain, Abs(z)) else o.limGain;
    var w := if limited then z * g / ONE_Q30 else z;
    if 32767 < w then (o.(limGain := g, clips := o.clips + 1), 32767)
    else if w < -32768 then (o.(limGain := g, clips := o.clips + 1), -32768)
    else (o.(limGain := g), w)
  }

  predicate OutStageOk(o: OutStage) {
    0 < o.limGain <= ONE_Q30 && 0 <= o.gainQ8 <= MAX_GAIN_Q8
  }

  lemma RecoveringOk(g: int)
    requires 0 < g < ONE_Q30
    ensures g < Recovering(g) <= ONE_Q30
  {
  }

  lemma LimTargetOk(ax: int)
    requires LIM_KNEE < ax <= BUS_SAT
    ensures 0 < LimTarget(ax) < ONE_Q30
    ensures ax * LimTarget(ax) <= LIM_CEILING * ONE_Q30
  {
    var soft := LIM_KNEE + (ax - LIM_KNEE) / 4;
    var peak := if LIM_CEILING < soft then LIM_CEILING else soft;
    var q := peak * 32768 / ax;
    QuotientTimes(peak * 32768, ax);
    QuotientPositive(peak * 32768, ax);
    QuotientBelow(peak, ax);
    assert ax * (q * 32768) == ax * q * 32768;
  }

  lemma QuotientTimes(n: nat, d: int)
    requires 0 < d
    ensures d * (n / d) <= n
  {
  }

  lemma QuotientPositive(n: nat, d: int)
    requires 0 < d <= n
    ensures 0 < n / d
  {
  }

  lemma QuotientBelow(n: nat, d: int)
    requires n < d
    ensures n * 32768 / d < 32768
  {
    var q := n * 32768 / d;
    QuotientTimes(n * 32768, d);
    if 32768 <= q {
      MulAtMost(d, 32768, d, q);
      assert false;
    }
  }

  lemma MadeUpInRange(o: OutStage, y: int)
    requires InRange(y) && OutStageOk(o)
    ensures InRange(MadeUp(o, y)) && Fits64(y * o.gainQ8) && Fits32(y * o.gainQ8 / 256)
  {
    MulAbs(y, o.gainQ8, BUS_SAT, MAX_GAIN_Q8);
  }

  /** From every state, for every input: the output stays within the ceiling,
      the final clamp never acts, and the gain stays in (0, 1]. */
  lemma OutTickOk(o: OutStage, y: int)
    requires OutStageOk(o) && InRange(y)
    ensures var (r, w) := OutTick(o, y);
            && Abs(w) <= LIM_CEILING
            && r.clips == o.clips
            && OutStageOk(r)
            && r.eqOn == o.eqOn && r.gainQ8 == o.gainQ8
    ensures Fits64(MadeUp(o, y) * LimGain(o.limGain, Abs(MadeUp(o, y))))
  {
    hide MadeUp, LimGain;
    MadeUpInRange(o, y);
    var z := MadeUp(o, y);
    LimitedPeak(o.limGain, z);
    MulAbs(z, LimGain(o.limGain, Abs(z)), BUS_SAT, ONE_Q30);
  }

  /** The limited sample stays under the ceiling. */
  lemma LimitedPeak(gain: int, z: int)
    requires 0 < gain <= ONE_Q30 && InRange(z)
    ensures var g := LimGain(gain, Abs(z)); 0 < g <= ONE_Q30 && -LIM_CEILING <= z * g / ONE_Q30 <= LIM_CEILING
  {
    hide LimTarget, Recovering;
    var ax := Abs(z);
    if gain != ONE_Q30 { RecoveringOk(gain); }
    if LIM_KNEE < ax { LimTargetOk(ax); }
    var g := LimGain(gain, ax);
    if LIM_KNEE < ax {
      MulAtMost(ax, g, ax, LimTarget(ax));
    } else {
      MulAtMost(ax, g, LIM_KNEE, ONE_Q30);
    }
    SignedPeak(z, g);
  }

  lemma SignedPeak(z: int, g: int)
    requires 0 <= Abs(z) * g <= LIM_CEILING * ONE_Q30
    ensures -LIM_CEILING <= z * g / ONE_Q30 <= LIM_CEILING
  {
    if z < 0 { assert z * g == -(Abs(z) * g); }
  }

  /** Below the knee at unity gain the limiter passes samples bit for bit. */
  lemma QuietPassesUnchanged(o: OutStage, y: int)
    requires !o.eqOn && o.limGain == ONE_Q30 && Abs(y) <= LIM_KNEE
    ensures OutTick(o, y) == (o, y)
  {
  }

  // ---- recovery of the limiter ----

  function Recovered(g: int, n: nat): int {
    if n == 0 then g
    else
      var before := Recovered(g, n - 1);
      if before != ONE_Q30 then Recovering(before) else before
  }

  lemma {:induction false} RecoveredInRange(g: int, n: nat)
    requires 0 < g <= ONE_Q30
    ensures g <= Recovered(g, n) <= ONE_Q30
  {
    if n != 0 {
      RecoveredInRange(g, n - 1);
      if Recovered(g, n - 1) != ONE_Q30 { RecoveringOk(Recovered(g, n - 1)); }
    }
  }

  /** While the gap is at least h, each sample closes at least h / 1024 of it. */
  lemma {:induction false} GapShrinks(g: int, h: nat, n: nat)
    requires 0 < g <= ONE_Q30 && ONE_Q30 - g <= 2 * h && 0 < h && h % 1024 == 0
    ensures ONE_Q30 - Recovered(g, n) < h || ONE_Q30 - Recovered(g, n) <= 2 * h - n * (h / 1024)
  {
    if n != 0 {
      GapShrinks(g, h, n - 1);
      RecoveredInRange(g, n - 1);
      var gap := ONE_Q30 - Recovered(g, n - 1);
      assert n * (h / 1024) == (n - 1) * (h / 1024) + h / 1024;
      if h <= gap { assert h / 1024 <= gap / 1024; }
    }
  }

  lemma {:induction false} RecoveredTwice(g: int, a: nat, b: nat)
    ensures Recovered(Recovered(g, a), b) == Recovered(g, a + b)
  {
    if b != 0 { RecoveredTwice(g, a, b - 1); }
  }

  function Pow2(k: nat): (r: nat)
    ensures 0 < r
  {
    if k == 0 then 1 else 2 * Pow2(k - 1)
  }

  /** A gap of at most 1024 * 2^k is closed exactly after 1024 * k + 2 samples. */
  lemma {:induction false} GapCloses(g: int, k: nat)
    requires 0 < g <= ONE_Q30 && ONE_Q30 - g <= 1024 * Pow2(k)
    ensures Recovered(g, 1024 * k + 2) == ONE_Q30
    decreases k
  {
    if k == 0 {
      assert Recovered(g, 0) == g;
      var g1 := Recovered(g, 1);
      assert g == ONE_Q30 || g1 == Recovering(g);
      assert ONE_Q30 - g1 < 1024;
      assert Recovered(g, 2) == if g1 != ONE_Q30 then Recovering(g1) else g1;
    } else {
      var h := 1024 * Pow2(k - 1);
      GapShrinks(g, h, 1024);
      RecoveredInRange(g, 1024);
      assert 1024 * (h / 1024) == h;
      GapCloses(Recovered(g, 1024), k - 1);
      RecoveredTwice(g, 1024, 1024 * (k - 1) + 2);
    }
  }

  const RECOVERY_SAMPLES: nat := 20482

  /** Once the input stays under the knee the limiter is back at exactly unity
      within 20482 samples (under half a second), from every state. */
  lemma LimiterReturnsToUnity(o: OutStage, ys: seq<int>)
    requires OutStageOk(o) && RECOVERY_SAMPLES <= |ys|
    requires forall i :: 0 <= i < |ys| ==> Abs(MadeUp(o, ys[i])) <= LIM_KNEE
    ensures Run(OutTick, o, ys).0.limGain == ONE_Q30
  {
    QuietRunRecovers(o, ys);
    assert Pow2(20) == 0x10_0000 by { TwentyDoublings(); }
    GapCloses(o.limGain, 20);
    RecoveredTwice(o.limGain, RECOVERY_SAMPLES, |ys| - RECOVERY_SAMPLES);
    RecoveredInRange(ONE_Q30, |ys| - RECOVERY_SAMPLES);
  }

  lemma TwentyDoublings()
    ensures Pow2(20) == 0x10_0000
  {
    assert Pow2(4) == 16;
    assert Pow2(8) == 256;
    assert Pow2(12) == 4096;
    assert Pow2(16) == 65536;
  }

  lemma {:induction false} QuietRunRecovers(o: OutStage, ys: seq<int>)
    requires OutStageOk(o) && forall i :: 0 <= i < |ys| ==> Abs(MadeUp(o, ys[i])) <= LIM_KNEE
    ensures var r := Run(OutTick, o, ys).0; r.eqOn == o.eqOn && r.gainQ8 == o.gainQ8 && OutStageOk(r)
    ensures Run(OutTick, o, ys).0.limGain == Recovered(o.limGain, |ys|)
  {
    hide Recovering, MadeUp;
    if ys != [] {
      var n := |ys| - 1;
      QuietRunRecovers(o, ys[..n]);
      var r := Run(OutTick, o, ys[..n]).0;
      RecoveredInRange(o.limGain, n);
      RecoveredInRange(o.limGain, |ys|);
      MadeUpSame(o, r, ys[n]);
    }
  }

  lemma MadeUpSame(o: OutStage, r: OutStage, y: int)
    requires r.eqOn == o.eqOn && r.gainQ8 == o.gainQ8
    ensures MadeUp(r, y) == MadeUp(o, y)
  {
  }
}
