/** How loud the bus lets a sample through: volume, make-up gain and the limiter's
    curve (lib/AudioEngine/AudioEngine.cpp). */
module Levels {
  import opened Fixed
  import opened Eq
  import opened Bus

  const UNITY: int := 0x4000_0000

  lemma FlooredBy(n: int, d: int)
    requires 0 < d
    ensures 0 <= n - d * (n / d) < d
  {
  }

  /** A sample at volume g / 2^30, to within what fifteen bits of the volume leave
      out, and exactly at full volume and at none. */
  lemma VolumeScales(g: int, a: int)
    requires GainOk(g)
    ensures Abs(Gained(g, a) * UNITY - a * g) <= Abs(a) * 32768 + UNITY
    ensures Gained(UNITY, a) == a && Gained(0, a) == 0
  {
    var q := g / 32768;
    FlooredBy(g, 32768);
    FlooredBy(a * q, 32768);
    var rest := g - 32768 * q;
    assert a * g == 32768 * (a * q) + a * rest by { assert a * (32768 * q) == 32768 * (a * q); }
    MulAbs(a, rest, Abs(a), 32768);
  }

  /** The make-up gain is gain / 256, rounded down, up to where the bus saturates. */
  lemma MakeUpScales(o: OutStage, y: int)
    requires OutStageOk(o)
    ensures !o.eqOn ==> MadeUp(o, y) == y
    ensures o.eqOn && Abs(y * o.gainQ8) < 0x100_0000 * 256 ==> MadeUp(o, y) * 256 <= y * o.gainQ8 < (MadeUp(o, y) + 1) * 256
    ensures o.eqOn && 0x100_0000 * 256 <= y * o.gainQ8 ==> MadeUp(o, y) == 0x100_0000
    ensures o.eqOn && y * o.gainQ8 <= -0x100_0000 * 256 ==> MadeUp(o, y) == -0x100_0000
  {
    FlooredBy(y * o.gainQ8, 256);
  }

  /** The limiter's curve: a peak up to 30000 is let through, one above it gets a
      quarter of what is above, and none gets more than 32700. */
  function Curve(ax: nat): nat {
    if ax <= 30000 then ax
    else if 32700 < 30000 + (ax - 30000) / 4 then 32700
    else 30000 + (ax - 30000) / 4
  }

  /** With the limiter open a sample comes out at the curve, low by less than one
      unit and another for every 32768 of it. */
  lemma OpenLimiterFollowsTheCurve(o: OutStage, z: int)
    requires !o.eqOn && o.limGain == UNITY && InRange(z)
    ensures var w := OutTick(o, z).1; var ax := Abs(z);
            && (ax <= 30000 ==> w == z)
            && (0 < z ==> 0 < w) && (z < 0 ==> w < 0)
            && Abs(w) <= Curve(ax) && Curve(ax) * 32768 < (Abs(w) + 1) * 32768 + ax
  {
    var ax := Abs(z);
    if ax <= 30000 {
      QuietPassesUnchanged(o, z);
    } else {
      var q := Curve(ax) * 32768 / ax;
      LimTargetOk(ax);
      FlooredBy(Curve(ax) * 32768, ax);
      assert LimTarget(ax) == q * 32768;
      assert LimGain(o.limGain, ax) == q * 32768;
      Scaled(z, q);
      LimitedPeak(o.limGain, z);
      CurveIsLarge(ax, q);
    }
  }

  lemma Scaled(z: int, q: int)
    ensures z * (q * 32768) / UNITY == z * q / 32768
    ensures z < 0 ==> z * q == -(Abs(z) * q)
  {
    assert z * (q * 32768) == (z * q) * 32768;
    Cancels(z * q);
  }

  lemma Cancels(n: int)
    ensures n * 32768 / UNITY == n / 32768
  {
  }

  lemma CurveIsLarge(ax: nat, q: int)
    requires 30000 < ax <= BUS_SAT && q == Curve(ax) * 32768 / ax
    ensures 32768 * 10000 < ax * q <= Curve(ax) * 32768 && Curve(ax) * 32768 < ax * q + ax
  {
    FlooredBy(Curve(ax) * 32768, ax);
  }

  /** A limiter that is partly closed opens by a 1024th of what is left, or all of it
      once less is left, and closes at once when the curve asks for less. */
  lemma LimiterOpensSlowly(o: OutStage, z: int)
    requires OutStageOk(o) && !o.eqOn && Abs(z) <= 30000
    ensures var gap, left := UNITY - o.limGain, UNITY - OutTick(o, z).0.limGain;
            (if gap < 1024 then left == 0 else 1023 * gap <= 1024 * left < 1023 * gap + 1024)
            && OutTick(o, z).0.limGain >= o.limGain
  {
    FlooredBy(UNITY - o.limGain, 1024);
  }

  /** A volume change is spread evenly over 441 samples: each moves the gain by a 441st
      of the way, rounded toward zero, which leaves less than 441 units to the last. */
  lemma RampIsEven(m: MixStage, q15: nat)
    ensures var s := SetMaster(m, q15, true); var way := (if q15 < 32768 then q15 else 32768) * 32768 - m.master;
            && s.target == m.master + way
            && (way == 0 ==> s.master == s.target && s.rampLeft == 0)
            && (0 < way ==> s.rampLeft == 441 && 0 <= way - 441 * s.step < 441)
            && (way < 0 ==> s.rampLeft == 441 && -441 < way - 441 * s.step <= 0)
  {
    var way := (if q15 < 32768 then q15 else 32768) * 32768 - m.master;
    FlooredBy(Abs(way), 441);
  }
}
