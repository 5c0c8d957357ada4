/** The voices' oscillators: one raw sample from a 32-bit phase
    (lib/AudioEngine/AudioEngine.cpp). */
module Oscillator {
  import opened Fixed

  datatype Wave = Pulse | Triangle | Saw | Noise | Sine | SoftSquare

  /** What is used of the sine table: its bounds and how far neighbours are
      apart. SineTableData shows that the firmware's table is one. */
  type SineTable = t: seq<int> | IsSineTable(t) witness seq(257, i => 0)

  predicate IsSineTable(t: seq<int>) {
    && |t| == 257
    && (forall i :: 0 <= i < 257 ==> -32767 <= t[i] <= 32767)
    && (forall i {:trigger t[i]} :: 0 <= i < 256 ==> -804 <= t[i + 1] - t[i] <= 804)
  }

  const PULSE_AMP: int := 24000
  const NOISE_AMP: int := 20000
  // 65536 * 65536
  const PHASE_WRAP: int := WRAP32

  type Phase = p: int | 0 <= p < PHASE_WRAP

  function SineAt(t: SineTable, phase: Phase): int {
    var a := t[phase / 0x100_0000];
    var b := t[phase / 0x100_0000 + 1];
    a + (b - a) * (phase / 256 % 65536) / 65536
  }

  /** The interpolated value lies between its neighbours, and its product fits. */
  lemma SineBetweenNeighbours(t: SineTable, phase: Phase)
    ensures var a := t[phase / 0x100_0000]; var b := t[phase / 0x100_0000 + 1];
            && (if a <= b then a <= SineAt(t, phase) <= b else b <= SineAt(t, phase) <= a)
            && Fits32((b - a) * (phase / 256 % 65536))
    ensures -32767 <= SineAt(t, phase) <= 32767
  {
    var i := phase / 0x100_0000;
    var a, b, frac := t[i], t[i + 1], phase / 256 % 65536;
    if a <= b {
      MulAtMost(frac, b - a, 65535, 804);
      MulAtMost(b - a, frac, b - a, 65536);
    } else {
      MulAtMost(frac, a - b, 65535, 804);
      MulAtMost(a - b, frac, a - b, 65536);
      assert (b - a) * frac == -((a - b) * frac);
    }
  }

  // Soft-square weights (Q15) for 1 to 4 odd harmonics.
  function Weights(harmonics: int): (w: seq<int>)
    ensures |w| == 4
  {
    if harmonics == 1 then [32768, 0, 0, 0]
    else if harmonics == 2 then [34756, 11585, 0, 0]
    else if harmonics == 3 then [35109, 11703, 7022, 0]
    else [35231, 11744, 7046, 5033]
  }

  /** The largest soft-square sample: the sum of the four weights. It is above
      the sine's peak because only the real sine's shape would bring it down. */
  const PEAK: nat := 59054

  function Multiple(phase: Phase, k: nat): Phase {
    phase * k % PHASE_WRAP
  }

  function SoftSum(t: SineTable, phase: Phase, harmonics: int): int {
    var w := Weights(harmonics);
    var one := SineAt(t, phase) * w[0];
    var two := if harmonics == 1 then one else one + SineAt(t, Multiple(phase, 3)) * w[1];
    var three := if harmonics == 1 || harmonics == 2 then two else two + SineAt(t, Multiple(phase, 5)) * w[2];
    if harmonics == 1 || harmonics == 2 || harmonics == 3 then three else three + SineAt(t, Multiple(phase, 7)) * w[3]
  }

  lemma SoftSumFits(t: SineTable, phase: Phase, harmonics: int)
    ensures Abs(SoftSum(t, phase, harmonics)) <= 32767 * PEAK < 0x8000_0000
    ensures Abs(SoftSum(t, phase, harmonics) / 32768) <= PEAK
  {
    hide SineAt;
    SineBetweenNeighbours(t, phase);
    SineBetweenNeighbours(t, Multiple(phase, 3));
    SineBetweenNeighbours(t, Multiple(phase, 5));
    SineBetweenNeighbours(t, Multiple(phase, 7));
  }

  /** With one harmonic the soft square is exactly the sine. */
  lemma OneHarmonicIsTheSine(t: SineTable, phase: Phase)
    ensures SoftSum(t, phase, 1) / 32768 == SineAt(t, phase)
  {
    hide SineAt;
  }

  datatype Osc = Osc(wave: Wave, phase: Phase, inc: Phase, duty: Phase, harmonics: int, lfsr: bv16, noise: int)

  predicate OscOk(o: Osc) {
    (o.noise == NOISE_AMP || o.noise == -NOISE_AMP) && 1 <= o.lfsr <= 0x7FFF
  }

  function NextLfsr(l: bv16): bv16 {
    var bit := (l ^ (l >> 1)) & 1;
    (l >> 1) | (bit << 14)
  }

  /** The noise register never reaches the all-zero state it could not leave. */
  lemma LfsrNeverSticks(l: bv16)
    requires 1 <= l <= 0x7FFF
    ensures 1 <= NextLfsr(l) <= 0x7FFF
  {
  }

  /** The noise register is clocked once per phase wrap. */
  function Clocked(o: Osc): Osc {
    if o.wave.Noise? && (o.phase + o.inc) % PHASE_WRAP < o.phase then
      var l := NextLfsr(o.lfsr);
      o.(lfsr := l, noise := if l & 1 == 1 then NOISE_AMP else -NOISE_AMP)
    else o
  }

  /** The raw sample at the current phase. */
  function Raw(t: SineTable, o: Osc): int {
    match o.wave
    case Pulse => if o.phase < o.duty then PULSE_AMP else -PULSE_AMP
    case Triangle =>
      var p := (o.phase + 0x4000_0000) % PHASE_WRAP / 65536;
      (if p < 32768 then p else 65535 - p) * 2 - 32767
    case Saw => ((o.phase + 0x8000_0000) % PHASE_WRAP / 65536 - 32768) * 3 / 4
    case Noise => Clocked(o).noise
    case SoftSquare => SoftSum(t, o.phase, o.harmonics) / 32768
    case Sine => SineAt(t, o.phase)
  }

  function Advanced(o: Osc): Osc {
    var c := Clocked(o);
    c.(phase := (o.phase + o.inc) % PHASE_WRAP)
  }

  lemma RawBounded(t: SineTable, o: Osc)
    requires OscOk(o)
    ensures Abs(Raw(t, o)) <= PEAK
    ensures OscOk(Advanced(o))
  {
    hide SineAt, SoftSum, NextLfsr;
    LfsrNeverSticks(o.lfsr);
    SineBetweenNeighbours(t, o.phase);
    SoftSumFits(t, o.phase, o.harmonics);
  }
}
