/** What a sample is: each wave by its shape over a cycle, scaled by envelope and
    level, and heard unchanged through an engine at unity
    (lib/AudioEngine/AudioEngine.cpp). */
module Waves {
  import opened Common
  import opened Fixed
  import opened Oscillator
  import opened Voice

  const CYCLE: int := 0x1_0000_0000

  // ---- a sample scaled ----

  /** The exact scaled sample is raw * env * level / 2^32; the computed one is
      within four units of it. */
  lemma ShapedIsClose(raw: int, env: int, level: int)
    requires Abs(raw) <= 65536 && 0 <= env <= ENV_ONE && 0 <= level <= 256
    ensures Abs(Shaped(raw, env, level) * CYCLE - raw * env * level) <= 4 * CYCLE
  {
    var e := env / 512;
    var a := raw * e / 32768;
    var b := a * level / 256;
    var dropped := raw * (env - 512 * e);
    MulAbs(raw, env - 512 * e, 65536, 512);
    assert raw * env == 512 * (raw * e) + dropped by { assert raw * (512 * e) == 512 * (raw * e); }
    Halves(raw * e, 32768);
    Halves(a * level, 256);
    var first := raw * e - 32768 * a;
    var second := a * level - 256 * b;
    assert raw * env == 512 * (32768 * a + first) + dropped;
    ScaledUp(raw * env, level, 0x100_0000 * a, 512 * first + dropped);
    MulAbs(512 * first + dropped, level, 50331648, 256);
    assert 0x100_0000 * a * level == 0x100_0000 * (a * level);
  }

  lemma Halves(n: int, d: int)
    requires 0 < d
    ensures 0 <= n - d * (n / d) < d
  {
  }

  lemma ScaledUp(n: int, level: int, whole: int, rest: int)
    requires n == whole + rest
    ensures n * level == whole * level + rest * level
  {
  }

  /** At full envelope and unity level the sample is the raw one, bit for bit. */
  lemma ShapedAtUnity(raw: int)
    ensures Shaped(raw, ENV_ONE, LEVEL_UNITY) == raw
  {
  }

  // ---- the waves ----

  /** The weighted sum of the first n odd harmonics. */
  function HarmonicSum(t: SineTable, phase: Phase, w: seq<int>, n: nat): int
    requires n <= |w|
  {
    if n == 0 then 0 else HarmonicSum(t, phase, w, n - 1) + SineAt(t, phase * (2 * n - 1) % PHASE_WRAP) * w[n - 1]
  }

  lemma SoftSumIsHarmonicSum(t: SineTable, phase: Phase, harmonics: int)
    requires 1 <= harmonics <= 4
    ensures SoftSum(t, phase, harmonics) == HarmonicSum(t, phase, Weights(harmonics), harmonics)
  {
    hide SineAt;
    var w := Weights(harmonics);
    assert HarmonicSum(t, phase, w, 0) == 0;
    assert HarmonicSum(t, phase, w, 1) == SineAt(t, phase) * w[0];
    assert HarmonicSum(t, phase, w, 2) == HarmonicSum(t, phase, w, 1) + SineAt(t, Multiple(phase, 3)) * w[1];
    assert HarmonicSum(t, phase, w, 3) == HarmonicSum(t, phase, w, 2) + SineAt(t, Multiple(phase, 5)) * w[2];
    assert HarmonicSum(t, phase, w, 4) == HarmonicSum(t, phase, w, 3) + SineAt(t, Multiple(phase, 7)) * w[3];
  }

  /** The weights fall like 1, 1/3, 1/5, 1/7 as far as harmonics are kept. */
  lemma WeightsFallLikeASquare(harmonics: int, k: nat)
    requires 1 <= harmonics <= 4 && k < 4
    ensures var w := Weights(harmonics);
            Abs(w[k] * (2 * k + 1) - (if k < harmonics then w[0] else 0)) <= 2 * k
  {
  }

  /** Harmonic 2k + 1 is kept exactly while it is at or below 10 kHz. */
  lemma HarmonicsKept(inc: U32, k: nat)
    requires 1 <= k <= 3
    ensures 1 <= Harmonics(inc) <= 4
    ensures k < Harmonics(inc) <==> (2 * k + 1) * inc <= 973915487
  {
  }

  /** At a table point the sine is the table's value; in between it is the straight
      line to the next, rounded down. */
  lemma SineIsTheTable(t: SineTable, i: nat, frac: nat)
    requires i < 256 && frac < 0x100_0000
    ensures frac == 0 ==> SineAt(t, i * 0x100_0000 + frac) == t[i]
    ensures var line := t[i] * 65536 + (t[i + 1] - t[i]) * (frac / 256);
            var s := SineAt(t, i * 0x100_0000 + frac); s * 65536 <= line < (s + 1) * 65536
  {
    PhaseParts(i, frac);
    SineIsOnTheLine(t, i, i * 0x100_0000 + frac, frac / 256);
  }

  lemma SineIsOnTheLine(t: SineTable, i: nat, phase: Phase, f: nat)
    requires i < 256 && phase / 0x100_0000 == i && phase / 256 % 65536 == f
    ensures f == 0 ==> SineAt(t, phase) == t[i]
    ensures var line := t[i] * 65536 + (t[i + 1] - t[i]) * f; SineAt(t, phase) * 65536 <= line < (SineAt(t, phase) + 1) * 65536
  {
    Halves((t[i + 1] - t[i]) * f, 65536);
  }

  lemma PhaseParts(i: nat, frac: nat)
    requires i < 256 && frac < 0x100_0000
    ensures var phase := i * 0x100_0000 + frac; phase / 0x100_0000 == i && phase / 256 % 65536 == frac / 256
  {
    assert (i * 0x100_0000 + frac) / 256 == i * 65536 + frac / 256;
  }

  /** The noise register shifts down, its new top bit saying whether its two lowest
      bits differed. */
  lemma RegisterShifts(l: bv16)
    requires l <= 0x7FFF
    ensures NextLfsr(l) == (l >> 1) + if (l & 3) == 1 || (l & 3) == 2 then 0x4000 else 0
  {
  }

  /** No two registers meet, so the noise runs round its cycle for good. */
  lemma RegistersStayApart(l: bv16, m: bv16)
    requires l <= 0x7FFF && m <= 0x7FFF && NextLfsr(l) == NextLfsr(m)
    ensures l == m
  {
  }

  /** The noise keeps its value within a cycle; as one ends the register moves on
      and its low bit says which of the two values comes next. */
  lemma NoiseIs(t: SineTable, o: Osc)
    requires o.wave == Noise
    ensures o.phase + o.inc < CYCLE ==> Raw(t, o) == o.noise && Advanced(o).lfsr == o.lfsr && Advanced(o).noise == o.noise
    ensures CYCLE <= o.phase + o.inc ==>
              && Advanced(o).lfsr == NextLfsr(o.lfsr) && Advanced(o).noise == Raw(t, o)
              && Raw(t, o) == if Advanced(o).lfsr & 1 == 1 then 20000 else -20000
  {
    hide NextLfsr;
  }

  /** The wave at a place in its cycle: a pulse is high for its duty; a triangle
      rises from its zero crossing for a quarter, falls for a half and rises again;
      a saw rises from zero and drops half way; the others come from the table. */
  function WaveAt(t: SineTable, wave: Wave, phase: Phase, duty: Phase, harmonics: int): int
    requires wave != Noise && 1 <= harmonics <= 4
  {
    var p := phase / 65536;
    match wave
    case Pulse => if phase < duty then 24000 else -24000
    case Triangle => if p < 16384 then 2 * p + 1 else if p < 49152 then 65535 - 2 * p else 2 * p - 131071
    case Saw => if p < 32768 then 3 * p / 4 else 3 * (p - 65536) / 4
    case Sine => SineAt(t, phase)
    case SoftSquare => HarmonicSum(t, phase, Weights(harmonics), harmonics) / 32768
  }

  lemma RawIsTheWave(t: SineTable, o: Osc)
    requires o.wave != Noise && 1 <= o.harmonics <= 4
    ensures Raw(t, o) == WaveAt(t, o.wave, o.phase, o.duty, o.harmonics)
  {
    hide SineAt, SoftSum, HarmonicSum, Weights;
    SoftSumIsHarmonicSum(t, o.phase, o.harmonics);
    if o.wave == Triangle { TriangleIsTheWave(o.phase); }
    if o.wave == Saw { SawIsTheWave(o.phase); }
  }

  lemma TriangleIsTheWave(phase: Phase)
    ensures var p, q := (phase + 0x4000_0000) % CYCLE / 65536, phase / 65536;
            (if p < 32768 then p else 65535 - p) * 2 - 32767 ==
              if q < 16384 then 2 * q + 1 else if q < 49152 then 65535 - 2 * q else 2 * q - 131071
  {
    assert (phase + 0x4000_0000) / 65536 == phase / 65536 + 16384;
  }

  lemma SawIsTheWave(phase: Phase)
    ensures var q := phase / 65536;
            ((phase + 0x8000_0000) % CYCLE / 65536 - 32768) * 3 / 4 == if q < 32768 then 3 * q / 4 else 3 * (q - 65536) / 4
  {
    assert (phase + 0x8000_0000) / 65536 == phase / 65536 + 32768;
  }

  /** A triangle's second half is its first upside down, and it crosses zero upward
      where the cycle begins. */
  lemma TriangleIsOdd(t: SineTable, phase: Phase)
    requires phase < 0x8000_0000
    ensures WaveAt(t, Triangle, phase + 0x8000_0000, 0, 1) == -WaveAt(t, Triangle, phase, 0, 1)
    ensures WaveAt(t, Triangle, 0, 0, 1) == 1 && WaveAt(t, Triangle, 0xFFFF_0000, 0, 1) == -1
    ensures 1 <= WaveAt(t, Triangle, phase, 0, 1) <= 32767
    ensures WaveAt(t, Triangle, 0x3FFF_0000, 0, 1) == WaveAt(t, Triangle, 0x4000_0000, 0, 1) == 32767
  {
    assert (phase + 0x8000_0000) / 65536 == phase / 65536 + 32768;
  }

  // ---- a voice within a stage ----

  lemma {:induction false} OscRuns(v: Voice, step: int, k: nat)
    requires v.osc.wave != Noise
    ensures var r := OscAfter(v, step, k);
            && r.osc == v.osc.(phase := (v.osc.phase + k * v.osc.inc) % CYCLE)
            && r.env == v.env + k * step
  {
    if k != 0 {
      OscRuns(v, step, k - 1);
      OneStepOn(v.osc.phase, v.osc.inc, k);
      assert k * step == (k - 1) * step + step;
    } else {
      assert 0 * v.osc.inc == 0 && 0 * step == 0;
    }
  }

  lemma OneStepOn(phase: Phase, inc: Phase, k: nat)
    requires 0 < k
    ensures ((phase + (k - 1) * inc) % CYCLE + inc) % CYCLE == (phase + k * inc) % CYCLE
  {
    assert k * inc == (k - 1) * inc + inc;
  }

  /** Within a stage and a gate, the k-th sample is the wave k increments on, with
      the envelope moved evenly by k + 1 steps: to within four units of the exact
      product, and exactly at full envelope and unity level. */
  lemma SampleOfAStage(t: SineTable, v: Voice, k: nat, run: nat)
    requires VoiceOk(v) && v.osc.wave != Noise && 1 <= v.osc.harmonics <= 4 && k < run && WithinRun(v, run)
    ensures var phase := (v.osc.phase + k * v.osc.inc) % CYCLE; var env := v.env + (k + 1) * StepOf(v);
            var wave := WaveAt(t, v.osc.wave, phase, v.osc.duty, v.osc.harmonics);
            && 0 <= env <= ENV_ONE
            && Abs(Out(t, After(v, k)) * CYCLE - wave * env * v.level) <= 4 * CYCLE
            && (env == ENV_ONE && v.level == 256 ==> Out(t, After(v, k)) == wave)
  {
    hide Raw, Shaped, WaveAt, VoiceOk, Tick, After;
    var step := StepOf(v);
    MidwayIsTicking(v, k, run);
    OscRuns(v, step, k);
    var m := After(v, k);
    assert m.osc == v.osc.(phase := (v.osc.phase + k * v.osc.inc) % CYCLE) && m.env == v.env + k * step && StepOf(m) == step;
    assert m.env + step == v.env + (k + 1) * step;
    AfterIsOk(v, k);
    SlopeStep(m);
    RawIsTheWave(t, m.osc);
    RawBounded(t, m.osc) by { OscIsOk(m); }
    LevelIsOk(m);
    ShapedIsClose(Raw(t, m.osc), m.env + step, m.level);
    ShapedAtUnity(Raw(t, m.osc));
  }

  lemma OscIsOk(v: Voice)
    requires VoiceOk(v)
    ensures OscOk(v.osc)
  {
  }

  lemma LevelIsOk(v: Voice)
    requires VoiceOk(v)
    ensures 0 <= v.level <= 256
  {
  }

  lemma {:induction false} AfterIsOk(v: Voice, n: nat)
    requires VoiceOk(v)
    ensures VoiceOk(After(v, n))
  {
    hide VoiceOk, Tick;
    if n != 0 {
      AfterIsOk(v, n - 1);
      TickOk(After(v, n - 1));
    }
  }

  // ---- how a note begins, and what follows each stage ----

  /** A note on an idle voice: its own wave, pitch, duty, harmonics and level from the
      start of a cycle; an even rise from silence over its attack, an even fall to
      its sustain level over its decay, or that level at once. */
  lemma NoteBegins(v: Voice, n: Note)
    requires v.stage == Idle
    ensures var w := StartNote(v, n); var sustain := (if n.env.sustain < 32768 then n.env.sustain else 32768) * 512;
            && w.osc == v.osc.(wave := n.wave, phase := 0, inc := n.inc, duty := n.duty * 0x100_0000,
                                 harmonics := Harmonics(n.inc))
            && w.level == n.level && w.release == n.env.release && w.gateLeft == n.gate && w.sustain == sustain
            && w.decay == n.env.decay
            && (if 0 < n.env.attack then
                  && w.stage == Attack && w.env == 0 && w.stageLeft == n.env.attack
                  && 0 <= ENV_ONE - n.env.attack * w.envStep < n.env.attack
                else FromFull(w, n.env.decay, sustain))
  {
    if 0 < n.env.attack {
      EvenParts(ENV_ONE, n.env.attack);
    } else {
      var t := Tuned(v, n).(env := ENV_ONE);
      DecayFromFull(t);
      hide EnterDecay;
    }
  }

  /** What follows full level: an even fall to the sustain level, or that level at
      once; a note that sustains at nothing is over. */
  predicate FromFull(w: Voice, decay: nat, sustain: int) {
    if decay == 0 || sustain == ENV_ONE
    then w.env == sustain && w.stage == if sustain == 0 then Idle else Sustain
    else
      && w.stage == Decay && w.env == ENV_ONE && w.stageLeft == decay
      && 0 <= ENV_ONE - sustain + decay * w.envStep < decay
  }

  lemma EvenParts(n: nat, d: nat)
    requires 0 < d
    ensures 0 <= n - d * TruncDiv(n, d) < d
  {
    Halves(n, d);
  }

  lemma DecayFromFull(v: Voice)
    requires v.env == ENV_ONE && 0 <= v.sustain <= ENV_ONE
    ensures FromFull(EnterDecay(v), v.decay, v.sustain)
    ensures EnterDecay(v) == v.(env := EnterDecay(v).env, stage := EnterDecay(v).stage, envStep := EnterDecay(v).envStep,
                                stageLeft := EnterDecay(v).stageLeft)
  {
    if v.decay != 0 {
      EvenParts(ENV_ONE - v.sustain, v.decay);
      assert v.decay * -TruncDiv(ENV_ONE - v.sustain, v.decay) == -(v.decay * TruncDiv(ENV_ONE - v.sustain, v.decay));
    }
    hide TruncDiv;
  }

  /** What follows each timed stage, if the gate lasts past it: full level after an
      attack, exactly the sustain level after a decay, silence after a release. */
  lemma WhatFollows(v: Voice)
    requires VoiceOk(v) && Timed(v) && v.pending.None? && (Gated(v) ==> v.stageLeft < v.gateLeft)
    ensures var w := After(v, v.stageLeft);
            match v.stage
            case Attack => FromFull(w, v.decay, v.sustain)
            case Decay => w.env == v.sustain && w.stage == if v.sustain == 0 then Idle else Sustain
            case Release => w.env == 0 && w.stage == Idle
  {
    RunIsTicks(v, v.stageLeft);
    var o := OscAfter(v, StepOf(v), v.stageLeft).(stageLeft := 0);
    if v.stage == Attack { DecayFromFull(o.(env := ENV_ONE)); }
    hide After, EnterDecay, EnterRelease, StartNote, TruncDiv;
  }

  // ---- a note on a voice that sounds ----

  /** A note like the sounding one but for its pitch follows without a break: its
      phase and its level carry on. */
  lemma LikeNoteContinues(v: Voice, n: Note)
    requires v.stage != Idle && v.osc.wave == n.wave && v.level == n.level
    requires n.wave == Pulse ==> v.osc.duty == n.duty * 0x100_0000
    requires (n.wave == SoftSquare ==> v.osc.harmonics == Harmonics(n.inc))
    ensures var w := TakeNote(v, n);
            && w.osc == v.osc.(inc := n.inc, harmonics := Harmonics(n.inc), duty := n.duty * 0x100_0000)
            && w.pending.None? && w.gateLeft == n.gate && w.level == n.level && w.release == n.env.release
            && (0 < n.env.attack ==>
                  && w.stage == Attack && w.env == v.env && w.stageLeft == n.env.attack
                  && (v.env <= ENV_ONE ==> 0 <= ENV_ONE - v.env - n.env.attack * w.envStep < n.env.attack))
            && (n.env.attack == 0 ==>
                  FromFull(w, n.env.decay, (if n.env.sustain < 32768 then n.env.sustain else 32768) * 512))
  {
    if 0 < n.env.attack {
      if v.env <= ENV_ONE { EvenParts(ENV_ONE - v.env, n.env.attack); }
    } else {
      DecayFromFull(Tuned(v.(pending := None), n).(env := ENV_ONE));
      hide EnterDecay;
    }
  }

  /** Any other note waits for the sounding one to fade, over 88 samples or what is
      left of a shorter release, and then begins from silence. */
  lemma OtherNoteWaits(v: Voice, n: Note)
    requires VoiceOk(v) && v.stage != Idle && 0 < v.env && n.level <= 256
    requires || v.osc.wave != n.wave || v.level != n.level
             || (n.wave == Pulse && v.osc.duty != n.duty * 0x100_0000)
             || (n.wave == SoftSquare && v.osc.harmonics != Harmonics(n.inc))
    ensures var w := TakeNote(v, n);
            && w.stage == Release && 0 < w.stageLeft <= 88 && w.pending == Some(n) && w.env == v.env && w.osc == v.osc
            && (v.stage != Release || 88 < v.stageLeft ==> w.stageLeft == 88 && 0 <= v.env + 88 * w.envStep < 88)
            && (v.stage == Release && v.stageLeft <= 88 ==> w.stageLeft == v.stageLeft && w.envStep == v.envStep)
    ensures var w := TakeNote(v, n); var after := After(w, w.stageLeft);
            exists u: Voice :: u.stage == Idle && u.pending.None? && VoiceOk(u) && after == StartNote(u, n)
  {
    var w := TakeNote(v, n);
    EvenParts(v.env, 88);
    assert 88 * -TruncDiv(v.env, 88) == -(88 * TruncDiv(v.env, 88));
    TakeNoteOk(v, n);
    assert w.stage == Release && 0 < w.stageLeft <= 88 && w.pending == Some(n);
    hide TakeNote, MustSwitch, TruncDiv;
    FadeThenNote(w, n);
  }

  lemma FadeThenNote(w: Voice, n: Note)
    requires VoiceOk(w) && w.stage == Release && w.pending == Some(n)
    ensures exists u: Voice :: u.stage == Idle && u.pending.None? && VoiceOk(u) && After(w, w.stageLeft) == StartNote(u, n)
  {
    RunIsTicks(w, w.stageLeft);
    OscAfterIsOk(w, StepOf(w), w.stageLeft);
    var o := OscAfter(w, StepOf(w), w.stageLeft);
    var u := o.(stageLeft := 0, env := 0, stage := Idle, pending := None);
    assert AfterRun(o, w.stageLeft) == StartNote(u, n) by { hide StartNote; }
    assert VoiceOk(u);
  }

  lemma {:induction false} OscAfterIsOk(v: Voice, step: int, n: nat)
    requires OscOk(v.osc)
    ensures OscOk(OscAfter(v, step, n).osc)
  {
    hide OscOk, Advanced;
    if n != 0 {
      OscAfterIsOk(v, step, n - 1);
      AdvancedOk(OscAfter(v, step, n - 1).osc);
    }
  }
}
