/** One synth voice: its envelope stages, gate, switch fade and oscillator
    (lib/AudioEngine/AudioEngine.cpp). Tick is the voice one sample at a time. */
module Voice {
  import opened Common
  import opened Fixed
  import opened Oscillator

  datatype Stage = Idle | Attack | Decay | Sustain | Release

  type U8 = n: int | 0 <= n < 256
  type U16 = n: int | 0 <= n < 65536

  // Envelope level, Q24.
  const ENV_ONE: int := 0x100_0000
  // Sustain level, Q15.
  const SUSTAIN_FULL: int := 32768
  const LEVEL_UNITY: int := 256
  const FAST_RELEASE: nat := 220
  const SWITCH_FADE: nat := 88

  datatype Envelope = Envelope(attack: U16, decay: U16, sustain: U16, release: U16)
  datatype Note = Note(wave: Wave, inc: U32, gate: U32, level: U16, duty: U8, env: Envelope)

  datatype Voice = Voice(osc: Osc, stage: Stage, env: int, envStep: int, stageLeft: nat, gateLeft: nat,
                         sustain: int, decay: U16, release: U16, level: int,
                         startStamp: U32, noteId: U32, pending: Option<Note>)

  // ---- stage changes ----

  /** Odd harmonics a soft square keeps: harmonic k stays while k times the
      increment is at or below that of 10 kHz. */
  function Harmonics(inc: U32): int {
    if 973915487 < 3 * inc then 1
    else if 973915487 < 5 * inc then 2
    else if 973915487 < 7 * inc then 3
    else 4
  }

  function EnterDecay(v: Voice): Voice {
    var d := if v.decay == 0 || ENV_ONE <= v.sustain
             then v.(env := v.sustain, stage := Sustain, envStep := 0, stageLeft := 0)
             else v.(stage := Decay, stageLeft := v.decay, envStep := -TruncDiv(ENV_ONE - v.sustain, v.decay));
    if d.stage == Sustain && d.env == 0 then d.(stage := Idle) else d
  }

  function EnterRelease(v: Voice, samples: U16): Voice {
    if v.stage == Idle then v
    else if samples == 0 || v.env == 0 then v.(env := 0, stage := Idle)
    else v.(stage := Release, stageLeft := samples, envStep := -TruncDiv(v.env, samples), gateLeft := 0)
  }

  /** The voice set to a note's wave, level and times; the level and phase carry
      on unless the voice was idle. */
  function Tuned(v: Voice, n: Note): Voice {
    var s := if v.stage == Idle then v.(osc := v.osc.(phase := 0), env := 0) else v;
    s.(osc := s.osc.(wave := n.wave, inc := n.inc, harmonics := Harmonics(n.inc), duty := n.duty * 0x100_0000),
       level := n.level,
       sustain := (if SUSTAIN_FULL < n.env.sustain then SUSTAIN_FULL else n.env.sustain) * ENV_ONE / 32768,
       decay := n.env.decay, release := n.env.release, gateLeft := n.gate)
  }

  function StartNote(v: Voice, n: Note): Voice {
    var t := Tuned(v, n);
    if n.env.attack == 0 then EnterDecay(t.(env := ENV_ONE))
    else t.(stage := Attack, stageLeft := n.env.attack, envStep := TruncDiv(ENV_ONE - t.env, n.env.attack))
  }

  function StartPending(v: Voice): Voice
    requires v.pending.Some?
  {
    StartNote(v.(pending := None), v.pending.value)
  }

  function NoteOff(v: Voice): Voice {
    var w := v.(pending := None);
    if w.stage != Idle && w.stage != Release then EnterRelease(w, w.release) else w
  }

  /** The fade of a stop-all. */
  function FadeOut(v: Voice): Voice {
    var w := v.(pending := None);
    if w.stage == Idle || (w.stage == Release && w.stageLeft <= FAST_RELEASE) then w
    else EnterRelease(w, FAST_RELEASE)
  }

  /** Whether a note can only follow the sounding one after a fade. */
  predicate MustSwitch(v: Voice, n: Note) {
    && v.stage != Idle
    && (|| v.osc.wave != n.wave || v.level != n.level
        || (n.wave == Pulse && v.osc.duty != n.duty * 0x100_0000)
        || (n.wave == SoftSquare && v.osc.harmonics != Harmonics(n.inc)))
  }

  /** A note taking the voice: at once, or after the switch fade. */
  function TakeNote(v: Voice, n: Note): Voice {
    if MustSwitch(v, n) then
      var w := v.(pending := Some(n));
      var faded := if w.stage == Release && w.stageLeft <= SWITCH_FADE then w else EnterRelease(w, SWITCH_FADE);
      if faded.stage == Idle then StartPending(faded) else faded
    else StartNote(v.(pending := None), n)
  }

  // ---- rendering ----

  predicate Timed(v: Voice) {
    v.stage == Attack || v.stage == Decay || v.stage == Release
  }

  predicate Gated(v: Voice) {
    0 < v.gateLeft && v.stage != Release
  }

  function StepOf(v: Voice): int {
    if v.stage == Sustain then 0 else v.envStep
  }

  /** One oscillator sample with a constant envelope slope. */
  function OscStep(v: Voice, step: int): Voice {
    v.(osc := Advanced(v.osc), env := v.env + step)
  }

  /** A raw sample scaled by the envelope and the voice's level. */
  function Shaped(raw: int, env: int, level: int): int {
    raw * (env / 512) / 32768 * level / 256
  }

  function OscOut(t: SineTable, v: Voice, step: int): int {
    Shaped(Raw(t, v.osc), v.env + step, v.level)
  }

  function StageDone(v: Voice): Voice {
    if v.stage == Attack then EnterDecay(v.(env := ENV_ONE))
    else if v.stage == Decay then
      var s := v.(env := v.sustain, stage := Sustain, envStep := 0);
      if s.env == 0 then s.(stage := Idle) else s
    else v.(env := 0, stage := Idle)
  }

  function StageCounted(v: Voice, run: nat): Voice
    requires Timed(v) ==> run <= v.stageLeft
  {
    if !Timed(v) then v
    else if v.stageLeft == run then StageDone(v.(stageLeft := 0))
    else v.(stageLeft := v.stageLeft - run)
  }

  function GateCounted(v: Voice, gated: bool, run: nat): Voice
    requires gated ==> run <= v.gateLeft
  {
    if !gated then v
    else
      var g := v.(gateLeft := v.gateLeft - run);
      if g.gateLeft == 0 && g.stage != Idle && g.stage != Release then EnterRelease(g, g.release) else g
  }

  /** The counters and stage changes after a run of samples. */
  function AfterRun(v: Voice, run: nat): Voice
    requires (Timed(v) ==> run <= v.stageLeft) && (Gated(v) ==> run <= v.gateLeft)
  {
    var s := StageCounted(v, run);
    StageKeepsGate(v, run);
    var g := GateCounted(s, Gated(v), run);
    if g.stage == Idle && g.pending.Some? then StartPending(g) else g
  }

  lemma StageKeepsGate(v: Voice, run: nat)
    requires Timed(v) ==> run <= v.stageLeft
    ensures StageCounted(v, run).gateLeft == v.gateLeft
  {
  }

  predicate Countable(v: Voice) {
    Timed(v) ==> 0 < v.stageLeft
  }

  /** One sample of a voice. */
  function Tick(v: Voice): Voice {
    if v.stage == Idle || !Countable(v) then v else AfterRun(OscStep(v, StepOf(v)), 1)
  }

  function Out(t: SineTable, v: Voice): int {
    if v.stage == Idle then 0 else OscOut(t, v, StepOf(v))
  }

  /** The voice n samples later. */
  function After(v: Voice, n: nat): Voice {
    if n == 0 then v else Tick(After(v, n - 1))
  }

  lemma {:induction false} AfterTwice(v: Voice, a: nat, b: nat)
    ensures After(After(v, a), b) == After(v, a + b)
  {
    hide Tick;
    if b != 0 { AfterTwice(v, a, b - 1); }
  }

  lemma {:induction false} IdleStays(v: Voice, n: nat)
    requires v.stage == Idle
    ensures After(v, n) == v
  {
    if n != 0 { IdleStays(v, n - 1); }
  }

  // ---- what every voice satisfies ----

  /** The level after the rest of the stage's slope stays in range. */
  predicate SlopeOk(v: Voice) {
    match v.stage
    case Idle => true
    case Attack => 0 < v.stageLeft && 0 <= v.envStep && v.env + v.stageLeft * v.envStep <= ENV_ONE
    case Decay => 0 < v.stageLeft && v.envStep <= 0 && 0 <= v.env + v.stageLeft * v.envStep
    case Sustain => true
    case Release => 0 < v.stageLeft <= 65535 && v.envStep <= 0 && 0 <= v.env + v.stageLeft * v.envStep
  }

  predicate VoiceOk(v: Voice) {
    && 0 <= v.env <= ENV_ONE && 0 <= v.sustain <= ENV_ONE
    && 0 <= v.level <= LEVEL_UNITY
    && v.gateLeft < WRAP32
    && SlopeOk(v)
    && OscOk(v.osc)
    && (v.pending.Some? ==> v.stage == Release && v.pending.value.level <= LEVEL_UNITY)
  }

  lemma EnterDecayOk(v: Voice)
    requires VoiceOk(v.(stage := Idle, pending := None)) && v.env == ENV_ONE && v.pending.None?
    ensures VoiceOk(EnterDecay(v))
  {
    if v.decay != 0 { TruncDivTimes(ENV_ONE - v.sustain, v.decay); }
    hide TruncDiv;
  }

  lemma EnterReleaseOk(v: Voice, samples: U16)
    requires VoiceOk(v.(pending := None))
    requires v.pending.Some? ==> v.pending.value.level <= LEVEL_UNITY
    ensures v.stage != Idle && EnterRelease(v, samples).stage != Idle ==> VoiceOk(EnterRelease(v, samples))
    ensures VoiceOk(EnterRelease(v, samples).(pending := None))
  {
    if samples != 0 { TruncDivTimes(v.env, samples); }
  }

  lemma TunedOk(v: Voice, n: Note)
    requires VoiceOk(v) && v.pending.None? && n.level <= LEVEL_UNITY
    ensures var t := Tuned(v, n);
            t.pending.None? && VoiceOk(t.(stage := Idle)) && VoiceOk(t.(stage := Idle, env := ENV_ONE))
  {
  }

  lemma StartNoteOk(v: Voice, n: Note)
    requires VoiceOk(v) && v.pending.None? && n.level <= LEVEL_UNITY
    ensures VoiceOk(StartNote(v, n))
  {
    var t := Tuned(v, n);
    TunedOk(v, n);
    hide Tuned, OscOk, EnterDecay;
    if n.env.attack == 0 {
      EnterDecayOk(t.(env := ENV_ONE));
    } else {
      TruncDivTimes(ENV_ONE - t.env, n.env.attack);
    }
  }

  lemma NoteOffOk(v: Voice)
    requires VoiceOk(v)
    ensures VoiceOk(NoteOff(v))
  {
    EnterReleaseOk(v.(pending := None), v.release);
  }

  lemma FadeOutOk(v: Voice)
    requires VoiceOk(v)
    ensures VoiceOk(FadeOut(v))
  {
    EnterReleaseOk(v.(pending := None), FAST_RELEASE);
  }

  lemma TakeNoteOk(v: Voice, n: Note)
    requires VoiceOk(v) && n.level <= LEVEL_UNITY
    ensures VoiceOk(TakeNote(v, n))
  {
    hide EnterRelease, StartNote;
    if MustSwitch(v, n) {
      var w := v.(pending := Some(n));
      EnterReleaseOk(w, SWITCH_FADE);
      var faded := if w.stage == Release && w.stageLeft <= SWITCH_FADE then w else EnterRelease(w, SWITCH_FADE);
      EnterReleaseKeepsPending(w, SWITCH_FADE);
      if faded.stage == Idle { StartNoteOk(faded.(pending := None), n); }
    } else {
      StartNoteOk(v.(pending := None), n);
    }
  }

  lemma EnterReleaseKeepsPending(v: Voice, samples: U16)
    ensures EnterRelease(v, samples).pending == v.pending
  {
  }

  lemma SlopeStep(v: Voice)
    requires VoiceOk(v) && v.stage != Idle
    ensures 0 <= v.env + StepOf(v) <= ENV_ONE
    ensures Timed(v) ==> v.env + StepOf(v) + (v.stageLeft - 1) * v.envStep == v.env + v.stageLeft * v.envStep
  {
    if Timed(v) {
      assert v.stageLeft * v.envStep == (v.stageLeft - 1) * v.envStep + v.envStep;
      if v.stage == Attack {
        MulAtMost(v.stageLeft - 1, v.envStep, v.stageLeft - 1, v.envStep);
      } else {
        MulAtMost(v.stageLeft - 1, -v.envStep, v.stageLeft - 1, -v.envStep);
        assert (v.stageLeft - 1) * -v.envStep == -((v.stageLeft - 1) * v.envStep);
      }
    }
  }

  lemma StageDoneOk(v: Voice)
    requires VoiceOk(v.(stage := Idle, pending := None)) && Timed(v) && v.stageLeft == 0
    requires v.pending.Some? ==> v.stage == Release && v.pending.value.level <= LEVEL_UNITY
    ensures VoiceOk(StageDone(v).(pending := None))
    ensures v.pending.Some? ==> StageDone(v).stage == Idle
    ensures StageDone(v).pending == v.pending && StageDone(v).gateLeft == v.gateLeft
  {
    if v.stage == Attack { EnterDecayOk(v.(env := ENV_ONE)); }
  }

  /** A voice stays in range one sample on. */
  lemma TickOk(v: Voice)
    requires VoiceOk(v)
    ensures VoiceOk(Tick(v))
  {
    hide EnterDecay, EnterRelease, StartNote, StageDone, Advanced;
    if v.stage != Idle {
      var w := OscStep(v, StepOf(v));
      SlopeStep(v);
      AdvancedOk(v.osc);
      var s := StageCounted(w, 1);
      StageCountedOk(v, w);
      if Gated(w) {
        var g := s.(gateLeft := s.gateLeft - 1);
        EnterReleaseOk(g, g.release);
        EnterReleaseKeepsPending(g, g.release);
      }
      var g := GateCounted(s, Gated(w), 1);
      if g.stage == Idle && g.pending.Some? { StartNoteOk(g.(pending := None), g.pending.value); }
    }
  }

  lemma AdvancedOk(o: Osc)
    requires OscOk(o)
    ensures OscOk(Advanced(o))
  {
    hide NextLfsr;
    LfsrNeverSticks(o.lfsr);
  }

  lemma StageCountedOk(v: Voice, w: Voice)
    requires VoiceOk(v) && v.stage != Idle && OscOk(w.osc) && w == v.(osc := w.osc, env := v.env + StepOf(v))
    requires 0 <= w.env <= ENV_ONE
    requires Timed(v) ==> w.env + (v.stageLeft - 1) * v.envStep == v.env + v.stageLeft * v.envStep
    ensures var s := StageCounted(w, 1);
            && VoiceOk(s.(pending := None))
            && (s.pending.Some? ==> (s.stage == Release || s.stage == Idle) && s.pending.value.level <= LEVEL_UNITY)
            && s.gateLeft == v.gateLeft
            && (v.stage == Release ==> s.stage == Release || s.stage == Idle)
  {
    if Timed(w) && w.stageLeft == 1 {
      StageDoneOk(w.(stageLeft := 0));
    }
  }

  /** Every sample of a voice is bounded by the oscillators' peak, and every
      product on the way to it fits 32 bits. */
  lemma OutBounded(t: SineTable, v: Voice)
    requires VoiceOk(v)
    ensures Abs(Out(t, v)) <= PEAK
    ensures v.stage != Idle ==>
              var product := Raw(t, v.osc) * ((v.env + StepOf(v)) / 512);
              Fits32(product) && Fits32(product / 32768 * v.level)
  {
    hide Raw;
    if v.stage != Idle {
      SlopeStep(v);
      RawBounded(t, v.osc);
      var s, e := Raw(t, v.osc), (v.env + StepOf(v)) / 512;
      MulAbs(s, e, PEAK, 32768);
      MulAbs(s * e / 32768, v.level, PEAK, LEVEL_UNITY);
    }
  }

  // ---- a run of samples at once ----

  /** How many samples a run may cover: up to the end of the stage and the gate. */
  predicate WithinRun(v: Voice, run: nat) {
    && v.stage != Idle
    && (Timed(v) ==> run <= v.stageLeft)
    && (Gated(v) ==> run <= v.gateLeft)
  }

  /** A run moves the oscillator and the level and nothing else. */
  function OscAfter(v: Voice, step: int, n: nat): (r: Voice)
    ensures r == v.(osc := r.osc, env := r.env)
  {
    if n == 0 then v else OscStep(OscAfter(v, step, n - 1), step)
  }

  /** The voice k samples into a run: only the oscillator, the level and the
      counters have moved. */
  function Midway(v: Voice, k: nat): Voice
    requires WithinRun(v, k)
  {
    var o := OscAfter(v, StepOf(v), k);
    v.(osc := o.osc, env := o.env,
       stageLeft := if Timed(v) then v.stageLeft - k else v.stageLeft,
       gateLeft := if Gated(v) then v.gateLeft - k else v.gateLeft)
  }

  lemma {:induction false} MidwayIsTicking(v: Voice, k: nat, run: nat)
    requires k < run && WithinRun(v, run)
    ensures WithinRun(v, k) && After(v, k) == Midway(v, k)
  {
    hide Tick, Midway;
    if k == 0 {
      MidwayStarts(v);
    } else {
      MidwayIsTicking(v, k - 1, run);
      MidwayTicks(v, k - 1);
    }
  }

  lemma MidwayStarts(v: Voice)
    requires v.stage != Idle
    ensures Midway(v, 0) == v
  {
  }

  lemma MidwayTicks(v: Voice, k: nat)
    requires WithinRun(v, k + 1)
    requires (Timed(v) ==> k + 1 < v.stageLeft) && (Gated(v) ==> k + 1 < v.gateLeft)
    ensures Tick(Midway(v, k)) == Midway(v, k + 1)
  {
    hide StageDone, EnterRelease, StartNote, Advanced;
  }

  /** A run taken at once is the same as its samples one by one. */
  lemma RunIsTicks(v: Voice, run: nat)
    requires 0 < run && WithinRun(v, run)
    ensures After(v, run) == AfterRun(OscAfter(v, StepOf(v), run), run)
  {
    hide StageDone, EnterRelease, StartNote, Advanced;
    MidwayIsTicking(v, run - 1, run);
    LastSample(v, run);
  }

  lemma LastSample(v: Voice, run: nat)
    requires 0 < run && WithinRun(v, run)
    ensures Tick(Midway(v, run - 1)) == AfterRun(OscAfter(v, StepOf(v), run), run)
  {
    hide StageDone, EnterRelease, StartNote, Advanced;
    var m := Midway(v, run - 1);
    var o := OscAfter(v, StepOf(v), run);
    assert OscStep(m, StepOf(m)) == m.(osc := o.osc, env := o.env);
    StageCountedTogether(OscStep(m, StepOf(m)), o, run);
  }

  /** Counting one sample with the rest already counted is counting them all. */
  lemma StageCountedTogether(m: Voice, o: Voice, run: nat)
    requires 0 < run && WithinRun(o, run)
    requires m == o.(stageLeft := if Timed(o) then o.stageLeft - (run - 1) else o.stageLeft,
                     gateLeft := if Gated(o) then o.gateLeft - (run - 1) else o.gateLeft)
    ensures AfterRun(m, 1) == AfterRun(o, run)
  {
    hide EnterRelease, StartNote;
    var s, u := StageCounted(m, 1), StageCounted(o, run);
    assert s == u.(gateLeft := s.gateLeft);
    if Gated(o) {
      assert s.(gateLeft := s.gateLeft - 1) == u.(gateLeft := u.gateLeft - run);
    } else {
      assert s == u;
    }
  }

  // ---- how long things last ----

  /** A release takes exactly the samples it was given and ends silent and idle. */
  lemma {:induction false} ReleaseLasts(v: Voice, k: nat)
    requires VoiceOk(v) && v.stage == Release && v.pending.None? && k <= v.stageLeft
    ensures k < v.stageLeft ==> After(v, k).stage == Release && After(v, k).stageLeft == v.stageLeft - k
    ensures k < v.stageLeft ==> After(v, k).pending.None?
    ensures k == v.stageLeft ==> After(v, k).stage == Idle && After(v, k).env == 0
  {
    hide Advanced;
    if k != 0 { ReleaseLasts(v, k - 1); }
  }

  /** Wherever a voice is, a fade leaves it idle within its length. */
  lemma FadeOutSilences(v: Voice, n: nat)
    requires VoiceOk(v) && FAST_RELEASE <= n
    ensures After(FadeOut(v), n).stage == Idle
  {
    hide After;
    FadeOutOk(v);
    var w := FadeOut(v);
    if w.stage == Idle {
      IdleStays(w, n);
    } else {
      ReleaseLasts(w, w.stageLeft);
      AfterTwice(w, w.stageLeft, n - w.stageLeft);
      IdleStays(After(w, w.stageLeft), n - w.stageLeft);
    }
  }

  /** A gated note is released exactly when its gate has run out: until then the
      gate counts down one a sample (unless the note dies away by itself). */
  lemma {:induction false} GateLasts(v: Voice, k: nat)
    requires VoiceOk(v) && v.pending.None? && v.stage != Idle && v.stage != Release && k <= v.gateLeft
    ensures var a := After(v, k);
            && VoiceOk(a)
            && a.pending.None?
            && (k < v.gateLeft && a.stage != Idle ==> a.stage != Release && a.gateLeft == v.gateLeft - k)
            && (0 < k == v.gateLeft ==> a.stage == Release || a.stage == Idle)
  {
    hide Advanced, VoiceOk, Tick, EnterDecay;
    if k != 0 {
      GateLasts(v, k - 1);
      var before := After(v, k - 1);
      TickOk(before);
      if before.stage != Idle { GateTicks(before); } else { assert Tick(before) == before by { IdleStays(before, 1); } }
    }
  }

  lemma GateTicks(v: Voice)
    requires VoiceOk(v) && v.pending.None? && v.stage != Idle && v.stage != Release && 0 < v.gateLeft
    ensures var a := Tick(v);
            && a.pending.None?
            && (v.gateLeft == 1 ==> a.stage == Release || a.stage == Idle)
            && (1 < v.gateLeft ==> a.stage != Release && (a.stage != Idle ==> a.gateLeft == v.gateLeft - 1))
  {
    hide Advanced;
  }

  /** An attack reaches exactly full level after exactly its length. */
  lemma {:induction false} AttackLasts(v: Voice, k: nat)
    requires VoiceOk(v) && v.stage == Attack && v.pending.None? && k < v.stageLeft
    requires v.gateLeft == 0 || v.stageLeft < v.gateLeft
    ensures var a := After(v, k);
            && a.stage == Attack && a.stageLeft == v.stageLeft - k && a.pending.None? && VoiceOk(a)
            && a.decay == v.decay && a.sustain == v.sustain
            && (v.gateLeft == 0 ==> a.gateLeft == 0) && (0 < v.gateLeft ==> a.gateLeft == v.gateLeft - k)
    ensures k + 1 == v.stageLeft && v.decay != 0 && v.sustain < ENV_ONE ==>
              After(v, k + 1).stage == Decay && After(v, k + 1).env == ENV_ONE
  {
    hide Advanced, EnterRelease;
    if k != 0 { AttackLasts(v, k - 1); TickOk(After(v, k - 1)); }
  }
}
