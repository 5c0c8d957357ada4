/** The sequencer over whole renders: stretches between boundaries, and when
    each step starts and each tone ends. */
module Sequencer {
  import opened Common
  import opened Fixed
  import opened Oscillator
  import opened Voice
  import opened Front

  // ---- a stretch without boundaries ----

  function AllAfter(vs: Voices, n: nat): Voices {
    seq(VOICES, i requires 0 <= i < VOICES => After(vs[i], n))
  }

  /** The front end k samples into a stretch: voices and clock have moved on. */
  function Along(f: Front, k: nat): Front {
    f.(voices := AllAfter(f.voices, k), clock := if f.playing then f.clock + k else f.clock)
  }

  lemma {:induction false} StretchIsTicks(f: Front, k: nat)
    requires FrontOk(f) && !Due(f) && (f.playing ==> f.clock + k < f.next)
    ensures FrontAfter(f, k) == Along(f, k)
  {
    hide Tick, VoiceOk;
    if k == 0 {
      assert AllAfter(f.voices, 0) == f.voices;
    } else {
      StretchIsTicks(f, k - 1);
      assert Ticked(AllAfter(f.voices, k - 1)) == AllAfter(f.voices, k);
    }
  }

  /** A stretch up to and including the next boundary. */
  lemma StretchToBoundary(f: Front, k: nat)
    requires FrontOk(f) && !Due(f) && 0 < k && (f.playing ==> f.clock + k <= f.next)
    ensures FrontAfter(f, k) == Settle(Along(f, k))
  {
    hide Tick, VoiceOk;
    StretchIsTicks(f, k - 1);
    assert Ticked(AllAfter(f.voices, k - 1)) == AllAfter(f.voices, k);
  }

  lemma AlongOk(f: Front, k: nat)
    requires FrontOk(f) && (f.playing ==> f.clock + k <= f.next)
    ensures FrontOk(Along(f, k))
  {
    hide VoiceOk;
    forall i | 0 <= i < VOICES
      ensures VoiceOk(After(f.voices[i], k))
    {
      AfterOk(f.voices[i], k);
    }
  }

  lemma {:induction false} AfterOk(v: Voice, n: nat)
    requires VoiceOk(v)
    ensures VoiceOk(After(v, n))
  {
    hide VoiceOk, Tick;
    if n != 0 {
      AfterOk(v, n - 1);
      TickOk(After(v, n - 1));
    }
  }

  lemma {:induction false} FrontAfterOk(f: Front, n: nat)
    requires FrontOk(f) && !Due(f)
    ensures FrontOk(FrontAfter(f, n)) && !Due(FrontAfter(f, n)) && FrontAfter(f, n).steps == f.steps
  {
    hide FrontOk, Due, FrontTick;
    if n != 0 {
      FrontAfterOk(f, n - 1);
      FrontTickOk(FrontAfter(f, n - 1));
    }
  }

  // ---- drift-free steps ----

  /** Where the sequencer stands n samples after its start: the steps that have
      begun are exactly those whose own rounded start is not after n. */
  predicate OnTime(f: Front, n: nat) {
    && |f.steps| <= MAX_STEPS && f.idx <= |f.steps|
    && (0 < f.idx ==> StartOf(f.steps, f.idx - 1) <= n)
    && (f.playing ==> f.clock == n && f.cumMs == MsBefore(f.steps, f.idx) && f.next == StartOf(f.steps, f.idx) && n <= f.next)
    && (!f.playing ==> f.idx == |f.steps| && StartOf(f.steps, f.idx) <= n)
  }

  lemma {:induction false} SettleIsOnTime(f: Front, n: nat)
    requires FrontOk(f) && OnTime(f, n)
    ensures OnTime(Settle(f), n) && !Due(Settle(f)) && Settle(f).steps == f.steps && Settle(f).gen == f.gen
    decreases f.playing, |f.steps| - f.idx
  {
    hide Fire, VoiceOk;
    if Due(f) {
      FireOk(f);
      FireKeepsGen(f);
      SettleIsOnTime(Fire(f), n);
    }
  }

  lemma FireKeepsGen(f: Front)
    requires FrontOk(f)
    ensures Fire(f).gen == f.gen
    ensures Fire(f).playing ==>
              Fire(f).cumMs == if f.idx < |f.steps| then f.cumMs + f.steps[f.idx].durMs + f.steps[f.idx].gapMs else f.cumMs
  {
    hide TakeNote, NoteOff;
  }

  lemma TickIsOnTime(f: Front, n: nat)
    requires FrontOk(f) && OnTime(f, n) && !Due(f)
    ensures OnTime(FrontTick(f), n + 1) && !Due(FrontTick(f)) && FrontTick(f).gen == f.gen
  {
    hide Tick, VoiceOk;
    var g := f.(voices := Ticked(f.voices), clock := if f.playing then f.clock + 1 else f.clock);
    forall i | 0 <= i < VOICES
      ensures VoiceOk(Tick(f.voices[i]))
    {
      TickOk(f.voices[i]);
    }
    SettleIsOnTime(g, n + 1);
  }

  /** Drift-free: whatever else the engine plays and however the render is split,
      n samples after a sequence starts, step k has begun exactly when
      n >= floor(44.1 * (the durations and gaps before it, in ms)), and the
      sequence is playing exactly until the same sum over all its steps. */
  lemma StepsStartOnTime(f: Front, gen: U32, steps: seq<SeqStep>, n: nat)
    requires FrontOk(f) && 0 < |steps| <= MAX_STEPS
    ensures var g := FrontAfter(Settle(StartSequence(f, gen, steps)), n);
            && (forall k :: 0 <= k < |steps| ==> (k < g.idx <==> StartOf(steps, k) <= n))
            && (g.playing <==> n < StartOf(steps, |steps|))
            && (g.playing ==> g.clock == n)
  {
    hide FrontOk, Settle, FrontTick;
    var s := StartSequence(f, gen, steps);
    SequencesOk(f, gen, steps);
    assert OnTime(s, 0);
    SettleOk(s);
    SettleIsOnTime(s, 0);
    RunIsOnTime(Settle(s), n);
    var g := FrontAfter(Settle(s), n);
    OnTimeMeans(g, n);
  }

  lemma {:induction false} RunIsOnTime(f: Front, n: nat)
    requires FrontOk(f) && OnTime(f, 0) && !Due(f)
    ensures var g := FrontAfter(f, n); OnTime(g, n) && !Due(g) && g.steps == f.steps && FrontOk(g)
  {
    hide FrontOk, OnTime, Due, FrontTick;
    if n != 0 {
      RunIsOnTime(f, n - 1);
      TickIsOnTime(FrontAfter(f, n - 1), n - 1);
      FrontTickOk(FrontAfter(f, n - 1));
    }
  }

  lemma OnTimeMeans(f: Front, n: nat)
    requires OnTime(f, n) && !Due(f)
    ensures forall k :: 0 <= k < |f.steps| ==> (k < f.idx <==> StartOf(f.steps, k) <= n)
    ensures f.playing <==> n < StartOf(f.steps, |f.steps|)
  {
    hide StartOf;
    forall k | 0 <= k < |f.steps|
      ensures k < f.idx <==> StartOf(f.steps, k) <= n
    {
      if k < f.idx { StartsAreOrdered(f.steps, k, f.idx - 1); } else { StartsAreOrdered(f.steps, f.idx, k); }
    }
    StartsAreOrdered(f.steps, f.idx, |f.steps|);
  }

  // ---- when tones end ----

  /** A tone that sounds until its gate runs out. */
  predicate Holding(v: Voice) {
    && VoiceOk(v) && v.pending.None? && (v.stage == Attack || v.stage == Sustain)
    && v.decay == 0 && v.sustain == ENV_ONE && 0 < v.gateLeft
  }

  /** The note is released (or gone), and none waits to follow. */
  predicate Ended(v: Voice) {
    v.pending.None? && (v.stage == Release || v.stage == Idle)
  }

  lemma HoldingTicks(v: Voice)
    requires Holding(v)
    ensures if v.gateLeft == 1 then VoiceOk(Tick(v)) && Ended(Tick(v))
            else Holding(Tick(v)) && Tick(v).gateLeft == v.gateLeft - 1
  {
    hide Advanced;
    TickOk(v);
    hide SlopeOk, OscOk;
  }

  lemma EndedTicks(v: Voice)
    requires Ended(v) && VoiceOk(v)
    ensures Ended(Tick(v)) && VoiceOk(Tick(v))
  {
    hide Advanced;
    TickOk(v);
    hide SlopeOk, OscOk;
  }

  lemma {:induction false} HoldsUntilItsGate(v: Voice, m: nat)
    requires Holding(v)
    ensures var a := After(v, m);
            && (m < v.gateLeft ==> Holding(a) && a.gateLeft == v.gateLeft - m)
            && (v.gateLeft <= m ==> Ended(a) && VoiceOk(a))
  {
    hide Tick, VoiceOk;
    if m != 0 {
      HoldsUntilItsGate(v, m - 1);
      var before := After(v, m - 1);
      if m - 1 < v.gateLeft { HoldingTicks(before); } else { EndedTicks(before); }
    }
  }

  /** The old note fading out with the tone waiting behind it. */
  predicate FadingFor(v: Voice, n: Note) {
    VoiceOk(v) && v.stage == Release && v.pending == Some(n)
  }

  lemma FadingTicks(v: Voice, inc: U32, gate: U32)
    requires FadingFor(v, ToneNote(inc, gate)) && 0 < gate
    ensures var a := Tick(v);
            if v.stageLeft == 1 then Holding(a) && a.gateLeft == gate
            else FadingFor(a, ToneNote(inc, gate)) && a.stageLeft == v.stageLeft - 1
  {
    hide Advanced;
    TickOk(v);
    hide SlopeOk, OscOk;
  }

  lemma {:induction false} FadesThenHolds(v: Voice, inc: U32, gate: U32, k: nat)
    requires FadingFor(v, ToneNote(inc, gate)) && 0 < gate && k <= v.stageLeft
    ensures var a := After(v, k);
            if k == v.stageLeft then Holding(a) && a.gateLeft == gate
            else FadingFor(a, ToneNote(inc, gate)) && a.stageLeft == v.stageLeft - k
  {
    hide Tick, VoiceOk;
    if k == 0 {
      assert VoiceOk(v) && v.stage == Release;
      ReleasesLast(v);
    } else {
      FadesThenHolds(v, inc, gate, k - 1);
      FadingTicks(After(v, k - 1), inc, gate);
    }
  }

  lemma ReleasesLast(v: Voice)
    requires VoiceOk(v) && v.stage == Release
    ensures 0 < v.stageLeft
  {
  }

  /** How long a note waits for the one before it to fade. */
  function Delay(v: Voice, n: Note): nat {
    if !MustSwitch(v, n) then 0
    else if v.stage == Release && v.stageLeft <= SWITCH_FADE then v.stageLeft
    else if v.env == 0 then 0
    else SWITCH_FADE
  }

  lemma TakenTone(v: Voice, inc: U32, gate: U32)
    requires VoiceOk(v) && 0 < gate
    ensures var n := ToneNote(inc, gate); var w := TakeNote(v, n);
            if Delay(v, n) == 0 then Holding(w) && w.gateLeft == gate
            else FadingFor(w, n) && w.stageLeft == Delay(v, n)
  {
    TakeNoteOk(v, ToneNote(inc, gate));
    hide OscOk;
  }

  /** A tone ends exactly when its gate, counted from the end of the fade before
      it, has run out. */
  lemma ToneEnds(v: Voice, inc: U32, gate: U32, m: nat)
    requires VoiceOk(v) && 0 < gate
    ensures var n := ToneNote(inc, gate);
            Ended(After(TakeNote(v, n), m)) <==> Delay(v, n) + gate <= m
  {
    hide VoiceOk, After, TakeNote, MustSwitch;
    var n := ToneNote(inc, gate);
    var w := TakeNote(v, n);
    var d := Delay(v, n);
    TakenTone(v, inc, gate);
    if m < d {
      FadesThenHolds(w, inc, gate, m);
    } else {
      if d != 0 { FadesThenHolds(w, inc, gate, d); }
      AfterTwice(w, d, m - d);
      assert d == 0 ==> After(w, 0) == w by { AfterNone(w); }
      HoldsUntilItsGate(After(w, d), m - d);
    }
  }

  lemma AfterNone(v: Voice)
    ensures After(v, 0) == v
  {
  }

  /** The note a step plays, and when it is meant to end. */
  function StepEnd(f: Front): nat
    requires f.idx < |f.steps|
  {
    MsToSamples(f.cumMs + f.steps[f.idx].durMs)
  }

  predicate Sounds(f: Front) {
    Due(f) && f.idx < |f.steps| && 0 < f.steps[f.idx].inc && f.next < StepEnd(f)
  }

  function StepDelay(f: Front): nat
    requires Sounds(f)
  {
    Delay(f.voices[TONE_VOICE], ToneNote(f.steps[f.idx].inc, (StepEnd(f) - f.next) % WRAP32))
  }

  lemma FiredTone(f: Front)
    requires FrontOk(f) && Sounds(f)
    ensures StepEnd(f) - f.next < WRAP32
    ensures Delay(f.voices[TONE_VOICE].(noteId := 0, startStamp := (f.noteCounter + 1) % WRAP32),
                  ToneNote(f.steps[f.idx].inc, StepEnd(f) - f.next)) == StepDelay(f)
    ensures Fire(f).voices[TONE_VOICE] ==
              TakeNote(f.voices[TONE_VOICE].(noteId := 0, startStamp := (f.noteCounter + 1) % WRAP32),
                       ToneNote(f.steps[f.idx].inc, StepEnd(f) - f.next))
  {
    hide VoiceOk, TakeNote, EnterRelease, EnterDecay;
    CountersFit(f);
  }

  /** A step's tone has ended exactly from floor(44.1 * (the ms before the step +
      its duration)) on, plus the fade of a tone it could not follow at once; up
      to the next boundary nothing else happens to the tone voice. */
  lemma TonesEndAfterTheFade(f: Front, m: nat)
    requires FrontOk(f) && Sounds(f)
    ensures var v := After(Fire(f).voices[TONE_VOICE], m);
            && (Ended(v) <==> StepEnd(f) + StepDelay(f) <= f.clock + m)
            && (f.clock + m < Fire(f).next ==> FrontAfter(Fire(f), m).voices[TONE_VOICE] == v)
  {
    hide VoiceOk, After, Fire, FrontAfter, TakeNote, MustSwitch, Ended, Delay;
    FiredTone(f);
    FireOk(f);
    var u := f.voices[TONE_VOICE].(noteId := 0, startStamp := (f.noteCounter + 1) % WRAP32);
    TagsDoNotMatter(f.voices[TONE_VOICE], 0, (f.noteCounter + 1) % WRAP32);
    ToneEnds(u, f.steps[f.idx].inc, StepEnd(f) - f.next, m);
    if f.clock + m < Fire(f).next { StretchIsTicks(Fire(f), m); }
  }

  /** Tones end on time exactly when there is nothing to fade out first: the tone
      voice is idle or silent, or plays the same number of harmonics (its wave and
      level being those of a tone). */
  lemma TonesEndOnTimeExactlyWhen(f: Front)
    requires FrontOk(f) && Sounds(f)
    ensures (forall m: nat :: Ended(After(Fire(f).voices[TONE_VOICE], m)) <==> StepEnd(f) <= f.clock + m)
            <==> StepDelay(f) == 0
  {
    hide VoiceOk, After, Fire, Ended, Delay, FrontAfter, FrontOk;
    forall m: nat
      ensures Ended(After(Fire(f).voices[TONE_VOICE], m)) <==> StepEnd(f) + StepDelay(f) <= f.clock + m
    {
      TonesEndAfterTheFade(f, m);
    }
    var gate: nat := StepEnd(f) - f.clock;
    assert StepDelay(f) != 0 ==> !Ended(After(Fire(f).voices[TONE_VOICE], gate));
  }
}
