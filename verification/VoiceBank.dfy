/** The voices and the sequencer as the engine keeps them, changed in place and
    rendered in runs and segments; each method is proved against the per-sample
    functions of Voice and Front (lib/AudioEngine/AudioEngine.cpp). */
module VoiceBank {
  import opened Common
  import opened Fixed
  import opened Oscillator
  import opened Voice
  import opened Front
  import opened Sequencer

  class VoiceBank {
    const sine: SineTable
    const voices: array<Voice>
    var noteCounter: U32
    var steps: seq<SeqStep>
    var idx: nat
    var playing: bool
    var gen: U32
    var clock: nat
    var next: nat
    var cumMs: nat
    var status: U32

    ghost function State(): Front
      reads this, voices
      requires voices.Length == VOICES
    {
      Front(voices[..], noteCounter, steps, idx, playing, gen, clock, next, cumMs, status)
    }

    ghost predicate Valid()
      reads this, voices
    {
      voices.Length == VOICES && FrontOk(State())
    }

    constructor (sine: SineTable, seed: U32)
      ensures Valid() && fresh(voices)
      ensures this.sine == sine && !playing && noteCounter == 0
      ensures forall i :: 0 <= i < VOICES ==> voices[i].stage == Idle && voices[i].osc.lfsr == Seeded(seed, i)
      ensures forall i :: 0 <= i < VOICES ==> voices[i].pending.None?
    {
      hide FirstVoice;
      this.sine := sine;
      voices := new Voice[VOICES](i => FirstVoice(seed, i));
      noteCounter, steps, idx, playing, gen := 0, [], 0, false, 0;
      clock, next, cumMs, status := 0, 0, 0, 0;
    }

    // ---- one voice's stages ----

    method BeginDecay(i: nat)
      requires voices.Length == VOICES && i < VOICES
      modifies voices
      ensures voices[..] == old(voices[..])[i := EnterDecay(old(voices[i]))]
    {
      var v := voices[i];
      if v.decay == 0 || ENV_ONE <= v.sustain {
        voices[i] := v.(env := v.sustain, stage := Sustain, envStep := 0, stageLeft := 0);
      } else {
        voices[i] := v.(stage := Decay, stageLeft := v.decay, envStep := -TruncDiv(ENV_ONE - v.sustain, v.decay));
      }
      if voices[i].stage == Sustain && voices[i].env == 0 {
        voices[i] := voices[i].(stage := Idle);
      }
    }

    method BeginRelease(i: nat, samples: U16)
      requires voices.Length == VOICES && i < VOICES
      modifies voices
      ensures voices[..] == old(voices[..])[i := EnterRelease(old(voices[i]), samples)]
    {
      var v := voices[i];
      if v.stage == Idle { return; }
      if samples == 0 || v.env == 0 {
        voices[i] := v.(env := 0, stage := Idle);
        return;
      }
      voices[i] := v.(stage := Release, stageLeft := samples, envStep := -TruncDiv(v.env, samples), gateLeft := 0);
    }

    method BeginNote(i: nat, n: Note)
      requires voices.Length == VOICES && i < VOICES
      modifies voices
      ensures voices[..] == old(voices[..])[i := StartNote(old(voices[i]), n)]
    {
      hide EnterDecay;
      if voices[i].stage == Idle {
        voices[i] := voices[i].(osc := voices[i].osc.(phase := 0), env := 0);
      }
      voices[i] := voices[i].(osc := voices[i].osc.(wave := n.wave, inc := n.inc, harmonics := Harmonics(n.inc),
                                                    duty := n.duty * 0x100_0000));
      voices[i] := voices[i].(level := n.level,
        sustain := (if SUSTAIN_FULL < n.env.sustain then SUSTAIN_FULL else n.env.sustain) * ENV_ONE / 32768,
        decay := n.env.decay, release := n.env.release, gateLeft := n.gate);
      if n.env.attack == 0 {
        voices[i] := voices[i].(env := ENV_ONE);
        BeginDecay(i);
      } else {
        // The attack lasts exactly its samples from wherever the level is.
        voices[i] := voices[i].(stage := Attack, stageLeft := n.env.attack,
                                envStep := TruncDiv(ENV_ONE - voices[i].env, n.env.attack));
      }
    }

    method BeginPending(i: nat)
      requires voices.Length == VOICES && i < VOICES && voices[i].pending.Some?
      modifies voices
      ensures voices[..] == old(voices[..])[i := StartPending(old(voices[i]))]
    {
      hide StartNote;
      var n := voices[i].pending.value;
      voices[i] := voices[i].(pending := None);
      BeginNote(i, n);
    }

    method EndNote(voice: nat)
      requires voices.Length == VOICES
      modifies voices
      ensures State() == NoteOffAt(old(State()), voice)
    {
      if VOICES <= voice { return; }
      voices[voice] := voices[voice].(pending := None);
      if voices[voice].stage != Idle && voices[voice].stage != Release {
        BeginRelease(voice, voices[voice].release);
      }
      assert voices[..] == old(voices[..])[voice := NoteOff(old(voices[voice]))];
    }

    // ---- rendering ----

    /** `run` samples with a constant envelope slope; the level is advanced before
        each sample. The oscillator and the level are kept aside while the loop
        runs. */
    method OscRun(i: nat, acc: array<int>, pos: nat, run: nat, step: int)
      requires voices.Length == VOICES && i < VOICES && pos + run <= acc.Length
      modifies voices, acc
      ensures voices[..] == old(voices[..])[i := OscAfter(old(voices[i]), step, run)]
      ensures forall k :: 0 <= k < run ==>
                acc[pos + k] == old(acc[pos + k]) + OscOut(sine, OscAfter(old(voices[i]), step, k), step)
      ensures forall j :: 0 <= j < acc.Length && !(pos <= j < pos + run) ==> acc[j] == old(acc[j])
    {
      hide Raw, Advanced, Shaped;
      ghost var v := voices[i];
      var o, env, level := voices[i].osc, voices[i].env, voices[i].level;
      for k := 0 to run
        invariant voices[..] == old(voices[..])
        invariant v.(osc := o, env := env) == OscAfter(v, step, k)
        invariant forall j :: 0 <= j < k ==> acc[pos + j] == old(acc[pos + j]) + OscOut(sine, OscAfter(v, step, j), step)
        invariant forall j :: 0 <= j < acc.Length && !(pos <= j < pos + k) ==> acc[j] == old(acc[j])
      {
        var s := Raw(sine, o);
        o := Advanced(o);
        env := env + step;
        acc[pos + k] := acc[pos + k] + Shaped(s, env, level);
      }
      voices[i] := voices[i].(osc := o, env := env);
    }

    /** The counters and stage changes after a run. */
    method FinishRun(i: nat, run: nat, timed: bool, gated: bool)
      requires voices.Length == VOICES && i < VOICES
      requires timed == Timed(voices[i]) && gated == Gated(voices[i])
      requires (timed ==> run <= voices[i].stageLeft) && (gated ==> run <= voices[i].gateLeft)
      modifies voices
      ensures voices[..] == old(voices[..])[i := AfterRun(old(voices[i]), run)]
    {
      hide EnterDecay, EnterRelease, StartNote;
      ghost var v := voices[i];
      StageKeepsGate(v, run);
      if timed {
        voices[i] := voices[i].(stageLeft := voices[i].stageLeft - run);
        if voices[i].stageLeft == 0 {
          if voices[i].stage == Attack {
            voices[i] := voices[i].(env := ENV_ONE);
            BeginDecay(i);
          } else if voices[i].stage == Decay {
            voices[i] := voices[i].(env := voices[i].sustain, stage := Sustain, envStep := 0);
            if voices[i].env == 0 { voices[i] := voices[i].(stage := Idle); }
          } else {
            voices[i] := voices[i].(env := 0, stage := Idle);
          }
        }
      }
      assert voices[..] == old(voices[..])[i := StageCounted(v, run)];
      if gated {
        voices[i] := voices[i].(gateLeft := voices[i].gateLeft - run);
        if voices[i].gateLeft == 0 && voices[i].stage != Idle && voices[i].stage != Release {
          BeginRelease(i, voices[i].release);
        }
      }
      assert voices[..] == old(voices[..])[i := GateCounted(StageCounted(v, run), gated, run)];
      if voices[i].stage == Idle && voices[i].pending.Some? { BeginPending(i); }
    }

    /** One run: as many samples as fit before the stage or the gate changes. */
    method RenderRun(i: nat, acc: array<int>, pos: nat, room: nat) returns (run: nat)
      requires voices.Length == VOICES && i < VOICES && pos + room <= acc.Length && 0 < room
      requires VoiceOk(voices[i]) && voices[i].stage != Idle
      modifies voices, acc
      ensures 0 < run <= room
      ensures voices[..] == old(voices[..])[i := After(old(voices[i]), run)]
      ensures forall j :: 0 <= j < acc.Length ==>
                acc[j] == old(acc[j]) + if pos <= j < pos + run then Out(sine, After(old(voices[i]), j - pos)) else 0
    {
      hide VoiceOk, OscOut, AfterRun, OscStep, Tick;
      ghost var v := voices[i];
      TimedCounts(v);
      run := room;
      var timed, gated := Timed(voices[i]), Gated(voices[i]);
      if timed && voices[i].stageLeft < run { run := voices[i].stageLeft; }
      if gated && voices[i].gateLeft < run { run := voices[i].gateLeft; }
      var step := if voices[i].stage == Sustain then 0 else voices[i].envStep;
      OscRun(i, acc, pos, run, step);
      FinishRun(i, run, timed, gated);
      RunIsTicks(v, run);
      forall j | pos <= j < pos + run
        ensures acc[j] == old(acc[j]) + Out(sine, After(v, j - pos))
      {
        assert acc[pos + (j - pos)] == old(acc[j]) + OscOut(sine, OscAfter(v, step, j - pos), step);
        MidwayIsTicking(v, j - pos, run);
        MidwaySounds(sine, v, j - pos, run);
      }
    }

    /** n samples of one voice, in runs up to the next stage or gate change. */
    method RenderVoice(i: nat, acc: array<int>, pos: nat, n: nat)
      requires voices.Length == VOICES && i < VOICES && pos + n <= acc.Length && VoiceOk(voices[i])
      modifies voices, acc
      ensures voices[..] == old(voices[..])[i := After(old(voices[i]), n)]
      ensures forall j :: 0 <= j < acc.Length ==>
                acc[j] == old(acc[j]) + if pos <= j < pos + n then Out(sine, After(old(voices[i]), j - pos)) else 0
    {
      hide VoiceOk, Out, Tick, After;
      ghost var v, vs, was := voices[i], voices[..], acc[..];
      var done := 0;
      AfterNothing(v);
      while done < n && voices[i].stage != Idle
        invariant done <= n
        invariant voices[..] == vs[i := After(v, done)] && VoiceOk(voices[i])
        invariant forall j :: 0 <= j < acc.Length ==>
                    acc[j] == was[j] + if pos <= j < pos + done then Out(sine, After(v, j - pos)) else 0
      {
        ghost var now := voices[i];
        var run := RenderRun(i, acc, pos + done, n - done);
        AfterTwice(v, done, run);
        AfterOk(now, run);
        forall j | pos + done <= j < pos + done + run
          ensures acc[j] == was[j] + Out(sine, After(v, j - pos))
        {
          AfterTwice(v, done, j - pos - done);
        }
        done := done + run;
      }
      forall k | done <= k <= n
        ensures After(v, k) == After(v, done) && (done < n ==> Out(sine, After(v, k)) == 0)
      {
        AfterTwice(v, done, k - done);
        if done < n {
          IdleStays(After(v, done), k - done);
          IdleIsSilent(sine, After(v, done));
        } else {
          AfterNothing(After(v, done));
        }
      }
    }

    /** n samples of every sounding voice, added up. */
    method RenderVoices(acc: array<int>, pos: nat, n: nat)
      requires Valid() && pos + n <= acc.Length
      modifies voices, acc
      ensures voices[..] == AllAfter(old(voices[..]), n)
      ensures forall j :: 0 <= j < acc.Length ==>
                acc[j] == old(acc[j]) + if pos <= j < pos + n then Mix(sine, AllAfter(old(voices[..]), j - pos)) else 0
    {
      hide VoiceOk, Out, After;
      ghost var vs: Voices, was := voices[..], acc[..];
      for i := 0 to VOICES
        invariant forall b :: 0 <= b < VOICES ==> voices[b] == if b < i then After(vs[b], n) else vs[b]
        invariant forall j :: 0 <= j < acc.Length ==>
                    acc[j] == was[j] + if pos <= j < pos + n then Mix(sine, AllAfter(vs, j - pos)[..i]) else 0
      {
        if voices[i].stage != Idle {
          RenderVoice(i, acc, pos, n);
        } else {
          IdleStays(vs[i], n);
        }
        forall j | pos <= j < pos + n
          ensures acc[j] == was[j] + Mix(sine, AllAfter(vs, j - pos)[..i + 1])
        {
          assert AllAfter(vs, j - pos)[..i + 1][..i] == AllAfter(vs, j - pos)[..i];
          if vs[i].stage == Idle {
            IdleStays(vs[i], j - pos);
            IdleIsSilent(sine, vs[i]);
          }
        }
      }
      forall j | pos <= j < pos + n
        ensures acc[j] == was[j] + Mix(sine, AllAfter(vs, j - pos))
      {
        assert AllAfter(vs, j - pos)[..VOICES] == AllAfter(vs, j - pos);
      }
      assert voices[..] == AllAfter(vs, n);
    }

    // ---- notes ----

    /** The stealing policy's choice. */
    method Pick(first: nat) returns (best: int)
      requires voices.Length == VOICES && first < VOICES
      ensures best == PickVoice(State().voices, first)
    {
      ghost var vs: Voices := voices[..];
      for i := first to VOICES
        invariant FirstIdle(vs, first) == FirstIdle(vs, i)
      {
        if voices[i].stage == Idle { return i; }
      }
      best := -1;
      for i := first to VOICES
        invariant best == QuietestRelease(vs, first, i)
      {
        if voices[i].stage == Release && (best < 0 || voices[i].env < voices[best].env) { best := i; }
      }
      if 0 <= best { return; }
      best := first;
      for i := first + 1 to VOICES
        invariant first <= best < i && best == Oldest(vs, first, i)
      {
        if Earlier(voices[i].startStamp, voices[best].startStamp) { best := i; }
      }
    }

    method PlayNote(voice: U8, n: Note, noteId: U32)
      requires Valid()
      modifies this`noteCounter, voices
      ensures State() == NoteOn(old(State()), voice, n, noteId)
      ensures Valid()
    {
      hide PickVoice, StartNote, EnterRelease, VoiceOk;
      ghost var f := State();
      NoteOnOk(f, voice, n, noteId);
      var vi: int := voice;
      if voice == ANY_VOICE { vi := Pick(0); } else if voice == ANY_NOTE_VOICE { vi := Pick(1); }
      if vi < 0 || VOICES <= vi { return; }
      noteCounter := (noteCounter + 1) % WRAP32;
      voices[vi] := voices[vi].(noteId := noteId, startStamp := noteCounter);
      var note := n.(level := if LEVEL_UNITY < n.level then LEVEL_UNITY else n.level);
      TakeVoice(vi, note);
      assert voices[..] == NoteOn(f, voice, n, noteId).voices;
    }

    /** The note takes the voice at once, or waits for the old one to fade. */
    method TakeVoice(i: nat, n: Note)
      requires voices.Length == VOICES && i < VOICES
      modifies voices
      ensures voices[..] == old(voices[..])[i := TakeNote(old(voices[i]), n)]
    {
      hide StartNote, EnterRelease;
      if MustSwitch(voices[i], n) {
        voices[i] := voices[i].(pending := Some(n));
        EnterReleaseKeepsPending(voices[i], SWITCH_FADE);
        if !(voices[i].stage == Release && voices[i].stageLeft <= SWITCH_FADE) { BeginRelease(i, SWITCH_FADE); }
        if voices[i].stage == Idle { BeginPending(i); }
        return;
      }
      voices[i] := voices[i].(pending := None);
      BeginNote(i, n);
    }

    method EndNoteId(noteId: U32)
      requires Valid()
      modifies voices
      ensures State() == NoteOffId(old(State()), noteId)
      ensures Valid()
    {
      hide NoteOff, VoiceOk;
      ghost var f := State();
      VoicesOffOk(f, noteId);
      if noteId == 0 { return; }
      for i := 0 to VOICES
        invariant forall b :: 0 <= b < VOICES ==>
                    voices[b] == if b < i && f.voices[b].noteId == noteId then NoteOff(f.voices[b]) else f.voices[b]
      {
        if voices[i].noteId == noteId { EndNote(i); }
      }
      assert State() == NoteOffId(f, noteId);
    }

    method EndNotes()
      requires Valid()
      modifies voices
      ensures State() == NotesOff(old(State()))
      ensures Valid()
    {
      hide NoteOff, VoiceOk;
      ghost var f := State();
      VoicesOffOk(f, 0);
      for i := 0 to VOICES
        invariant forall b :: 0 <= b < VOICES ==>
                    voices[b] == if b < i && f.voices[b].noteId != 0 then NoteOff(f.voices[b]) else f.voices[b]
      {
        if voices[i].noteId != 0 { EndNote(i); }
      }
      assert State() == NotesOff(f);
    }

    /** A fast fade of every voice; the sequencer stops. */
    method SilenceAll()
      requires Valid()
      modifies this`playing, this`status, voices
      ensures State() == AllOff(old(State()))
      ensures Valid()
    {
      hide EnterRelease, VoiceOk;
      ghost var f := State();
      VoicesOffOk(f, 0);
      for i := 0 to VOICES
        invariant playing == f.playing && status == f.status
        invariant forall b :: 0 <= b < VOICES ==> voices[b] == if b < i then FadeOut(f.voices[b]) else f.voices[b]
      {
        voices[i] := voices[i].(pending := None);
        if voices[i].stage != Idle && !(voices[i].stage == Release && voices[i].stageLeft <= FAST_RELEASE) {
          BeginRelease(i, FAST_RELEASE);
        }
      }
      if playing {
        playing := false;
        status := Status(gen, playing);
      }
      assert State() == AllOff(f);
    }

    // ---- the sequencer ----

    method PlaySequence(newGen: U32, list: seq<SeqStep>)
      requires Valid() && |list| <= MAX_STEPS
      modifies this`steps, this`idx, this`playing, this`gen, this`clock, this`next, this`cumMs, this`status
      ensures State() == StartSequence(old(State()), newGen, list)
      ensures Valid()
    {
      SequencesOk(State(), newGen, list);
      gen := newGen;
      steps := list;
      idx, clock, next, cumMs := 0, 0, 0, 0;
      playing := list != [];
      status := Status(gen, playing);
    }

    method EndSequence(newGen: U32)
      requires Valid()
      modifies this`playing, this`gen, this`status
      ensures State() == StopSequence(old(State()), newGen)
      ensures Valid()
    {
      SequencesOk(State(), newGen, []);
      gen := newGen;
      playing := false;
      status := Status(gen, playing);
    }

    /** Moves on to the boundary after the step that starts now. */
    method AdvanceStep()
      requires Valid() && Due(State()) && idx < |steps|
      modifies this`idx, this`next, this`cumMs
      ensures State() == NextStep(old(State()))
      ensures Valid()
    {
      hide VoiceOk;
      NextStepOk(State());
      cumMs := cumMs + steps[idx].durMs + steps[idx].gapMs;
      idx := idx + 1;
      next := MsToSamples(cumMs);
    }

    /** One step boundary: starts the step, or ends the sequence. */
    method FireSequence()
      requires Valid() && Due(State())
      modifies this`noteCounter, this`idx, this`playing, this`next, this`cumMs, this`status, voices
      ensures State() == Fire(old(State()))
      ensures Valid()
    {
      hide NoteOn, NoteOffAt, FrontOk, NextStep, MsToSamples;
      FireOk(State());
      if |steps| <= idx {
        playing := false;
        status := Status(gen, playing);
        return;
      }
      CountersFitHere(State());
      var s := steps[idx];
      var start := next;
      var toneEnd := MsToSamples(cumMs + s.durMs);
      AdvanceStep();
      if 0 < s.inc && start < toneEnd {
        PlayNote(TONE_VOICE, ToneNote(s.inc, toneEnd - start), 0);
      } else {
        EndNote(TONE_VOICE);
      }
    }

    /** All boundaries that are due now. */
    method FireDue()
      requires Valid()
      modifies this`noteCounter, this`idx, this`playing, this`next, this`cumMs, this`status, voices
      ensures State() == Settle(old(State()))
      ensures Valid() && !Due(State()) && steps == old(steps) && clock == old(clock)
    {
      hide Fire, VoiceOk;
      ghost var f := State();
      while playing && clock == next
        invariant Valid() && steps == f.steps && clock == f.clock && gen == f.gen
        invariant Settle(State()) == Settle(f)
        decreases playing, |steps| - idx
      {
        FireOk(State());
        FireSequence();
      }
    }

    /** Samples up to the next boundary or the end of the block, and what is due then. */
    method RenderSegment(acc: array<int>, pos: nat, room: nat) returns (seg: nat)
      requires Valid() && !Due(State()) && 0 < room && pos + room <= acc.Length
      modifies this`noteCounter, this`idx, this`playing, this`clock, this`next, this`cumMs, this`status, voices, acc
      ensures 0 < seg <= room
      ensures State() == FrontAfter(old(State()), seg)
      ensures Valid() && !Due(State())
      ensures forall j :: 0 <= j < acc.Length ==>
                acc[j] == old(acc[j]) + if pos <= j < pos + seg then Mix(sine, FrontAfter(old(State()), j - pos).voices) else 0
    {
      hide VoiceOk, Settle, FrontTick, Mix, AllAfter;
      ghost var now := State();
      seg := room;
      if playing && next - clock < seg { seg := next - clock; }
      RenderVoices(acc, pos, seg);
      if playing { clock := clock + seg; }
      assert State() == Along(now, seg);
      AlongOk(now, seg);
      StretchToBoundary(now, seg);
      forall j | pos <= j < pos + seg
        ensures acc[j] == old(acc[j]) + Mix(sine, FrontAfter(now, j - pos).voices)
      {
        StretchIsTicks(now, j - pos);
      }
      FireDue();
    }

    method Clear(acc: array<int>, n: nat)
      requires n <= acc.Length
      modifies acc
      ensures forall j :: 0 <= j < acc.Length ==> acc[j] == if j < n then 0 else old(acc[j])
    {
      for k := 0 to n
        invariant forall j :: 0 <= j < acc.Length ==> acc[j] == if j < k then 0 else old(acc[j])
      {
        acc[k] := 0;
      }
    }

    /** The mix of n samples, in segments between step boundaries. */
    method RenderFront(acc: array<int>, n: nat)
      requires Valid() && n <= acc.Length
      modifies this`noteCounter, this`idx, this`playing, this`clock, this`next, this`cumMs, this`status, voices, acc
      ensures State() == FrontAfter(Settle(old(State())), n)
      ensures Valid()
      ensures forall k :: 0 <= k < n ==> acc[k] == Mix(sine, FrontAfter(Settle(old(State())), k).voices)
      ensures forall k :: 0 <= k < n ==> Abs(acc[k]) <= MIX_PEAK
    {
      hide FrontOk, Due, Settle, FrontTick, Mix;
      ghost var f1 := Settle(State());
      SettleOk(State());
      Clear(acc, n);
      FireDue();
      var pos := 0;
      while pos < n
        invariant pos <= n
        invariant State() == FrontAfter(f1, pos) && Valid() && !Due(State())
        invariant forall k :: 0 <= k < pos ==> acc[k] == Mix(sine, FrontAfter(f1, k).voices)
        invariant forall k :: pos <= k < n ==> acc[k] == 0
      {
        var seg := RenderSegment(acc, pos, n - pos);
        FrontAfterTwice(f1, pos, seg);
        forall k | pos <= k < pos + seg
          ensures acc[k] == Mix(sine, FrontAfter(f1, k).voices)
        {
          FrontAfterTwice(f1, pos, k - pos);
        }
        pos := pos + seg;
      }
      SettleSettles(old(State()));
      forall k | 0 <= k < n
        ensures Abs(acc[k]) <= MIX_PEAK
      {
        MixOfFrontBounded(sine, f1, k);
      }
    }
  }

  /** The first value of a voice's noise register. */
  function Seeded(seed: U32, i: nat): (l: bv16)
    ensures 1 <= l <= 0x7FFF
  {
    var low := ((seed + i * 0x1F35) % 65536) as bv16 & 0x7FFF;
    if low == 0 then 0x4A5B else low
  }

  function FirstVoice(seed: U32, i: int): (v: Voice)
    ensures VoiceOk(v) && v.stage == Idle && v.pending.None?
    ensures 0 <= i ==> v.osc.lfsr == Seeded(seed, i)
  {
    SILENT.(osc := SILENT.osc.(lfsr := Seeded(seed, if 0 <= i then i else 0)))
  }

  lemma CountersFitHere(f: Front)
    requires FrontOk(f) && Due(f) && f.idx < |f.steps|
    ensures 0 <= MsToSamples(f.cumMs + f.steps[f.idx].durMs) - f.next < WRAP32
  {
    CountersFit(f);
  }

  lemma MixOfFrontBounded(t: SineTable, f: Front, k: nat)
    requires FrontOk(f) && !Due(f)
    ensures Abs(Mix(t, FrontAfter(f, k).voices)) <= MIX_PEAK
  {
    hide VoiceOk;
    FrontAfterOk(f, k);
    MixBounded(t, FrontAfter(f, k).voices);
  }

  lemma AfterNothing(v: Voice)
    ensures After(v, 0) == v
  {
  }

  lemma IdleIsSilent(t: SineTable, v: Voice)
    requires v.stage == Idle
    ensures Out(t, v) == 0
  {
  }

  lemma TimedCounts(v: Voice)
    requires VoiceOk(v)
    ensures Timed(v) ==> 0 < v.stageLeft
  {
  }

  /** Inside a run only the oscillator and the level matter to the sample. */
  lemma MidwaySounds(t: SineTable, v: Voice, k: nat, run: nat)
    requires k < run && WithinRun(v, run) && WithinRun(v, k)
    ensures Out(t, Midway(v, k)) == OscOut(t, OscAfter(v, StepOf(v), k), StepOf(v))
  {
    hide Raw;
  }
}
