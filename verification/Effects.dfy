/** What stops and commands do, said of the voices and the sequencer themselves
    (lib/AudioEngine/AudioEngine.cpp). */
module Effects {
  import opened Common
  import opened Fixed
  import opened Oscillator
  import opened Voice
  import opened Front
  import opened Sequencer
  import opened Eq
  import opened Bus
  import opened MixBus
  import opened Stops
  import opened EngineState
  import opened Releases

  // ---- one voice ----

  /** w is v fading evenly to nothing over so many samples, its note not followed by
      another; a voice that is silent already is idle. */
  predicate FadesOver(v: Voice, w: Voice, samples: nat) {
    if samples == 0 || v.env == 0 then w == v.(pending := None, stage := Idle, env := 0)
    else
      && w == v.(pending := None, stage := Release, stageLeft := samples, envStep := w.envStep, gateLeft := 0)
      && w.envStep <= 0 <= v.env + samples * w.envStep < samples
  }

  /** The note is let go: released over its own release, unless it is over or
      released already; a note that waits to follow never starts. */
  predicate LetGo(v: Voice, w: Voice) {
    if v.stage == Idle || v.stage == Release then w == v.(pending := None) else FadesOver(v, w, v.release)
  }

  /** The fast fade of a stop-all, which a release that ends sooner is left to. */
  predicate Hushed(v: Voice, w: Voice) {
    if v.stage == Idle || (v.stage == Release && v.stageLeft <= 220) then w == v.(pending := None)
    else FadesOver(v, w, 220)
  }

  lemma SlopeReachesZero(env: nat, samples: nat)
    requires 0 < samples
    ensures var step := -TruncDiv(env, samples); step <= 0 <= env + samples * step < samples
  {
    assert env == samples * (env / samples) + env % samples;
  }

  lemma ReleaseFades(v: Voice, samples: U16)
    requires VoiceOk(v) && v.stage != Idle
    ensures FadesOver(v, EnterRelease(v.(pending := None), samples), samples)
  {
    if samples != 0 { SlopeReachesZero(v.env, samples); }
    hide TruncDiv;
  }

  lemma NoteOffLetsGo(v: Voice)
    requires VoiceOk(v)
    ensures LetGo(v, NoteOff(v))
  {
    if v.stage != Idle { ReleaseFades(v, v.release); }
    hide EnterRelease, VoiceOk;
  }

  lemma FadeOutHushes(v: Voice)
    requires VoiceOk(v)
    ensures Hushed(v, FadeOut(v))
  {
    if v.stage != Idle { ReleaseFades(v, 220); }
    hide EnterRelease, VoiceOk;
  }

  /** The samples within which a voice that is let go, or hushed, is over. */
  function Within(v: Voice): nat {
    if v.stage == Idle then 0 else if v.stage == Release then v.stageLeft else if v.release < 220 then 220 else v.release
  }

  lemma Ends(v: Voice, n: nat)
    requires VoiceOk(v) && v.pending.None? && (v.stage == Idle || v.stage == Release)
    requires v.stage == Release ==> v.stageLeft <= n
    ensures After(v, n).stage == Idle
  {
    hide After, VoiceOk;
    if v.stage == Idle {
      IdleStays(v, n);
    } else {
      ReleaseLasts(v, v.stageLeft);
      AfterTwice(v, v.stageLeft, n - v.stageLeft);
      IdleStays(After(v, v.stageLeft), n - v.stageLeft);
    }
  }

  /** A voice that is let go is idle once its release has run, if nothing else
      happens to it. */
  lemma LetGoEnds(v: Voice, n: nat)
    requires VoiceOk(v) && Within(v) <= n
    ensures After(NoteOff(v), n).stage == Idle && After(FadeOut(v), n).stage == Idle
    ensures After(FadeOut(NoteOff(v)), n).stage == Idle
  {
    NoteOffOk(v);
    FadeOutOk(v);
    FadeOutOk(NoteOff(v));
    NoteOffLetsGo(v);
    FadeOutHushes(v);
    FadeOutHushes(NoteOff(v));
    hide After, VoiceOk, NoteOff, FadeOut;
    Ends(NoteOff(v), n);
    Ends(FadeOut(v), n);
    Ends(FadeOut(NoteOff(v)), n);
  }

  // ---- what pending stops do ----

  lemma NoteOffTwice(v: Voice)
    ensures NoteOff(NoteOff(v)) == NoteOff(v) && NoteOff(v).noteId == v.noteId
  {
  }

  lemma {:induction false} DrainedVoice(f: Front, s: StopState, n: nat, i: nat)
    requires n <= RELEASE_SLOTS && StopStateOk(s) && i < VOICES
    ensures var v, g := f.voices[i], Drained(f, s, n).0;
            && g.voices[i] == (if v.noteId != 0 && v.noteId in Waiting(s.slots, n) then NoteOff(v) else v)
            && g == f.(voices := g.voices)
  {
    hide NoteOff;
    if n != 0 {
      DrainedVoice(f, s, n - 1, i);
      NoteOffTwice(f.voices[i]);
    }
  }

  /** Whether a voice's note is to be let go: its id is posted, or the tone is
      stopped and it is the tone voice, or notes are stopped and it has an id. */
  predicate Covered(s: StopState, v: Voice, i: nat) {
    || (v.noteId != 0 && v.noteId in Waiting(s.slots, RELEASE_SLOTS))
    || (s.epoch.tone != s.applied.tone && i == TONE_VOICE)
    || (s.epoch.notes != s.applied.notes && v.noteId != 0)
  }

  lemma VoiceInSteps(f: Front, s: StopState, i: nat)
    requires StopStateOk(s) && i < VOICES && s.epoch.all == s.applied.all
    ensures ApplyStops(f, s).0.voices[i] == if Covered(s, f.voices[i], i) then NoteOff(f.voices[i]) else f.voices[i]
  {
    hide NoteOff, Drained, Waiting;
    DrainedVoice(f, s, RELEASE_SLOTS, i);
    DrainedSlots(f, s, RELEASE_SLOTS);
    NoteOffTwice(f.voices[i]);
  }

  /** Every voice after the pending stops, whatever else is stopped with them:
      exactly the covered ones are let go, and a stop-all hushes every one. */
  lemma VoicesAfterStops(f: Front, s: StopState, i: nat)
    requires StopStateOk(s) && FrontOk(f) && i < VOICES
    ensures var v, w := f.voices[i], ApplyStops(f, s).0.voices[i];
            if s.epoch.all != s.applied.all then Hushed(v, w) || Hushed(NoteOff(v), w)
            else if Covered(s, v, i) then LetGo(v, w) else w == v
  {
    var v := f.voices[i];
    assert VoiceOk(v);
    hide NoteOff, FadeOut, Drained, Waiting, Hushed, LetGo, ApplyStops, VoiceOk, Covered;
    NoteOffLetsGo(v);
    NoteOffOk(v);
    FadeOutHushes(v);
    FadeOutHushes(NoteOff(v));
    if s.epoch.all != s.applied.all {
      StopAllFadesAll(f, s);
      DrainedVoice(f, s, RELEASE_SLOTS, i);
    } else {
      VoiceInSteps(f, s, i);
    }
  }

  /** The sequencer after the pending stops: a stopped sequence does not play, under
      the tag of the request; a stop-all ends a playing one under its own tag; and
      no other stop touches it. */
  lemma SequenceAfterStops(f: Front, s: StopState)
    requires StopStateOk(s)
    ensures var r := ApplyStops(f, s).0; var all, seqs := s.epoch.all != s.applied.all, s.epoch.sequence != s.applied.sequence;
            && (r.playing <==> f.playing && !all && !seqs)
            && (seqs ==> r.gen == s.seqGen && r.status == s.seqGen % 0x8000_0000 * 2)
            && (!seqs ==> r.gen == f.gen)
            && (!seqs && all && f.playing ==> r.status == f.gen % 0x8000_0000 * 2)
            && (!seqs && !(all && f.playing) ==> r.status == f.status)
            && r == f.(voices := r.voices, playing := r.playing, gen := r.gen, status := r.status)
  {
    hide NoteOff, FadeOut, Drained;
    DrainedVoice(f, s, RELEASE_SLOTS, 0);
    DrainedSlots(f, s, RELEASE_SLOTS);
  }

  // ---- and over the samples that follow ----

  lemma StretchOf(t: SineTable, e: Engine, n: nat)
    requires EngineOk(e)
    requires var a := StopsApplied(e).front; !Due(a) && (a.playing ==> a.clock + n < a.next)
    ensures EngineAfter(t, Opened(e), n).front == Along(StopsApplied(e).front, n)
  {
    hide EngineAfter, Settle, FrontAfter, ApplyStops, VoiceOk, BusOk, Along;
    StopsAppliedOk(e);
    SettledStays(StopsApplied(e).front);
    FrontOfEngine(t, Opened(e), n);
    StretchIsTicks(StopsApplied(e).front, n);
  }

  /** From the render that applies it on, a covered voice is idle once its release
      has run, as long as no sequence boundary falls. */
  lemma CoveredVoicesEnd(t: SineTable, e: Engine, i: nat, n: nat)
    requires EngineOk(e) && i < VOICES && Within(e.front.voices[i]) <= n
    requires Covered(e.stops, e.front.voices[i], i) && e.stops.epoch.all == e.stops.applied.all
    requires var a := StopsApplied(e).front; !Due(a) && (a.playing ==> a.clock + n < a.next)
    ensures EngineAfter(t, Opened(e), n).front.voices[i].stage == Idle
  {
    var v := e.front.voices[i];
    assert VoiceOk(v);
    hide EngineAfter, Settle, After, NoteOff, ApplyStops, VoiceOk, BusOk, Covered, Within;
    StretchOf(t, e, n);
    VoiceInSteps(e.front, e.stops, i);
    LetGoEnds(v, n);
  }

  /** A stopped sequence never plays again, and its tag stands, until something
      newer is applied. */
  lemma StoppedSequenceStaysStopped(t: SineTable, e: Engine, n: nat)
    requires EngineOk(e) && e.stops.epoch.sequence != e.stops.applied.sequence
    ensures var r := EngineAfter(t, Opened(e), n).front;
            !r.playing && r.gen == e.stops.seqGen && r.status == e.stops.seqGen % 0x8000_0000 * 2
  {
    hide EngineAfter, Settle, After, ApplyStops, VoiceOk, BusOk;
    SequenceAfterStops(e.front, e.stops);
    StretchOf(t, e, n);
  }

  // ---- a request ----

  /** A request moves its own counter, and a stopped sequence's tag, and no more. */
  lemma RequestMoves(s: StopState, k: StopKind, gen: U32)
    ensures var r := Requested(s, k, gen);
            && r.epoch.Of(k) != s.epoch.Of(k) && (forall j :: j != k ==> r.epoch.Of(j) == s.epoch.Of(j))
            && r == s.(epoch := r.epoch, seqGen := if k == StopSequenceKind then gen else s.seqGen)
  {
  }

  /** Asked of an engine with nothing pending: a tone stop lets go the tone voice
      and no other, a note stop every voice with a note id and no other, and both
      leave the sequence alone; a sequence stop ends it under the given tag and
      leaves the voices alone. */
  lemma OneStopDoes(e: Engine, k: StopKind, gen: U32, i: nat)
    requires EngineOk(e) && Quiet(e.stops) && i < VOICES
    ensures var r := StopsApplied(e.(stops := Requested(e.stops, k, gen))).front; var v, w := e.front.voices[i], r.voices[i];
            match k
            case StopTone => (if i == 0 then LetGo(v, w) else w == v)
                             && r.playing == e.front.playing && r.status == e.front.status
            case StopNotes => (if v.noteId != 0 then LetGo(v, w) else w == v)
                             && r.playing == e.front.playing && r.status == e.front.status
            case StopSequenceKind => w == v && !r.playing && r.status == gen % 0x8000_0000 * 2
            case StopAll => Hushed(v, w) && !r.playing
  {
    var s := Requested(e.stops, k, gen);
    RequestMoves(e.stops, k, gen);
    NoneWait(s.slots, RELEASE_SLOTS);
    hide ApplyStops, LetGo, Hushed, Requested, NoteOff, VoiceOk, BusOk;
    if k == StopAll {
      StopAllFadesAll(e.front, s);
      DrainedVoice(e.front, s, RELEASE_SLOTS, i);
      FadeOutHushes(e.front.voices[i]);
    } else {
      VoicesAfterStops(e.front, s, i);
    }
    SequenceAfterStops(e.front, s);
  }

  // ---- commands ----

  /** What each command does to the voices, once the stops before it are applied. */
  lemma CommandVoices(e: Engine, c: Command, i: nat)
    requires EngineOk(e) && CommandOk(c) && i < VOICES
    ensures var a, r := StopsApplied(e).front, Applied(e, c).front; var v, w := a.voices[i], r.voices[i];
            match c
            case CmdNoteOff(voice) => if i == voice then LetGo(v, w) else w == v
            case CmdNoteOffId(id) => if id != 0 && v.noteId == id then LetGo(v, w) else w == v
            case CmdAllOff => Hushed(v, w)
            case CmdNoteOn(voice, _, _, _, _) => voice < VOICES && i != voice ==> w == v
            case _ => w == v
  {
    StopsAppliedOk(e);
    var v := StopsApplied(e).front.voices[i];
    assert VoiceOk(v);
    NoteOffLetsGo(v);
    FadeOutHushes(v);
    hide StopsApplied, LetGo, Hushed, NoteOff, FadeOut, TakeNote, VoiceOk, SetMaster, Commit, Sounding, Stale;
    hide MixStageOk, OutStageOk, BandsOk;
  }

  /** And to the sequencer. */
  lemma CommandSequence(e: Engine, c: Command)
    requires EngineOk(e) && CommandOk(c)
    ensures var a, r := StopsApplied(e), Applied(e, c); var taken := c.CmdSeqPlay? && !Stale(c, a.stops.applied)
              && a.mail.Some? && a.mail.value.gen == c.playGen;
            && (taken ==>
                  && r.front.steps == a.mail.value.steps && r.front.idx == 0 && r.front.clock == 0 && r.front.next == 0
                  && (r.front.playing <==> a.mail.value.steps != [])
                  && r.front.status == c.playGen % 0x8000_0000 * 2 + (if r.front.playing then 1 else 0)
                  && r.mail == None)
            && (c.CmdSeqStop? ==> !r.front.playing && r.front.status == c.stopGen % 0x8000_0000 * 2)
            && (c.CmdAllOff? ==> !r.front.playing)
            && (!taken && !c.CmdSeqStop? && !c.CmdAllOff? ==>
                  r.front.playing == a.front.playing && r.front.status == a.front.status)
            && (!taken ==> r.front.steps == a.front.steps && r.front.idx == a.front.idx && r.front.clock == a.front.clock
                           && r.front.next == a.front.next && r.mail == a.mail)
  {
    StopsAppliedOk(e);
    hide StopsApplied, NoteOff, FadeOut, TakeNote, VoiceOk, SetMaster, Commit, Sounding, Stale, MixStageOk, OutStageOk, BandsOk;
  }

  /** A volume is at its place at once when nothing sounds and otherwise is on its
      way there, and no other command moves it. */
  lemma CommandVolume(e: Engine, c: Command)
    requires EngineOk(e) && CommandOk(c)
    ensures var a, m, r := StopsApplied(e).front, e.bus.mix, Applied(e, c).bus.mix;
            if !c.CmdMaster? then r == m
            else
              var target := (if c.q15 < 32768 then c.q15 else 32768) * 32768;
              && r.target == target
              && (target == m.master || (forall i :: 0 <= i < VOICES ==> a.voices[i].stage == Idle) ==>
                    r.master == target && r.rampLeft == 0)
              && (target != m.master && (exists i :: 0 <= i < VOICES && a.voices[i].stage != Idle) ==>
                    r.master == m.master && r.rampLeft == 441)
  {
    StopsAppliedOk(e);
    SoundingMeans(StopsApplied(e).front.voices);
    hide StopsApplied, NoteOn, NoteOffAt, NoteOffId, AllOff, StartSequence, StopSequence, Sounding, FrontOk, BandsOk, OutStageOk;
  }

  lemma {:induction false} SoundingMeans(vs: seq<Voice>)
    ensures 0 < Sounding(vs) <==> exists i :: 0 <= i < |vs| && vs[i].stage != Idle
  {
    if vs != [] {
      var n := |vs| - 1;
      SoundingMeans(vs[..n]);
      if 0 < Sounding(vs[..n]) {
        var i :| 0 <= i < n && vs[..n][i].stage != Idle;
        assert vs[i].stage != Idle;
      }
    }
  }

  /** A start that is not dropped takes exactly one voice, which from then on carries
      its id and the next stamp; the note is the command's, its level at most 256. */
  lemma NoteTakesOneVoice(e: Engine, c: Command)
    requires EngineOk(e) && c.CmdNoteOn? && IsTagged(c.(noteId := 1)) && !Stale(c, e.stops.epoch)
    requires c.noteId == 0 || c.noteId !in StopsApplied(e).stops.released
    ensures var a, r := StopsApplied(e).front, Applied(e, c).front;
            var i := if c.voice == ANY_VOICE then PickVoice(a.voices, 0)
                     else if c.voice == ANY_NOTE_VOICE then PickVoice(a.voices, 1) else c.voice;
            && 0 <= i < VOICES
            && r.noteCounter == (a.noteCounter + 1) % WRAP32
            && (forall j :: 0 <= j < VOICES && j != i ==> r.voices[j] == a.voices[j])
            && r.voices[i] == TakeNote(a.voices[i].(noteId := c.noteId, startStamp := r.noteCounter),
                                       c.note.(level := if c.note.level < 256 then c.note.level else 256))
  {
    StopsApplyOnce(e.front, e.stops);
    StopsAppliedOk(e);
    DrainedSlots(e.front, e.stops, RELEASE_SLOTS);
    var f := StopsApplied(e).front;
    StartCounts(f, c.(noteId := 1));
    if c.voice == ANY_VOICE { FirstIdleIsLowest(f.voices, 0); }
    if c.voice == ANY_NOTE_VOICE { FirstIdleIsLowest(f.voices, 1); }
    hide TakeNote, Drained, AllOff, StopSequence, NoteOffAt, NotesOff, BusOk, FrontOk, FirstIdle, QuietestRelease, Oldest;
  }

  /** What a step of a sequence plays on a tone voice that is idle: a soft square of
      the step's pitch at level 230, rising over 132 samples, held for the step and
      released over 220. */
  lemma StepPlays(f: Front)
    requires FrontOk(f) && Sounds(f) && f.voices[TONE_VOICE].stage == Idle
    ensures var w := Fire(f).voices[TONE_VOICE];
            && w.osc.wave == SoftSquare && w.osc.inc == f.steps[f.idx].inc && w.osc.phase == 0
            && w.osc.harmonics == Harmonics(f.steps[f.idx].inc)
            && w.level == 230 && w.stage == Attack && w.stageLeft == 132 && w.env == 0 && w.release == 220
            && w.decay == 0 && w.sustain == 0x100_0000 && w.gateLeft == StepEnd(f) - f.next
  {
    FiredTone(f);
    hide Fire, FrontOk, StepEnd, EnterDecay, EnterRelease, TruncDiv;
  }

  /** The EQ: a band is staged in its own place; taking the staged bands clears what
      they remember and switches them on as asked, unless one is not stable, there
      are too many or the gain is out of range: then the EQ is off. */
  lemma CommandEq(e: Engine, c: Command)
    requires EngineOk(e) && CommandOk(c)
    ensures var b, r := e.bus, Applied(e, c).bus;
            match c
            case CmdEqBand(band, coefs) =>
              && |r.staged| == 4 && (forall j :: 0 <= j < 4 ==> r.staged[j] == if j == band then coefs else b.staged[j])
              && r.eq == b.eq && r.bands == b.bands && r.out == b.out
            case CmdEqCommit(bands, enable, gainQ8) =>
              var valid := 0 <= bands <= 4 && 0 <= gainQ8 <= 4096 && forall j :: 0 <= j < bands ==>
                             Abs(b.staged[j].a2) < 0x2000_0000 && Abs(b.staged[j].a1) < 0x2000_0000 + b.staged[j].a2;
              && |r.eq| == 4 && (forall j :: 0 <= j < 4 ==> r.eq[j] == Biquad(b.staged[j], 0, 0, 0, 0))
              && (r.out.eqOn <==> valid && enable && 0 < bands)
              && (valid ==> r.bands == bands && r.out.gainQ8 == gainQ8)
              && r.staged == b.staged && r.out.limGain == b.out.limGain
            case _ => r.staged == b.staged && r.eq == b.eq && r.bands == b.bands && r.out == b.out
  {
    StopsAppliedOk(e);
    hide StopsApplied, NoteOn, NoteOffAt, NoteOffId, AllOff, StartSequence, StopSequence, Sounding, FrontOk;
    hide SetMaster, MixStageOk, OutStageOk, BiquadOk;
  }
}
