/** The front end of the engine: eight voices and the sample-clocked tone
    sequencer, as values. FrontTick is one sample of it
    (lib/AudioEngine/AudioEngine.cpp). */
module Front {
  import opened Common
  import opened Fixed
  import opened Oscillator
  import opened Voice

  const VOICES: nat := 8
  const TONE_VOICE: nat := 0
  const ANY_VOICE: U8 := 255
  const ANY_NOTE_VOICE: U8 := 254
  const MAX_STEPS: nat := 128
  const TONE_ENVELOPE := Envelope(132, 0, 32768, 220)
  const TONE_LEVEL: U16 := 230

  datatype SeqStep = SeqStep(inc: U32, durMs: U16, gapMs: U16)

  const SILENT := Voice(Osc(Pulse, 0, 0, 0, 0, 1, NOISE_AMP), Idle, 0, 0, 0, 0, 0, 0, 0, 0, 0, 0, None)

  type Voices = vs: seq<Voice> | |vs| == VOICES witness seq(VOICES, i => SILENT)

  datatype Front = Front(voices: Voices, noteCounter: U32,
                         steps: seq<SeqStep>, idx: nat, playing: bool, gen: U32,
                         clock: nat, next: nat, cumMs: nat, status: U32)

  // ---- picking a voice ----

  /** Whether stamp a is earlier than b, on a counter that wraps. */
  predicate Earlier(a: U32, b: U32) {
    0x8000_0000 <= (a - b) % WRAP32
  }

  function FirstIdle(vs: seq<Voice>, i: nat): int
    requires i <= |vs|
    decreases |vs| - i
  {
    if i == |vs| then -1 else if vs[i].stage == Idle then i else FirstIdle(vs, i + 1)
  }

  /** The quietest releasing voice among those from `first` up to n. */
  function QuietestRelease(vs: seq<Voice>, first: nat, n: nat): (best: int)
    requires first <= n <= |vs|
    ensures best == -1 || first <= best < n
  {
    if n == first then -1
    else
      var best := QuietestRelease(vs, first, n - 1);
      if vs[n - 1].stage == Release && (best < 0 || vs[n - 1].env < vs[best].env) then n - 1 else best
  }

  function Oldest(vs: seq<Voice>, first: nat, n: nat): (best: nat)
    requires first < n <= |vs|
    ensures first <= best < n
  {
    if n == first + 1 then first
    else
      var best := Oldest(vs, first, n - 1);
      if Earlier(vs[n - 1].startStamp, vs[best].startStamp) then n - 1 else best
  }

  function PickVoice(vs: seq<Voice>, first: nat): int
    requires first < |vs|
  {
    if 0 <= FirstIdle(vs, first) then FirstIdle(vs, first)
    else if 0 <= QuietestRelease(vs, first, |vs|) then QuietestRelease(vs, first, |vs|)
    else Oldest(vs, first, |vs|)
  }

  lemma {:induction false} FirstIdleIsLowest(vs: seq<Voice>, i: nat)
    requires i <= |vs|
    ensures var r := FirstIdle(vs, i);
            && (r < 0 ==> r == -1 && forall j :: i <= j < |vs| ==> vs[j].stage != Idle)
            && (0 <= r ==> i <= r < |vs| && vs[r].stage == Idle && forall j :: i <= j < r ==> vs[j].stage != Idle)
    decreases |vs| - i
  {
    if i < |vs| { FirstIdleIsLowest(vs, i + 1); }
  }

  lemma {:induction false} QuietestIsLowest(vs: seq<Voice>, first: nat, n: nat)
    requires first <= n <= |vs|
    ensures var r := QuietestRelease(vs, first, n);
            && (r < 0 ==> forall j :: first <= j < n ==> vs[j].stage != Release)
            && (0 <= r ==> vs[r].stage == Release)
            && (0 <= r ==> forall j :: first <= j < n && vs[j].stage == Release ==> vs[r].env <= vs[j].env)
  {
    if first < n { QuietestIsLowest(vs, first, n - 1); }
  }

  /** How long ago a stamp was handed out, as seen from the counter. */
  function Age(counter: U32, stamp: U32): U32 {
    (counter - stamp) % WRAP32
  }

  lemma {:induction false} OldestIsOldest(vs: seq<Voice>, first: nat, n: nat, counter: U32)
    requires first < n <= |vs|
    requires forall j :: first <= j < n ==> Age(counter, vs[j].startStamp) < 0x8000_0000
    ensures forall j :: first <= j < n ==>
              Age(counter, vs[j].startStamp) <= Age(counter, vs[Oldest(vs, first, n)].startStamp)
  {
    if first + 1 < n {
      OldestIsOldest(vs, first, n - 1, counter);
      var best := Oldest(vs, first, n - 1);
      EarlierIsOlder(counter, vs[n - 1].startStamp, vs[best].startStamp);
    }
  }

  lemma EarlierIsOlder(counter: U32, a: U32, b: U32)
    requires Age(counter, a) < 0x8000_0000 && Age(counter, b) < 0x8000_0000
    ensures Earlier(a, b) <==> Age(counter, b) < Age(counter, a)
  {
  }

  /** The stealing policy: the lowest idle voice; else the releasing voice with
      the lowest level; else the voice whose note started earliest, as long as
      no live stamp is more than half the counter's range old. */
  lemma StealingPolicy(vs: seq<Voice>, first: nat, counter: U32)
    requires first < |vs|
    requires forall j :: first <= j < |vs| ==> Age(counter, vs[j].startStamp) < 0x8000_0000
    ensures var r := PickVoice(vs, first);
            && first <= r < |vs|
            && ((exists j :: first <= j < |vs| && vs[j].stage == Idle) ==>
                  vs[r].stage == Idle && forall j :: first <= j < r ==> vs[j].stage != Idle)
            && ((forall j :: first <= j < |vs| ==> vs[j].stage != Idle)
                && (exists j :: first <= j < |vs| && vs[j].stage == Release) ==>
                  vs[r].stage == Release && forall j :: first <= j < |vs| && vs[j].stage == Release ==> vs[r].env <= vs[j].env)
            && ((forall j :: first <= j < |vs| ==> vs[j].stage != Idle && vs[j].stage != Release) ==>
                  forall j :: first <= j < |vs| ==> Age(counter, vs[j].startStamp) <= Age(counter, vs[r].startStamp))
  {
    FirstIdleIsLowest(vs, first);
    QuietestIsLowest(vs, first, |vs|);
    OldestIsOldest(vs, first, |vs|, counter);
  }

  // ---- notes ----

  function VoiceFor(f: Front, voice: U8): int {
    if voice == ANY_VOICE then PickVoice(f.voices, 0)
    else if voice == ANY_NOTE_VOICE then PickVoice(f.voices, 1)
    else voice
  }

  function NoteOn(f: Front, voice: U8, n: Note, noteId: U32): Front {
    var vi := VoiceFor(f, voice);
    if vi < 0 || VOICES <= vi then f
    else
      var stamp := (f.noteCounter + 1) % WRAP32;
      var level := if LEVEL_UNITY < n.level then LEVEL_UNITY else n.level;
      var v := f.voices[vi].(noteId := noteId, startStamp := stamp);
      f.(voices := f.voices[vi := TakeNote(v, n.(level := level))], noteCounter := stamp)
  }

  function NoteOffAt(f: Front, voice: nat): Front {
    if VOICES <= voice then f else f.(voices := f.voices[voice := NoteOff(f.voices[voice])])
  }

  /** Every voice that plays the note with this id is released. */
  function NoteOffId(f: Front, noteId: U32): Front {
    if noteId == 0 then f
    else f.(voices := seq(VOICES, i requires 0 <= i < VOICES =>
              if f.voices[i].noteId == noteId then NoteOff(f.voices[i]) else f.voices[i]))
  }

  /** Every voice that plays a note with an id is released. */
  function NotesOff(f: Front): Front {
    f.(voices := seq(VOICES, i requires 0 <= i < VOICES =>
         if f.voices[i].noteId != 0 then NoteOff(f.voices[i]) else f.voices[i]))
  }

  function Status(gen: U32, playing: bool): U32 {
    gen % 0x8000_0000 * 2 + if playing then 1 else 0
  }

  function Published(f: Front): Front {
    f.(status := Status(f.gen, f.playing))
  }

  function AllOff(f: Front): Front {
    var g := f.(voices := seq(VOICES, i requires 0 <= i < VOICES => FadeOut(f.voices[i])));
    if g.playing then Published(g.(playing := false)) else g
  }

  function StartSequence(f: Front, gen: U32, steps: seq<SeqStep>): Front {
    Published(f.(gen := gen, steps := steps, idx := 0, clock := 0, next := 0, cumMs := 0, playing := steps != []))
  }

  function StopSequence(f: Front, gen: U32): Front {
    Published(f.(gen := gen, playing := false))
  }

  // ---- the sequencer ----

  function MsToSamples(ms: nat): nat {
    ms * 441 / 10
  }

  function ToneNote(inc: U32, gate: U32): Note {
    Note(SoftSquare, inc, gate, TONE_LEVEL, 128, TONE_ENVELOPE)
  }

  predicate Due(f: Front) {
    f.playing && f.clock == f.next
  }

  /** Moves on to the boundary after the step that starts now. */
  function NextStep(f: Front): Front
    requires f.idx < |f.steps|
  {
    var cumMs := f.cumMs + f.steps[f.idx].durMs + f.steps[f.idx].gapMs;
    f.(idx := f.idx + 1, cumMs := cumMs, next := MsToSamples(cumMs))
  }

  /** One step boundary: start the step, or end the sequence. */
  function Fire(f: Front): Front {
    if |f.steps| <= f.idx then Published(f.(playing := false))
    else
      var s := f.steps[f.idx];
      var toneEnd := MsToSamples(f.cumMs + s.durMs);
      var g := NextStep(f);
      if 0 < s.inc && f.next < toneEnd
      then NoteOn(g, TONE_VOICE, ToneNote(s.inc, (toneEnd - f.next) % WRAP32), 0)
      else NoteOffAt(g, TONE_VOICE)
  }

  /** All boundaries that are due now; zero-length steps chain. */
  function Settle(f: Front): Front
    decreases f.playing, if f.idx < |f.steps| then |f.steps| - f.idx else 0
  {
    if Due(f) then Settle(Fire(f)) else f
  }

  // ---- one sample ----

  function Ticked(vs: Voices): Voices {
    seq(VOICES, i requires 0 <= i < VOICES => Tick(vs[i]))
  }

  /** The voices' sum. */
  function Mix(t: SineTable, vs: seq<Voice>): int {
    if vs == [] then 0 else Mix(t, vs[..|vs| - 1]) + Out(t, vs[|vs| - 1])
  }

  function FrontTick(f: Front): Front {
    Settle(f.(voices := Ticked(f.voices), clock := if f.playing then f.clock + 1 else f.clock))
  }

  lemma {:induction false} SettleSettles(f: Front)
    ensures !Due(Settle(f))
    decreases f.playing, if f.idx < |f.steps| then |f.steps| - f.idx else 0
  {
    if Due(f) { SettleSettles(Fire(f)); }
  }

  /** The front end n samples later. */
  function FrontAfter(f: Front, n: nat): Front {
    if n == 0 then f else FrontTick(FrontAfter(f, n - 1))
  }

  lemma {:induction false} FrontAfterTwice(f: Front, a: nat, b: nat)
    ensures FrontAfter(FrontAfter(f, a), b) == FrontAfter(f, a + b)
  {
    hide FrontTick;
    if b != 0 { FrontAfterTwice(f, a, b - 1); }
  }

  // ---- what every front end satisfies ----

  /** Milliseconds before step k. */
  function MsBefore(steps: seq<SeqStep>, k: nat): nat
    requires k <= |steps|
  {
    if k == 0 then 0 else MsBefore(steps, k - 1) + steps[k - 1].durMs + steps[k - 1].gapMs
  }

  /** The sample at which step k is meant to start: its own sum, rounded once. */
  function StartOf(steps: seq<SeqStep>, k: nat): nat
    requires k <= |steps|
  {
    MsToSamples(MsBefore(steps, k))
  }

  lemma {:induction false} MsBeforeBounded(steps: seq<SeqStep>, k: nat)
    requires k <= |steps|
    ensures MsBefore(steps, k) <= 131070 * k
  {
    if k != 0 { MsBeforeBounded(steps, k - 1); }
  }

  lemma {:induction false} StartsAreOrdered(steps: seq<SeqStep>, j: nat, k: nat)
    requires j <= k <= |steps|
    ensures MsBefore(steps, j) <= MsBefore(steps, k) && StartOf(steps, j) <= StartOf(steps, k)
  {
    if j < k { StartsAreOrdered(steps, j, k - 1); }
  }

  predicate SequencerOk(f: Front) {
    && |f.steps| <= MAX_STEPS
    && f.idx <= |f.steps|
    && (f.playing ==> f.cumMs == MsBefore(f.steps, f.idx) && f.next == MsToSamples(f.cumMs) && f.clock <= f.next)
  }

  predicate FrontOk(f: Front) {
    && (forall i :: 0 <= i < VOICES ==> VoiceOk(f.voices[i]))
    && SequencerOk(f)
  }

  /** None of the sequencer's 32-bit counters wraps, nor does the end of a tone. */
  lemma CountersFit(f: Front)
    requires SequencerOk(f) && f.playing
    ensures f.clock <= f.next < WRAP32 && f.cumMs < WRAP32
    ensures f.idx < |f.steps| ==> MsToSamples(f.cumMs + f.steps[f.idx].durMs) < WRAP32
  {
    MsBeforeBounded(f.steps, f.idx);
  }

  lemma NoteOnOk(f: Front, voice: U8, n: Note, noteId: U32)
    requires FrontOk(f)
    ensures FrontOk(NoteOn(f, voice, n, noteId))
    ensures NoteOn(f, voice, n, noteId) ==
              f.(voices := NoteOn(f, voice, n, noteId).voices, noteCounter := NoteOn(f, voice, n, noteId).noteCounter)
  {
    hide TakeNote, VoiceOk;
    var vi := VoiceFor(f, voice);
    if 0 <= vi < VOICES {
      var stamp := (f.noteCounter + 1) % WRAP32;
      var v := f.voices[vi].(noteId := noteId, startStamp := stamp);
      TagsDoNotMatter(f.voices[vi], noteId, stamp);
      TakeNoteOk(v, n.(level := if LEVEL_UNITY < n.level then LEVEL_UNITY else n.level));
    }
  }

  lemma TagsDoNotMatter(v: Voice, noteId: U32, stamp: U32)
    requires VoiceOk(v)
    ensures VoiceOk(v.(noteId := noteId, startStamp := stamp))
  {
  }

  lemma NoteOffAtOk(f: Front, voice: nat)
    requires FrontOk(f)
    ensures FrontOk(NoteOffAt(f, voice))
    ensures NoteOffAt(f, voice) == f.(voices := NoteOffAt(f, voice).voices)
  {
    hide NoteOff, VoiceOk;
    if voice < VOICES { NoteOffOk(f.voices[voice]); }
  }

  lemma VoicesOffOk(f: Front, noteId: U32)
    requires FrontOk(f)
    ensures FrontOk(NoteOffId(f, noteId)) && FrontOk(NotesOff(f)) && FrontOk(AllOff(f))
  {
    hide NoteOff, FadeOut, VoiceOk;
    forall i | 0 <= i < VOICES
      ensures VoiceOk(NoteOff(f.voices[i])) && VoiceOk(FadeOut(f.voices[i]))
    {
      NoteOffOk(f.voices[i]);
      FadeOutOk(f.voices[i]);
    }
  }

  lemma SequencesOk(f: Front, gen: U32, steps: seq<SeqStep>)
    requires FrontOk(f) && |steps| <= MAX_STEPS
    ensures FrontOk(StartSequence(f, gen, steps)) && FrontOk(StopSequence(f, gen))
  {
  }

  lemma NextStepOk(f: Front)
    requires FrontOk(f) && Due(f) && f.idx < |f.steps|
    ensures FrontOk(NextStep(f)) && NextStep(f).next == StartOf(f.steps, f.idx + 1)
  {
    hide VoiceOk;
    StartsAreOrdered(f.steps, f.idx, f.idx + 1);
  }

  lemma FireOk(f: Front)
    requires FrontOk(f) && Due(f)
    ensures FrontOk(Fire(f)) && Fire(f).steps == f.steps
    ensures f.idx < |f.steps| ==>
              Fire(f).playing && Fire(f).idx == f.idx + 1 && Fire(f).clock == f.clock &&
              Fire(f).next == StartOf(f.steps, f.idx + 1)
    ensures f.idx == |f.steps| ==> !Fire(f).playing && Fire(f).idx == f.idx && Fire(f).voices == f.voices
  {
    hide NoteOn, NoteOffAt, VoiceOk;
    if f.idx < |f.steps| {
      var s := f.steps[f.idx];
      var toneEnd := MsToSamples(f.cumMs + s.durMs);
      NextStepOk(f);
      NoteOnOk(NextStep(f), TONE_VOICE, ToneNote(s.inc, (toneEnd - f.next) % WRAP32), 0);
      NoteOffAtOk(NextStep(f), TONE_VOICE);
    }
  }

  lemma {:induction false} SettleOk(f: Front)
    requires FrontOk(f)
    ensures FrontOk(Settle(f)) && Settle(f).steps == f.steps
    decreases f.playing, |f.steps| - f.idx
  {
    hide Fire, VoiceOk;
    if Due(f) {
      FireOk(f);
      SettleOk(Fire(f));
    }
  }

  lemma FrontTickOk(f: Front)
    requires FrontOk(f) && !Due(f)
    ensures FrontOk(FrontTick(f)) && !Due(FrontTick(f)) && FrontTick(f).steps == f.steps
  {
    hide VoiceOk, Tick, Fire;
    forall i | 0 <= i < VOICES
      ensures VoiceOk(Tick(f.voices[i]))
    {
      TickOk(f.voices[i]);
    }
    var g := f.(voices := Ticked(f.voices), clock := if f.playing then f.clock + 1 else f.clock);
    SettleOk(g);
    SettleSettles(g);
  }

  /** The mix of eight voices, sample after sample. */
  const MIX_PEAK: nat := 8 * PEAK

  lemma {:induction false} MixBounded(t: SineTable, vs: seq<Voice>)
    requires forall i :: 0 <= i < |vs| ==> VoiceOk(vs[i])
    ensures Abs(Mix(t, vs)) <= |vs| * PEAK
  {
    hide VoiceOk, Out;
    if vs != [] {
      MixBounded(t, vs[..|vs| - 1]);
      OutBounded(t, vs[|vs| - 1]);
    }
  }
}
