/** What is heard of a note: through an engine at unity a single voice comes out as
    its own wave with its direct current blocked, bit for bit
    (lib/AudioEngine/AudioEngine.cpp). */
module Heard {
  import opened Common
  import opened Fixed
  import opened Oscillator
  import opened Voice
  import opened Front
  import opened Sequencer
  import opened Eq
  import opened Bus
  import opened MixBus
  import opened Stops
  import opened EngineState
  import opened Waves

  // ---- the bus at unity ----

  /** Full volume, nothing in the blocker, no EQ, the limiter open. */
  predicate AtUnity(b: BusState) {
    && b.mix.master == 0x4000_0000 && b.mix.rampLeft == 0 && b.mix.dcX == 0 && b.mix.dcY == 0
    && !b.out.eqOn && b.out.limGain == 0x4000_0000
  }

  /** The blocker's pole is 32604/32768, rounded toward zero. */
  lemma PoleRoundsTowardZero(v: int)
    ensures MulPole(-v) == -MulPole(v) && (0 <= v ==> 0 <= MulPole(v))
    ensures Abs(MulPole(v)) * 32768 <= Abs(v) * 32604 < (Abs(MulPole(v)) + 1) * 32768
  {
  }

  /** A signal with its direct current blocked: what changes, and what is left of
      what came out before. */
  function Blocked(xs: seq<int>, k: nat): int
    requires k < |xs|
  {
    if k == 0 then xs[0] else xs[k] - xs[k - 1] + MulPole(Blocked(xs, k - 1))
  }

  /** The bus k samples into a quiet signal. */
  function BusAt(b: BusState, xs: seq<int>, k: nat): BusState
    requires k <= |xs|
  {
    if k == 0 then b else b.(mix := b.mix.(dcX := xs[k - 1], dcY := Blocked(xs, k - 1)))
  }

  lemma QuietBus(b: BusState, xs: seq<int>, k: nat)
    requires AtUnity(b) && k < |xs| && Abs(Blocked(xs, k)) <= 30000
    ensures BusTick(BusAt(b, xs, k), xs[k]) == (BusAt(b, xs, k + 1), Blocked(xs, k))
  {
    hide MulPole;
    assert MulPole(0) == 0 by { PoleRoundsTowardZero(0); }
    assert Gained(0x4000_0000, xs[k]) == xs[k];
    QuietPassesUnchanged(b.out, Blocked(xs, k));
    hide OutTick, Gained, Cascade;
    assert Cascade(b.eq, 0, Blocked(xs, k)) == (b.eq, Blocked(xs, k)) by { NoBands(b.eq, Blocked(xs, k)); }
  }

  lemma NoBands(qs: seq<Biquad>, x: int)
    ensures Cascade(qs, 0, x) == (qs, x)
  {
  }

  // ---- one voice alone ----

  lemma {:induction false} OnlyOneSounds(t: SineTable, vs: seq<Voice>, i: nat, n: nat)
    requires n <= |vs| && forall j :: 0 <= j < |vs| && j != i ==> vs[j].stage == Idle
    ensures Mix(t, vs[..n]) == if i < n then Out(t, vs[i]) else 0
  {
    hide OscOut;
    if n != 0 {
      OnlyOneSounds(t, vs, i, n - 1);
      assert vs[..n][..n - 1] == vs[..n - 1];
    }
  }

  /** The samples one voice gives on its own. */
  function Alone(t: SineTable, v: Voice, n: nat): (xs: seq<int>)
    ensures |xs| == n
  {
    seq(n, k requires 0 <= k => Out(t, After(v, k)))
  }

  /** An engine at unity in which voice i alone sounds. */
  predicate Solo(e: Engine, i: nat) {
    && Quiet(e.stops) && !e.front.playing && AtUnity(e.bus)
    && i < VOICES && forall j :: 0 <= j < VOICES && j != i ==> e.front.voices[j].stage == Idle
  }

  lemma {:induction false} SoloRuns(t: SineTable, e: Engine, i: nat, n: nat, k: nat)
    requires EngineOk(e) && Solo(e, i) && k <= n
    requires var xs := Alone(t, e.front.voices[i], n); forall j :: 0 <= j < k ==> Abs(Blocked(xs, j)) <= 30000
    ensures EngineAfter(t, e, k) == e.(front := Along(e.front, k), bus := BusAt(e.bus, Alone(t, e.front.voices[i], n), k))
  {
    hide BusTick, FrontTick, Tick, Out, Mix, VoiceOk, BusOk, Blocked, AtUnity, BusAt;
    if k == 0 {
      StretchIsTicks(e.front, 0);
      assert BusAt(e.bus, Alone(t, e.front.voices[i], n), 0) == e.bus by { AtStart(e.bus, Alone(t, e.front.voices[i], n)); }
      assert FrontAfter(e.front, 0) == e.front;
    } else {
      SoloRuns(t, e, i, n, k - 1);
      SoloTicks(t, e, i, n, k - 1);
    }
  }

  lemma AtStart(b: BusState, xs: seq<int>)
    ensures BusAt(b, xs, 0) == b
  {
  }

  lemma SoloTicks(t: SineTable, e: Engine, i: nat, n: nat, k: nat)
    requires EngineOk(e) && Solo(e, i) && k < n
    requires Abs(Blocked(Alone(t, e.front.voices[i], n), k)) <= 30000
    ensures var xs := Alone(t, e.front.voices[i], n);
            EngineTick(t, e.(front := Along(e.front, k), bus := BusAt(e.bus, xs, k))) ==
              (e.(front := Along(e.front, k + 1), bus := BusAt(e.bus, xs, k + 1)), Blocked(xs, k))
  {
    hide BusTick, FrontTick, Tick, Out, Mix, VoiceOk, BusOk, Blocked, AtUnity, BusAt, After;
    var xs := Alone(t, e.front.voices[i], n);
    var f := Along(e.front, k);
    StretchIsTicks(e.front, k);
    StretchIsTicks(e.front, k + 1);
    assert FrontTick(f) == Along(e.front, k + 1);
    forall j | 0 <= j < VOICES && j != i
      ensures f.voices[j].stage == Idle
    {
      IdleStays(e.front.voices[j], k);
    }
    OnlyOneSounds(t, f.voices, i, VOICES);
    assert f.voices[..VOICES] == f.voices;
    assert xs[k] == Out(t, f.voices[i]);
    QuietBus(e.bus, xs, k);
  }

  /** A voice alone in an engine at unity is heard as its own samples with their
      direct current blocked, for as long as that stays below the limiter's knee,
      in renders of any length. */
  lemma OneVoiceIsHeard(t: SineTable, e: Engine, i: nat, n: nat, m: nat)
    requires EngineOk(e) && Solo(e, i) && n <= m && 0 < m
    requires var xs := Alone(t, e.front.voices[i], n); forall k :: 0 <= k < n ==> Abs(Blocked(xs, k)) <= 30000
    ensures var xs := Alone(t, e.front.voices[i], n);
            Rendered(t, e, m).1[..n] == seq(n, k requires 0 <= k < n => Blocked(xs, k))
  {
    hide EngineTick, Alone, Blocked, BusAt, AtUnity, EngineAfter, Along;
    OpenedIsReady(e);
    assert Opened(e) == e;
    var xs := Alone(t, e.front.voices[i], n);
    forall k | 0 <= k < n
      ensures Samples(t, e, m)[k] == Blocked(xs, k)
    {
      SoloRuns(t, e, i, n, k);
      SoloTicks(t, e, i, n, k);
    }
  }

  // ---- a held note on a fresh engine ----

  /** An engine as it is built. */
  predicate IsFresh(e: Engine) {
    && EngineOk(e) && Quiet(e.stops) && !e.front.playing && AtUnity(e.bus)
    && e.stops.epoch == Counters(0, 0, 0, 0)
    && forall j :: 0 <= j < VOICES ==> e.front.voices[j].stage == Idle && e.front.voices[j].pending.None?
  }

  /** A note at full level and envelope at once, for as long as it is held. */
  predicate IsFull(n: Note) {
    n.wave != Noise && n.level == 256 && n.env.attack == 0 && n.env.decay == 0 && 32768 <= n.env.sustain
  }

  /** The note's wave over its first m samples: one increment of phase a sample. */
  function WaveOf(t: SineTable, n: Note, m: nat): (xs: seq<int>)
    requires n.wave != Noise
    ensures |xs| == m
  {
    seq(m, k requires 0 <= k =>
      WaveAt(t, n.wave, k * n.inc % CYCLE, n.duty * 0x100_0000, if 1 <= Harmonics(n.inc) <= 4 then Harmonics(n.inc) else 1))
  }

  lemma FullNoteGives(t: SineTable, v: Voice, n: Note, m: nat)
    requires VoiceOk(v) && v.stage == Idle && v.pending.None? && IsFull(n) && (n.gate == 0 || m <= n.gate)
    ensures Alone(t, StartNote(v, n), m) == WaveOf(t, n, m)
  {
    var w := StartNote(v, n);
    NoteBegins(v, n);
    StartNoteOk(v, n);
    HarmonicsKept(n.inc, 1);
    hide StartNote, VoiceOk, WaveAt, Out, After, Harmonics;
    forall k | 0 <= k < m
      ensures Out(t, After(w, k)) == WaveOf(t, n, m)[k]
    {
      FullSample(t, w, n, k, m);
    }
  }

  /** The k-th sample of a voice that holds a full note. */
  lemma FullSample(t: SineTable, w: Voice, n: Note, k: nat, m: nat)
    requires VoiceOk(w) && w.stage == Sustain && w.env == ENV_ONE && w.level == 256
    requires k < m && (w.gateLeft == 0 || m <= w.gateLeft)
    requires n.wave != Noise && 1 <= Harmonics(n.inc) <= 4
    requires w.osc.wave == n.wave && w.osc.phase == 0 && w.osc.inc == n.inc && w.osc.duty == n.duty * 0x100_0000
    requires w.osc.harmonics == Harmonics(n.inc)
    ensures Out(t, After(w, k)) == WaveAt(t, n.wave, k * n.inc % CYCLE, n.duty * 0x100_0000, Harmonics(n.inc))
  {
    hide VoiceOk, WaveAt, Out, After, Harmonics;
    SampleOfAStage(t, w, k, m);
    FromStart(k * n.inc);
    NoStep(k + 1);
  }

  lemma FromStart(n: nat)
    ensures (0 + n) % CYCLE == n % CYCLE
  {
  }

  lemma NoStep(n: nat)
    ensures n * 0 == 0
  {
  }

  function Start(voice: U8, n: Note): Command {
    CmdNoteOn(voice, n, 0, 0, 0)
  }

  lemma FreshStart(e: Engine, voice: U8, n: Note)
    requires IsFresh(e) && voice < VOICES && IsFull(n)
    ensures var b := Applied(e, Start(voice, n));
            && b.front.voices == e.front.voices[voice := b.front.voices[voice]]
            && b.stops == e.stops && b.bus == e.bus && b.front.playing == e.front.playing
    ensures exists v: Voice :: VoiceOk(v) && v.stage == Idle && v.pending.None?
                               && Applied(e, Start(voice, n)).front.voices[voice] == StartNote(v, n)
  {
    hide StartNote, ApplyStops, AtUnity, MixStageOk, OutStageOk, BandsOk;
    StopsApplyOnce(e.front, e.stops);
    var v := e.front.voices[voice];
    assert VoiceOk(v);
    var u := v.(noteId := 0, startStamp := (e.front.noteCounter + 1) % WRAP32);
    assert VoiceOk(u) && u.stage == Idle && u.pending.None? && u.(pending := None) == u;
    assert n.(level := n.level) == n;
    assert Applied(e, Start(voice, n)).front.voices[voice] == StartNote(u, n) by { hide VoiceOk; }
  }

  lemma TakesCommands(e: Engine)
    requires EngineOk(e)
    ensures StopStateOk(e.stops) && |e.bus.staged| == MAX_BANDS
  {
  }

  /** A full note on any voice of a fresh engine is heard as its wave, from the start
      of its cycle on and at its own pitch, with the direct current blocked. */
  lemma HeldNoteIsHeard(t: SineTable, e: Engine, voice: U8, n: Note, len: nat, m: nat)
    requires IsFresh(e) && voice < VOICES && IsFull(n) && len <= m && 0 < m && (n.gate == 0 || len <= n.gate)
    requires forall k :: 0 <= k < len ==> Abs(Blocked(WaveOf(t, n, len), k)) <= 30000
    ensures StopStateOk(Applied(e, Start(voice, n)).stops)
    ensures Rendered(t, Applied(e, Start(voice, n)), m).1[..len] ==
              seq(len, k requires 0 <= k < len => Blocked(WaveOf(t, n, len), k))
  {
    TakesCommands(e);
    hide EngineOk, StartNote, Applied, Alone, WaveOf, Blocked, AtUnity, VoiceOk, Rendered;
    FreshStart(e, voice, n);
    AppliedOk(e, Start(voice, n));
    var b := Applied(e, Start(voice, n));
    TakesCommands(b);
    var v :| VoiceOk(v) && v.stage == Idle && v.pending.None? && b.front.voices[voice] == StartNote(v, n);
    FullNoteGives(t, v, n, len);
    OneVoiceIsHeard(t, b, voice, len, m);
  }

  /** The first sample of a pulse. */
  lemma PulseIsHeard(t: SineTable, e: Engine, voice: U8, inc: U32, duty: U8, release: U16, m: nat)
    requires IsFresh(e) && voice < VOICES && 0 < duty && 0 < m
    ensures var b := Applied(e, Start(voice, Note(Pulse, inc, 0, 256, duty, Envelope(0, 0, 32768, release))));
            StopStateOk(b.stops) && Rendered(t, b, m).1[0] == 24000
  {
    var n := Note(Pulse, inc, 0, 256, duty, Envelope(0, 0, 32768, release));
    FirstOfPulse(t, n);
    TakesCommands(e);
    hide EngineOk, Applied, WaveOf, Rendered, Blocked, AtUnity;
    HeldNoteIsHeard(t, e, voice, n, 1, m);
    assert Rendered(t, Applied(e, Start(voice, n)), m).1[..1][0] == Blocked(WaveOf(t, n, 1), 0);
  }

  lemma FirstOfPulse(t: SineTable, n: Note)
    requires n.wave == Pulse && 0 < n.duty
    ensures Blocked(WaveOf(t, n, 1), 0) == 24000
  {
    assert 0 * n.inc % CYCLE == 0;
  }
}
