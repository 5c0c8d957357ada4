/** The engine as a value: one sample at a time, its commands, and what holds
    over every run (lib/AudioEngine/AudioEngine.cpp). */
module EngineState {
  import opened Common
  import opened Fixed
  import opened Oscillator
  import opened Voice
  import opened Front
  import opened Sequencer
  import opened Eq
  import opened Bus
  import opened MixBus
  import opened Stops

  /** The step list a control thread has handed over, with its tag. */
  datatype Letter = Letter(gen: U32, steps: seq<SeqStep>)

  datatype Engine = Engine(front: Front, bus: BusState, stops: StopState, mail: Option<Letter>)

  predicate EngineOk(e: Engine) {
    && FrontOk(e.front) && BusOk(e.bus) && StopStateOk(e.stops)
    && (e.mail.Some? ==> |e.mail.value.steps| <= MAX_STEPS)
  }

  // ---- one sample ----

  function EngineTick(t: SineTable, e: Engine): (Engine, int) {
    var (b, w) := BusTick(e.bus, Mix(t, e.front.voices));
    (e.(front := FrontTick(e.front), bus := b), w)
  }

  function EngineAfter(t: SineTable, e: Engine, n: nat): Engine {
    if n == 0 then e else EngineTick(t, EngineAfter(t, e, n - 1)).0
  }

  /** The n samples from e on. */
  function Samples(t: SineTable, e: Engine, n: nat): (r: seq<int>)
    ensures |r| == n
  {
    seq(n, k requires 0 <= k => EngineTick(t, EngineAfter(t, e, k)).1)
  }

  lemma {:induction false} EngineAfterTwice(t: SineTable, e: Engine, a: nat, b: nat)
    ensures EngineAfter(t, EngineAfter(t, e, a), b) == EngineAfter(t, e, a + b)
  {
    hide EngineTick;
    if b != 0 { EngineAfterTwice(t, e, a, b - 1); }
  }

  // ---- a render ----

  function StopsApplied(e: Engine): Engine
    requires StopStateOk(e.stops)
  {
    var (f, s) := ApplyStops(e.front, e.stops);
    e.(front := f, stops := s)
  }

  /** What a render does before its first sample. */
  function Opened(e: Engine): Engine
    requires StopStateOk(e.stops)
  {
    var a := StopsApplied(e);
    a.(front := Settle(a.front))
  }

  function Rendered(t: SineTable, e: Engine, n: nat): (Engine, seq<int>)
    requires StopStateOk(e.stops)
  {
    if n == 0 then (e, []) else (EngineAfter(t, Opened(e), n), Samples(t, Opened(e), n))
  }

  /** Ready for the next sample: no stop waits and no boundary is due. */
  ghost predicate Ready(e: Engine) {
    Quiet(e.stops) && !Due(e.front)
  }

  lemma OpenedIsReady(e: Engine)
    requires EngineOk(e)
    ensures EngineOk(Opened(e)) && Ready(Opened(e))
    ensures Opened(e).bus == e.bus && Opened(e).mail == e.mail
    ensures Ready(e) ==> Opened(e) == e
  {
    hide FrontOk, BusOk, Settle, Stops.ApplyStops, Quiet;
    ApplyStopsOk(e.front, e.stops);
    StopsApplyOnce(e.front, e.stops);
    SettleOk(StopsApplied(e).front);
    SettleSettles(StopsApplied(e).front);
    if !Due(e.front) { SettledStays(e.front); }
  }

  lemma SettledStays(f: Front)
    requires !Due(f)
    ensures Settle(f) == f
  {
  }

  lemma EngineTickOk(t: SineTable, e: Engine)
    requires EngineOk(e) && Ready(e)
    ensures var (r, w) := EngineTick(t, e);
            && EngineOk(r) && Ready(r) && r.stops == e.stops && r.mail == e.mail
            && Abs(w) <= LIM_CEILING && r.bus.out.clips == e.bus.out.clips
  {
    hide BusOk, BusTick, FrontTick, VoiceOk, Quiet;
    FrontTickOk(e.front);
    MixBounded(t, e.front.voices);
    BusTickOk(e.bus, Mix(t, e.front.voices));
  }

  lemma {:induction false} EngineAfterOk(t: SineTable, e: Engine, n: nat)
    requires EngineOk(e) && Ready(e)
    ensures var r := EngineAfter(t, e, n);
            && EngineOk(r) && Ready(r) && r.stops == e.stops && r.mail == e.mail
            && r.bus.out.clips == e.bus.out.clips
    ensures forall w :: w in Samples(t, e, n) ==> Abs(w) <= LIM_CEILING
  {
    hide EngineOk, Ready, EngineTick;
    if n != 0 {
      EngineAfterOk(t, e, n - 1);
      EngineTickOk(t, EngineAfter(t, e, n - 1));
      forall w | w in Samples(t, e, n)
        ensures Abs(w) <= LIM_CEILING
      {
        var k :| 0 <= k < n && Samples(t, e, n)[k] == w;
        if k < n - 1 { assert Samples(t, e, n - 1)[k] == w; }
      }
    }
  }

  /** Block sizes do not matter: two renders in a row give the samples and leave
      the state of one render over both lengths, whatever notes, fades, steps,
      ramps and filters are under way. */
  lemma BlockSizesDoNotMatter(t: SineTable, e: Engine, a: nat, b: nat)
    requires EngineOk(e)
    ensures var (e1, xs) := Rendered(t, e, a); StopStateOk(e1.stops)
    ensures var (e1, xs) := Rendered(t, e, a); var (e2, ys) := Rendered(t, e1, b);
            Rendered(t, e, a + b) == (e2, xs + ys)
  {
    hide EngineOk, Ready, EngineTick, Opened;
    EngineOkHasStops(e);
    OpenedIsReady(e);
    var o := Opened(e);
    if a != 0 && b != 0 {
      EngineAfterOk(t, o, a);
      var m := EngineAfter(t, o, a);
      EngineOkHasStops(m);
      OpenedIsReady(m);
      EngineAfterTwice(t, o, a, b);
      SamplesJoin(t, o, a, b);
    } else if a != 0 {
      EngineAfterOk(t, o, a);
      EngineOkHasStops(EngineAfter(t, o, a));
      assert Samples(t, o, a) + [] == Samples(t, o, a);
    } else {
      assert [] + Rendered(t, e, b).1 == Rendered(t, e, b).1;
    }
  }

  lemma EngineOkHasStops(e: Engine)
    requires EngineOk(e)
    ensures StopStateOk(e.stops)
  {
  }

  lemma SamplesJoin(t: SineTable, e: Engine, a: nat, b: nat)
    ensures Samples(t, e, a + b) == Samples(t, e, a) + Samples(t, EngineAfter(t, e, a), b)
  {
    hide EngineTick;
    forall k | 0 <= k < b
      ensures Samples(t, e, a + b)[a + k] == Samples(t, EngineAfter(t, e, a), b)[k]
    {
      EngineAfterTwice(t, e, a, k);
    }
  }

  // ---- commands and requests ----

  function Applied(e: Engine, c: Command): Engine
    requires StopStateOk(e.stops) && |e.bus.staged| == MAX_BANDS
  {
    var a := StopsApplied(e);
    if Stale(c, a.stops.applied) then a
    else
      match c
      case CmdNoteOn(voice, note, noteId, _, _) =>
        if noteId != 0 && noteId in a.stops.released then a
        else a.(front := NoteOn(a.front, voice, note, noteId))
      case CmdNoteOff(voice) => a.(front := NoteOffAt(a.front, voice))
      case CmdNoteOffId(id) => a.(front := NoteOffId(a.front, id))
      case CmdAllOff => a.(front := AllOff(a.front))
      case CmdSeqPlay(gen, _, _) =>
        if a.mail.None? || a.mail.value.gen != gen then a
        else a.(front := StartSequence(a.front, gen, a.mail.value.steps), mail := None)
      case CmdSeqStop(gen) => a.(front := StopSequence(a.front, gen))
      case CmdMaster(q15) => a.(bus := a.bus.(mix := SetMaster(a.bus.mix, q15, 0 < Sounding(a.front.voices))))
      case CmdEqBand(band, coefs) =>
        if band < MAX_BANDS then a.(bus := a.bus.(staged := a.bus.staged[band := coefs])) else a
      case CmdEqCommit(bands, enable, gainQ8) => a.(bus := Commit(a.bus, bands, enable, gainQ8).0)
  }

  /** How many voices sound. */
  function Sounding(vs: seq<Voice>): nat {
    if vs == [] then 0 else Sounding(vs[..|vs| - 1]) + if vs[|vs| - 1].stage != Idle then 1 else 0
  }

  lemma StopsAppliedOk(e: Engine)
    requires EngineOk(e)
    ensures EngineOk(StopsApplied(e)) && Quiet(StopsApplied(e).stops)
    ensures StopsApplied(e).bus == e.bus && StopsApplied(e).mail == e.mail
  {
    hide FrontOk, BusOk, Stops.ApplyStops;
    ApplyStopsOk(e.front, e.stops);
    StopsApplyOnce(e.front, e.stops);
  }

  lemma AppliedOk(e: Engine, c: Command)
    requires EngineOk(e) && CommandOk(c)
    ensures EngineOk(Applied(e, c)) && Applied(e, c).bus.out.clips == e.bus.out.clips
  {
    hide FrontOk, MixStageOk, OutStageOk, BandsOk, NoteOn, NoteOffAt, NoteOffId, AllOff;
    hide StartSequence, StopSequence, SetMaster, StopsApplied;
    StopsAppliedOk(e);
    var a := StopsApplied(e);
    match c
    case CmdNoteOn(voice, note, noteId, _, _) => NoteOnOk(a.front, voice, note, noteId);
    case CmdNoteOff(voice) => NoteOffAtOk(a.front, voice);
    case CmdNoteOffId(id) => VoicesOffOk(a.front, id);
    case CmdAllOff => VoicesOffOk(a.front, 0);
    case CmdSeqPlay(gen, _, _) => if a.mail.Some? { SequencesOk(a.front, gen, a.mail.value.steps); }
    case CmdSeqStop(gen) => SequencesOk(a.front, gen, []);
    case CmdMaster(q15) => SetMasterOk(a.bus.mix, q15, 0 < Sounding(a.front.voices));
    case CmdEqBand(band, coefs) =>
    case CmdEqCommit(bands, enable, gainQ8) => CommitOk(a.bus, bands, enable, gainQ8);
  }

  // ---- every run ----

  /** Anything that can happen to an engine. */
  datatype Event =
    | Apply(c: Command)
    | Request(kind: StopKind, seqGen: U32)
    | Post(id: U32)
    | Hand(letter: Letter)
    | Render(n: nat)

  predicate EventOk(v: Event) {
    (v.Apply? ==> CommandOk(v.c)) && (v.Hand? ==> |v.letter.steps| <= MAX_STEPS)
  }

  function Next(t: SineTable, e: Engine, v: Event): (Engine, seq<int>)
    requires StopStateOk(e.stops) && |e.bus.staged| == MAX_BANDS
  {
    match v
    case Apply(c) => (Applied(e, c), [])
    case Request(kind, gen) => (e.(stops := Requested(e.stops, kind, gen)), [])
    case Post(id) => (e.(stops := Posted(e.stops, id).0), [])
    case Hand(letter) => (e.(mail := Some(letter)), [])
    case Render(n) => Rendered(t, e, n)
  }

  lemma NextOk(t: SineTable, e: Engine, v: Event)
    requires EngineOk(e) && EventOk(v)
    ensures var (r, out) := Next(t, e, v);
            && EngineOk(r) && r.bus.out.clips == e.bus.out.clips
            && forall w :: w in out ==> Abs(w) <= LIM_CEILING
  {
    hide FrontOk, BusOk, Stops.ApplyStops, Applied, Ready, Opened, EngineTick;
    match v
    case Apply(c) => AppliedOk(e, c);
    case Request(kind, gen) =>
    case Post(id) =>
    case Hand(letter) =>
    case Render(n) =>
      if n != 0 {
        OpenedIsReady(e);
        EngineAfterOk(t, Opened(e), n);
      }
  }

  /** The engine after a run of events, with everything it has put out. */
  ghost predicate IsRun(t: SineTable, e: Engine, vs: seq<Event>, r: Engine, out: seq<int>)
    decreases |vs|
  {
    if vs == [] then r == e && out == []
    else
      && StopStateOk(e.stops) && |e.bus.staged| == MAX_BANDS
      && |Next(t, e, vs[0]).1| <= |out|
      && out[..|Next(t, e, vs[0]).1|] == Next(t, e, vs[0]).1
      && IsRun(t, Next(t, e, vs[0]).0, vs[1..], r, out[|Next(t, e, vs[0]).1|..])
  }

  /** Over every run of commands, stops, hand-offs and renders from a sound
      engine: every sample is within +/-32700, so nothing ever clips, and every
      level, gain, counter and filter state is in range. */
  lemma {:induction false} EveryRunStaysInRange(t: SineTable, e: Engine, vs: seq<Event>, r: Engine, out: seq<int>)
    requires EngineOk(e) && (forall i :: 0 <= i < |vs| ==> EventOk(vs[i]))
    requires IsRun(t, e, vs, r, out)
    ensures EngineOk(r) && r.bus.out.clips == e.bus.out.clips
    ensures forall k :: 0 <= k < |out| ==> Abs(out[k]) <= LIM_CEILING
    decreases |vs|
  {
    hide EngineOk, Next;
    if vs != [] {
      var (m, ws) := Next(t, e, vs[0]);
      NextOk(t, e, vs[0]);
      EveryRunStaysInRange(t, m, vs[1..], r, out[|ws|..]);
      forall k | 0 <= k < |out|
        ensures Abs(out[k]) <= LIM_CEILING
      {
        if k < |ws| { assert out[k] == out[..|ws|][k] == ws[k]; } else { assert out[k] == out[|ws|..][k - |ws|]; }
      }
    }
  }

  // ---- a stop-all silences ----

  lemma FadedStaysFaded(v: Voice)
    ensures NoteOff(FadeOut(v)) == FadeOut(v)
  {
  }

  /** Once a stop-all is applied every voice fades and the sequencer is off,
      whatever other stops are applied with it. */
  lemma StopAllFadesAll(f: Front, s: StopState)
    requires StopStateOk(s) && s.epoch.all != s.applied.all
    ensures var g := Drained(f, s, RELEASE_SLOTS).0; var r := ApplyStops(f, s).0;
            !r.playing && forall i :: 0 <= i < VOICES ==> r.voices[i] == FadeOut(g.voices[i])
  {
    hide NoteOff, FadeOut, Drained;
    DrainedSlots(f, s, RELEASE_SLOTS);
    forall v: Voice
      ensures NoteOff(FadeOut(v)) == FadeOut(v)
    {
      FadedStaysFaded(v);
    }
  }

  /** A stop-all leaves every voice idle, and no sequence playing, within 220
      samples of the render that applies it, if nothing newer is applied. */
  lemma StopAllSilences(t: SineTable, e: Engine, n: nat)
    requires EngineOk(e) && e.stops.epoch.all != e.stops.applied.all && FAST_RELEASE <= n
    ensures var r := EngineAfter(t, Opened(e), n).front;
            !r.playing && forall i :: 0 <= i < VOICES ==> r.voices[i].stage == Idle
  {
    hide VoiceOk, BusOk, FadeOut, Drained, Stops.ApplyStops, EngineTick;
    OpenedIsReady(e);
    StopAllFadesAll(e.front, e.stops);
    DrainedOk(e.front, e.stops, RELEASE_SLOTS);
    var o := Opened(e);
    SettledStays(StopsApplied(e).front);
    FrontOfEngine(t, o, n);
    StretchIsTicks(o.front, n);
    var g := Drained(e.front, e.stops, RELEASE_SLOTS).0;
    forall i | 0 <= i < VOICES
      ensures After(o.front.voices[i], n).stage == Idle
    {
      FadeOutSilences(g.voices[i], n);
    }
  }

  /** The voices do not depend on the bus. */
  lemma {:induction false} FrontOfEngine(t: SineTable, e: Engine, n: nat)
    ensures EngineAfter(t, e, n).front == FrontAfter(e.front, n)
  {
    hide BusTick, FrontTick, Mix;
    if n != 0 { FrontOfEngine(t, e, n - 1); }
  }
}
