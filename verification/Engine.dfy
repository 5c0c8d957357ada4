/** The engine object: it applies commands and renders blocks in chunks, segments,
    runs and bus stages, and is proved against the one-sample machine of
    EngineState (lib/AudioEngine/AudioEngine.cpp). */
module AudioEngine {
  import opened Common
  import opened Fixed
  import opened Oscillator
  import opened Voice
  import opened Front
  import opened Mealy
  import opened Eq
  import opened Bus
  import opened MixBus
  import opened Stops
  import opened EngineState
  import opened Heard
  import V = VoiceBank

  const MAX_CHUNK: nat := 256

  class AudioEngine {
    const bank: V.VoiceBank
    const bus: Mixer
    const acc: array<int>
    var epoch: Counters
    var applied: Counters
    var stopSeqGen: U32
    var slots: Slots
    var released: Slots
    var releasedNext: nat
    var mail: Option<Letter>
    var peakVoices: nat

    ghost function Parts(): set<object>
    {
      {bank, bank.voices, bus, bus.eq, bus.eqStaged, acc}
    }

    ghost function State(): Engine
      reads this, Parts()
      requires bank.voices.Length == VOICES
    {
      Engine(bank.State(), bus.State(), Stopping(), mail)
    }

    ghost function Stopping(): StopState
      reads this
    {
      StopState(epoch, applied, stopSeqGen, slots, released, releasedNext)
    }

    ghost predicate Valid()
      reads this, Parts()
    {
      && bank.voices.Length == VOICES && acc.Length == MAX_CHUNK
      && bank.Valid() && bus.Valid() && StopStateOk(Stopping())
      && (mail.Some? ==> |mail.value.steps| <= MAX_STEPS)
    }

    constructor (sine: SineTable, seed: U32)
      ensures Valid() && fresh(Parts())
      ensures bank.sine == sine && bus.clips == 0
      ensures IsFresh(State()) && mail == None && releasedNext == 0
      ensures forall i :: 0 <= i < RELEASE_SLOTS ==> released[i] == 0
    {
      bank := new V.VoiceBank(sine, seed);
      bus := new Mixer();
      acc := new int[MAX_CHUNK](_ => 0);
      epoch, applied := Counters(0, 0, 0, 0), Counters(0, 0, 0, 0);
      stopSeqGen, releasedNext := 0, 0;
      slots := seq(RELEASE_SLOTS, i => 0);
      released := seq(RELEASE_SLOTS, i => 0);
      mail := None;
      peakVoices := 0;
    }

    lemma ValidIsOk()
      requires Valid()
      ensures EngineOk(State())
    {
    }

    // ---- any thread ----

    method RequestStop(kind: StopKind, seqGen: U32)
      requires Valid()
      modifies this`epoch, this`stopSeqGen
      ensures State() == old(State()).(stops := Requested(old(Stopping()), kind, seqGen))
      ensures Valid()
    {
      if kind == StopSequenceKind { stopSeqGen := seqGen; }
      epoch := epoch.With(kind, (epoch.Of(kind) + 1) % WRAP32);
    }

    method PostNoteRelease(noteId: U32) returns (ok: bool)
      requires Valid()
      modifies this`slots
      ensures State() == old(State()).(stops := Posted(old(Stopping()), noteId).0) && ok == Posted(old(Stopping()), noteId).1
      ensures Valid()
    {
      if noteId == 0 { return true; }
      for i := 0 to RELEASE_SLOTS
        invariant slots == old(slots) && FreeSlot(slots, 0) == FreeSlot(slots, i)
      {
        if slots[i] == 0 {
          slots := slots[i := noteId];
          return true;
        }
      }
      return false;
    }

    // ---- render thread ----

    /** Empties the release slots, releasing and remembering each id. */
    method DrainSlots()
      requires Valid()
      modifies this`slots, this`released, this`releasedNext, bank.voices
      ensures (bank.State(), Stopping()) == Drained(old(bank.State()), old(Stopping()), RELEASE_SLOTS)
      ensures Valid()
    {
      hide FrontOk, NoteOffId, BusOk;
      ghost var f, s := bank.State(), Stopping();
      for i := 0 to RELEASE_SLOTS
        invariant Valid()
        invariant (bank.State(), Stopping()) == Drained(f, s, i)
      {
        DrainedSlots(f, s, i);
        if slots[i] != 0 {
          var id := slots[i];
          slots := slots[i := 0];
          bank.EndNoteId(id);
          released := released[releasedNext := id];
          releasedNext := (releasedNext + 1) % RELEASE_SLOTS;
        }
      }
    }

    /** Acts on every stop requested so far, each kind once. */
    method ApplyPendingStops()
      requires Valid()
      modifies this`slots, this`released, this`releasedNext, this`applied,
               bank`playing, bank`status, bank`gen, bank.voices
      ensures State() == StopsApplied(old(State()))
      ensures Valid()
    {
      hide FrontOk, BusOk, NoteOffId, AllOff, NotesOff, NoteOffAt, StopSequence, Drained;
      ghost var e := State();
      ApplyStopsOk(e.front, e.stops);
      DrainSlots();
      if epoch.all != applied.all {
        applied := applied.(all := epoch.all);
        bank.SilenceAll();
      }
      if epoch.sequence != applied.sequence {
        applied := applied.(sequence := epoch.sequence);
        bank.EndSequence(stopSeqGen);
      }
      if epoch.tone != applied.tone {
        applied := applied.(tone := epoch.tone);
        EndTone();
      }
      if epoch.notes != applied.notes {
        applied := applied.(notes := epoch.notes);
        bank.EndNotes();
      }
    }

    method EndTone()
      requires Valid()
      modifies bank.voices
      ensures bank.State() == NoteOffAt(old(bank.State()), TONE_VOICE)
      ensures Valid()
    {
      hide NoteOffAt, FrontOk;
      NoteOffAtOk(bank.State(), TONE_VOICE);
      bank.EndNote(TONE_VOICE);
    }

    method CountSounding() returns (n: nat)
      requires bank.voices.Length == VOICES
      ensures n == Sounding(bank.voices[..])
    {
      ghost var vs := bank.voices[..];
      n := 0;
      for i := 0 to VOICES
        invariant n == Sounding(vs[..i])
      {
        assert vs[..i + 1][..i] == vs[..i];
        n := n + if bank.voices[i].stage != Idle then 1 else 0;
      }
      assert vs[..VOICES] == vs;
    }

    /** Takes the pending list when it carries the tag. */
    method StartTagged(gen: U32)
      requires Valid()
      modifies this`mail, bank`steps, bank`idx, bank`playing, bank`gen, bank`clock, bank`next, bank`cumMs, bank`status
      ensures var m := old(mail);
              State() == if m.None? || m.value.gen != gen then old(State())
                         else old(State()).(front := StartSequence(old(bank.State()), gen, m.value.steps), mail := None)
      ensures Valid()
    {
      hide FrontOk, BusOk;
      if mail.None? || mail.value.gen != gen { return; }
      var list := mail.value.steps;
      mail := None;
      bank.PlaySequence(gen, list);
    }

    method ApplyCommand(c: Command)
      requires Valid() && CommandOk(c)
      modifies this, Parts()
      ensures State() == Applied(old(State()), c)
      ensures Valid() && epoch == old(epoch) && bus.clips == old(bus.clips)
    {
      hide FrontOk, BusOk, NoteOn, NoteOffAt, NoteOffId, AllOff, StartSequence, StopSequence, StopsApplied, Commit, SetMaster;
      ghost var e := State();
      StopsAppliedOk(e);
      AppliedOk(e, c);
      StopsKeepEpoch(e);
      ApplyPendingStops();
      if Stale(c, applied) { return; }
      match c
      case CmdNoteOn(voice, note, noteId, _, _) =>
        if noteId == 0 || noteId !in released { bank.PlayNote(voice, note, noteId); }
      case CmdNoteOff(voice) =>
        NoteOffAtOk(bank.State(), voice);
        bank.EndNote(voice);
      case CmdNoteOffId(id) => bank.EndNoteId(id);
      case CmdAllOff => bank.SilenceAll();
      case CmdSeqPlay(gen, _, _) => StartTagged(gen);
      case CmdSeqStop(gen) => bank.EndSequence(gen);
      case CmdMaster(q15) =>
        var active := CountSounding();
        bus.SetMasterVolume(q15, active);
      case CmdEqBand(band, coefs) => bus.SetEqBand(band, coefs);
      case CmdEqCommit(bands, enable, gainQ8) => var _ := bus.CommitEq(bands, enable, gainQ8);
    }

    /** One chunk of a render. */
    method RenderChunk(out: array<int>, pos: nat, n: nat)
      requires Valid() && 0 < n <= MAX_CHUNK && pos + n <= out.Length && out !in Parts()
      modifies this, Parts(), out
      ensures (State(), out[pos..pos + n]) == Rendered(bank.sine, old(State()), n)
      ensures Valid() && epoch == old(epoch) && mail == old(mail)
      ensures forall i :: 0 <= i < out.Length && !(pos <= i < pos + n) ==> out[i] == old(out[i])
      ensures forall i :: pos <= i < pos + n ==> Abs(out[i]) <= LIM_CEILING
    {
      hide FrontOk, BusOk, StopsApplied, Settle, FrontTick, BusTick, Mix;
      ghost var e := State();
      OpenedIsReady(e);
      StopsAppliedOk(e);
      StopsKeepEpoch(e);
      ApplyPendingStops();
      bank.RenderFront(acc, n);
      ghost var mixes := acc[..n];
      var active := CountSounding();
      if peakVoices < active { peakVoices := active; }
      bus.Process(acc, out, pos, n);
      ChunkIsSamples(bank.sine, Opened(e), mixes, n);
    }

    /** frames samples, in chunks of at most 256. */
    method RenderBlock(out: array<int>, frames: nat)
      requires Valid() && frames <= out.Length && out !in Parts()
      modifies this, Parts(), out
      ensures (State(), out[..frames]) == Rendered(bank.sine, old(State()), frames)
      ensures Valid() && epoch == old(epoch) && mail == old(mail)
      ensures forall i :: 0 <= i < frames ==> Abs(out[i]) <= LIM_CEILING
      ensures bus.clips == old(bus.clips)
    {
      hide EngineOk, FrontOk, BusOk, Rendered;
      ghost var e := State();
      var done := 0;
      ValidIsOk();
      NothingRendered(bank.sine, e);
      while done < frames
        invariant done <= frames
        invariant (State(), out[..done]) == Rendered(bank.sine, e, done)
        invariant Valid() && epoch == old(epoch) && mail == old(mail)
        invariant forall i :: 0 <= i < done ==> Abs(out[i]) <= LIM_CEILING
      {
        ghost var before := out[..done];
        var n := if frames - done < MAX_CHUNK then frames - done else MAX_CHUNK;
        RenderChunk(out, done, n);
        BlockSizesDoNotMatter(bank.sine, e, done, n);
        assert out[..done + n] == before + out[done..done + n];
        done := done + n;
      }
      NeverClips(bank.sine, e, frames);
    }
  }

  lemma StopsKeepEpoch(e: Engine)
    requires EngineOk(e)
    ensures StopsApplied(e).stops.epoch == e.stops.epoch
  {
    hide NoteOffId;
    DrainedSlots(e.front, e.stops, RELEASE_SLOTS);
  }

  lemma NothingRendered(t: SineTable, e: Engine)
    requires StopStateOk(e.stops)
    ensures Rendered(t, e, 0) == (e, [])
  {
  }

  lemma NeverClips(t: SineTable, e: Engine, n: nat)
    requires EngineOk(e)
    ensures Rendered(t, e, n).0.bus.out.clips == e.bus.out.clips
  {
    hide EngineOk, Ready, Opened;
    EngineOkHasStops(e);
    OpenedIsReady(e);
    EngineAfterOk(t, Opened(e), n);
  }

  /** Rendering the front end over a chunk and then the bus over it is the
      engine sample by sample. */
  lemma {:induction false} ChunkIsSamples(t: SineTable, e: Engine, mixes: seq<int>, n: nat)
    requires |mixes| == n && forall k :: 0 <= k < n ==> mixes[k] == Mix(t, FrontAfter(e.front, k).voices)
    ensures var (b, ws) := Run(BusTick, e.bus, mixes);
            EngineAfter(t, e, n) == e.(front := FrontAfter(e.front, n), bus := b) && Samples(t, e, n) == ws
  {
    hide BusTick, FrontTick, Mix;
    if n != 0 {
      ChunkIsSamples(t, e, mixes[..n - 1], n - 1);
      assert Samples(t, e, n)[..n - 1] == Samples(t, e, n - 1);
    }
  }
}
