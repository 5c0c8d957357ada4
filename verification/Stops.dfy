/** Persistent stop requests: per kind, how many were asked for and how many the
    render thread has acted on; queued starts carry the counts they were stamped
    with (lib/AudioEngine/AudioEngine.cpp). */
module Stops {
  import opened Common
  import opened Fixed
  import opened Voice
  import opened Front
  import opened Eq

  datatype StopKind = StopTone | StopSequenceKind | StopAll | StopNotes

  const RELEASE_SLOTS: nat := 8

  type Slots = s: seq<U32> | |s| == RELEASE_SLOTS witness seq(RELEASE_SLOTS, i => 0)

  /** One 32-bit counter per kind. */
  datatype Counters = Counters(tone: U32, sequence: U32, all: U32, notes: U32) {
    function Of(k: StopKind): U32 {
      match k
      case StopTone => tone
      case StopSequenceKind => sequence
      case StopAll => all
      case StopNotes => notes
    }

    function With(k: StopKind, n: U32): Counters {
      match k
      case StopTone => this.(tone := n)
      case StopSequenceKind => this.(sequence := n)
      case StopAll => this.(all := n)
      case StopNotes => this.(notes := n)
    }
  }

  datatype Command =
    | CmdNoteOn(voice: U8, note: Note, noteId: U32, stampAll: U32, stampKind: U32)
    | CmdNoteOff(offVoice: U8)
    | CmdNoteOffId(offId: U32)
    | CmdAllOff
    | CmdSeqPlay(playGen: U32, stampAll: U32, stampKind: U32)
    | CmdSeqStop(stopGen: U32)
    | CmdMaster(q15: U32)
    | CmdEqBand(band: U8, coefs: Coefs)
    | CmdEqCommit(bands: U8, enable: bool, gainQ8: int)

  predicate CommandOk(c: Command) {
    (c.CmdEqBand? ==> CoefsFit(c.coefs)) && (c.CmdEqCommit? ==> Fits32(c.gainQ8))
  }

  /** The kind of stop, besides stop-all, that covers a start. */
  function CoveringKind(c: Command): Option<StopKind> {
    match c
    case CmdNoteOn(voice, _, _, _, _) =>
      if voice == TONE_VOICE then Some(StopTone) else if voice == ANY_NOTE_VOICE then Some(StopNotes) else None
    case CmdSeqPlay(_, _, _) => Some(StopSequenceKind)
    case _ => None
  }

  predicate IsStart(c: Command) {
    c.CmdNoteOn? || c.CmdSeqPlay?
  }

  /** The stamps a control thread puts on a command. */
  function Stamped(c: Command, epoch: Counters): Command {
    var kind := if CoveringKind(c).Some? then epoch.Of(CoveringKind(c).value) else 0;
    match c
    case CmdNoteOn(voice, note, noteId, _, _) => CmdNoteOn(voice, note, noteId, epoch.all, kind)
    case CmdSeqPlay(gen, _, _) => CmdSeqPlay(gen, epoch.all, kind)
    case _ => c
  }

  /** A queued start that a later stop has overtaken. */
  predicate Stale(c: Command, applied: Counters) {
    match c
    case CmdNoteOn(voice, _, _, stampAll, stampKind) =>
      || stampAll != applied.all
      || (voice == TONE_VOICE && stampKind != applied.tone)
      || (voice == ANY_NOTE_VOICE && stampKind != applied.notes)
    case CmdSeqPlay(_, stampAll, stampKind) => stampAll != applied.all || stampKind != applied.sequence
    case _ => false
  }

  /** A start is stale exactly when a covering counter has moved since its stamp. */
  lemma StaleMeansMoved(c: Command, epoch: Counters, applied: Counters)
    requires IsStart(c)
    ensures Stale(Stamped(c, epoch), applied) <==>
            (|| applied.all != epoch.all
             || (CoveringKind(c).Some? && applied.Of(CoveringKind(c).value) != epoch.Of(CoveringKind(c).value)))
  {
  }

  datatype StopState = StopState(epoch: Counters, applied: Counters, seqGen: U32,
                                 slots: Slots, released: Slots, releasedNext: nat)

  predicate StopStateOk(s: StopState) {
    s.releasedNext < RELEASE_SLOTS
  }

  /** Nothing is waiting to be applied. */
  predicate Quiet(s: StopState) {
    s.applied == s.epoch && forall i :: 0 <= i < RELEASE_SLOTS ==> s.slots[i] == 0
  }

  /** Draining the first n release slots: each parked id is released and remembered. */
  function Drained(f: Front, s: StopState, n: nat): (r: (Front, StopState))
    requires n <= RELEASE_SLOTS && StopStateOk(s)
    ensures StopStateOk(r.1)
  {
    if n == 0 then (f, s)
    else
      var (g, u) := Drained(f, s, n - 1);
      var id := s.slots[n - 1];
      if id == 0 then (g, u)
      else (NoteOffId(g, id), u.(slots := u.slots[n - 1 := 0], released := u.released[u.releasedNext := id],
                                 releasedNext := (u.releasedNext + 1) % RELEASE_SLOTS))
  }

  /** What the render thread does about stops before a command or a block. */
  function ApplyStops(f: Front, s: StopState): (r: (Front, StopState))
    requires StopStateOk(s)
    ensures StopStateOk(r.1)
  {
    var (f0, s0) := Drained(f, s, RELEASE_SLOTS);
    var f1 := if s0.epoch.all != s0.applied.all then AllOff(f0) else f0;
    var f2 := if s0.epoch.sequence != s0.applied.sequence then StopSequence(f1, s0.seqGen) else f1;
    var f3 := if s0.epoch.tone != s0.applied.tone then NoteOffAt(f2, TONE_VOICE) else f2;
    var f4 := if s0.epoch.notes != s0.applied.notes then NotesOff(f3) else f3;
    (f4, s0.(applied := s0.epoch))
  }

  lemma {:induction false} DrainedSlots(f: Front, s: StopState, n: nat)
    requires n <= RELEASE_SLOTS && StopStateOk(s)
    ensures var (g, u) := Drained(f, s, n);
            && (forall i :: 0 <= i < RELEASE_SLOTS ==> u.slots[i] == if i < n then 0 else s.slots[i])
            && u.epoch == s.epoch && u.applied == s.applied && u.seqGen == s.seqGen
    ensures (forall i :: 0 <= i < n ==> s.slots[i] == 0) ==> Drained(f, s, n) == (f, s)
  {
    hide NoteOffId;
    if n != 0 { DrainedSlots(f, s, n - 1); }
  }

  lemma {:induction false} DrainedOk(f: Front, s: StopState, n: nat)
    requires n <= RELEASE_SLOTS && StopStateOk(s) && FrontOk(f)
    ensures FrontOk(Drained(f, s, n).0)
  {
    hide FrontOk, NoteOffId;
    if n != 0 {
      DrainedOk(f, s, n - 1);
      VoicesOffOk(Drained(f, s, n - 1).0, s.slots[n - 1]);
    }
  }

  lemma ApplyStopsOk(f: Front, s: StopState)
    requires StopStateOk(s) && FrontOk(f)
    ensures FrontOk(ApplyStops(f, s).0)
  {
    hide FrontOk, NoteOffId, AllOff, NotesOff, NoteOffAt, StopSequence;
    DrainedOk(f, s, RELEASE_SLOTS);
    var (f0, s0) := Drained(f, s, RELEASE_SLOTS);
    VoicesOffOk(f0, 0);
    var f1 := if s0.epoch.all != s0.applied.all then AllOff(f0) else f0;
    SequencesOk(f1, s0.seqGen, []);
    var f2 := if s0.epoch.sequence != s0.applied.sequence then StopSequence(f1, s0.seqGen) else f1;
    NoteOffAtOk(f2, TONE_VOICE);
    var f3 := if s0.epoch.tone != s0.applied.tone then NoteOffAt(f2, TONE_VOICE) else f2;
    VoicesOffOk(f3, 0);
  }

  /** Once applied, stops leave nothing to apply again. */
  lemma StopsApplyOnce(f: Front, s: StopState)
    requires StopStateOk(s)
    ensures Quiet(ApplyStops(f, s).1)
    ensures Quiet(s) ==> ApplyStops(f, s) == (f, s)
  {
    hide NoteOffId, AllOff, NotesOff, NoteOffAt, StopSequence;
    DrainedSlots(f, s, RELEASE_SLOTS);
  }

  function Requested(s: StopState, k: StopKind, gen: U32): StopState {
    var t := if k.StopSequenceKind? then s.(seqGen := gen) else s;
    t.(epoch := t.epoch.With(k, (t.epoch.Of(k) + 1) % WRAP32))
  }

  function FreeSlot(slots: Slots, i: nat): (r: int)
    requires i <= RELEASE_SLOTS
    ensures r == -1 || i <= r < RELEASE_SLOTS
    decreases RELEASE_SLOTS - i
  {
    if i == RELEASE_SLOTS then -1 else if slots[i] == 0 then i else FreeSlot(slots, i + 1)
  }

  /** Parks an id; false when every slot is busy. */
  function Posted(s: StopState, id: U32): (StopState, bool) {
    if id == 0 then (s, true)
    else
      var i := FreeSlot(s.slots, 0);
      if i < 0 then (s, false) else (s.(slots := s.slots[i := id]), true)
  }
}
