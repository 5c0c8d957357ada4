/** Note releases posted past the command queue, and the starts they drop
    (lib/AudioEngine/AudioEngine.cpp). */
module Releases {
  import opened Common
  import opened Fixed
  import opened Oscillator
  import opened Voice
  import opened Front
  import opened Eq
  import opened Bus
  import opened MixBus
  import opened Stops
  import opened EngineState

  // ---- a run, and the ids released over it ----

  predicate AllOk(vs: seq<Event>) {
    forall i :: 0 <= i < |vs| ==> EventOk(vs[i])
  }

  /** The engine after a run. */
  function Ran(t: SineTable, e: Engine, vs: seq<Event>): (r: Engine)
    requires EngineOk(e) && AllOk(vs)
    ensures EngineOk(r)
  {
    if vs == [] then e
    else
      var n := |vs| - 1;
      NextOk(t, Ran(t, e, vs[..n]), vs[n]);
      Next(t, Ran(t, e, vs[..n]), vs[n]).0
  }

  /** The ids waiting in the first n slots, in slot order. */
  function Waiting(slots: Slots, n: nat): seq<U32>
    requires n <= RELEASE_SLOTS
  {
    if n == 0 then [] else Waiting(slots, n - 1) + if slots[n - 1] == 0 then [] else [slots[n - 1]]
  }

  /** Whether an event makes the engine look at its slots. */
  predicate Looks(v: Event) {
    v.Apply? || (v.Render? && v.n != 0)
  }

  /** Every id released through the slots over a run, in order. */
  function Log(t: SineTable, e: Engine, vs: seq<Event>): seq<U32>
    requires EngineOk(e) && AllOk(vs)
  {
    if vs == [] then []
    else
      var n := |vs| - 1;
      Log(t, e, vs[..n]) + if Looks(vs[n]) then Waiting(Ran(t, e, vs[..n]).stops.slots, RELEASE_SLOTS) else []
  }

  // ---- the ring holds the last eight ----

  /** The i-th latest id of a log, 0 before its start. */
  function Latest(log: seq<U32>, i: nat): U32 {
    if i < |log| then log[|log| - 1 - i] else 0
  }

  predicate Remembers(s: StopState, log: seq<U32>) {
    forall i :: 0 <= i < RELEASE_SLOTS ==>
                  s.released[(s.releasedNext + RELEASE_SLOTS - 1 - i) % RELEASE_SLOTS] == Latest(log, i)
  }

  /** The id is one of the last eight. */
  predicate Recent(log: seq<U32>, id: U32) {
    exists k :: 0 <= k < |log| && |log| - RELEASE_SLOTS <= k && log[k] == id
  }

  function Remembered(s: StopState, id: U32): StopState
    requires StopStateOk(s)
  {
    s.(released := s.released[s.releasedNext := id], releasedNext := (s.releasedNext + 1) % RELEASE_SLOTS)
  }

  lemma OneMoreId(s: StopState, log: seq<U32>, id: U32)
    requires StopStateOk(s) && Remembers(s, log)
    ensures Remembers(Remembered(s, id), log + [id])
  {
    var n := s.releasedNext;
    forall i | 0 <= i < RELEASE_SLOTS
      ensures Remembered(s, id).released[((n + 1) % RELEASE_SLOTS + RELEASE_SLOTS - 1 - i) % RELEASE_SLOTS] ==
                Latest(log + [id], i)
    {
      if i != 0 { assert Latest(log + [id], i) == Latest(log, i - 1); }
    }
  }

  lemma {:induction false} DrainRemembers(f: Front, s: StopState, n: nat, log: seq<U32>)
    requires n <= RELEASE_SLOTS && StopStateOk(s) && Remembers(s, log)
    ensures Remembers(Drained(f, s, n).1, log + Waiting(s.slots, n))
  {
    hide Remembers, NoteOffId;
    if n == 0 {
      assert log + [] == log;
    } else {
      DrainRemembers(f, s, n - 1, log);
      var u := Drained(f, s, n - 1).1;
      var id := s.slots[n - 1];
      if id == 0 {
        assert Waiting(s.slots, n) == Waiting(s.slots, n - 1);
      } else {
        OneMoreId(u, log + Waiting(s.slots, n - 1), id);
        assert log + Waiting(s.slots, n) == log + Waiting(s.slots, n - 1) + [id];
        OtherFields(Remembered(u, id), Drained(f, s, n).1, log + Waiting(s.slots, n));
      }
    }
  }

  lemma OtherFields(s: StopState, u: StopState, log: seq<U32>)
    requires Remembers(s, log) && u.released == s.released && u.releasedNext == s.releasedNext
    ensures Remembers(u, log)
  {
  }

  /** The ring tells exactly whether an id is one of the last eight. */
  lemma RingTells(s: StopState, log: seq<U32>, id: U32)
    requires StopStateOk(s) && Remembers(s, log) && id != 0
    ensures id in s.released <==> Recent(log, id)
  {
    if id in s.released {
      var p :| 0 <= p < RELEASE_SLOTS && s.released[p] == id;
      var i := (s.releasedNext + RELEASE_SLOTS - 1 - p) % RELEASE_SLOTS;
      assert (s.releasedNext + RELEASE_SLOTS - 1 - i) % RELEASE_SLOTS == p;
      assert Latest(log, i) == id;
      assert log[|log| - 1 - i] == id;
    }
    if Recent(log, id) {
      var k :| 0 <= k < |log| && |log| - RELEASE_SLOTS <= k && log[k] == id;
      assert Latest(log, |log| - 1 - k) == id;
    }
  }

  // ---- over a whole run ----

  lemma CommandsLeaveStops(e: Engine, c: Command)
    requires EngineOk(e)
    ensures Applied(e, c).stops == ApplyStops(e.front, e.stops).1
  {
    hide ApplyStops, FrontOk, MixStageOk, OutStageOk, BandsOk, NoteOn, NoteOffAt, NoteOffId, AllOff, StartSequence;
    hide StopSequence, SetMaster, Commit, Sounding;
  }

  /** What an event does to the stops. */
  lemma NextStops(t: SineTable, e: Engine, v: Event)
    requires EngineOk(e) && EventOk(v)
    ensures Next(t, e, v).0.stops ==
              if Looks(v) then ApplyStops(e.front, e.stops).1
              else if v.Request? then Requested(e.stops, v.kind, v.seqGen)
              else if v.Post? then Posted(e.stops, v.id).0
              else e.stops
  {
    hide ApplyStops, FrontOk, BusOk, Applied, Requested, Posted, Ready;
    if v.Apply? {
      CommandsLeaveStops(e, v.c);
    } else if v.Render? && v.n != 0 {
      OpenedIsReady(e);
      EngineAfterOk(t, Opened(e), v.n);
      hide EngineAfter, Settle;
    }
  }

  lemma FreeSlotIsFree(slots: Slots, i: nat)
    requires i <= RELEASE_SLOTS
    ensures var p := FreeSlot(slots, i); 0 <= p ==> slots[p] == 0
    decreases RELEASE_SLOTS - i
  {
    if i != RELEASE_SLOTS && slots[i] != 0 { FreeSlotIsFree(slots, i + 1); }
  }

  lemma StepRemembers(t: SineTable, e: Engine, v: Event, log: seq<U32>)
    requires EngineOk(e) && EventOk(v) && Remembers(e.stops, log)
    ensures Remembers(Next(t, e, v).0.stops, log + if Looks(v) then Waiting(e.stops.slots, RELEASE_SLOTS) else [])
  {
    hide FrontOk, Next, Remembers, Drained, Waiting, FreeSlot, AllOff, StopSequence, NoteOffAt, NotesOff;
    NextStops(t, e, v);
    var r := Next(t, e, v).0.stops;
    if Looks(v) {
      DrainRemembers(e.front, e.stops, RELEASE_SLOTS, log);
      OtherFields(Drained(e.front, e.stops, RELEASE_SLOTS).1, r, log + Waiting(e.stops.slots, RELEASE_SLOTS));
    } else {
      assert log + [] == log;
      OtherFields(e.stops, r, log);
    }
  }

  /** Over every run from an engine that has released nothing yet, the ring holds
      the last eight released ids. */
  lemma {:induction false} RunRemembers(t: SineTable, e: Engine, vs: seq<Event>)
    requires EngineOk(e) && AllOk(vs) && Remembers(e.stops, [])
    ensures Remembers(Ran(t, e, vs).stops, Log(t, e, vs))
  {
    hide EngineOk, Next, Remembers, Waiting;
    if vs != [] {
      var n := |vs| - 1;
      RunRemembers(t, e, vs[..n]);
      StepRemembers(t, Ran(t, e, vs[..n]), vs[n], Log(t, e, vs[..n]));
    }
  }

  // ---- starts that are dropped ----

  /** A start with an id, for a voice there is. */
  predicate IsTagged(c: Command) {
    c.CmdNoteOn? && c.noteId != 0 && (c.voice < VOICES || c.voice == ANY_VOICE || c.voice == ANY_NOTE_VOICE)
  }

  lemma StartCounts(f: Front, c: Command)
    requires FrontOk(f) && IsTagged(c)
    ensures NoteOn(f, c.voice, c.note, c.noteId).noteCounter == (f.noteCounter + 1) % WRAP32
  {
    hide TakeNote, VoiceOk;
    if c.voice == ANY_VOICE { FirstIdleIsLowest(f.voices, 0); }
    if c.voice == ANY_NOTE_VOICE { FirstIdleIsLowest(f.voices, 1); }
  }

  /** One start that comes to an engine whose ring holds the end of this log. */
  lemma DroppedByTheRing(e: Engine, c: Command, log: seq<U32>)
    requires EngineOk(e) && IsTagged(c) && Remembers(e.stops, log)
    ensures Applied(e, c) == StopsApplied(e) <==>
              Stale(c, e.stops.epoch) || Recent(log + Waiting(e.stops.slots, RELEASE_SLOTS), c.noteId)
  {
    hide FrontOk, BusOk, Remembers, Drained, Waiting, Recent, NoteOn, AllOff, StopSequence, NoteOffAt, NotesOff, Quiet;
    var a := StopsApplied(e);
    var after := log + Waiting(e.stops.slots, RELEASE_SLOTS);
    StopsAppliedOk(e);
    DrainRemembers(e.front, e.stops, RELEASE_SLOTS, log);
    var drained := Drained(e.front, e.stops, RELEASE_SLOTS).1;
    OtherFields(drained, a.stops, after);
    DrainedSlots(e.front, e.stops, RELEASE_SLOTS);
    RingTells(a.stops, after, c.noteId);
    StartCounts(a.front, c);
  }

  /** Over every run: a queued start with an id is dropped exactly when a stop has
      overtaken it or its id is among the last eight released through the slots,
      those just before it included; otherwise it starts, and counts. */
  lemma StartIsDroppedExactlyWhen(t: SineTable, e: Engine, vs: seq<Event>, c: Command)
    requires EngineOk(e) && Remembers(e.stops, []) && AllOk(vs) && EventOk(Apply(c)) && IsTagged(c)
    ensures AllOk(vs + [Apply(c)])
    ensures var b := Ran(t, e, vs);
            Applied(b, c) == StopsApplied(b) <==>
              Stale(c, b.stops.epoch) || Recent(Log(t, e, vs + [Apply(c)]), c.noteId)
  {
    hide EngineOk, Applied, StopsApplied, Remembers, Waiting, Recent, Stale;
    RunRemembers(t, e, vs);
    DroppedByTheRing(Ran(t, e, vs), c, Log(t, e, vs));
    assert (vs + [Apply(c)])[..|vs|] == vs;
  }

  // ---- posted releases ----

  lemma {:induction false} WaitingHas(slots: Slots, n: nat, p: nat)
    requires p < n <= RELEASE_SLOTS && slots[p] != 0
    ensures slots[p] in Waiting(slots, n)
  {
    if p < n - 1 { WaitingHas(slots, n - 1, p); }
  }

  /** An accepted release waits in its slot until it is released. */
  lemma {:induction false} PostedIsReleased(t: SineTable, e: Engine, vs: seq<Event>, i: nat)
    requires EngineOk(e) && AllOk(vs) && i < |vs| && vs[i].Post? && vs[i].id != 0
    requires Posted(Ran(t, e, vs[..i]).stops, vs[i].id).1
    ensures |Log(t, e, vs[..i])| <= |Log(t, e, vs)|
    ensures vs[i].id in Ran(t, e, vs).stops.slots || vs[i].id in Log(t, e, vs)[|Log(t, e, vs[..i])|..]
    decreases |vs|
  {
    hide EngineOk, Next, Waiting, ApplyStops, FreeSlot;
    var n, id := |vs| - 1, vs[i].id;
    var before := Ran(t, e, vs[..n]);
    NextStops(t, before, vs[n]);
    FreeSlotIsFree(before.stops.slots, 0);
    if i < n {
      assert vs[..n][..i] == vs[..i];
      PostedIsReleased(t, e, vs[..n], i);
      if id in before.stops.slots {
        var p :| 0 <= p < RELEASE_SLOTS && before.stops.slots[p] == id;
        if Looks(vs[n]) {
          WaitingHas(before.stops.slots, RELEASE_SLOTS, p);
          var w := Waiting(before.stops.slots, RELEASE_SLOTS);
          var q :| 0 <= q < |w| && w[q] == id;
          var at := |Log(t, e, vs[..n])| + q - |Log(t, e, vs[..i])|;
          assert Log(t, e, vs)[|Log(t, e, vs[..i])|..][at] == id;
        } else {
          assert Ran(t, e, vs).stops.slots[p] == id;
        }
      } else {
        var from := |Log(t, e, vs[..i])|;
        var k :| 0 <= k < |Log(t, e, vs[..n])| - from && Log(t, e, vs[..n])[from..][k] == id;
        assert Log(t, e, vs)[from..][k] == id;
      }
    } else {
      assert Ran(t, e, vs).stops.slots[FreeSlot(before.stops.slots, 0)] == id;
    }
  }

  /** An accepted release drops the start of its note that is still queued, as long
      as at most eight ids, itself included, are released from the post to then. */
  lemma PostedStartIsDropped(t: SineTable, e: Engine, vs: seq<Event>, i: nat, c: Command)
    requires EngineOk(e) && Remembers(e.stops, []) && AllOk(vs + [Apply(c)]) && IsTagged(c)
    requires i < |vs| && vs[i] == Post(c.noteId) && AllOk(vs[..i]) && AllOk(vs)
    requires Posted(Ran(t, e, vs[..i]).stops, c.noteId).1
    requires |Log(t, e, vs + [Apply(c)])| <= |Log(t, e, vs[..i])| + RELEASE_SLOTS
    ensures Applied(Ran(t, e, vs), c) == StopsApplied(Ran(t, e, vs))
  {
    hide EngineOk, Applied, StopsApplied, Remembers, Waiting, Stale, Next, Posted, ApplyStops, Looks, Ran;
    var more := vs + [Apply(c)];
    assert more[|vs|] == Apply(c) && EventOk(Apply(c));
    StartIsDroppedExactlyWhen(t, e, vs, c);
    assert more[..i] == vs[..i];
    PostedIsReleased(t, e, vs, i);
    if c.noteId in Ran(t, e, vs).stops.slots { LastLook(t, e, vs, c, c.noteId); }
    var log, from := Log(t, e, more), |Log(t, e, vs[..i])|;
    LogGrows(t, e, vs, c);
    if c.noteId in Log(t, e, vs)[from..] {
      var k :| 0 <= k < |Log(t, e, vs)| - from && Log(t, e, vs)[from..][k] == c.noteId;
      assert log[from + k] == c.noteId;
    } else {
      var k :| |Log(t, e, vs)| <= k < |log| && log[k] == c.noteId;
    }
  }

  lemma LogGrows(t: SineTable, e: Engine, vs: seq<Event>, c: Command)
    requires EngineOk(e) && AllOk(vs) && AllOk(vs + [Apply(c)])
    ensures Log(t, e, vs + [Apply(c)]) == Log(t, e, vs) + Waiting(Ran(t, e, vs).stops.slots, RELEASE_SLOTS)
  {
    hide EngineOk, Waiting, Ran;
    assert (vs + [Apply(c)])[..|vs|] == vs;
  }

  lemma LastLook(t: SineTable, e: Engine, vs: seq<Event>, c: Command, id: U32)
    requires EngineOk(e) && AllOk(vs) && AllOk(vs + [Apply(c)]) && id != 0 && id in Ran(t, e, vs).stops.slots
    ensures exists k :: |Log(t, e, vs)| <= k < |Log(t, e, vs + [Apply(c)])| && Log(t, e, vs + [Apply(c)])[k] == id
  {
    hide EngineOk, Waiting, Ran, Log;
    LogGrows(t, e, vs, c);
    var slots := Ran(t, e, vs).stops.slots;
    var p :| 0 <= p < RELEASE_SLOTS && slots[p] == id;
    WaitingHas(slots, RELEASE_SLOTS, p);
    var q :| 0 <= q < |Waiting(slots, RELEASE_SLOTS)| && Waiting(slots, RELEASE_SLOTS)[q] == id;
    assert Log(t, e, vs + [Apply(c)])[|Log(t, e, vs)| + q] == id;
  }

  // ---- and one that is let through ----

  /** Each id posted, then a sample rendered. */
  function Burst(ids: seq<U32>): (vs: seq<Event>)
    ensures AllOk(vs)
  {
    if ids == [] then [] else Burst(ids[..|ids| - 1]) + [Post(ids[|ids| - 1])] + [Render(1)]
  }

  predicate NothingWaits(s: StopState) {
    forall i :: 0 <= i < RELEASE_SLOTS ==> s.slots[i] == 0
  }

  lemma OneMoreEvent(t: SineTable, e: Engine, vs: seq<Event>, v: Event)
    requires EngineOk(e) && AllOk(vs) && EventOk(v)
    ensures AllOk(vs + [v]) && Ran(t, e, vs + [v]) == Next(t, Ran(t, e, vs), v).0
    ensures Log(t, e, vs + [v]) == Log(t, e, vs) + if Looks(v) then Waiting(Ran(t, e, vs).stops.slots, RELEASE_SLOTS) else []
  {
    hide EngineOk, Next, Waiting, Looks;
    assert (vs + [v])[..|vs|] == vs;
  }

  lemma {:induction false} OnlyOneWaits(slots: Slots, n: nat)
    requires n <= RELEASE_SLOTS && slots[0] != 0 && forall i :: 1 <= i < RELEASE_SLOTS ==> slots[i] == 0
    ensures Waiting(slots, n) == if n == 0 then [] else [slots[0]]
  {
    if n != 0 { OnlyOneWaits(slots, n - 1); }
  }

  /** A burst releases its ids in order. */
  lemma {:induction false} BurstLog(t: SineTable, e: Engine, ids: seq<U32>)
    requires EngineOk(e) && NothingWaits(e.stops) && forall i :: 0 <= i < |ids| ==> ids[i] != 0
    ensures var b := Ran(t, e, Burst(ids)).stops; NothingWaits(b) && b.epoch == e.stops.epoch
    ensures Log(t, e, Burst(ids)) == ids
  {
    hide EngineOk, Ran, Log, Next, Drained, Waiting, AllOff, StopSequence, NoteOffAt, NotesOff;
    if ids == [] {
      NothingYet(t, e);
    } else {
      var n := |ids| - 1;
      var vs := Burst(ids[..n]);
      BurstLog(t, e, ids[..n]);
      var a := Ran(t, e, vs);
      OneMoreEvent(t, e, vs, Post(ids[n]));
      NextStops(t, a, Post(ids[n]));
      var b := Ran(t, e, vs + [Post(ids[n])]);
      OneMoreEvent(t, e, vs + [Post(ids[n])], Render(1));
      NextStops(t, b, Render(1));
      OnlyOneWaits(b.stops.slots, RELEASE_SLOTS);
      EngineOkHasStops(b);
      DrainedSlots(b.front, b.stops, RELEASE_SLOTS);
    }
  }

  lemma NothingYet(t: SineTable, e: Engine)
    requires EngineOk(e)
    ensures Ran(t, e, []) == e && Log(t, e, []) == []
  {
  }

  /** A start queued before its release was posted is dropped after it, unless
      eight other ids have been released since: then it starts all the same. */
  lemma EightLaterReleasesLetItStart(t: SineTable, e: Engine, id: U32, later: seq<U32>, start: Command)
    requires EngineOk(e) && NothingWaits(e.stops) && Remembers(e.stops, [])
    requires IsTagged(start) && start.noteId == id && id !in later && forall i :: 0 <= i < |later| ==> later[i] != 0
    ensures var c := Stamped(start, e.stops.epoch); var b := Ran(t, e, Burst([id] + later));
            Applied(b, c) == StopsApplied(b) <==> |later| < RELEASE_SLOTS
  {
    hide EngineOk, Ran, Applied, StopsApplied, Remembers;
    var ids, c := [id] + later, Stamped(start, e.stops.epoch);
    var vs := Burst(ids);
    BurstLog(t, e, ids);
    StartIsDroppedExactlyWhen(t, e, vs, c);
    LogGrows(t, e, vs, c);
    NoneWait(Ran(t, e, vs).stops.slots, RELEASE_SLOTS);
    assert Log(t, e, vs + [Apply(c)]) == ids;
    assert ids[0] == id && forall k :: 1 <= k < |ids| ==> ids[k] == later[k - 1];
  }

  lemma {:induction false} NoneWait(slots: Slots, n: nat)
    requires n <= RELEASE_SLOTS && forall i :: 0 <= i < n ==> slots[i] == 0
    ensures Waiting(slots, n) == []
  {
    if n != 0 { NoneWait(slots, n - 1); }
  }
}
