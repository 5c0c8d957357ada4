/** When every tone of a step list ends: the tone voice follows a plan that the
    list alone determines (lib/AudioEngine/AudioEngine.cpp). */
module Tones {
  import opened Common
  import opened Fixed
  import opened Oscillator
  import opened Voice
  import opened Front
  import opened Sequencer

  const TONE_RELEASE: nat := 220

  // ---- the plan ----

  /** What the tone voice does, in samples since the list started: nothing; a tone
      of so many harmonics until its end; a tone dying away until it is over; or
      one fading out until the next starts, which then sounds until its own end.
      A tone that starts from silence is silent still at its first sample. */
  datatype Plan =
    | Silent
    | Holds(harmonics: int, silentAt: int, end: nat)
    | Fades(harmonics: int, over: nat)
    | Waits(harmonics: int, from: nat, next: int, end: nat)

  /** The plan as it stands at time t. */
  function At(p: Plan, t: nat): Plan {
    match p
    case Silent => Silent
    case Holds(h, _, end) => if t < end then p else if t < end + TONE_RELEASE then Fades(h, end + TONE_RELEASE) else Silent
    case Fades(_, over) => if t < over then p else Silent
    case Waits(_, from, next, end) =>
      if t < from then p
      else if t < end then Holds(next, from, end)
      else if t < end + TONE_RELEASE then Fades(next, end + TONE_RELEASE)
      else Silent
  }

  /** How long a tone of h harmonics that comes at t waits for the one before it. */
  function Wait(p: Plan, t: nat, h: int): nat {
    match p
    case Silent => 0
    case Holds(h0, silentAt, _) => if h == h0 || silentAt == t then 0 else SWITCH_FADE
    case Fades(h0, over) => if h == h0 || over <= t then 0 else if over <= t + SWITCH_FADE then over - t else SWITCH_FADE
    case Waits(h0, from, _, _) => if h == h0 || from <= t then 0 else from - t
  }

  /** The plan once a tone of h harmonics and gate samples comes at t. */
  function Taken(p: Plan, t: nat, h: int, gate: nat): Plan {
    var w := Wait(p, t, h);
    if w != 0 then Waits(p.harmonics, t + w, h, t + w + gate)
    else
      var silent := p.Silent? || (p.Holds? && p.silentAt == t);
      Holds(h, if silent then t else -1, t + gate)
  }

  /** The plan once a rest comes at t. */
  function Rested(p: Plan, t: nat): Plan {
    match p
    case Holds(h, silentAt, _) => if silentAt == t then Silent else Fades(h, t + TONE_RELEASE)
    case Waits(h, from, _, _) => Fades(h, from)
    case _ => p
  }

  /** The plan once step k has begun at its start. */
  function Stepped(p: Plan, steps: seq<SeqStep>, k: nat): Plan
    requires k < |steps|
  {
    var start, end := StartOf(steps, k), MsToSamples(MsBefore(steps, k) + steps[k].durMs);
    if 0 < steps[k].inc && start < end then Taken(p, start, Harmonics(steps[k].inc), end - start) else Rested(p, start)
  }

  /** The plan of a list once its first k steps have begun. */
  function PlanOf(steps: seq<SeqStep>, k: nat): Plan
    requires k <= |steps|
  {
    if k == 0 then Silent else Stepped(At(PlanOf(steps, k - 1), StartOf(steps, k - 1)), steps, k - 1)
  }

  // ---- the voice follows the plan ----

  /** A tone's wave, level and times; the number of its harmonics. */
  predicate IsTone(v: Voice, harmonics: int) {
    v.osc.wave == SoftSquare && v.level == TONE_LEVEL && v.osc.harmonics == harmonics && v.release == TONE_RELEASE
  }

  /** A fade from an audible level stays audible up to its last sample. */
  predicate Fading(v: Voice, left: nat) {
    v.stage == Release && v.stageLeft == left && 0 < v.env && 0 < v.env + (left - 1) * v.envStep
  }

  predicate Follows(v: Voice, p: Plan, t: nat) {
    && VoiceOk(v)
    && match p
       case Silent => v.stage == Idle && v.pending.None?
       case Holds(h, silentAt, end) =>
         && Holding(v) && silentAt <= t < end && v.gateLeft == end - t && IsTone(v, h)
         && (v.env == 0 <==> t == silentAt)
         && (v.env == 0 ==> v.stage == Attack && 0 < v.envStep)
       case Fades(h, over) =>
         t < over && Fading(v, over - t) && IsTone(v, h) && v.pending.None?
       case Waits(h, from, next, end) =>
         && t < from < end && Fading(v, from - t) && IsTone(v, h) && from - t <= SWITCH_FADE
         && v.pending.Some? && IsToneNote(v.pending.value, next, end - from)
  }

  predicate IsToneNote(n: Note, harmonics: int, gate: nat) {
    gate < WRAP32 && n == ToneNote(n.inc, gate) && Harmonics(n.inc) == harmonics
  }

  lemma ReleaseStaysAudible(env: int, n: nat)
    requires 0 < env && 0 < n
    ensures 0 < env + (n - 1) * -TruncDiv(env, n)
  {
    TruncDivTimes(env, n);
    var q := TruncDiv(env, n);
    assert n * q == (n - 1) * q + q;
  }

  lemma ReleaseIsFading(v: Voice, n: U16)
    requires v.stage != Idle && 0 < v.env && 0 < n
    ensures Fading(EnterRelease(v, n), n)
    ensures EnterRelease(v, n).pending == v.pending && EnterRelease(v, n).osc == v.osc
    ensures EnterRelease(v, n).level == v.level && EnterRelease(v, n).release == v.release
  {
    ReleaseStaysAudible(v.env, n);
  }

  // ---- one sample ----

  lemma FadingTicks(v: Voice, left: nat)
    requires VoiceOk(v) && Fading(v, left) && 1 < left
    ensures Fading(Tick(v), left - 1) && Tick(v).pending == v.pending
    ensures forall h :: IsTone(v, h) ==> IsTone(Tick(v), h)
  {
    assert (left - 1) * v.envStep == v.envStep + (left - 2) * v.envStep;
    MulAtMostZero(left - 2, v.envStep);
    hide SlopeOk, EnterRelease;
  }

  lemma MulAtMostZero(a: nat, b: int)
    requires b <= 0
    ensures a * b <= 0
  {
  }

  lemma FadeEnds(v: Voice)
    requires VoiceOk(v) && Fading(v, 1) && v.pending.None?
    ensures Tick(v).stage == Idle && Tick(v).pending.None?
  {
  }

  /** A tone that starts from silence. */
  lemma StartFromSilence(v: Voice, inc: U32, gate: U32)
    requires VoiceOk(v) && v.stage == Idle && v.pending.None? && 0 < gate
    ensures var w := StartNote(v, ToneNote(inc, gate));
            Holding(w) && w.gateLeft == gate && IsTone(w, Harmonics(inc)) && w.env == 0 && w.stage == Attack && 0 < w.envStep
  {
    StartNoteOk(v, ToneNote(inc, gate));
    hide OscOk, SlopeOk, EnterDecay;
  }

  lemma WaitEnds(v: Voice, inc: U32, gate: U32)
    requires VoiceOk(v) && Fading(v, 1) && v.pending == Some(ToneNote(inc, gate)) && 0 < gate
    ensures var w := Tick(v);
            Holding(w) && w.gateLeft == gate && IsTone(w, Harmonics(inc)) && w.env == 0 && w.stage == Attack && 0 < w.envStep
  {
    TickOk(v);
    hide OscOk, SlopeOk, EnterDecay, EnterRelease;
  }

  lemma HoldingGoesOn(v: Voice, h: int)
    requires Holding(v) && IsTone(v, h) && (v.env == 0 ==> v.stage == Attack && 0 < v.envStep) && 1 < v.gateLeft
    ensures var w := Tick(v);
            Holding(w) && w.gateLeft == v.gateLeft - 1 && IsTone(w, h) && 0 < w.env
  {
    HoldingTicks(v);
    hide OscOk;
  }

  lemma HoldingEnds(v: Voice, h: int)
    requires Holding(v) && IsTone(v, h) && (v.env == 0 ==> v.stage == Attack && 0 < v.envStep) && v.gateLeft == 1
    ensures var w := Tick(v); Fading(w, TONE_RELEASE) && IsTone(w, h) && w.pending.None?
  {
    var s := StageCounted(OscStep(v, StepOf(v)), 1);
    assert 0 < s.env && s.stage != Idle && s.stage != Release && s.pending.None? && s.gateLeft == 1 && s.release == TONE_RELEASE
    by { hide OscOk, EnterRelease; }
    ReleaseIsFading(s.(gateLeft := 0), TONE_RELEASE);
    hide EnterRelease, EnterDecay, VoiceOk;
  }

  lemma TickFollows(v: Voice, p: Plan, t: nat)
    requires Follows(v, p, t)
    ensures Follows(Tick(v), At(p, t + 1), t + 1)
  {
    TickOk(v);
    match p
    case Silent =>
    case Holds(h, _, end) =>
      hide VoiceOk, Tick, Holding, IsTone, Fading;
      if t + 1 < end { HoldingGoesOn(v, h); } else { HoldingEnds(v, h); }
      HoldingIsOk(v);
    case Fades(h, over) =>
      hide VoiceOk, Tick, IsTone, Fading;
      if t + 1 < over { FadingTicks(v, over - t); } else { FadeEnds(v); }
    case Waits(h, from, next, end) =>
      hide VoiceOk, Tick, IsTone, Fading, Holding, ToneNote;
      if t + 1 < from { FadingTicks(v, from - t); } else { WaitEnds(v, v.pending.value.inc, end - from); }
  }

  lemma HoldingIsOk(v: Voice)
    requires Holding(v)
    ensures VoiceOk(v)
  {
  }

  // ---- a step begins ----

  lemma TagsDoNotChangeThePlan(v: Voice, p: Plan, t: nat, noteId: U32, stamp: U32)
    requires Follows(v, p, t)
    ensures Follows(v.(noteId := noteId, startStamp := stamp), p, t)
  {
  }

  lemma RestFollows(v: Voice, p: Plan, t: nat)
    requires Follows(v, p, t)
    ensures Follows(NoteOff(v), Rested(p, t), t)
  {
    NoteOffOk(v);
    if p.Holds? && p.silentAt != t { ReleaseIsFading(v.(pending := None), TONE_RELEASE); }
    hide VoiceOk;
  }

  /** A tone that follows at once: from silence, or on from where the last one is. */
  lemma FollowsAtOnce(v: Voice, inc: U32, gate: U32)
    requires VoiceOk(v) && v.pending.None? && 0 < gate
    ensures var w := StartNote(v, ToneNote(inc, gate));
            && Holding(w) && w.gateLeft == gate && IsTone(w, Harmonics(inc))
            && (w.env == 0 <==> v.stage == Idle || v.env == 0) && (w.env == 0 ==> w.stage == Attack && 0 < w.envStep)
  {
    StartNoteOk(v, ToneNote(inc, gate));
    hide OscOk, SlopeOk, EnterDecay;
  }

  /** The switch a coming tone makes is the plan's. */
  lemma SwitchesAsPlanned(v: Voice, p: Plan, t: nat, inc: U32, gate: U32)
    requires Follows(v, p, t)
    ensures var n := ToneNote(inc, gate);
            && Delay(v, n) == Wait(p, t, Harmonics(inc))
            && (MustSwitch(v, n) <==> !p.Silent? && p.harmonics != Harmonics(inc))
  {
    hide VoiceOk;
  }

  lemma ToneFollows(v: Voice, p: Plan, t: nat, inc: U32, gate: U32)
    requires Follows(v, p, t) && 0 < gate
    ensures Follows(TakeNote(v, ToneNote(inc, gate)), Taken(p, t, Harmonics(inc), gate), t)
  {
    var n := ToneNote(inc, gate);
    SwitchesAsPlanned(v, p, t, inc, gate);
    TakeNoteOk(v, n);
    if !MustSwitch(v, n) {
      StartsAtOnce(v, p, t, inc, gate);
    } else if Wait(p, t, Harmonics(inc)) == 0 {
      StartsFromNothing(v, p, t, inc, gate);
    } else {
      WaitsItsTurn(v, p, t, inc, gate);
    }
  }

  lemma StartsAtOnce(v: Voice, p: Plan, t: nat, inc: U32, gate: U32)
    requires Follows(v, p, t) && 0 < gate && !MustSwitch(v, ToneNote(inc, gate))
    requires Wait(p, t, Harmonics(inc)) == 0
    ensures Follows(TakeNote(v, ToneNote(inc, gate)), Taken(p, t, Harmonics(inc), gate), t)
  {
    var u := v.(pending := None);
    assert VoiceOk(u);
    FollowsAtOnce(u, inc, gate);
    hide MustSwitch, StartNote, IsTone;
    assert TakeNote(v, ToneNote(inc, gate)) == StartNote(u, ToneNote(inc, gate));
    hide TakeNote;
  }

  lemma StartsFromNothing(v: Voice, p: Plan, t: nat, inc: U32, gate: U32)
    requires Follows(v, p, t) && 0 < gate && MustSwitch(v, ToneNote(inc, gate))
    requires Wait(p, t, Harmonics(inc)) == 0 && !p.Silent? && p.harmonics != Harmonics(inc)
    ensures Follows(TakeNote(v, ToneNote(inc, gate)), Taken(p, t, Harmonics(inc), gate), t)
  {
    assert p.Holds? && v.env == 0 && v.stage == Attack;
    var u := v.(stage := Idle, pending := None);
    assert VoiceOk(u);
    StartFromSilence(u, inc, gate);
    assert TakeNote(v, ToneNote(inc, gate)) == StartNote(u, ToneNote(inc, gate)) by { hide StartNote; }
    hide TakeNote, MustSwitch, StartNote;
  }

  lemma WaitsItsTurn(v: Voice, p: Plan, t: nat, inc: U32, gate: U32)
    requires Follows(v, p, t) && 0 < gate && MustSwitch(v, ToneNote(inc, gate))
    requires Wait(p, t, Harmonics(inc)) != 0 && !p.Silent?
    ensures Follows(TakeNote(v, ToneNote(inc, gate)), Taken(p, t, Harmonics(inc), gate), t)
  {
    var n := ToneNote(inc, gate);
    TakeNoteOk(v, n);
    var w := v.(pending := Some(n));
    if !(v.stage == Release && v.stageLeft <= SWITCH_FADE) { ReleaseIsFading(w, SWITCH_FADE); }
    hide VoiceOk, StartNote, EnterRelease, MustSwitch;
  }

  // ---- a whole list ----

  lemma AtTwice(p: Plan, s: nat, t: nat)
    requires s <= t
    ensures At(At(p, s), t) == At(p, t)
  {
  }

  lemma FollowedNow(v: Voice, p: Plan, t: nat)
    requires Follows(v, p, t)
    ensures At(p, t) == p
  {
    hide VoiceOk;
  }

  /** The sequencer is on time and the tone voice follows the list's plan. */
  ghost predicate Planned(f: Front, n: nat) {
    && FrontOk(f) && OnTime(f, n)
    && Follows(f.voices[TONE_VOICE], At(PlanOf(f.steps, f.idx), n), n)
  }

  lemma FireFollows(f: Front, n: nat)
    requires Planned(f, n) && Due(f)
    ensures Planned(Fire(f), n)
  {
    hide VoiceOk, Follows, TakeNote, Delay, StepDelay, NoteOff, At, Stepped, Harmonics;
    FireOk(f);
    FireKeepsGen(f);
    if f.idx < |f.steps| {
      StartsAreOrdered(f.steps, f.idx, f.idx + 1);
      StepFollows(f, n);
      FollowedNow(Fire(f).voices[TONE_VOICE], PlanOf(f.steps, f.idx + 1), n);
    }
  }

  /** The next part of the plan, in terms of the sequencer's own numbers. */
  lemma NextPlanned(f: Front, n: nat)
    requires Planned(f, n) && Due(f) && f.idx < |f.steps|
    ensures f.next == n
    ensures var p := At(PlanOf(f.steps, f.idx), n);
            PlanOf(f.steps, f.idx + 1) ==
              if Sounds(f) then Taken(p, n, Harmonics(f.steps[f.idx].inc), StepEnd(f) - n) else Rested(p, n)
  {
    hide FrontOk, Follows, At, Taken, Rested, Harmonics, PlanOf, MsBefore, MsToSamples;
    OnePlanned(f.steps, f.idx + 1);
  }

  lemma ToneStepFollows(f: Front, p: Plan, n: nat)
    requires FrontOk(f) && Sounds(f) && Follows(f.voices[TONE_VOICE], p, n)
    ensures Follows(Fire(f).voices[TONE_VOICE], Taken(p, n, Harmonics(f.steps[f.idx].inc), StepEnd(f) - f.next), n)
  {
    hide FrontOk, VoiceOk, Follows, TakeNote, Delay, StepDelay, Taken, Harmonics, Fire, StepEnd, ToneNote;
    FiredTone(f);
    var v, stamp := f.voices[TONE_VOICE], (f.noteCounter + 1) % WRAP32;
    TagsDoNotChangeThePlan(v, p, n, 0, stamp);
    ToneFollows(v.(noteId := 0, startStamp := stamp), p, n, f.steps[f.idx].inc, StepEnd(f) - f.next);
  }

  lemma StepFollows(f: Front, n: nat)
    requires Planned(f, n) && Due(f) && f.idx < |f.steps|
    ensures Follows(Fire(f).voices[TONE_VOICE], PlanOf(f.steps, f.idx + 1), n)
  {
    hide VoiceOk, Follows, NoteOff, At, Taken, Rested, Harmonics, PlanOf, MsBefore, MsToSamples;
    var p := At(PlanOf(f.steps, f.idx), n);
    NextPlanned(f, n);
    if Sounds(f) { ToneStepFollows(f, p, n); } else { RestFollows(f.voices[TONE_VOICE], p, n); }
  }

  lemma {:induction false} SettleFollows(f: Front, n: nat)
    requires Planned(f, n)
    ensures Planned(Settle(f), n) && !Due(Settle(f)) && Settle(f).steps == f.steps
    decreases f.playing, |f.steps| - f.idx
  {
    hide Fire, FrontOk, Follows, PlanOf;
    if Due(f) {
      FireFollows(f, n);
      assert FrontOk(f);
      FireOk(f);
      SettleFollows(Fire(f), n);
    }
  }

  lemma FrontTickFollows(f: Front, n: nat)
    requires Planned(f, n) && !Due(f)
    ensures Planned(FrontTick(f), n + 1) && !Due(FrontTick(f)) && FrontTick(f).steps == f.steps
  {
    hide VoiceOk, Follows, Tick, At, PlanOf;
    var g := f.(voices := Ticked(f.voices), clock := if f.playing then f.clock + 1 else f.clock);
    forall i | 0 <= i < VOICES
      ensures VoiceOk(Tick(f.voices[i]))
    {
      TickOk(f.voices[i]);
    }
    var p := PlanOf(f.steps, f.idx);
    TickFollows(f.voices[TONE_VOICE], At(p, n), n);
    AtTwice(p, n, n + 1);
    SettleFollows(g, n + 1);
  }

  lemma {:induction false} RunFollows(f: Front, n: nat)
    requires Planned(f, 0) && !Due(f)
    ensures var g := FrontAfter(f, n); Planned(g, n) && !Due(g) && g.steps == f.steps
  {
    hide Planned, Due, FrontTick;
    if n != 0 {
      RunFollows(f, n - 1);
      FrontTickFollows(FrontAfter(f, n - 1), n - 1);
    }
  }

  lemma ListIsPlanned(f: Front, gen: U32, steps: seq<SeqStep>, n: nat)
    requires FrontOk(f) && 0 < |steps| <= MAX_STEPS && f.voices[TONE_VOICE].stage == Idle
    ensures var g := FrontAfter(Settle(StartSequence(f, gen, steps)), n);
            Planned(g, n) && !Due(g) && g.steps == steps
  {
    var s := StartSequence(f, gen, steps);
    SequencesOk(f, gen, steps);
    assert Planned(s, 0) by { assert VoiceOk(f.voices[TONE_VOICE]); }
    hide Planned, FrontOk, Follows, Settle, Due;
    SettleFollows(s, 0);
    RunFollows(Settle(s), n);
  }

  /** Started on an idle tone voice, a list plays its tones by its plan, sample
      after sample, however the render is split. */
  lemma ListFollowsItsPlan(f: Front, gen: U32, steps: seq<SeqStep>, n: nat)
    requires FrontOk(f) && 0 < |steps| <= MAX_STEPS && f.voices[TONE_VOICE].stage == Idle
    ensures var g := FrontAfter(Settle(StartSequence(f, gen, steps)), n);
            && g.steps == steps && g.idx <= |steps|
            && Follows(g.voices[TONE_VOICE], At(PlanOf(steps, g.idx), n), n)
  {
    hide Planned, FrontOk, Follows, Settle, Due;
    ListIsPlanned(f, gen, steps, n);
    PlannedMeans(FrontAfter(Settle(StartSequence(f, gen, steps)), n), n);
  }

  lemma PlannedMeans(f: Front, n: nat)
    requires Planned(f, n)
    ensures f.idx <= |f.steps| && Follows(f.voices[TONE_VOICE], At(PlanOf(f.steps, f.idx), n), n)
  {
  }

  // ---- when each tone ends ----

  /** Step k plays a tone. */
  predicate Plays(steps: seq<SeqStep>, k: nat)
    requires k < |steps|
  {
    0 < steps[k].inc && StartOf(steps, k) < EndOf(steps, k)
  }

  /** When step k's tone is meant to end. */
  function EndOf(steps: seq<SeqStep>, k: nat): nat
    requires k < |steps|
  {
    MsToSamples(MsBefore(steps, k) + steps[k].durMs)
  }

  /** How late step k's tone starts, and so ends, in this list. */
  function Lateness(steps: seq<SeqStep>, k: nat): nat
    requires k < |steps|
  {
    Wait(At(PlanOf(steps, k), StartOf(steps, k)), StartOf(steps, k), Harmonics(steps[k].inc))
  }

  /** From the sample step k begins at up to the next step's, its tone has ended
      exactly from its meant end plus its lateness on. */
  lemma TonesOfAListEnd(f: Front, gen: U32, steps: seq<SeqStep>, k: nat, n: nat)
    requires FrontOk(f) && 0 < |steps| <= MAX_STEPS && f.voices[TONE_VOICE].stage == Idle
    requires k < |steps| && Plays(steps, k)
    requires StartOf(steps, k) <= n && (k + 1 < |steps| ==> n < StartOf(steps, k + 1))
    ensures var g := FrontAfter(Settle(StartSequence(f, gen, steps)), n);
            Ended(g.voices[TONE_VOICE]) <==> EndOf(steps, k) + Lateness(steps, k) <= n
  {
    hide FrontOk, FrontAfter, Settle, StartSequence, StartOf, VoiceOk;
    ListFollowsItsPlan(f, gen, steps, n);
    StepsStartOnTime(f, gen, steps, n);
    var g := FrontAfter(Settle(StartSequence(f, gen, steps)), n);
    assert g.idx == k + 1;
    EndedAsPlanned(g.voices[TONE_VOICE], At(PlanOf(steps, k + 1), n), n);
    TakenEnds(At(PlanOf(steps, k), StartOf(steps, k)), StartOf(steps, k), Harmonics(steps[k].inc),
              EndOf(steps, k) - StartOf(steps, k), n);
  }

  lemma EndedAsPlanned(v: Voice, p: Plan, t: nat)
    requires Follows(v, p, t)
    ensures Ended(v) <==> p.Silent? || p.Fades?
  {
    hide VoiceOk;
  }

  lemma TakenEnds(p: Plan, s: nat, h: int, gate: nat, t: nat)
    requires s <= t && 0 < gate
    ensures var q := At(Taken(p, s, h, gate), t); q.Silent? || q.Fades? <==> s + gate + Wait(p, s, h) <= t
  {
  }

  /** No wait is longer than one switch fade. */
  predicate Short(p: Plan, t: nat) {
    p.Waits? ==> p.from <= t + SWITCH_FADE
  }

  lemma {:induction false} PlansAreShort(steps: seq<SeqStep>, k: nat)
    requires k <= |steps|
    ensures Short(PlanOf(steps, k), if k == 0 then 0 else StartOf(steps, k - 1))
  {
    hide StartOf, PlanOf, At, Stepped, Short;
    if k == 0 {
      SilentIsShort(steps);
    } else {
      PlansAreShort(steps, k - 1);
      var before := if k == 1 then 0 else StartOf(steps, k - 2);
      StartsAreOrdered(steps, if k == 1 then 0 else k - 2, k - 1);
      LaterIsShort(PlanOf(steps, k - 1), before, StartOf(steps, k - 1));
      SteppedIsShort(At(PlanOf(steps, k - 1), StartOf(steps, k - 1)), steps, k - 1);
      OnePlanned(steps, k);
    }
  }

  lemma SilentIsShort(steps: seq<SeqStep>)
    ensures Short(PlanOf(steps, 0), 0)
  {
  }

  lemma LaterIsShort(p: Plan, s: nat, t: nat)
    requires s <= t && Short(p, s)
    ensures Short(At(p, t), t)
  {
  }

  lemma SteppedIsShort(p: Plan, steps: seq<SeqStep>, k: nat)
    requires k < |steps| && Short(p, StartOf(steps, k))
    ensures Short(Stepped(p, steps, k), StartOf(steps, k))
  {
    hide StartOf, Harmonics;
  }

  lemma OnePlanned(steps: seq<SeqStep>, k: nat)
    requires 0 < k <= |steps|
    ensures PlanOf(steps, k) == Stepped(At(PlanOf(steps, k - 1), StartOf(steps, k - 1)), steps, k - 1)
  {
  }

  /** No tone of any list is late by more than one switch fade. */
  lemma LatenessIsShort(steps: seq<SeqStep>, k: nat)
    requires k < |steps|
    ensures Lateness(steps, k) <= SWITCH_FADE
  {
    PlansAreShort(steps, k);
    StartsAreOrdered(steps, if k == 0 then 0 else k - 1, k);
    hide PlanOf, StartOf, Harmonics;
  }

  // ---- lateness in closed form ----

  /** What is left of a fade when the next tone comes, at most a switch fade; a
      tone of the same number of harmonics goes on at once. */
  function LateBehind(left: int, same: bool): nat {
    if same || left <= 0 then 0 else if left < SWITCH_FADE then left else SWITCH_FADE
  }

  /** Step k's tone has sounded before step k + 1 begins. It always has when it is
      at least 3 ms long; a shorter one may still be waiting, and then never
      sounds. */
  predicate Sounded(steps: seq<SeqStep>, k: nat)
    requires k < |steps|
  {
    Plays(steps, k) && StartOf(steps, k) + Lateness(steps, k) < StartOf(steps, k + 1)
  }

  /** When the tone of step j is over, as step k begins: a release after its end,
      or after the next step if that cuts it short; a tone that waits behind it
      without sounding makes it a switch fade. */
  function FadeEnd(steps: seq<SeqStep>, j: nat, k: nat): nat
    requires j < k <= |steps|
    decreases k
  {
    if k == j + 1 then Min(EndOf(steps, j) + Lateness(steps, j), StartOf(steps, k)) + TONE_RELEASE
    else if Plays(steps, k - 1) then Min(FadeEnd(steps, j, k - 1), StartOf(steps, k - 1) + SWITCH_FADE)
    else FadeEnd(steps, j, k - 1)
  }

  function Min(a: nat, b: nat): nat {
    if a < b then a else b
  }

  /** At time t the plan is, to whatever comes next, a tone of h harmonics that is
      over at o. */
  predicate FadesOutAt(p: Plan, h: int, o: nat, t: nat) {
    match p
    case Silent => o <= t
    case Holds(h', silentAt, _) => if silentAt == t then o <= t else h' == h && o == t + TONE_RELEASE
    case Fades(h', over) => h' == h && over == o && t < o
    case Waits(h', from, _, _) => h' == h && from == o && t < o <= t + SWITCH_FADE
  }

  lemma WaitBehind(p: Plan, h: int, o: nat, t: nat, h': int)
    requires FadesOutAt(p, h, o, t)
    ensures Wait(p, t, h') == LateBehind(o - t, h' == h)
  {
  }

  lemma SoundedFades(p: Plan, s: nat, h: int, gate: nat, t: nat)
    requires 0 < gate && s + gate <= t && s + Wait(p, s, h) < t
    ensures FadesOutAt(At(Taken(p, s, h, gate), t), h, Min(s + gate + Wait(p, s, h), t) + TONE_RELEASE, t)
  {
  }

  lemma RestedFades(p: Plan, h: int, o: nat, s: nat, t: nat)
    requires FadesOutAt(p, h, o, s) && s <= t
    ensures FadesOutAt(At(Rested(p, s), t), h, o, t)
  {
  }

  lemma WaitingFades(p: Plan, h: int, o: nat, s: nat, h': int, gate: nat, t: nat)
    requires FadesOutAt(p, h, o, s) && s <= t <= s + Wait(p, s, h') && 0 < Wait(p, s, h') && 0 < gate
    ensures FadesOutAt(At(Taken(p, s, h', gate), t), h, Min(o, s + SWITCH_FADE), t)
  {
  }

  /** After the tone of step j has sounded, and as long as no later one does, the
      plan is that of its fade. */
  lemma {:induction false} BehindTheLastTone(steps: seq<SeqStep>, j: nat, k: nat)
    requires j < k < |steps| && Sounded(steps, j) && forall i :: j < i < k ==> !Sounded(steps, i)
    ensures FadesOutAt(At(PlanOf(steps, k), StartOf(steps, k)), Harmonics(steps[j].inc), FadeEnd(steps, j, k), StartOf(steps, k))
    decreases k
  {
    hide PlanOf, At, Wait, Taken, Rested, Harmonics, StartOf, EndOf, MsBefore, Plays, Lateness, FadesOutAt;
    var i := k - 1;
    var s, e, t := StartOf(steps, i), EndOf(steps, i), StartOf(steps, k);
    var p := At(PlanOf(steps, i), s);
    LatenessIs(steps, i);
    StartsAreOrdered(steps, i, k);
    if Plays(steps, i) {
      OneStepPlanned(steps, k);
      AtLeastThree(steps, i);
      TonesLast(steps, i);
    } else {
      OneRestPlanned(steps, k);
    }
    if i == j {
      SoundedFades(p, s, Harmonics(steps[i].inc), e - s, t);
    } else {
      BehindTheLastTone(steps, j, i);
      if Plays(steps, i) {
        assert !Sounded(steps, i);
        WaitingFades(p, Harmonics(steps[j].inc), FadeEnd(steps, j, i), s, Harmonics(steps[i].inc), e - s, t);
      } else {
        RestedFades(p, Harmonics(steps[j].inc), FadeEnd(steps, j, i), s, t);
      }
    }
  }

  /** A tone is late exactly by what is left, as it begins, of the fade of the last
      tone that sounded before it, at most 88 samples, and not at all if that one
      has the same number of harmonics; rests, and tones too short to sound, may
      lie between. */
  lemma LatenessBehind(steps: seq<SeqStep>, j: nat, k: nat)
    requires j < k < |steps| && Sounded(steps, j) && forall i :: j < i < k ==> !Sounded(steps, i)
    ensures Lateness(steps, k) ==
              LateBehind(FadeEnd(steps, j, k) - StartOf(steps, k), Harmonics(steps[k].inc) == Harmonics(steps[j].inc))
  {
    hide PlanOf, At, Wait, Harmonics, StartOf, Sounded, Lateness, FadeEnd, FadesOutAt, LateBehind;
    BehindTheLastTone(steps, j, k);
    LatenessIs(steps, k);
    WaitBehind(At(PlanOf(steps, k), StartOf(steps, k)), Harmonics(steps[j].inc), FadeEnd(steps, j, k), StartOf(steps, k),
               Harmonics(steps[k].inc));
  }

  /** With nothing sounded before it, a tone is on time: the other case. */
  lemma FirstToneIsNotLate(steps: seq<SeqStep>, k: nat)
    requires k < |steps| && forall i :: 0 <= i < k ==> !Sounded(steps, i)
    ensures Lateness(steps, k) == 0
  {
    hide PlanOf, StartOf, Sounded, Lateness;
    NothingPlanned(steps, k);
    LatenessIs(steps, k);
  }

  lemma {:induction false} NothingPlanned(steps: seq<SeqStep>, k: nat)
    requires k < |steps| && forall i :: 0 <= i < k ==> !Sounded(steps, i)
    ensures PlanOf(steps, k) == Silent
  {
    hide StartOf, EndOf, MsBefore, Harmonics, Lateness;
    if k != 0 {
      NothingPlanned(steps, k - 1);
      assert !Plays(steps, k - 1) by {
        assert !Sounded(steps, k - 1);
        if Plays(steps, k - 1) { FirstToneSounds(steps, k - 1); }
      }
      hide Plays, PlanOf;
      OneRestPlanned(steps, k);
    }
  }

  lemma FirstToneSounds(steps: seq<SeqStep>, k: nat)
    requires k < |steps| && PlanOf(steps, k) == Silent && Plays(steps, k)
    ensures Sounded(steps, k)
  {
    hide StartOf, EndOf, MsBefore, Harmonics, Lateness, PlanOf;
    LatenessIs(steps, k);
    AtLeastThree(steps, k);
    TonesLast(steps, k);
  }

  lemma LatenessIs(steps: seq<SeqStep>, k: nat)
    requires k < |steps|
    ensures Lateness(steps, k) ==
              Wait(At(PlanOf(steps, k), StartOf(steps, k)), StartOf(steps, k), Harmonics(steps[k].inc))
  {
  }

  lemma ThreeMsSound(steps: seq<SeqStep>, k: nat)
    requires k < |steps| && 0 < steps[k].inc && 3 <= steps[k].durMs
    ensures Sounded(steps, k)
  {
    hide Lateness, StartOf, EndOf;
    AtLeastThree(steps, k);
    LatenessIsShort(steps, k);
  }

  /** Right behind a tone that has sounded, with no step between: its release, late
      or not, less the gap. */
  lemma LatenessFromTheGap(steps: seq<SeqStep>, k: nat)
    requires 0 < k < |steps| && Sounded(steps, k - 1)
    ensures var gap := StartOf(steps, k) - EndOf(steps, k - 1);
            Lateness(steps, k) == LateBehind(TONE_RELEASE + Lateness(steps, k - 1) - gap,
                                             Harmonics(steps[k].inc) == Harmonics(steps[k - 1].inc))
  {
    hide PlanOf, Harmonics, StartOf, EndOf, MsBefore, Sounded, Lateness;
    LatenessBehind(steps, k - 1, k);
  }

  /** In any list, a tone right behind one of another number of harmonics, with no
      gap between them, is late by a whole switch fade. */
  lemma GaplessChangeIsLate(steps: seq<SeqStep>, k: nat)
    requires 0 < k < |steps| && Sounded(steps, k - 1) && steps[k - 1].gapMs == 0
    requires Harmonics(steps[k].inc) != Harmonics(steps[k - 1].inc)
    ensures Lateness(steps, k) == SWITCH_FADE
  {
    hide Lateness, Plays, Harmonics, Sounded;
    LatenessFromTheGap(steps, k);
  }

  lemma OneRestPlanned(steps: seq<SeqStep>, k: nat)
    requires 0 < k <= |steps| && !Plays(steps, k - 1)
    ensures var s := StartOf(steps, k - 1); PlanOf(steps, k) == Rested(At(PlanOf(steps, k - 1), s), s)
  {
    hide At, Taken, Rested, StartOf;
  }

  lemma OneStepPlanned(steps: seq<SeqStep>, k: nat)
    requires 0 < k <= |steps| && Plays(steps, k - 1)
    ensures var s, e := StartOf(steps, k - 1), EndOf(steps, k - 1);
            PlanOf(steps, k) == Taken(At(PlanOf(steps, k - 1), s), s, Harmonics(steps[k - 1].inc), e - s)
  {
    hide At, Taken, Rested, StartOf;
  }

  lemma AtLeastThree(steps: seq<SeqStep>, k: nat)
    requires k < |steps|
    ensures 3 <= steps[k].durMs ==> SWITCH_FADE < EndOf(steps, k) - StartOf(steps, k)
    ensures EndOf(steps, k) <= StartOf(steps, k + 1)
  {
  }

  lemma TonesLast(steps: seq<SeqStep>, k: nat)
    requires k < |steps| && Plays(steps, k)
    ensures StartOf(steps, k) < EndOf(steps, k)
  {
  }

  /** At a step's boundary the sequencer stands before a tone that waits exactly
      the step's lateness. */
  lemma DelayIsLateness(f: Front, gen: U32, steps: seq<SeqStep>, k: nat)
    requires FrontOk(f) && 0 < |steps| <= MAX_STEPS && f.voices[TONE_VOICE].stage == Idle
    requires 0 < k < |steps| && Plays(steps, k) && StartOf(steps, k - 1) < StartOf(steps, k)
    ensures var b := Along(FrontAfter(Settle(StartSequence(f, gen, steps)), StartOf(steps, k) - 1), 1);
            FrontOk(b) && Sounds(b) && b.idx == k && b.clock == StartOf(steps, k) && StepDelay(b) == Lateness(steps, k)
  {
    hide FrontAfter, Settle, StartSequence, FrontOk, VoiceOk, Along, Sounds, StepDelay;
    hide Lateness, Plays, PlanOf, Follows, MsBefore;
    var n := StartOf(steps, k) - 1;
    var g := FrontAfter(Settle(StartSequence(f, gen, steps)), n);
    ListIsPlanned(f, gen, steps, n);
    StepsStartOnTime(f, gen, steps, n);
    StartsAreOrdered(steps, k, |steps|);
    assert g.idx == k && g.playing by { hide StartOf, Planned; }
    BoundaryAhead(g, n);
  }

  lemma BoundaryAhead(g: Front, n: nat)
    requires Planned(g, n) && !Due(g) && g.playing && g.idx < |g.steps| && Plays(g.steps, g.idx)
    requires n + 1 == StartOf(g.steps, g.idx)
    ensures var b := Along(g, 1);
            FrontOk(b) && Sounds(b) && b.idx == g.idx && b.clock == n + 1 && StepDelay(b) == Lateness(g.steps, g.idx)
  {
    hide VoiceOk, Follows, Tick, At, PlanOf, Delay, Wait;
    AlongOk(g, 1);
    var b := Along(g, 1);
    var v, p := g.voices[TONE_VOICE], PlanOf(g.steps, g.idx);
    AfterOne(v);
    TickFollows(v, At(p, n), n);
    AtTwice(p, n, n + 1);
    SwitchesAsPlanned(Tick(v), At(p, n + 1), n + 1, b.steps[b.idx].inc, (StepEnd(b) - b.next) % WRAP32);
  }

  lemma AfterOne(v: Voice)
    ensures After(v, 1) == Tick(v)
  {
    hide Tick;
    assert After(v, 0) == v;
  }

  // ---- a list whose second tone is late ----

  /** Two tones of 100 ms with nothing between them, of seven harmonics and of one. */
  const LATE_LIST: seq<SeqStep> := [SeqStep(100000000, 100, 0), SeqStep(400000000, 100, 0)]

  lemma TheSecondToneIsLate()
    ensures Plays(LATE_LIST, 0) && Plays(LATE_LIST, 1)
    ensures StartOf(LATE_LIST, 1) == 4410 && EndOf(LATE_LIST, 1) == 8820
    ensures Lateness(LATE_LIST, 1) == SWITCH_FADE
  {
    assert MsBefore(LATE_LIST, 0) == 0 && MsBefore(LATE_LIST, 1) == 100;
    FirstToneIsNotLate(LATE_LIST, 0);
    ThreeMsSound(LATE_LIST, 0);
    LatenessFromTheGap(LATE_LIST, 1);
    hide PlanOf, Lateness;
  }

  /** Started on any idle tone voice, its second tone waits a whole switch fade,
      and ends 88 samples after its own end. */
  lemma LateListIsLate(f: Front, gen: U32, n: nat)
    requires FrontOk(f) && f.voices[TONE_VOICE].stage == Idle && 4410 <= n
    ensures var s := Settle(StartSequence(f, gen, LATE_LIST)); var b := Along(FrontAfter(s, 4409), 1);
            && Sounds(b) && b.clock == 4410 && StepDelay(b) == SWITCH_FADE
            && (Ended(FrontAfter(s, n).voices[TONE_VOICE]) <==> 8820 + 88 <= n)
  {
    hide FrontOk, FrontAfter, Settle, Along, Sounds, StepDelay, Plays, Lateness, StartOf, EndOf, Ended;
    TheSecondToneIsLate();
    StartAtNought();
    DelayIsLateness(f, gen, LATE_LIST, 1);
    TonesOfAListEnd(f, gen, LATE_LIST, 1, n);
  }

  lemma StartAtNought()
    ensures StartOf(LATE_LIST, 0) == 0
  {
  }
}
