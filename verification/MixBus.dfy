/** The whole bus: per-sample machine, stage-by-stage block processing, and the
    object that does it in place (lib/AudioEngine/AudioEngine.cpp). */
module MixBus {
  import opened Fixed
  import opened Mealy
  import opened Eq
  import opened Bus

  datatype BusState = BusState(mix: MixStage, eq: seq<Biquad>, staged: seq<Coefs>, bands: nat, out: OutStage)

  /** How many bands a sample goes through. */
  function BandsOn(b: BusState): nat {
    if b.out.eqOn then b.bands else 0
  }

  /** One sample through all stages. */
  function BusTick(b: BusState, a: int): (BusState, int) {
    var (m, d) := MixTick(b.mix, a);
    var (qs, y) := Cascade(b.eq, BandsOn(b), d);
    var (o, w) := OutTick(b.out, y);
    (b.(mix := m, eq := qs, out := o), w)
  }

  predicate BusOk(b: BusState) {
    && MixStageOk(b.mix)
    && |b.eq| == MAX_BANDS && |b.staged| == MAX_BANDS
    && (forall i :: 0 <= i < MAX_BANDS ==> CoefsFit(b.staged[i]))
    && b.bands <= MAX_BANDS && BandsOk(b.eq, b.bands)
    && OutStageOk(b.out)
  }

  /** One sample on, every stage is in range, the sample is within the ceiling,
      and the clip counter has not moved. */
  lemma BusTickOk(b: BusState, a: int)
    requires BusOk(b) && Abs(a) <= IN_PEAK
    ensures var (r, w) := BusTick(b, a);
            BusOk(r) && Abs(w) <= LIM_CEILING && r.out.clips == b.out.clips
            && r.bands == b.bands && r.staged == b.staged && r.out.eqOn == b.out.eqOn
  {
    hide MixTick, OutTick, BandTick, MixStageOk, OutStageOk, BiquadOk, CoefsFit;
    MixTickOk(b.mix, a);
    var d := MixTick(b.mix, a).1;
    CascadeOk(b.eq, BandsOn(b), d);
    OutTickOk(b.out, Cascade(b.eq, BandsOn(b), d).1);
    forall i | 0 <= i < b.bands
      ensures BiquadOk(Cascade(b.eq, BandsOn(b), d).0[i])
    {
    }
  }

  /** The stages over a block, one after the other. */
  function Staged(b: BusState, xs: seq<int>): (BusState, seq<int>) {
    var (m, ds) := Run(MixTick, b.mix, xs);
    var (qs, ys) := Run(CascadeOf(BandsOn(b)), b.eq, ds);
    var (o, ws) := Run(OutTick, b.out, ys);
    (b.(mix := m, eq := qs, out := o), ws)
  }

  /** Stage by stage over a block is sample by sample through all stages. */
  lemma {:induction false} StageByStage(b: BusState, xs: seq<int>)
    ensures Run(BusTick, b, xs) == Staged(b, xs)
  {
    hide MixTick, OutTick, Cascade;
    if xs != [] {
      var n := |xs| - 1;
      StageByStage(b, xs[..n]);
      var ds := Run(MixTick, b.mix, xs[..n]).1;
      var d := MixTick(Run(MixTick, b.mix, xs[..n]).0, xs[n]).1;
      RunSnoc(CascadeOf(BandsOn(b)), b.eq, ds, d);
      var ys := Run(CascadeOf(BandsOn(b)), b.eq, ds).1;
      var y := CascadeOf(BandsOn(b))(Run(CascadeOf(BandsOn(b)), b.eq, ds).0, d).1;
      RunSnoc(OutTick, b.out, ys, y);
      OutKeepsSetting(b.out, ys);
    } else {
      assert Staged(b, xs).0 == b;
    }
  }

  lemma {:induction false} OutKeepsSetting(o: OutStage, ys: seq<int>)
    ensures var r := Run(OutTick, o, ys).0; r.eqOn == o.eqOn && r.gainQ8 == o.gainQ8
  {
    hide LimGain, MadeUp;
    if ys != [] { OutKeepsSetting(o, ys[..|ys| - 1]); }
  }

  // ---- settings ----

  /** Applying the staged bands; an out-of-range setting turns the EQ off. */
  function Commit(b: BusState, bands: int, enable: bool, gainQ8: int): (BusState, bool)
    requires |b.staged| == MAX_BANDS
  {
    var cleared := b.(eq := seq(MAX_BANDS, i requires 0 <= i < MAX_BANDS => Biquad(b.staged[i], 0, 0, 0, 0)));
    if !SettingValid(b.staged, bands, gainQ8)
    then (cleared.(bands := 0, out := b.out.(eqOn := false, gainQ8 := 256)), false)
    else (cleared.(bands := bands, out := b.out.(eqOn := enable && 0 < bands, gainQ8 := gainQ8)), true)
  }

  lemma CommitOk(b: BusState, bands: int, enable: bool, gainQ8: int)
    requires BusOk(b)
    ensures BusOk(Commit(b, bands, enable, gainQ8).0)
  {
    hide MixStageOk;
  }

  class Mixer {
    var masterQ30: int
    var masterTargetQ30: int
    var masterStep: int
    var masterRampLeft: nat
    var dcX: int
    var dcY: int
    const eq: array<Biquad>
    const eqStaged: array<Coefs>
    var eqBands: nat
    var eqOn: bool
    var eqGainQ8: int
    var limGainQ30: int
    var clips: nat

    ghost function State(): BusState
      reads this, eq, eqStaged
    {
      BusState(MixStage(masterQ30, masterTargetQ30, masterStep, masterRampLeft, dcX, dcY),
               eq[..], eqStaged[..], eqBands, OutStage(eqOn, eqGainQ8, limGainQ30, clips))
    }

    ghost predicate Valid()
      reads this, eq, eqStaged
    {
      BusOk(State())
    }

    constructor ()
      ensures Valid() && fresh(eq) && fresh(eqStaged)
      ensures masterQ30 == ONE_Q30 && limGainQ30 == ONE_Q30 && !eqOn && clips == 0 && dcX == 0 && dcY == 0
      ensures masterRampLeft == 0 && masterTargetQ30 == ONE_Q30
    {
      masterQ30, masterTargetQ30, masterStep, masterRampLeft := ONE_Q30, ONE_Q30, 0, 0;
      dcX, dcY := 0, 0;
      eq := new Biquad[MAX_BANDS](_ => Biquad(Coefs(0, 0, 0, 0, 0), 0, 0, 0, 0));
      eqStaged := new Coefs[MAX_BANDS](_ => Coefs(0, 0, 0, 0, 0));
      eqBands, eqOn, eqGainQ8 := 0, false, 256;
      limGainQ30, clips := ONE_Q30, 0;
    }

    method SetMasterVolume(q15: nat, active: nat)
      requires Valid()
      modifies this`masterQ30, this`masterTargetQ30, this`masterStep, this`masterRampLeft
      ensures State() == old(State()).(mix := SetMaster(old(State().mix), q15, 0 < active))
      ensures Valid()
    {
      SetMasterOk(State().mix, q15, 0 < active);
      var q := if 32768 < q15 then 32768 else q15;
      masterTargetQ30 := q * 32768;
      var diff := masterTargetQ30 - masterQ30;
      if diff == 0 || active == 0 {
        masterQ30 := masterTargetQ30;
        masterRampLeft := 0;
        return;
      }
      masterStep := TruncDiv(diff, RAMP_SAMPLES);
      masterRampLeft := RAMP_SAMPLES;
    }

    method SetEqBand(band: int, c: Coefs)
      requires Valid() && CoefsFit(c)
      modifies eqStaged
      ensures State() ==
                old(State()).(staged := if 0 <= band < MAX_BANDS then old(eqStaged[..])[band := c] else old(eqStaged[..]))
      ensures Valid()
    {
      hide MixStageOk, BandsOk, OutStageOk;
      if 0 <= band < MAX_BANDS { eqStaged[band] := c; }
    }

    method CommitEq(bands: int, enable: bool, gainQ8: int) returns (ok: bool)
      requires Valid()
      modifies this`eqBands, this`eqOn, this`eqGainQ8, eq
      ensures (State(), ok) == Commit(old(State()), bands, enable, gainQ8)
      ensures Valid()
    {
      CommitOk(State(), bands, enable, gainQ8);
      for b := 0 to MAX_BANDS
        invariant forall i :: 0 <= i < b ==> eq[i] == Biquad(eqStaged[i], 0, 0, 0, 0)
        invariant eqBands == old(eqBands) && eqOn == old(eqOn) && eqGainQ8 == old(eqGainQ8)
      {
        eq[b] := Biquad(eqStaged[b], 0, 0, 0, 0);
      }
      ghost var cleared := Commit(old(State()), bands, enable, gainQ8).0.eq;
      assert eq[..] == cleared;
      ok := SettingIsValid(bands, gainQ8);
      if !ok {
        eqBands := 0;
        eqGainQ8 := 256;
        eqOn := false;
        return;
      }
      eqBands := bands;
      eqGainQ8 := gainQ8;
      eqOn := enable && 0 < bands;
    }

    method SettingIsValid(bands: int, gainQ8: int) returns (ok: bool)
      requires eqStaged.Length == MAX_BANDS
      ensures ok == SettingValid(eqStaged[..], bands, gainQ8)
    {
      if bands < 0 || MAX_BANDS < bands || gainQ8 < 0 || MAX_GAIN_Q8 < gainQ8 { return false; }
      for b := 0 to bands
        invariant forall i :: 0 <= i < b ==> BandValid(eqStaged[i])
      {
        if !BandValid(eqStaged[b]) { return false; }
      }
      return true;
    }

    /** One sample of master gain and DC blocker. */
    method MixSample(a: int) returns (d: int)
      requires MixStageOk(State().mix) && Abs(a) <= IN_PEAK
      modifies this`masterQ30, this`masterRampLeft, this`dcX, this`dcY
      ensures var (m, y) := MixTick(old(State().mix), a); State() == old(State()).(mix := m) && d == y
      ensures MixStageOk(State().mix) && InRange(d)
    {
      hide MixTick, MixStageOk;
      MixTickOk(State().mix, a);
      MixSteps(State().mix, a);
      if 0 < masterRampLeft {
        masterQ30 := masterQ30 + masterStep;
        masterRampLeft := masterRampLeft - 1;
        if masterRampLeft == 0 { masterQ30 := masterTargetQ30; }
      }
      var x := a * (masterQ30 / 32768) / 32768;
      d := x - dcX + MulPole(dcY);
      dcX := x;
      dcY := d;
    }

    /** The limiter's gain: it recovers a little, and falls at once to what the
        sample needs. */
    method FollowPeak(ax: int)
      requires OutStageOk(State().out) && 0 <= ax <= BUS_SAT
      modifies this`limGainQ30
      ensures limGainQ30 == LimGain(old(limGainQ30), ax)
    {
      if limGainQ30 != ONE_Q30 {
        var gap := ONE_Q30 - limGainQ30;
        var up := gap / 1024;
        limGainQ30 := limGainQ30 + if up != 0 then up else gap;
      }
      if LIM_KNEE < ax {
        var peak := LIM_KNEE + (ax - LIM_KNEE) / 4;
        if LIM_CEILING < peak { peak := LIM_CEILING; }
        var target := peak * 32768 / ax * 32768;
        if target < limGainQ30 { limGainQ30 := target; }
      }
    }

    /** One sample of make-up gain, limiter and the saturating clamp. */
    method OutSample(sample: int) returns (y: int, clipped: int)
      requires OutStageOk(State().out) && InRange(sample)
      modifies this`limGainQ30
      ensures var (o, w) := OutTick(old(State().out), sample); State() == old(State()).(out := o) && y == w && clipped == 0
      ensures OutStageOk(State().out) && Abs(y) <= LIM_CEILING
    {
      hide LimGain;
      OutTickOk(State().out, sample);
      MadeUpInRange(State().out, sample);
      y, clipped := sample, 0;
      if eqOn { y := Clamp(y * eqGainQ8 / 256, BUS_SAT); }
      var ax := if y < 0 then -y else y;
      if limGainQ30 != ONE_Q30 || LIM_KNEE < ax {
        FollowPeak(ax);
        y := y * limGainQ30 / ONE_Q30;
      }
      clipped := if 32767 < y || y < -32768 then 1 else 0;
      y := if 32767 < y then 32767 else if y < -32768 then -32768 else y;
    }

    /** Master gain and DC blocker over the block. */
    method MixBlock(acc: array<int>, n: nat)
      requires Valid() && n <= acc.Length
      requires forall i :: 0 <= i < n ==> Abs(acc[i]) <= IN_PEAK
      modifies this`masterQ30, this`masterRampLeft, this`dcX, this`dcY, acc
      ensures var r := Run(MixTick, old(State().mix), old(acc[..n])); State() == old(State()).(mix := r.0) && acc[..n] == r.1
      ensures MixStageOk(State().mix) && forall i :: 0 <= i < n ==> InRange(acc[i])
    {
      hide MixTick, MixStageOk, OutStageOk, BandsOk;
      ghost var m, xs := State().mix, acc[..n];
      for i := 0 to n
        invariant var r := Run(MixTick, m, xs[..i]); State() == old(State()).(mix := r.0) && acc[..i] == r.1
        invariant MixStageOk(State().mix)
        invariant forall j :: 0 <= j < i ==> InRange(acc[j])
        invariant forall j :: i <= j < n ==> acc[j] == xs[j]
      {
        ghost var before := acc[..i];
        RunSnoc(MixTick, m, xs[..i], xs[i]);
        assert xs[..i + 1] == xs[..i] + [xs[i]];
        var d := MixSample(acc[i]);
        acc[i] := d;
        assert acc[..i + 1] == before + [d];
      }
      assert xs[..n] == xs;
    }

    /** Make-up gain, limiter and the saturating clamp over the block. */
    method OutBlock(acc: array<int>, out: array<int>, pos: nat, n: nat)
      requires Valid() && n <= acc.Length && pos + n <= out.Length && acc != out
      requires forall i :: 0 <= i < n ==> InRange(acc[i])
      modifies this`limGainQ30, this`clips, out
      ensures var r := Run(OutTick, old(State().out), acc[..n]); State() == old(State()).(out := r.0) && out[pos..pos + n] == r.1
      ensures OutStageOk(State().out) && clips == old(clips)
      ensures forall i :: 0 <= i < out.Length && !(pos <= i < pos + n) ==> out[i] == old(out[i])
      ensures forall i :: pos <= i < pos + n ==> Abs(out[i]) <= LIM_CEILING
    {
      hide OutTick, MixStageOk, OutStageOk, BandsOk;
      ghost var o, ys := State().out, acc[..n];
      var clipped := 0;
      for i := 0 to n
        invariant clipped == 0 && clips == old(clips)
        invariant var r := Run(OutTick, o, ys[..i]); State() == old(State()).(out := r.0) && out[pos..pos + i] == r.1
        invariant OutStageOk(State().out)
        invariant forall j :: 0 <= j < out.Length && !(pos <= j < pos + i) ==> out[j] == old(out[j])
        invariant forall j :: pos <= j < pos + i ==> Abs(out[j]) <= LIM_CEILING
      {
        ghost var before := out[pos..pos + i];
        RunSnoc(OutTick, o, ys[..i], ys[i]);
        assert ys[..i + 1] == ys[..i] + [ys[i]];
        var y, c := OutSample(acc[i]);
        clipped := clipped + c;
        out[pos + i] := y;
        assert out[pos..pos + i + 1] == before + [y];
      }
      assert ys[..n] == ys;
      clips := clips + clipped;
    }

    /** The bus over a block, stage by stage; acc is used as scratch. */
    method Process(acc: array<int>, out: array<int>, pos: nat, n: nat)
      requires Valid() && n <= acc.Length && pos + n <= out.Length && acc != out
      requires forall i :: 0 <= i < n ==> Abs(acc[i]) <= IN_PEAK
      modifies this`masterQ30, this`masterRampLeft, this`dcX, this`dcY, this`limGainQ30, this`clips, eq, acc, out
      ensures var r := Run(BusTick, old(State()), old(acc[..n])); State() == r.0 && out[pos..pos + n] == r.1
      ensures Valid() && clips == old(clips)
      ensures forall i :: 0 <= i < out.Length && !(pos <= i < pos + n) ==> out[i] == old(out[i])
      ensures forall i :: pos <= i < pos + n ==> Abs(out[i]) <= LIM_CEILING
    {
      hide MixTick, OutTick, BandTick, MixStageOk, OutStageOk, BiquadOk, CoefsFit;
      StageByStage(State(), acc[..n]);
      MixBlock(acc, n);
      if eqOn { EqBlock(eq, eqBands, acc, n); } else { NoBands(eq[..], acc[..n]); }
      OutBlock(acc, out, pos, n);
    }
  }

  lemma MixSteps(m: MixStage, a: int)
    ensures var master := if m.rampLeft == 0 then m.master else if m.rampLeft == 1 then m.target else m.master + m.step;
            var x := a * (master / 32768) / 32768; var d := x - m.dcX + MulPole(m.dcY);
            MixTick(m, a) ==
              (m.(master := master, rampLeft := if m.rampLeft == 0 then 0 else m.rampLeft - 1, dcX := x, dcY := d), d)
  {
  }
}
