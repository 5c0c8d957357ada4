/** When the battery diary counts a charge cycle
    (lib/BatteryDiary/BatteryDiary.h). */
module ChargeCycle {
  import opened Common

  const SUSTAINED: nat := 600

  /** The battery's charge rate over a stretch of seconds. */
  datatype Sample = Sample(rate: int, secs: U32)

  function Sign(rate: int): int {
    if 0 < rate then 1 else if rate < 0 then -1 else 0
  }

  /** The length in seconds of the stretch of samples of one sign that h ends with. */
  function Stretch(h: seq<Sample>, sign: int): nat {
    if h == [] || Sign(h[|h| - 1].rate) != sign then 0 else Stretch(h[..|h| - 1], sign) + h[|h| - 1].secs
  }

  /** Charging was sustained at some time, or taken for granted at the start. */
  ghost predicate Charged(h: seq<Sample>, granted: bool) {
    granted || exists n :: 0 <= n <= |h| && SUSTAINED <= Stretch(h[..n], 1)
  }

  /** A cycle is complete: a sustained discharge now, after a sustained charge. */
  ghost predicate Complete(h: seq<Sample>, granted: bool) {
    Charged(h, granted) && SUSTAINED <= Stretch(h, -1)
  }

  function AtMost(n: nat): nat {
    if n < SUSTAINED then n else SUSTAINED
  }

  lemma ChargedMore(h: seq<Sample>, s: Sample, granted: bool)
    ensures Charged(h + [s], granted) <==> Charged(h, granted) || SUSTAINED <= Stretch(h + [s], 1)
  {
    var g := h + [s];
    assert forall n :: 0 <= n <= |h| ==> g[..n] == h[..n];
    assert g[..|g|] == g;
  }

  lemma StretchMore(h: seq<Sample>, s: Sample, sign: int)
    ensures Stretch(h + [s], sign) == if Sign(s.rate) == sign then Stretch(h, sign) + s.secs else 0
  {
    assert (h + [s])[..|h|] == h;
  }

  class Detector {
    var positive: nat
    var negative: nat
    var qualified: bool
    // the samples since the last cycle (or reset), and what was granted then
    ghost var history: seq<Sample>
    ghost var granted: bool

    ghost predicate Valid()
      reads this
    {
      && positive == AtMost(Stretch(history, 1))
      && qualified == Charged(history, granted)
      && negative == if qualified then AtMost(Stretch(history, -1)) else 0
    }

    method Reset(chargingBoot: bool)
      modifies this
      ensures Valid() && history == [] && granted == chargingBoot
    {
      positive, negative, qualified := 0, 0, chargingBoot;
      history, granted := [], chargingBoot;
      assert forall n :: 0 <= n <= |history| ==> history[..n] == [];
    }

    /** One sample: a cycle is counted exactly when it completes, and counting
        then starts anew; an empty stretch of time changes nothing. */
    method Feed(rate: int, secs: U32) returns (cycle: bool)
      requires Valid()
      modifies this
      ensures Valid()
      ensures secs == 0 ==> !cycle && history == old(history) && granted == old(granted)
      ensures secs != 0 ==>
        && cycle == Complete(old(history) + [Sample(rate, secs)], old(granted))
        && (if cycle then history == [] && !granted
            else history == old(history) + [Sample(rate, secs)] && granted == old(granted))
    {
      hide Stretch, Charged;
      if secs == 0 { return false; }
      ChargedMore(history, Sample(rate, secs), granted);
      StretchMore(history, Sample(rate, secs), 1);
      StretchMore(history, Sample(rate, secs), -1);
      history := history + [Sample(rate, secs)];
      if 0 < rate {
        negative := 0;
        if positive < SUSTAINED {
          var room := SUSTAINED - positive;
          positive := positive + if room < secs then room else secs;
        }
        if SUSTAINED <= positive { qualified := true; }
        return false;
      }
      if rate < 0 {
        positive := 0;
        if !qualified {
          negative := 0;
          return false;
        }
        if negative < SUSTAINED {
          var room := SUSTAINED - negative;
          negative := negative + if room < secs then room else secs;
        }
        if SUSTAINED <= negative {
          Reset(false);
          return true;
        }
        return false;
      }
      positive, negative := 0, 0;
      return false;
    }
  }

  /** The charge behind a counted cycle was over before its discharge began. */
  lemma ChargeComesFirst(h: seq<Sample>, n: nat, m: nat)
    requires n <= |h| && 0 < Stretch(h[..n], 1)
    requires m <= |h| && forall i :: m <= i < |h| ==> Sign(h[i].rate) == -1
    ensures n <= m
  {
    assert Sign(h[n - 1].rate) == 1;
  }
}
