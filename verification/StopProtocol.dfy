/** Stops, stamps and stale checks as interleaved atomic steps of any number of
    control threads and the render thread (lib/AudioEngine/AudioEngine.cpp). */
module StopProtocol {
  import opened Common
  import opened Fixed
  import opened Voice
  import opened Stops

  /** One atomic step that matters to the counters: a stop is requested, the
      render thread loads one kind's counter while applying stops, or anything
      else happens (stamping loads, queueing, rendering). */
  datatype Step = Request(kind: StopKind) | Load(kind: StopKind) | Elsewhere

  datatype Shared = Shared(epoch: Counters, applied: Counters)

  function Stepped(s: Shared, p: Step): Shared {
    match p
    case Request(k) => s.(epoch := s.epoch.With(k, (s.epoch.Of(k) + 1) % WRAP32))
    case Load(k) => s.(applied := s.applied.With(k, s.epoch.Of(k)))
    case Elsewhere => s
  }

  /** The counters before the n-th step of a trace. */
  function At(s: Shared, trace: seq<Step>, n: nat): Shared
    requires n <= |trace|
  {
    if n == 0 then s else Stepped(At(s, trace, n - 1), trace[n - 1])
  }

  /** How many stops of a kind are requested between two points of a trace. */
  function Requests(trace: seq<Step>, k: StopKind, from: nat, to: nat): nat
    requires from <= to <= |trace|
  {
    if from == to then 0 else Requests(trace, k, from, to - 1) + if trace[to - 1] == Request(k) then 1 else 0
  }

  lemma {:induction false} EpochCounts(s: Shared, trace: seq<Step>, k: StopKind, from: nat, to: nat)
    requires from <= to <= |trace|
    ensures At(s, trace, to).epoch.Of(k) == (At(s, trace, from).epoch.Of(k) + Requests(trace, k, from, to)) % WRAP32
  {
    if from < to {
      EpochCounts(s, trace, k, from, to - 1);
      OneMore(At(s, trace, from).epoch.Of(k) + Requests(trace, k, from, to - 1));
    }
  }

  lemma OneMore(n: nat)
    ensures (n % WRAP32 + 1) % WRAP32 == (n + 1) % WRAP32
  {
  }

  lemma {:induction false} NoneCounted(trace: seq<Step>, k: StopKind, from: nat, to: nat)
    requires from <= to <= |trace|
    ensures Requests(trace, k, from, to) == 0 <==> forall p :: from <= p < to ==> trace[p] != Request(k)
  {
    if from < to { NoneCounted(trace, k, from, to - 1); }
  }

  /** The last time before n that the render thread loaded a kind's counter. */
  ghost predicate LastLoad(trace: seq<Step>, k: StopKind, l: nat, n: nat) {
    l < n <= |trace| && trace[l] == Load(k) && forall p :: l < p < n ==> trace[p] != Load(k)
  }

  lemma {:induction false} AppliedIsLastLoaded(s: Shared, trace: seq<Step>, k: StopKind, l: nat, n: nat)
    requires LastLoad(trace, k, l, n)
    ensures At(s, trace, n).applied.Of(k) == At(s, trace, l).epoch.Of(k)
    decreases n - l
  {
    if l + 1 < n { AppliedIsLastLoaded(s, trace, k, l, n - 1); }
  }

  /** A start stamped by two separate loads: stop-all's counter before step i and
      its own kind's before step j. */
  function StampedAt(c: Command, s: Shared, trace: seq<Step>, i: nat, j: nat): Command
    requires i <= j <= |trace|
  {
    var all, kinds := At(s, trace, i).epoch, At(s, trace, j).epoch;
    Stamped(c, kinds.(all := all.all))
  }

  /** The counter moved by a multiple of its range, or by less than its range. */
  lemma MovedOrNot(before: U32, count: nat)
    ensures (before + count) % WRAP32 == before <==> count % WRAP32 == 0
  {
  }

  /** For every interleaving: a queued start stamped at i and j, and checked at n
      against the counters last loaded at la and lk, is dropped exactly when the
      number of stops of a covering kind requested between its stamp and that
      load is not a multiple of 2^32. */
  lemma StaleCountsStops(c: Command, s: Shared, trace: seq<Step>, i: nat, j: nat, la: nat, lk: nat, n: nat)
    requires IsStart(c) && i <= j <= |trace|
    requires LastLoad(trace, StopAll, la, n) && i <= la
    requires CoveringKind(c).Some? ==> LastLoad(trace, CoveringKind(c).value, lk, n) && j <= lk
    ensures Stale(StampedAt(c, s, trace, i, j), At(s, trace, n).applied) <==>
            (|| Requests(trace, StopAll, i, la) % WRAP32 != 0
             || (CoveringKind(c).Some? && Requests(trace, CoveringKind(c).value, j, lk) % WRAP32 != 0))
  {
    var all, kinds := At(s, trace, i).epoch, At(s, trace, j).epoch;
    var applied := At(s, trace, n).applied;
    StaleMeansMoved(c, kinds.(all := all.all), applied);
    AppliedIsLastLoaded(s, trace, StopAll, la, n);
    EpochCounts(s, trace, StopAll, i, la);
    MovedOrNot(all.all, Requests(trace, StopAll, i, la));
    if CoveringKind(c).Some? {
      var k := CoveringKind(c).value;
      AppliedIsLastLoaded(s, trace, k, lk, n);
      EpochCounts(s, trace, k, j, lk);
      MovedOrNot(kinds.Of(k), Requests(trace, k, j, lk));
    }
  }

  /** With fewer than 2^32 stops of a kind while the command waits: it passes the
      check exactly when no stop that covers it was requested between its
      stamping and the load that opens its apply. */
  lemma StartsPassExactlyWhenNotStopped(c: Command, s: Shared, trace: seq<Step>, i: nat, j: nat, la: nat, lk: nat, n: nat)
    requires IsStart(c) && i <= j <= |trace|
    requires LastLoad(trace, StopAll, la, n) && i <= la && Requests(trace, StopAll, i, la) < WRAP32
    requires CoveringKind(c).Some? ==>
               LastLoad(trace, CoveringKind(c).value, lk, n) && j <= lk && Requests(trace, CoveringKind(c).value, j, lk) < WRAP32
    ensures !Stale(StampedAt(c, s, trace, i, j), At(s, trace, n).applied) <==>
            (&& (forall p :: i <= p < la ==> trace[p] != Request(StopAll))
             && (CoveringKind(c).Some? ==> forall p :: j <= p < lk ==> trace[p] != Request(CoveringKind(c).value)))
  {
    StaleCountsStops(c, s, trace, i, j, la, lk, n);
    NoneCounted(trace, StopAll, i, la);
    if CoveringKind(c).Some? { NoneCounted(trace, CoveringKind(c).value, j, lk); }
  }

  /** Stops of one kind never touch another kind's counter, so a burst of one
      cannot cancel what it does not cover. */
  lemma {:induction false} KindsAreSeparate(s: Shared, trace: seq<Step>, k: StopKind, n: nat)
    requires n <= |trace| && forall p :: 0 <= p < n ==> trace[p].Request? ==> trace[p].kind != k
    ensures At(s, trace, n).epoch.Of(k) == s.epoch.Of(k)
  {
    if n != 0 { KindsAreSeparate(s, trace, k, n - 1); }
  }
}
