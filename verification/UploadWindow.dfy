/** Which diary records an upload sends, and why none is skipped
    (lib/BatteryDiary/UsageUpload.h, lib/CloudSync/CloudSync.cpp). */
module UploadWindow {
  import opened Common
  import opened Storage

  /** A diary record: its sequence number, and the rest of it. */
  datatype Logged = Logged(seqNo: U32, rest: seq<Octet>)

  datatype Window = Window(first: nat, count: nat, complete: bool)

  // ---- what a window keeps ----

  /** The records above `previous` and above every one kept before. */
  function Fresh(s: seq<Logged>, previous: U32): seq<Logged> {
    if s == [] then []
    else if s[0].seqNo <= previous then Fresh(s[1..], previous)
    else [s[0]] + Fresh(s[1..], s[0].seqNo)
  }

  predicate Increasing(s: seq<Logged>, previous: U32) {
    s == [] || (previous < s[0].seqNo && Increasing(s[1..], s[0].seqNo))
  }

  /** One after the other from the acknowledged one on; after 0 any may follow. */
  predicate Consecutive(s: seq<Logged>, previous: U32) {
    s == [] || (previous < s[0].seqNo && (previous == 0 || s[0].seqNo == previous + 1) && Consecutive(s[1..], s[0].seqNo))
  }

  /** The positions at[k] pick s out of t, in order. */
  ghost predicate PicksOut(at: seq<nat>, s: seq<Logged>, t: seq<Logged>) {
    && |at| == |s|
    && (forall k :: 0 <= k < |at| ==> at[k] < |t| && t[at[k]] == s[k])
    && (forall k, l :: 0 <= k < l < |at| ==> at[k] < at[l])
  }

  function UpByOne(at: seq<nat>): (r: seq<nat>)
    ensures |r| == |at| && forall k :: 0 <= k < |at| ==> r[k] == at[k] + 1
  {
    seq(|at|, k requires 0 <= k < |at| => at[k] + 1)
  }

  lemma PickedLater(at: seq<nat>, s: seq<Logged>, x: Logged, t: seq<Logged>)
    requires PicksOut(at, s, t)
    ensures PicksOut(UpByOne(at), s, [x] + t)
  {
  }

  lemma PickedFirst(at: seq<nat>, s: seq<Logged>, x: Logged, t: seq<Logged>)
    requires PicksOut(at, s, t)
    ensures PicksOut([0] + UpByOne(at), [x] + s, [x] + t)
  {
  }

  /** What is kept is part of the input in its order, strictly increasing. */
  lemma {:induction false} FreshIsIncreasing(s: seq<Logged>, previous: U32) returns (at: seq<nat>)
    ensures Increasing(Fresh(s, previous), previous)
    ensures PicksOut(at, Fresh(s, previous), s)
  {
    hide PicksOut;
    if s == [] {
      at := [];
      NoneToPick();
    } else {
      assert s == [s[0]] + s[1..];
      if s[0].seqNo <= previous {
        var rest := FreshIsIncreasing(s[1..], previous);
        PickedLater(rest, Fresh(s[1..], previous), s[0], s[1..]);
        at := UpByOne(rest);
      } else {
        var rest := FreshIsIncreasing(s[1..], s[0].seqNo);
        PickedFirst(rest, Fresh(s[1..], s[0].seqNo), s[0], s[1..]);
        assert Fresh(s, previous)[1..] == Fresh(s[1..], s[0].seqNo);
        at := [0] + UpByOne(rest);
      }
    }
  }

  lemma NoneToPick()
    ensures PicksOut([], [], [])
  {
  }

  /** Nothing is dropped from records that already increase. */
  lemma {:induction false} FreshKeepsIncreasing(s: seq<Logged>, previous: U32)
    requires Increasing(s, previous)
    ensures Fresh(s, previous) == s
  {
    if s != [] { FreshKeepsIncreasing(s[1..], s[0].seqNo); }
  }

  lemma {:induction false} ConsecutiveIsIncreasing(s: seq<Logged>, previous: U32)
    requires Consecutive(s, previous)
    ensures Increasing(s, previous)
  {
    if s != [] { ConsecutiveIsIncreasing(s[1..], s[0].seqNo); }
  }

  function Newest(s: seq<Logged>, previous: U32): U32 {
    if s == [] then previous else s[|s| - 1].seqNo
  }

  lemma {:induction false} FreshSnoc(s: seq<Logged>, previous: U32, r: Logged)
    ensures var kept := Fresh(s, previous);
            Fresh(s + [r], previous) == if r.seqNo <= Newest(kept, previous) then kept else kept + [r]
  {
    if s == [] {
      assert [r][1..] == [];
    } else {
      assert (s + [r])[1..] == s[1..] + [r];
      FreshSnoc(s[1..], if s[0].seqNo <= previous then previous else s[0].seqNo, r);
    }
  }

  predicate AllAcked(s: seq<Logged>, acked: U32) {
    forall i :: 0 <= i < |s| ==> s[i].seqNo <= acked
  }

  function Min(a: nat, b: nat): nat {
    if a < b then a else b
  }

  /** The records of a ring not yet acknowledged. */
  function Unsent(ring: seq<Logged>, acked: U32): seq<Logged> {
    if ring == [] || acked < ring[0].seqNo then ring else Unsent(ring[1..], acked)
  }

  /** What one upload sends of a ring. */
  function Sent(ring: seq<Logged>, acked: U32, max: nat): seq<Logged> {
    Fresh(Unsent(ring, acked)[..Min(|Unsent(ring, acked)|, max)], acked)
  }

  lemma {:induction false} UnsentFrom(s: seq<Logged>, acked: U32, first: nat)
    requires first <= |s| && AllAcked(s[..first], acked) && (first < |s| ==> acked < s[first].seqNo)
    ensures Unsent(s, acked) == s[first..]
  {
    if first != 0 {
      assert s[..first][0] == s[0];
      assert s[1..][..first - 1] == s[..first][1..];
      UnsentFrom(s[1..], acked, first - 1);
    }
  }

  // ---- the window, in place ----

  /** The first record not acknowledged; the count when there is none. */
  method FirstUnsent(records: array<Logged>, count: nat, acked: U32) returns (first: nat)
    requires count <= records.Length
    ensures first <= count && AllAcked(records[..first], acked)
    ensures first < count ==> acked < records[first].seqNo
  {
    first := 0;
    while first < count && records[first].seqNo <= acked
      invariant first <= count && AllAcked(records[..first], acked)
    {
      first := first + 1;
    }
  }

  lemma NothingYet(acked: U32)
    ensures Fresh([], acked) == [] && Consecutive([], acked)
  {
  }

  /** Compacts records[first..end] in place; says whether all of them were kept
      and follow each other. */
  method Compact(records: array<Logged>, first: nat, end: nat, acked: U32) returns (kept: nat, whole: bool)
    requires first <= end <= records.Length
    modifies records
    ensures first <= kept <= end
    ensures records[first..kept] == Fresh(old(records[first..end]), acked)
    ensures forall i :: 0 <= i < records.Length && !(first <= i < end) ==> records[i] == old(records[i])
    ensures whole == Consecutive(old(records[first..end]), acked)
  {
    hide Fresh, Consecutive, Increasing;
    NothingYet(acked);
    kept, whole := first, true;
    var previous := acked;
    for i := first to end
      invariant first <= kept <= i
      invariant records[first..kept] == Fresh(old(records[first..i]), acked)
      invariant previous == Newest(records[first..kept], acked)
      invariant forall j :: 0 <= j < records.Length && !(first <= j < kept) ==> records[j] == old(records[j])
      invariant whole ==> kept == i
      invariant whole == Consecutive(old(records[first..i]), acked)
    {
      ghost var s := old(records[first..i]);
      ghost var r := records[i];
      assert old(records[first..i + 1]) == s + [r];
      FreshSnoc(s, acked, r);
      OneMoreFollows(s, acked, r);
      if whole {
        ConsecutiveIsIncreasing(s, acked);
        FreshKeepsIncreasing(s, acked);
      }
      if records[i].seqNo <= previous {
        whole := false;
        continue;
      }
      if previous != 0 && records[i].seqNo as int != previous + 1 { whole := false; }
      if kept != i { records[kept] := records[i]; }
      previous := records[kept].seqNo;
      kept := kept + 1;
    }
  }

  lemma {:induction false} OneMoreFollows(s: seq<Logged>, previous: U32, r: Logged)
    ensures Consecutive(s + [r], previous) <==>
              && Consecutive(s, previous) && Newest(s, previous) < r.seqNo
              && (Newest(s, previous) == 0 || r.seqNo == Newest(s, previous) + 1)
  {
    if s == [] {
      assert ([] + [r])[1..] == [];
    } else {
      assert (s + [r])[1..] == s[1..] + [r];
      OneMoreFollows(s[1..], s[0].seqNo, r);
    }
  }

  /** Whether the window is known to leave nothing out. */
  predicate Complete(s: seq<Logged>, first: nat, acked: U32, truncated: bool, max: nat)
    requires first < |s|
  {
    && |s| - first <= max
    && Consecutive(s[first..], acked)
    && (truncated ==> s[first].seqNo == acked + 1)
  }

  /** The oldest unsent records, compacted where they stand. */
  method SelectWindow(records: array<Logged>, count: nat, acked: U32, tailTruncated: bool, maxRecords: nat)
    returns (w: Window)
    requires count <= records.Length
    modifies records
    ensures w.first + w.count <= count
    ensures records[w.first..w.first + w.count] == Sent(old(records[..count]), acked, maxRecords)
    ensures w.complete <==> (w.count == 0 || Complete(old(records[..count]), w.first, acked, tailTruncated, maxRecords))
    ensures forall i :: 0 <= i < records.Length && !(w.first <= i < Min(count, w.first + maxRecords))
              ==> records[i] == old(records[i])
  {
    hide Fresh, Consecutive, Unsent, AllAcked;
    if count == 0 || maxRecords == 0 {
      NothingSent(records[..count], acked, maxRecords);
      return Window(0, 0, true);
    }
    var first := FirstUnsent(records, count, acked);
    ghost var s := records[..count];
    assert s[..first] == records[..first];
    UnsentFrom(s, acked, first);
    if first == count {
      NothingSent(s, acked, maxRecords);
      return Window(0, 0, true);
    }
    var complete := !tailTruncated || records[first].seqNo as int == acked + 1;
    var n := count - first;
    if maxRecords < n {
      n := maxRecords;
      complete := false;
    }
    assert s[first..first + n] == s[first..][..n];
    SomethingKept(s[first..first + n], acked);
    assert s[first..first + n] == records[first..first + n];
    var kept, whole := Compact(records, first, first + n, acked);
    w := Window(first, kept - first, complete && whole);
  }

  lemma NothingSent(s: seq<Logged>, acked: U32, max: nat)
    requires max == 0 || Unsent(s, acked) == [] || s == []
    ensures Sent(s, acked, max) == []
  {
    assert Unsent(s, acked)[..0] == [];
  }

  lemma SomethingKept(s: seq<Logged>, acked: U32)
    requires s != [] && acked < s[0].seqNo
    ensures Fresh(s, acked) != []
  {
  }

  // ---- upload after upload ----

  /** A consecutive list has no gap: its last number counts its length. */
  lemma {:induction false} ConsecutiveHasNoGap(s: seq<Logged>, previous: U32)
    requires Consecutive(s, previous) && s != []
    ensures s[|s| - 1].seqNo == s[0].seqNo + |s| - 1
    ensures previous != 0 ==> s[0].seqNo == previous + 1
  {
    if |s| > 1 {
      ConsecutiveHasNoGap(s[1..], s[0].seqNo);
    }
  }

  /** A window said to be complete leaves nothing out: it is all there is above
      the acknowledged record, without a gap, also just after that record. */
  lemma CompleteLeavesNothingOut(s: seq<Logged>, first: nat, acked: U32, truncated: bool, max: nat)
    requires first < |s| && Complete(s, first, acked, truncated, max)
    ensures Fresh(s[first..Min(|s|, first + max)], acked) == s[first..]
    ensures s[|s| - 1].seqNo == s[first].seqNo + (|s| - first) - 1
    ensures acked != 0 || truncated ==> s[first].seqNo == acked + 1
  {
    var t := s[first..];
    assert Min(|s|, first + max) == |s| && s[first..|s|] == t && t[0] == s[first] && t[|t| - 1] == s[|s| - 1];
    ConsecutiveIsIncreasing(t, acked);
    FreshKeepsIncreasing(t, acked);
    ConsecutiveHasNoGap(t, acked);
  }

  /** A ring in order, as the diary writes it. */
  predicate Ordered(ring: seq<Logged>) {
    ring == [] || Increasing(ring[1..], ring[0].seqNo)
  }

  lemma {:induction false} UnsentIsIncreasing(ring: seq<Logged>, acked: U32)
    requires Ordered(ring)
    ensures Increasing(Unsent(ring, acked), acked)
    ensures forall r :: r in ring && acked < r.seqNo ==> r in Unsent(ring, acked)
  {
    if ring != [] && ring[0].seqNo <= acked {
      UnsentIsIncreasing(ring[1..], acked);
      assert ring == [ring[0]] + ring[1..];
    }
  }

  lemma {:induction false} PrefixIncreases(s: seq<Logged>, previous: U32, n: nat)
    requires Increasing(s, previous) && n <= |s|
    ensures Increasing(s[..n], previous)
  {
    if 0 < n {
      PrefixIncreases(s[1..], s[0].seqNo, n - 1);
      assert s[..n][1..] == s[1..][..n - 1];
    }
  }

  /** The oldest max of the unsent records, as they are. */
  lemma SentIsTheOldest(ring: seq<Logged>, acked: U32, max: nat)
    requires Ordered(ring)
    ensures var u := Unsent(ring, acked); Sent(ring, acked, max) == u[..Min(|u|, max)]
  {
    var u := Unsent(ring, acked);
    UnsentIsIncreasing(ring, acked);
    PrefixIncreases(u, acked, Min(|u|, max));
    FreshKeepsIncreasing(u[..Min(|u|, max)], acked);
  }

  /** Cutting an increasing list at one of its numbers. */
  lemma {:induction false} CutAt(s: seq<Logged>, previous: U32, n: nat, r: Logged)
    requires Increasing(s, previous) && n <= |s|
    ensures Unsent(s, Newest(s[..n], previous)) == s[n..]
    ensures r in s && r.seqNo <= Newest(s[..n], previous) ==> r in s[..n]
  {
    if n == 0 {
      if s != [] { AboveTheFirst(s, previous, r); }
    } else {
      CutAt(s[1..], s[0].seqNo, n - 1, r);
      assert s[..n] == [s[0]] + s[1..][..n - 1];
      PrefixIncreases(s[1..], s[0].seqNo, n - 1);
      NewestIsNoLess(s[1..][..n - 1], s[0].seqNo);
      assert Newest(s[..n], previous) == Newest(s[1..][..n - 1], s[0].seqNo);
    }
  }

  lemma {:induction false} NewestIsNoLess(s: seq<Logged>, previous: U32)
    requires Increasing(s, previous)
    ensures previous <= Newest(s, previous)
  {
    if s != [] { NewestIsNoLess(s[1..], s[0].seqNo); }
  }

  lemma {:induction false} AboveTheFirst(s: seq<Logged>, previous: U32, r: Logged)
    requires Increasing(s, previous)
    ensures r in s ==> previous < r.seqNo
  {
    if s != [] { AboveTheFirst(s[1..], s[0].seqNo, r); }
  }

  lemma {:induction false} UnsentTwice(ring: seq<Logged>, a: U32, b: U32)
    requires a <= b
    ensures Unsent(Unsent(ring, a), b) == Unsent(ring, b)
  {
    if ring != [] && ring[0].seqNo <= a { UnsentTwice(ring[1..], a, b); }
  }

  /** All that n uploads send when each is acknowledged at its newest record. */
  function Uploads(ring: seq<Logged>, acked: U32, max: nat, n: nat): seq<Logged>
    decreases n
  {
    if n == 0 then []
    else var w := Sent(ring, acked, max); w + Uploads(ring, Newest(w, acked), max, n - 1)
  }

  /** Repeated uploads send every unsent record exactly once, in order, and at
      most max at a time. */
  lemma {:induction false} UploadsSendEachOnce(ring: seq<Logged>, acked: U32, max: nat, n: nat)
    requires Ordered(ring)
    ensures var u := Unsent(ring, acked); Uploads(ring, acked, max, n) == u[..Min(|u|, n * max)]
    decreases n
  {
    hide Sent, Unsent, Increasing, Newest, Min;
    var u := Unsent(ring, acked);
    TimesMax(|u|, n, max);
    if n == 0 {
      assert u[..0] == [];
    } else {
      var k := Min(|u|, max);
      var next := Newest(u[..k], acked);
      SentIsTheOldest(ring, acked, max);
      OnTheNextTime(ring, acked, k);
      UploadsSendEachOnce(ring, next, max, n - 1);
      PiecesJoin(u, k, Min(|u| - k, (n - 1) * max));
    }
  }

  /** n pieces of at most max are one piece, and the others of what is left. */
  lemma TimesMax(len: nat, n: nat, max: nat)
    ensures Min(len, max) <= len
    ensures if n == 0 then Min(len, n * max) == 0
            else 0 <= (n - 1) * max && Min(len, n * max) == Min(len, max) + Min(len - Min(len, max), (n - 1) * max) <= len
  {
    if n != 0 {
      assert n * max == max + (n - 1) * max && 0 <= (n - 1) * max;
    }
  }

  lemma OnTheNextTime(ring: seq<Logged>, acked: U32, k: nat)
    requires Ordered(ring) && k <= |Unsent(ring, acked)|
    ensures var u := Unsent(ring, acked); Unsent(ring, Newest(u[..k], acked)) == u[k..]
  {
    var u := Unsent(ring, acked);
    UnsentIsIncreasing(ring, acked);
    CutAt(u, acked, k, Logged(0, []));
    PrefixIncreases(u, acked, k);
    NewestIsNoLess(u[..k], acked);
    UnsentTwice(ring, acked, Newest(u[..k], acked));
  }

  lemma PiecesJoin(u: seq<Logged>, k: nat, l: nat)
    requires k + l <= |u|
    ensures u[..k] + u[k..][..l] == u[..k + l]
  {
  }

  /** One upload: the ring then, the number acknowledged before, and after. */
  datatype Round = Round(ring: seq<Logged>, acked: U32, answer: U32)

  /** The site may acknowledge any number from the old one to the newest record
      sent; an answer that is not accepted leaves the old one. */
  predicate IsRound(r: Round, max: nat) {
    Ordered(r.ring) && r.acked <= r.answer <= Newest(Sent(r.ring, r.acked, max), r.acked)
  }

  predicate IsRun(rounds: seq<Round>, max: nat) {
    && (forall i :: 0 <= i < |rounds| ==> IsRound(rounds[i], max))
    && (forall i :: 0 < i < |rounds| ==> rounds[i].acked == rounds[i - 1].answer)
  }

  lemma PassedMeansSent(round: Round, max: nat, r: Logged)
    requires IsRound(round, max) && r in round.ring && round.acked < r.seqNo <= round.answer
    ensures r in Sent(round.ring, round.acked, max)
  {
    var u := Unsent(round.ring, round.acked);
    UnsentIsIncreasing(round.ring, round.acked);
    SentIsTheOldest(round.ring, round.acked, max);
    CutAt(u, round.acked, Min(|u|, max), r);
  }

  /** However the rings grow and whatever the site acknowledges, no record still
      in the ring is passed over: once acknowledged, it has been sent. */
  lemma {:induction false} NoRecordIsSkipped(rounds: seq<Round>, max: nat, r: Logged)
    requires IsRun(rounds, max) && rounds != []
    requires forall i :: 0 <= i < |rounds| ==> r in rounds[i].ring
    requires rounds[0].acked < r.seqNo <= rounds[|rounds| - 1].answer
    ensures exists i :: 0 <= i < |rounds| && r in Sent(rounds[i].ring, rounds[i].acked, max)
  {
    var n := |rounds| - 1;
    if rounds[n].acked < r.seqNo {
      PassedMeansSent(rounds[n], max, r);
    } else {
      NoRecordIsSkipped(rounds[..n], max, r);
      var i :| 0 <= i < n && r in Sent(rounds[..n][i].ring, rounds[..n][i].acked, max);
      assert rounds[..n][i] == rounds[i];
    }
  }
}
