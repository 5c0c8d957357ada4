/** What the serial input should do, on whole streams: cut it into lines, and
    while it is quarantined wait for one particular line
    (lib/CloudSync/UsbWifi.cpp). */
module LineSpec {
  import opened Common
  import opened Storage

  const LF: Octet := 10
  const CR: Octet := 13
  const CAP: nat := 160
  const QUIET_GAP_MS: nat := 50
  // "version"
  const RESYNC: seq<Octet> := [118, 101, 114, 115, 105, 111, 110]

  predicate IsEnd(b: Octet) {
    b == LF || b == CR
  }

  // ---- lines ----

  datatype Token = Line(text: seq<Octet>) | TooLong | Invalid

  /** What a finished line counts as; an empty one as nothing. */
  function Classified(line: seq<Octet>): Option<Token> {
    if CAP <= |line| then Some(TooLong)
    else if 0 in line then Some(Invalid)
    else if line == [] then None
    else Some(Line(line))
  }

  /** The unfinished line and the tokens after a stream of bytes. */
  function Tokens(line: seq<Octet>, bytes: seq<Octet>): (seq<Octet>, seq<Token>) {
    if bytes == [] then (line, [])
    else
      var (l, out) := Tokens(line, bytes[..|bytes| - 1]);
      var b := bytes[|bytes| - 1];
      if !IsEnd(b) then (l + [b], out)
      else if Classified(l).Some? then ([], out + [Classified(l).value])
      else ([], out)
  }

  lemma TokensSnoc(line: seq<Octet>, bytes: seq<Octet>, b: Octet)
    ensures var (l, out) := Tokens(line, bytes);
            Tokens(line, bytes + [b]) ==
              if !IsEnd(b) then (l + [b], out)
              else if Classified(l).Some? then ([], out + [Classified(l).value])
              else ([], out)
  {
    assert (bytes + [b])[..|bytes|] == bytes;
  }

  /** The stream may be read in pieces: tokens do not depend on where it is split. */
  lemma {:induction false} TokensAppend(line: seq<Octet>, a: seq<Octet>, b: seq<Octet>)
    ensures var (l, out) := Tokens(line, a); var (m, more) := Tokens(l, b);
            Tokens(line, a + b) == (m, out + more)
  {
    if b == [] {
      assert a + b == a;
      assert Tokens(line, a).1 + [] == Tokens(line, a).1;
    } else {
      var n := |b| - 1;
      TokensAppend(line, a, b[..n]);
      assert a + b == (a + b[..n]) + [b[n]];
      TokensSnoc(line, a + b[..n], b[n]);
      var (l, out) := Tokens(line, a);
      var (m, more) := Tokens(l, b[..n]);
      if IsEnd(b[n]) && Classified(m).Some? {
        assert (out + more) + [Classified(m).value] == out + (more + [Classified(m).value]);
      }
    }
  }

  /** Whether a LF follows a CR makes no difference to the tokens. */
  lemma PairedLfIsNothing(line: seq<Octet>, bytes: seq<Octet>)
    requires bytes != [] && bytes[|bytes| - 1] == CR
    ensures Tokens(line, bytes + [LF]) == Tokens(line, bytes)
  {
    TokensSnoc(line, bytes, LF);
  }

  // ---- lines said of the stream itself ----

  /** Bytes none of which is a line feed (10) or a carriage return (13). */
  predicate Unbroken(run: seq<Octet>) {
    10 !in run && 13 !in run
  }

  /** Runs of bytes, each with the byte that ends it. */
  function Joined(runs: seq<seq<Octet>>, ends: seq<Octet>): seq<Octet>
    requires |ends| == |runs|
  {
    if runs == [] then []
    else var n := |runs| - 1; Joined(runs[..n], ends[..n]) + runs[n] + [ends[n]]
  }

  /** What the runs are handed on as: one of 160 bytes or more as too long, one with a
      zero byte as invalid, an empty one not at all, any other as it is. */
  function HandedOn(runs: seq<seq<Octet>>): seq<Token> {
    if runs == [] then []
    else
      var n := |runs| - 1;
      var run := runs[n];
      HandedOn(runs[..n]) +
      if 160 <= |run| then [TooLong] else if 0 in run then [Invalid] else if run == [] then [] else [Line(run)]
  }

  lemma {:induction false} UnbrokenIsKept(line: seq<Octet>, run: seq<Octet>)
    requires Unbroken(run)
    ensures Tokens(line, run) == (line + run, [])
  {
    if run == [] {
      assert line + [] == line;
    } else {
      var n := |run| - 1;
      assert Unbroken(run[..n]) && run[n] in run;
      UnbrokenIsKept(line, run[..n]);
      assert line + run == line + run[..n] + [run[n]];
    }
  }

  /** The lines of a stream are its maximal runs of bytes other than 10 and 13. */
  lemma {:induction false} LinesAreTheRuns(runs: seq<seq<Octet>>, ends: seq<Octet>, last: seq<Octet>)
    requires |ends| == |runs| && Unbroken(last)
    requires forall i :: 0 <= i < |runs| ==> Unbroken(runs[i]) && (ends[i] == 10 || ends[i] == 13)
    ensures Tokens([], Joined(runs, ends) + last) == (last, HandedOn(runs))
  {
    hide Tokens, Unbroken, Classified;
    TokensAppend([], Joined(runs, ends), last);
    EndedRuns(runs, ends);
    UnbrokenIsKept([], last);
    assert [] + last == last && HandedOn(runs) + [] == HandedOn(runs);
  }

  lemma {:induction false} EndedRuns(runs: seq<seq<Octet>>, ends: seq<Octet>)
    requires |ends| == |runs|
    requires forall i :: 0 <= i < |runs| ==> Unbroken(runs[i]) && (ends[i] == 10 || ends[i] == 13)
    ensures Tokens([], Joined(runs, ends)) == ([], HandedOn(runs))
  {
    hide Unbroken;
    if runs != [] {
      var n := |runs| - 1;
      var run, before := runs[n], Joined(runs[..n], ends[..n]);
      EndedRuns(runs[..n], ends[..n]);
      UnbrokenIsKept([], run);
      assert [] + run == run;
      TokensAppend([], before, run);
      assert HandedOn(runs[..n]) + [] == HandedOn(runs[..n]);
      TokensSnoc([], before + run, ends[n]);
      hide Tokens;
    }
  }

  /** And every stream is such runs. */
  lemma {:induction false} EveryStreamIsRuns(bytes: seq<Octet>)
    returns (runs: seq<seq<Octet>>, ends: seq<Octet>, last: seq<Octet>)
    ensures |ends| == |runs| && Unbroken(last)
    ensures forall i :: 0 <= i < |runs| ==> Unbroken(runs[i]) && (ends[i] == 10 || ends[i] == 13)
    ensures bytes == Joined(runs, ends) + last
  {
    if bytes == [] {
      runs, ends, last := [], [], [];
    } else {
      var n := |bytes| - 1;
      runs, ends, last := EveryStreamIsRuns(bytes[..n]);
      var b := bytes[n];
      assert bytes == bytes[..n] + [b];
      if b == 10 || b == 13 {
        assert (runs + [last])[..|runs|] == runs && (ends + [b])[..|ends|] == ends;
        runs, ends, last := runs + [last], ends + [b], [];
      } else {
        assert Joined(runs, ends) + last + [b] == Joined(runs, ends) + (last + [b]);
        last := last + [b];
      }
    }
  }

  // ---- quarantine ----

  /** A byte and the time it was read at (a 32-bit millisecond clock). */
  datatype Arrival = Arrival(byte: Octet, at: U32)

  /** Silence before the k-th byte, on a clock that wraps. */
  predicate Gap(e: seq<Arrival>, start: U32, k: nat)
    requires k < |e|
  {
    QUIET_GAP_MS <= (e[k].at - if k == 0 then start else e[k - 1].at) % 0x1_0000_0000
  }

  function Folded(b: Octet): Octet {
    if 65 <= b <= 90 then b + 32 else b
  }

  /** The bytes from s up to i spell the resync word, in any case. */
  predicate Spells(e: seq<Arrival>, s: nat, i: nat)
    requires s <= i <= |e|
  {
    i - s == |RESYNC| && forall j :: 0 <= j < |RESYNC| ==> Folded(e[s + j].byte) == RESYNC[j]
  }

  /** Only line ends from k up to s. */
  predicate OnlyEnds(e: seq<Arrival>, k: nat, s: nat)
    requires k <= s <= |e|
  {
    forall j :: k <= j < s ==> IsEnd(e[j].byte)
  }

  /** The i-th byte ends a line that is exactly the resync word and that began
      after silence: silence before its first byte, or before some line end of
      the run of line ends just before it. */
  ghost predicate ResyncAt(e: seq<Arrival>, start: U32, i: nat)
    requires i < |e|
  {
    && IsEnd(e[i].byte)
    && |RESYNC| <= i
    && Spells(e, i - |RESYNC|, i)
    && (var s := i - |RESYNC|;
        && (s == 0 || IsEnd(e[s - 1].byte))
        && exists k :: 0 <= k <= s && Gap(e, start, k) && OnlyEnds(e, k, s))
  }

  // ---- the quarantine's own bookkeeping ----

  datatype Watch = Watch(last: U32, quietBefore: bool, lineQuiet: bool, inLine: bool, mismatch: bool, matched: nat)

  function WatchStart(now: U32): Watch {
    Watch(now, false, false, false, false, 0)
  }

  /** One byte; the second result says that the quarantine is over. */
  function Watched(w: Watch, a: Arrival): (Watch, bool) {
    var afterQuiet := QUIET_GAP_MS <= (a.at - w.last) % 0x1_0000_0000;
    if IsEnd(a.byte) then
      if !w.inLine then (w.(last := a.at, quietBefore := w.quietBefore || afterQuiet), false)
      else (Watch(a.at, afterQuiet, false, false, false, 0), w.lineQuiet && !w.mismatch && w.matched == |RESYNC|)
    else
      var quiet := if w.inLine then w.lineQuiet else w.quietBefore || afterQuiet;
      var before := if w.inLine then w.quietBefore else false;
      if w.mismatch then (Watch(a.at, before, quiet, true, true, w.matched), false)
      else if w.matched < |RESYNC| && Folded(a.byte) == RESYNC[w.matched]
      then (Watch(a.at, before, quiet, true, false, w.matched + 1), false)
      else (Watch(a.at, before, quiet, true, true, w.matched), false)
  }

  /** The watch after a stream of bytes; None once a byte has ended the quarantine. */
  function WatchAfter(w: Watch, e: seq<Arrival>): Option<Watch> {
    if e == [] then Some(w)
    else
      var before := WatchAfter(w, e[..|e| - 1]);
      if before.None? || Watched(before.value, e[|e| - 1]).1 then None
      else Some(Watched(before.value, e[|e| - 1]).0)
  }

  /** Where the line that reaches up to n began. */
  function LineStart(e: seq<Arrival>, n: nat): (s: nat)
    requires n <= |e|
    ensures s <= n && (s == 0 || IsEnd(e[s - 1].byte))
    ensures forall j :: s <= j < n ==> !IsEnd(e[j].byte)
  {
    if n == 0 || IsEnd(e[n - 1].byte) then n else LineStart(e, n - 1)
  }

  /** Silence before some line end of the run of line ends just before n. */
  predicate QuietLead(e: seq<Arrival>, start: U32, n: nat)
    requires n <= |e|
  {
    0 < n && IsEnd(e[n - 1].byte) && (Gap(e, start, n - 1) || QuietLead(e, start, n - 1))
  }

  predicate Prefixed(e: seq<Arrival>, s: nat, n: nat)
    requires s <= n <= |e|
  {
    n - s <= |RESYNC| && forall j :: 0 <= j < n - s ==> Folded(e[s + j].byte) == RESYNC[j]
  }

  /** What the watch knows after n bytes without a resync. */
  predicate Knows(w: Watch, e: seq<Arrival>, start: U32, n: nat)
    requires n <= |e|
  {
    var s := LineStart(e, n);
    && w.last == (if n == 0 then start else e[n - 1].at)
    && w.inLine == (s < n)
    && w.quietBefore == (s == n && QuietLead(e, start, n))
    && w.lineQuiet == (s < n && (Gap(e, start, s) || QuietLead(e, start, s)))
    && w.mismatch == !Prefixed(e, s, n)
    && (!w.mismatch ==> w.matched == n - s)
  }

  lemma OneMoreMatches(e: seq<Arrival>, s: nat, n: nat)
    requires s <= n < |e|
    ensures Prefixed(e, s, n + 1) <==>
              Prefixed(e, s, n) && n - s < |RESYNC| && Folded(e[n].byte) == RESYNC[n - s]
  {
    if Prefixed(e, s, n + 1) {
      assert Folded(e[s + (n - s)].byte) == RESYNC[n - s];
    }
  }

  lemma WholeWordMatches(e: seq<Arrival>, s: nat, n: nat)
    requires s <= n <= |e|
    ensures Spells(e, s, n) <==> Prefixed(e, s, n) && n - s == |RESYNC|
    ensures Prefixed(e, n, n)
  {
  }

  /** The watch, one byte on, knows what there is to know; and it lets go exactly
      at the end of a quiet line that is the resync word. */
  lemma OneByte(w: Watch, e: seq<Arrival>, start: U32, n: nat)
    requires n < |e| && Knows(w, e, start, n)
    ensures Knows(Watched(w, e[n]).0, e, start, n + 1)
    ensures var s := LineStart(e, n);
            Watched(w, e[n]).1 <==>
              IsEnd(e[n].byte) && s < n && Spells(e, s, n) && (Gap(e, start, s) || QuietLead(e, start, s))
  {
    hide Prefixed, Spells, Folded;
    var s := LineStart(e, n);
    WholeWordMatches(e, s, n);
    OneMoreMatches(e, s, n);
    if IsEnd(e[n].byte) {
      WholeWordMatches(e, n + 1, n + 1);
      assert LineStart(e, n + 1) == n + 1;
      assert s < n ==> !QuietLead(e, start, n);
    }
  }

  lemma {:induction false} QuietLeadMeans(e: seq<Arrival>, start: U32, n: nat)
    requires n <= |e|
    ensures QuietLead(e, start, n) <==> exists k :: 0 <= k < n && Gap(e, start, k) && OnlyEnds(e, k, n)
  {
    if 0 < n && IsEnd(e[n - 1].byte) {
      QuietLeadMeans(e, start, n - 1);
      if Gap(e, start, n - 1) {
        assert OnlyEnds(e, n - 1, n);
      } else if QuietLead(e, start, n - 1) {
        var k :| 0 <= k < n - 1 && Gap(e, start, k) && OnlyEnds(e, k, n - 1);
        assert OnlyEnds(e, k, n);
      }
      forall k | 0 <= k < n && Gap(e, start, k) && OnlyEnds(e, k, n)
        ensures QuietLead(e, start, n)
      {
        if k < n - 1 { assert OnlyEnds(e, k, n - 1); }
      }
    }
  }

  /** The watch lets go at a byte exactly when the stream resyncs there. */
  lemma LetsGoExactlyAtResync(w: Watch, e: seq<Arrival>, start: U32, n: nat)
    requires n < |e| && Knows(w, e, start, n)
    ensures Watched(w, e[n]).1 <==> ResyncAt(e, start, n)
  {
    hide Watched, Knows, Gap;
    OneByte(w, e, start, n);
    var s := LineStart(e, n);
    QuietLeadMeans(e, start, s);
    if IsEnd(e[n].byte) && s < n && Spells(e, s, n) {
      assert OnlyEnds(e, s, s);
    }
    if |RESYNC| <= n && Spells(e, n - |RESYNC|, n) && (n == |RESYNC| || IsEnd(e[n - |RESYNC| - 1].byte)) {
      ResyncWordHasNoEnds(e, n);
    }
  }

  lemma ResyncWordHasNoEnds(e: seq<Arrival>, n: nat)
    requires n <= |e| && |RESYNC| <= n && Spells(e, n - |RESYNC|, n)
    requires n == |RESYNC| || IsEnd(e[n - |RESYNC| - 1].byte)
    ensures LineStart(e, n) == n - |RESYNC|
  {
    var s := n - |RESYNC|;
    forall j | s <= j < n
      ensures !IsEnd(e[j].byte)
    {
      assert Folded(e[s + (j - s)].byte) == RESYNC[j - s];
    }
  }

  /** Quarantine over whole streams: from its start it stays on through every
      byte up to the first resync, and ends there. */
  lemma {:induction false} QuarantineLastsUntilResync(e: seq<Arrival>, start: U32, n: nat)
    requires n <= |e|
    ensures WatchAfter(WatchStart(start), e[..n]).Some? <==> forall i :: 0 <= i < n ==> !ResyncAt(e, start, i)
    ensures WatchAfter(WatchStart(start), e[..n]).Some? ==> Knows(WatchAfter(WatchStart(start), e[..n]).value, e, start, n)
  {
    hide Watched, Knows, ResyncAt;
    if n == 0 {
      assert e[..0] == [];
      AtTheStart(e, start);
    } else {
      QuarantineLastsUntilResync(e, start, n - 1);
      assert e[..n][..n - 1] == e[..n - 1];
      var before := WatchAfter(WatchStart(start), e[..n - 1]);
      if before.Some? {
        OneByte(before.value, e, start, n - 1);
        LetsGoExactlyAtResync(before.value, e, start, n - 1);
      }
    }
  }

  lemma AtTheStart(e: seq<Arrival>, start: U32)
    ensures Knows(WatchStart(start), e, start, 0)
  {
  }
}
