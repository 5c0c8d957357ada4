/** The serial line assembler: fields and buffer change byte by byte, and what
    it hands on is what LineSpec says of the whole stream
    (lib/CloudSync/UsbWifi.cpp). */
module LineInput {
  import opened Common
  import opened Storage
  import opened LineSpec

  const PAIR_WAIT_MS: nat := 4
  const BYTES_PER_CALL: nat := 1024

  /** One look at the port: the clock, and the byte waiting then, if any. */
  datatype Moment = Moment(at: U32, waiting: Option<Octet>)

  /** The clock at the next look; `stop` once nothing more will come. */
  function Clock(script: seq<Moment>, stop: U32): U32 {
    if script == [] then stop else script[0].at
  }

  function Waiting(script: seq<Moment>): Option<Octet> {
    if script == [] then None else script[0].waiting
  }

  function Later(script: seq<Moment>): seq<Moment> {
    if script == [] then [] else script[1..]
  }

  /** What is left after the wait for a CR's LF that began at `start`: a LF that
      comes in time is taken, any other byte is left. */
  function AfterPair(script: seq<Moment>, stop: U32, start: U32): seq<Moment> {
    if script == [] then []
    else match script[0].waiting
      case Some(b) => if b == LF then script[1..] else script
      case None =>
        if PAIR_WAIT_MS < (Clock(script[1..], stop) - start) % 0x1_0000_0000 then script[1..]
        else AfterPair(script[1..], stop, start)
  }

  /** Of the looks `before`, those in `after` are left. */
  ghost predicate Left(after: seq<Moment>, before: seq<Moment>) {
    |after| <= |before| && after == before[|before| - |after|..]
  }

  /** The last look found nothing waiting. */
  ghost predicate StoppedAtSilence(after: seq<Moment>, before: seq<Moment>) {
    && Left(after, before)
    && (after == [] || (|after| < |before| && before[|before| - |after| - 1].waiting.None?))
  }

  lemma AllLeft(s: seq<Moment>)
    ensures Left(s, s)
  {
  }

  lemma OneLook(s: seq<Moment>, before: seq<Moment>)
    requires Left(s, before)
    ensures Left(Later(s), before)
    ensures Waiting(s).None? ==> StoppedAtSilence(Later(s), before)
  {
  }

  lemma LeftOfLeft(a: seq<Moment>, b: seq<Moment>, c: seq<Moment>)
    requires Left(a, b) && Left(b, c)
    ensures Left(a, c)
    ensures StoppedAtSilence(a, b) ==> StoppedAtSilence(a, c)
  {
  }

  /** The serial port: a script of looks to come, and the bytes taken so far. */
  class Port {
    var script: seq<Moment>
    const stop: U32
    ghost var taken: seq<Arrival>

    constructor (script: seq<Moment>, stop: U32)
      ensures this.script == script && this.stop == stop && taken == []
    {
      this.script, this.stop, taken := script, stop, [];
    }

    method Now() returns (t: U32)
      ensures t == Clock(script, stop)
    {
      t := if script == [] then stop else script[0].at;
    }

    method Read() returns (b: Option<Octet>)
      modifies this
      ensures b == Waiting(old(script)) && script == Later(old(script))
      ensures taken == if b.Some? then old(taken) + [Arrival(b.value, old(Clock(script, stop)))] else old(taken)
    {
      if script == [] { return None; }
      b := script[0].waiting;
      if b.Some? { taken := taken + [Arrival(b.value, script[0].at)]; }
      script := script[1..];
    }

    /** A look that takes no byte; with none waiting, time goes on. */
    method Peek() returns (b: Option<Octet>)
      modifies this`script
      ensures b == Waiting(old(script))
      ensures script == if b.Some? then old(script) else Later(old(script))
    {
      if script == [] { return None; }
      b := script[0].waiting;
      if b.None? { script := script[1..]; }
    }
  }

  /** A byte more, or none: at most one LF was taken. */
  ghost predicate AtMostLf(before: seq<Arrival>, after: seq<Arrival>) {
    after == before || (exists t: U32 :: after == before + [Arrival(LF, t)])
  }

  lemma NothingTaken(taken: seq<Arrival>)
    ensures AtMostLf(taken, taken)
  {
  }

  method TakePairedLf(port: Port)
    modifies port
    ensures port.script == AfterPair(old(port.script), port.stop, old(Clock(port.script, port.stop)))
    ensures AtMostLf(old(port.taken), port.taken) && Left(port.script, old(port.script))
  {
    var start := port.Now();
    while port.script != []
      invariant AfterPair(port.script, port.stop, start) == AfterPair(old(port.script), port.stop, start)
      invariant port.taken == old(port.taken) && Left(port.script, old(port.script))
      decreases |port.script|
    {
      var b := port.Peek();
      if b.Some? {
        if b.value == LF { b := port.Read(); }
        return;
      }
      var now := port.Now();
      if PAIR_WAIT_MS < (now as int - start) % 0x1_0000_0000 { return; }
    }
  }

  function Bytes(e: seq<Arrival>): (s: seq<Octet>)
    ensures |s| == |e|
  {
    seq(|e|, i requires 0 <= i < |e| => e[i].byte)
  }

  predicate Blank(s: seq<Octet>) {
    forall i :: 0 <= i < |s| ==> s[i] == 0
  }

  class LineInput {
    const buf: array<Octet>
    var len: nat
    var overflow: bool
    var nul: bool
    var quarantined: bool
    var lastByteMs: U32
    var quietBefore: bool
    var lineQuiet: bool
    var inLine: bool
    var mismatch: bool
    var matched: nat
    // the bytes of the unfinished line
    ghost var part: seq<Octet>
    // since when the quarantine lasts, and the bytes it has heard
    ghost var since: U32
    ghost var heard: seq<Arrival>

    ghost function TheWatch(): Watch
      reads this
    {
      Watch(lastByteMs, quietBefore, lineQuiet, inLine, mismatch, matched)
    }

    /** The buffer holds the unfinished line, or nothing of one that is too long. */
    ghost predicate Holds()
      reads this, buf
    {
      && buf.Length == CAP
      && overflow == (CAP <= |part|)
      && (if overflow then len == 0 else len == |part| && buf[..len] == part && nul == (0 in part))
    }

    ghost predicate Valid()
      reads this, buf
    {
      && Holds()
      && (quarantined ==>
            && part == [] && Blank(buf[..])
            && WatchAfter(WatchStart(since), heard) == Some(TheWatch()))
    }

    constructor ()
      ensures Valid() && fresh(buf) && part == [] && !quarantined && Blank(buf[..])
    {
      buf := new Octet[CAP](_ => 0);
      len, overflow, nul, quarantined := 0, false, false, false;
      lastByteMs, quietBefore, lineQuiet, inLine, mismatch, matched := 0, false, false, false, false, 0;
      part, heard := [], [];
    }

    method Blot()
      modifies buf
      ensures Blank(buf[..])
    {
      for i := 0 to buf.Length
        invariant forall k :: 0 <= k < i ==> buf[k] == 0
      {
        buf[i] := 0;
      }
    }

    /** Called once a line has been handled: nothing of it stays. */
    method Wipe()
      requires buf.Length == CAP && part == [] && !overflow && !nul
      modifies this`len, buf
      ensures Holds() && Blank(buf[..])
      ensures old(Valid()) ==> Valid()
    {
      Blot();
      len := 0;
    }

    method StartWatch(now: U32)
      modifies this`lastByteMs, this`quietBefore, this`lineQuiet, this`inLine, this`mismatch, this`matched
      ensures TheWatch() == WatchStart(now)
    {
      lastByteMs := now;
      quietBefore, lineQuiet, inLine, mismatch, matched := false, false, false, false, 0;
    }

    /** From here on nothing is handed on until the stream resyncs. */
    method Quarantine(now: U32)
      requires buf.Length == CAP
      modifies this, buf
      ensures Valid() && quarantined && since == now && heard == [] && Blank(buf[..])
    {
      hide WatchAfter, Blank;
      NothingHeard(now);
      StartWatch(now);
      quarantined := true;
      Blot();
      len, overflow, nul := 0, false, false;
      part, since, heard := [], now, [];
    }

    /** One quarantined byte: only how it fits the resync word is kept. */
    method Hear(b: Octet, now: U32) returns (resync: bool)
      modifies this`lastByteMs, this`quietBefore, this`lineQuiet, this`inLine, this`mismatch, this`matched
      ensures (TheWatch(), resync) == Watched(old(TheWatch()), Arrival(b, now))
    {
      var afterQuiet := QUIET_GAP_MS <= (now as int - lastByteMs) % 0x1_0000_0000;
      lastByteMs := now;
      if b == LF || b == CR {
        if !inLine {
          quietBefore := quietBefore || afterQuiet;
          return false;
        }
        resync := lineQuiet && !mismatch && matched == |RESYNC|;
        inLine, mismatch, matched, lineQuiet := false, false, 0, false;
        quietBefore := afterQuiet;
        return;
      }
      if !inLine {
        inLine, lineQuiet, quietBefore := true, quietBefore || afterQuiet, false;
      }
      resync := false;
      if mismatch { return; }
      var folded := if 65 <= b <= 90 then b + 32 else b;
      if matched < |RESYNC| && folded == RESYNC[matched] { matched := matched + 1; } else { mismatch := true; }
    }

    /** The quarantine goes on through every byte but the first resync. */
    method HearNext(b: Octet, now: U32) returns (resync: bool)
      requires Valid() && quarantined
      modifies this`lastByteMs, this`quietBefore, this`lineQuiet, this`inLine, this`mismatch, this`matched, this`heard
      ensures heard == old(heard) + [Arrival(b, now)]
      ensures Holds() && Blank(buf[..]) && if resync then FirstResync(heard, since) else Valid()
    {
      hide Watched, FirstResync, WatchAfter;
      HeardOneMore(TheWatch(), heard, Arrival(b, now), since);
      resync := Hear(b, now);
      heard := heard + [Arrival(b, now)];
    }

    method SpellResync()
      requires buf.Length == CAP && Blank(buf[..])
      modifies buf
      ensures buf[..|RESYNC|] == RESYNC && Blank(buf[|RESYNC|..])
    {
      buf[0], buf[1], buf[2], buf[3] := RESYNC[0], RESYNC[1], RESYNC[2], RESYNC[3];
      buf[4], buf[5], buf[6], buf[7] := RESYNC[4], RESYNC[5], RESYNC[6], 0;
    }

    /** The resync word is handed on as a line, and reading resumes. */
    method Resume(port: Port, b: Octet)
      requires Holds() && part == [] && Blank(buf[..])
      modifies this`quarantined, this`len, buf, port
      ensures Valid() && !quarantined
      ensures buf[..|RESYNC|] == RESYNC && Blank(buf[|RESYNC|..])
      ensures AtMostLf(old(port.taken), port.taken)
    {
      hide Left, AfterPair, WatchAfter, Blank, AtMostLf;
      quarantined := false;
      SpellResync();
      len := 0;
      assert buf[..len] == part;
      assert AtMostLf(port.taken, port.taken) by { NothingTaken(port.taken); }
      if b == CR { TakePairedLf(port); }
    }

    /** In quarantine: nothing is handed on and nothing read is kept, until the
        first resync of all that was heard since it began. */
    method NextInQuarantine(port: Port) returns (r: Option<Token>, ghost more: seq<Arrival>)
      requires Valid() && quarantined
      modifies this, buf, port
      ensures Valid() && part == [] && since == old(since)
      ensures heard == old(heard) + more && |more| <= BYTES_PER_CALL
      ensures r.None? ==>
        && quarantined && port.taken == old(port.taken) + more && buf[..] == old(buf[..])
        && (forall i :: 0 <= i < |heard| ==> !ResyncAt(heard, since, i))
        && (|more| == BYTES_PER_CALL || StoppedAtSilence(port.script, old(port.script)))
      ensures r.Some? ==>
        && !quarantined && AtMostLf(old(port.taken) + more, port.taken)
        && r.value == Line(RESYNC) && buf[..|RESYNC|] == RESYNC && Blank(buf[|RESYNC|..])
        && FirstResync(heard, since)
    {
      hide WatchAfter, FirstResync, ResyncAt, AtMostLf, Left, StoppedAtSilence, Blank, this.Holds;
      AllLeft(port.script);
      var seen := 0;
      more := [];
      while seen < BYTES_PER_CALL
        invariant Valid() && quarantined && since == old(since) && buf[..] == old(buf[..])
        invariant seen == |more| <= BYTES_PER_CALL
        invariant port.taken == old(port.taken) + more && heard == old(heard) + more
        invariant Left(port.script, old(port.script))
      {
        OneLook(port.script, old(port.script));
        var now := port.Now();
        var b := port.Read();
        if b.None? { break; }
        seen := seen + 1;
        more := more + [Arrival(b.value, now)];
        assert port.taken == old(port.taken) + more;
        var resync := HearNext(b.value, now);
        if resync {
          Resume(port, b.value);
          return Some(Line(RESYNC)), more;
        }
      }
      assert heard[..|heard|] == heard;
      QuarantineLastsUntilResync(heard, since, |heard|);
      r := None;
    }

    /** A byte of a line: kept while there is room; a line that is too long is
        wiped at once. */
    method Keep(b: Octet)
      requires Valid() && !quarantined && !IsEnd(b)
      modifies this`len, this`overflow, this`nul, this`part, buf
      ensures Valid() && part == old(part) + [b]
      ensures !old(overflow) && overflow ==> Blank(buf[..])
      ensures old(overflow) ==> buf[..] == old(buf[..])
    {
      part := part + [b];
      if overflow { return; }
      if b == 0 { nul := true; }
      if CAP <= len + 1 {
        overflow := true;
        Blot();
        len := 0;
        return;
      }
      buf[len] := b;
      len := len + 1;
      assert buf[..len] == part;
    }

    /** The end of a line: a line that is too long or holds a NUL leaves nothing
        in the buffer. */
    method Finish(b: Octet, port: Port) returns (r: Option<Token>)
      requires Valid() && !quarantined && IsEnd(b)
      modifies this`len, this`overflow, this`nul, this`part, buf, port
      ensures Valid() && part == [] && r == Classified(old(part))
      ensures r.None? ==> port.script == old(port.script) && port.taken == old(port.taken)
      ensures Left(port.script, old(port.script)) && |port.script| <= |old(port.script)|
      ensures port.taken == old(port.taken) || (b == CR && AtMostLf(old(port.taken), port.taken))
      ensures r.Some? ==>
        if r.value.Line? then |r.value.text| < CAP && buf[..|r.value.text|] == r.value.text && buf[|r.value.text|] == 0
        else Blank(buf[..])
    {
      ghost var line := part;
      part := [];
      if overflow {
        overflow, nul := false, false;
        Wipe();
        return Some(TooLong);
      }
      if nul {
        nul := false;
        Wipe();
        if b == CR { TakePairedLf(port); }
        return Some(Invalid);
      }
      if len == 0 { return None; }
      var text := buf[..len];
      buf[len] := 0;
      len := 0;
      if b == CR { TakePairedLf(port); }
      return Some(Line(text));
    }

    /** Outside quarantine: exactly the next token of the stream, or none while
        its line is unfinished and nothing more is waiting. */
    method NextLine(port: Port) returns (r: Option<Token>)
      requires Valid() && !quarantined
      modifies this, buf, port
      ensures Valid() && !quarantined
      ensures Fed(old(part), old(port.taken), port.taken, part, Handed(r))
      ensures r.Some? ==>
        if r.value.Line? then |r.value.text| < CAP && buf[..|r.value.text|] == r.value.text && buf[|r.value.text|] == 0
        else Blank(buf[..])
      ensures r.Some? ==> part == [] && |port.script| < |old(port.script)| && Left(port.script, old(port.script))
      ensures r.None? ==> StoppedAtSilence(port.script, old(port.script))
    {
      hide Fed, Classified, AtMostLf, Left, StoppedAtSilence, WatchAfter, this.Holds;
      AllLeft(port.script);
      NothingFed(part, port.taken);
      while true
        invariant Valid() && !quarantined
        invariant Fed(old(part), old(port.taken), port.taken, part, [])
        invariant Left(port.script, old(port.script))
        decreases |port.script|
      {
        OneLook(port.script, old(port.script));
        ghost var line, taken := part, port.taken;
        var b := port.Read();
        if b.None? { return None; }
        ghost var a := port.taken[|taken|];
        OneMoreFed(old(part), old(port.taken), taken, line, a);
        if b.value == LF || b.value == CR {
          ghost var left := port.script;
          r := Finish(b.value, port);
          LeftOfLeft(port.script, left, old(port.script));
          if r.Some? {
            PairedOrNot(old(part), old(port.taken), taken, a, port.taken, Handed(r));
            return;
          }
        } else {
          Keep(b.value);
        }
      }
    }

    /** Reads until there is something to hand on, or nothing more is waiting. */
    method Next(port: Port) returns (r: Option<Token>)
      requires Valid()
      modifies this, buf, port
      ensures Valid()
      ensures !old(quarantined) ==>
        && !quarantined && Fed(old(part), old(port.taken), port.taken, part, Handed(r))
        && (r.None? ==> StoppedAtSilence(port.script, old(port.script)))
      ensures old(quarantined) ==>
        && old(heard) <= heard && since == old(since) && part == []
        && AtMostLf(old(port.taken) + heard[|old(heard)|..], port.taken)
        && if r.None? then
             && quarantined && buf[..] == old(buf[..])
             && port.taken == old(port.taken) + heard[|old(heard)|..]
             && (forall i :: 0 <= i < |heard| ==> !ResyncAt(heard, since, i))
             && (|heard| == |old(heard)| + BYTES_PER_CALL || StoppedAtSilence(port.script, old(port.script)))
           else
             && !quarantined && r.value == Line(RESYNC) && FirstResync(heard, since)
             && buf[..|RESYNC|] == RESYNC && Blank(buf[|RESYNC|..])
      ensures r.Some? && r.value.Line? ==>
        |r.value.text| < CAP && buf[..|r.value.text|] == r.value.text && buf[|r.value.text|] == 0
    {
      hide Fed, WatchAfter, ResyncAt, FirstResync;
      if quarantined {
        ghost var more;
        r, more := NextInQuarantine(port);
        assert heard[|old(heard)|..] == more;
      } else {
        r := NextLine(port);
      }
    }

    /** One pass of the command loop, no command starting a quarantine: the
        tokens handed on are exactly those of all the bytes taken. */
    method Poll(port: Port) returns (tokens: seq<Token>)
      requires Valid() && !quarantined
      modifies this, buf, port
      ensures Valid() && !quarantined
      ensures Fed(old(part), old(port.taken), port.taken, part, tokens)
      ensures StoppedAtSilence(port.script, old(port.script))
    {
      hide Fed, Left, StoppedAtSilence, WatchAfter;
      AllLeft(port.script);
      NothingFed(part, port.taken);
      tokens := [];
      while true
        invariant Valid() && !quarantined
        invariant Fed(old(part), old(port.taken), port.taken, part, tokens)
        invariant Left(port.script, old(port.script))
        decreases |port.script|
      {
        ghost var line, taken, left := part, port.taken, port.script;
        var r := NextLine(port);
        MoreFed(old(part), old(port.taken), taken, line, tokens, port.taken, part, Handed(r));
        LeftAfterNext(port.script, left, old(port.script));
        assert tokens + [] == tokens;
        if r.None? { return; }
        tokens := tokens + [r.value];
        Wipe();
      }
    }
  }

  lemma NothingHeard(start: U32)
    ensures WatchAfter(WatchStart(start), []) == Some(WatchStart(start))
  {
  }

  /** The stream resyncs at its last byte and nowhere before. */
  ghost predicate FirstResync(e: seq<Arrival>, start: U32) {
    && e != [] && ResyncAt(e, start, |e| - 1)
    && forall i :: 0 <= i < |e| - 1 ==> !ResyncAt(e, start, i)
  }

  lemma HeardOneMore(w: Watch, e: seq<Arrival>, a: Arrival, start: U32)
    requires WatchAfter(WatchStart(start), e) == Some(w)
    ensures var (next, resync) := Watched(w, a);
            if resync then FirstResync(e + [a], start)
            else WatchAfter(WatchStart(start), e + [a]) == Some(next)
  {
    hide Watched, ResyncAt, Knows;
    var f := e + [a];
    assert f[..|e|] == e;
    QuarantineLastsUntilResync(f, start, |e|);
    LetsGoExactlyAtResync(w, f, start, |e|);
  }

  function Handed(r: Option<Token>): seq<Token> {
    if r.None? then [] else [r.value]
  }

  /** The bytes taken since `before` turn the unfinished line `line` into `part`
      and hand on `tokens`. */
  ghost predicate Fed(line: seq<Octet>, before: seq<Arrival>, after: seq<Arrival>,
                      part: seq<Octet>, tokens: seq<Token>) {
    before <= after && Tokens(line, Bytes(after[|before|..])) == (part, tokens)
  }

  lemma NothingFed(line: seq<Octet>, taken: seq<Arrival>)
    ensures Fed(line, taken, taken, line, [])
  {
    assert Bytes(taken[|taken|..]) == [];
  }

  lemma OneMoreFed(line: seq<Octet>, before: seq<Arrival>, after: seq<Arrival>, part: seq<Octet>, a: Arrival)
    requires Fed(line, before, after, part, [])
    ensures before <= after
    ensures !IsEnd(a.byte) ==> Fed(line, before, after + [a], part + [a.byte], [])
    ensures IsEnd(a.byte) ==> Fed(line, before, after + [a], [], Handed(Classified(part)))
  {
    var e := after[|before|..];
    assert (after + [a])[|before|..] == e + [a];
    assert Bytes(e + [a]) == Bytes(e) + [a.byte];
    TokensSnoc(line, Bytes(e), a.byte);
    if Classified(part).Some? { assert [] + [Classified(part).value] == [Classified(part).value]; }
  }

  /** The stream may be taken in pieces. */
  lemma MoreFed(line: seq<Octet>, before: seq<Arrival>, middle: seq<Arrival>, part: seq<Octet>, tokens: seq<Token>,
                after: seq<Arrival>, rest: seq<Octet>, more: seq<Token>)
    requires Fed(line, before, middle, part, tokens) && Fed(part, middle, after, rest, more)
    ensures Fed(line, before, after, rest, tokens + more)
  {
    hide Tokens;
    assert Bytes(after[|before|..]) == Bytes(middle[|before|..]) + Bytes(after[|middle|..]);
    TokensAppend(line, Bytes(middle[|before|..]), Bytes(after[|middle|..]));
  }

  /** A line end's paired LF, taken or not, does not change what was handed on. */
  lemma PairedOrNot(line: seq<Octet>, before: seq<Arrival>, taken: seq<Arrival>, a: Arrival,
                    after: seq<Arrival>, tokens: seq<Token>)
    requires before <= taken && Fed(line, before, taken + [a], [], tokens)
    requires after == taken + [a] || (a.byte == CR && AtMostLf(taken + [a], after))
    ensures Fed(line, before, after, [], tokens)
  {
    hide Tokens;
    if after != taken + [a] {
      var t: U32 :| after == taken + [a] + [Arrival(LF, t)];
      var e := (taken + [a])[|before|..];
      assert after[|before|..] == e + [Arrival(LF, t)];
      assert Bytes(e + [Arrival(LF, t)]) == Bytes(e) + [LF];
      PairedLfIsNothing(line, Bytes(e));
    }
  }

  lemma LeftAfterNext(a: seq<Moment>, b: seq<Moment>, c: seq<Moment>)
    requires Left(b, c) && (Left(a, b) || StoppedAtSilence(a, b))
    ensures Left(a, c) && (StoppedAtSilence(a, b) ==> StoppedAtSilence(a, c))
  {
    LeftOfLeft(a, b, c);
  }
}
