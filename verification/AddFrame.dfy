/** `wifi add` over the serial port: a network is saved only from a whole, quiet,
    valid payload, and anything else starts a quarantine
    (lib/CloudSync/UsbWifi.cpp). */
module AddFrame {
  import opened Common
  import opened Storage
  import opened LineInput

  const NAME_MAX: nat := 32
  const PASS_MAX: nat := 64
  const FRAME_MAX: nat := 97
  const GAP_MS: nat := 1000
  const TOTAL_MS: nat := 2000
  const QUIET_MS: nat := 50

  datatype Frame = Parsed(name: seq<Octet>, pass: seq<Octet>) | Invalid | BadCrc

  // ---- the payload ----

  /** The place of the first NUL; the length when there is none. */
  function FirstNul(s: seq<Octet>): (at: nat)
    ensures at <= |s| && 0 !in s[..at] && (at < |s| ==> s[at] == 0)
  {
    if s == [] || s[0] == 0 then 0 else 1 + FirstNul(s[1..])
  }

  /** A payload is a name, a NUL and a password; the checksum goes first. */
  function ParseFrame(data: seq<Octet>, crc: U32, sum: seq<Octet> -> U32): Frame {
    if data == [] || FRAME_MAX < |data| then Invalid
    else if sum(data) != crc then BadCrc
    else
      var at := FirstNul(data);
      if at == |data| then Invalid
      else if at == 0 || NAME_MAX < at || PASS_MAX < |data| - at - 1 then Invalid
      else if 0 in data[at + 1..] then Invalid
      else Parsed(data[..at], data[at + 1..])
  }

  predicate Saveable(name: seq<Octet>, pass: seq<Octet>) {
    1 <= |name| <= NAME_MAX && |pass| <= PASS_MAX && 0 !in name && 0 !in pass
  }

  lemma {:induction false} FirstNulEndsTheName(name: seq<Octet>, pass: seq<Octet>)
    requires 0 !in name
    ensures FirstNul(name + [0] + pass) == |name|
  {
    if name != [] {
      assert (name + [0] + pass)[1..] == name[1..] + [0] + pass;
      FirstNulEndsTheName(name[1..], pass);
    }
  }

  /** A payload is read as a name and a password exactly when it is what a client
      would send for them. */
  lemma ParsesExactly(data: seq<Octet>, crc: U32, sum: seq<Octet> -> U32, name: seq<Octet>, pass: seq<Octet>)
    ensures ParseFrame(data, crc, sum) == Parsed(name, pass) <==>
              Saveable(name, pass) && data == name + [0] + pass && sum(data) == crc
  {
    var at := FirstNul(data);
    if Saveable(name, pass) && data == name + [0] + pass {
      FirstNulEndsTheName(name, pass);
      assert data[..at] == name && data[at + 1..] == pass;
    }
    if ParseFrame(data, crc, sum) == Parsed(name, pass) {
      assert data == data[..at] + [data[at]] + data[at + 1..];
    }
  }

  // ---- its arrival ----

  /** n bytes, each in time: what arrived, what is left, and whether all did. After
      the last look nothing more comes. */
  function Arrives(script: seq<Moment>, start: U32, last: U32, n: nat): (seq<Octet>, seq<Moment>, bool)
    decreases |script|
  {
    if n == 0 then ([], script, true)
    else if script == [] then ([], [], false)
    else
      var now := script[0].at;
      if TOTAL_MS < (now - start) % 0x1_0000_0000 || GAP_MS < (now - last) % 0x1_0000_0000 then ([], script, false)
      else match script[0].waiting
        case None => Arrives(script[1..], start, last, n)
        case Some(b) =>
          var (rest, left, whole) := Arrives(script[1..], start, now, n - 1);
          ([b] + rest, left, whole)
  }

  /** Whether nothing arrives before the quiet time is over, and what is left. */
  function StaysQuiet(script: seq<Moment>, start: U32): (bool, seq<Moment>) {
    if script == [] || QUIET_MS <= (script[0].at - start) % 0x1_0000_0000 then (true, script)
    else if script[0].waiting.Some? then (false, script[1..])
    else StaysQuiet(script[1..], start)
  }

  /** All the bytes to come. */
  function Coming(script: seq<Moment>): seq<Octet> {
    if script == [] then []
    else if script[0].waiting.Some? then [script[0].waiting.value] + Coming(script[1..])
    else Coming(script[1..])
  }

  /** What arrives is the next bytes of the stream, n of them when it is whole. */
  lemma {:induction false} ArrivesInOrder(script: seq<Moment>, start: U32, last: U32, n: nat)
    ensures var (data, left, whole) := Arrives(script, start, last, n);
            Coming(script) == data + Coming(left) && |data| <= n && (whole <==> |data| == n)
    decreases |script|
  {
    if n != 0 && script != [] {
      var now := script[0].at;
      ArrivesInOrder(script[1..], start, last, n);
      ArrivesInOrder(script[1..], start, now, n - 1);
    }
  }

  /** When the last byte of s came; `last` if there is none. */
  function LastByte(s: seq<Moment>, last: U32): U32 {
    if s == [] then last else LastByte(s[1..], if s[0].waiting.Some? then s[0].at else last)
  }

  /** The j-th look is within 2000 ms of the start and 1000 ms of the byte before. */
  predicate InTime(s: seq<Moment>, start: U32, last: U32, j: nat)
    requires j < |s|
  {
    && (s[j].at - start) % 0x1_0000_0000 <= TOTAL_MS
    && (s[j].at - LastByte(s[..j], last)) % 0x1_0000_0000 <= GAP_MS
  }

  /** The first m looks, the last of them a byte, find n bytes, each look in time. */
  ghost predicate ArrivesBy(s: seq<Moment>, start: U32, last: U32, n: nat, m: nat) {
    && m <= |s| && |Coming(s[..m])| == n
    && (m == 0 || s[m - 1].waiting.Some?)
    && forall j :: 0 <= j < m ==> InTime(s, start, last, j)
  }

  /** A look taken off the front of a script. */
  lemma OneLookLess(s: seq<Moment>, start: U32, last: U32, n: nat, m: nat)
    requires s != [] && 0 < m <= |s|
    ensures var b := s[0].waiting.Some?; var t := s[1..]; var next := if b then s[0].at else last;
            && Coming(s[..m]) == (if b then [s[0].waiting.value] else []) + Coming(t[..m - 1])
            && (forall j :: 0 < j < m ==> (InTime(s, start, last, j) <==> InTime(t, start, next, j - 1)))
  {
    var t := s[1..];
    assert s[..m][1..] == t[..m - 1];
    forall j | 0 < j < m
      ensures LastByte(s[..j], last) == LastByte(t[..j - 1], if s[0].waiting.Some? then s[0].at else last)
    {
      assert s[..j][1..] == t[..j - 1];
    }
  }

  lemma {:induction false} FoundWhole(s: seq<Moment>, start: U32, last: U32, n: nat, m: nat)
    requires ArrivesBy(s, start, last, n, m)
    ensures m <= |s| && Arrives(s, start, last, n) == (Coming(s[..m]), s[m..], true)
    decreases |s|
  {
    hide InTime;
    if m == 0 {
      assert s[..0] == [] && s[0..] == s;
    } else {
      OneLookLess(s, start, last, n, m);
      SomeByteLeft(s[..m]);
      var t, next := s[1..], if s[0].waiting.Some? then s[0].at else last;
      FirstInTime(s, start, last);
      assert InTime(s, start, last, 0);
      forall j | 0 <= j < m - 1
        ensures InTime(t, start, next, j)
      {
        assert InTime(s, start, last, j + 1);
      }
      if m == 1 {
        assert t[..0] == [] && t[0..] == t;
      } else {
        SomeByteLeft(t[..m - 1]);
      }
      assert s[m..] == t[m - 1..] && [] + Coming(t[..m - 1]) == Coming(t[..m - 1]);
      FoundWhole(t, start, next, if s[0].waiting.Some? then n - 1 else n, m - 1);
    }
  }

  lemma FirstInTime(s: seq<Moment>, start: U32, last: U32)
    requires s != []
    ensures InTime(s, start, last, 0) <==>
              (s[0].at - start) % 0x1_0000_0000 <= TOTAL_MS && (s[0].at - last) % 0x1_0000_0000 <= GAP_MS
  {
    assert s[..0] == [];
  }

  lemma {:induction false} SomeByteLeft(s: seq<Moment>)
    requires s != [] && s[|s| - 1].waiting.Some?
    ensures Coming(s) != []
  {
    if |s| > 1 { SomeByteLeft(s[1..]); }
  }

  lemma {:induction false} WholeIsFound(s: seq<Moment>, start: U32, last: U32, n: nat) returns (m: nat)
    requires Arrives(s, start, last, n).2
    ensures ArrivesBy(s, start, last, n, m)
    decreases |s|
  {
    hide InTime;
    if n == 0 {
      m := 0;
      assert s[..0] == [];
    } else {
      var b := s[0].waiting.Some?;
      var t, next := s[1..], if b then s[0].at else last;
      var k := WholeIsFound(t, start, next, if b then n - 1 else n);
      m := k + 1;
      OneLookLess(s, start, last, n, m);
      FirstInTime(s, start, last);
      forall j | 0 <= j < m
        ensures InTime(s, start, last, j)
      {
        assert j == 0 || InTime(t, start, next, j - 1);
      }
      if k == 0 { assert t[..0] == []; }
    }
  }

  /** A payload arrives exactly when its n bytes are found, every look until then
      within 2000 ms of the start and 1000 ms of the byte before. */
  lemma ArrivesExactlyWhen(s: seq<Moment>, start: U32, n: nat)
    ensures Arrives(s, start, start, n).2 <==> exists m: nat :: ArrivesBy(s, start, start, n, m)
  {
    hide Arrives, ArrivesBy;
    if Arrives(s, start, start, n).2 {
      var m := WholeIsFound(s, start, start, n);
    }
    forall m: nat | ArrivesBy(s, start, start, n, m)
      ensures Arrives(s, start, start, n).2
    {
      FoundWhole(s, start, start, n, m);
    }
  }

  /** No byte is found by a look that is, like all before it, within the quiet time. */
  ghost predicate Still(s: seq<Moment>, start: U32) {
    forall i :: 0 <= i < |s| && YoungTo(s, start, i) ==> s[i].waiting.None?
  }

  ghost predicate YoungTo(s: seq<Moment>, start: U32, i: nat)
    requires i < |s|
  {
    forall j :: 0 <= j <= i ==> (s[j].at - start) % 0x1_0000_0000 < QUIET_MS
  }

  lemma YoungerLater(s: seq<Moment>, start: U32, i: nat)
    requires 0 < i < |s| && YoungTo(s, start, 0)
    ensures YoungTo(s, start, i) <==> YoungTo(s[1..], start, i - 1)
  {
    if YoungTo(s, start, i) {
      forall j | 0 <= j <= i - 1
        ensures (s[1..][j].at - start) % 0x1_0000_0000 < QUIET_MS
      {
        assert s[1..][j] == s[j + 1];
      }
    }
    if YoungTo(s[1..], start, i - 1) {
      forall j | 0 <= j <= i
        ensures (s[j].at - start) % 0x1_0000_0000 < QUIET_MS
      {
        if 0 < j { assert s[1..][j - 1] == s[j]; }
      }
    }
  }

  /** The input is judged quiet exactly when no look that is younger than 50 ms, all
      looks before it being so too, finds a byte. */
  lemma {:induction false} QuietMeans(s: seq<Moment>, start: U32)
    ensures StaysQuiet(s, start).0 <==> Still(s, start)
  {
    if s != [] {
      var young := (s[0].at - start) % 0x1_0000_0000 < QUIET_MS;
      assert YoungTo(s, start, 0) <==> young;
      if young && s[0].waiting.None? {
        QuietMeans(s[1..], start);
        forall i | 0 < i < |s|
          ensures YoungTo(s, start, i) <==> YoungTo(s[1..], start, i - 1)
        {
          YoungerLater(s, start, i);
        }
        forall i | 0 <= i < |s[1..]|
          ensures YoungTo(s[1..], start, i) <==> YoungTo(s, start, i + 1)
        {}
      }
      if !young {
        forall i | 0 <= i < |s|
          ensures !YoungTo(s, start, i)
        {
          assert (s[0].at - start) % 0x1_0000_0000 >= QUIET_MS;
        }
      }
    }
  }

  datatype Header = Header(len: U32, crc: U32)

  /** What an add saves: the name and password of a payload that arrived whole,
      in time, and with silence after it. */
  function Outcome(script: seq<Moment>, stop: U32, header: Option<Header>, refused: bool, sum: seq<Octet> -> U32): Frame {
    if refused || header.None? || header.value.len == 0 || FRAME_MAX < header.value.len then Invalid
    else
      var now := Clock(script, stop);
      var (data, left, whole) := Arrives(script, now, now, header.value.len);
      if whole && StaysQuiet(left, Clock(left, stop)).0 then ParseFrame(data, header.value.crc, sum) else Invalid
  }

  /** The first m looks bring exactly these bytes in time, and silence follows. */
  ghost predicate Delivered(script: seq<Moment>, stop: U32, data: seq<Octet>, m: nat) {
    && ArrivesBy(script, Clock(script, stop), Clock(script, stop), |data|, m)
    && Coming(script[..m]) == data
    && Still(script[m..], Clock(script[m..], stop))
  }

  /** A network is saved exactly when its payload, as long as announced and with
      the announced checksum, is what the next looks bring, in time, and silence
      follows. */
  lemma SavedExactlyWhen(script: seq<Moment>, stop: U32, header: Option<Header>, refused: bool, sum: seq<Octet> -> U32,
                         name: seq<Octet>, pass: seq<Octet>)
    ensures Outcome(script, stop, header, refused, sum) == Parsed(name, pass) <==>
              && !refused && header.Some? && Saveable(name, pass)
              && var data := name + [0] + pass;
                 && header.value.len == |data| && sum(data) == header.value.crc
                 && exists m: nat :: Delivered(script, stop, data, m)
  {
    hide StaysQuiet, Arrives, ParseFrame, Still, ArrivesBy;
    var wanted := name + [0] + pass;
    var now := Clock(script, stop);
    if header.Some? {
      var (data, left, whole) := Arrives(script, now, now, header.value.len);
      ParsesExactly(data, header.value.crc, sum, name, pass);
      QuietMeans(left, Clock(left, stop));
      ArrivesInOrder(script, now, now, header.value.len);
      if whole {
        var m := WholeIsFound(script, now, now, header.value.len);
        FoundWhole(script, now, now, header.value.len, m);
        assert data == wanted && Still(left, Clock(left, stop)) ==> Delivered(script, stop, wanted, m);
      }
    }
    forall m: nat | Delivered(script, stop, wanted, m)
      ensures m <= |script| && Arrives(script, now, now, |wanted|) == (wanted, script[m..], true)
    {
      FoundWhole(script, now, now, |wanted|, m);
    }
  }

  // ---- over the port ----

  method ReadFrame(port: Port, buf: array<Octet>, n: nat) returns (got: nat, whole: bool)
    requires n <= buf.Length
    modifies port, buf
    ensures got <= n && old(port.taken) <= port.taken
    ensures var now := old(Clock(port.script, port.stop));
            (buf[..got], port.script, whole) == Arrives(old(port.script), now, now, n)
  {
    var start := port.Now();
    var last := start;
    got := 0;
    ghost var all := Arrives(port.script, start, start, n);
    ReadOn(all, [], 0);
    while got < n && port.script != []
      invariant got <= n && old(port.taken) <= port.taken
      invariant Resumes(all, buf[..got], Arrives(port.script, start, last, n - got))
      decreases |port.script|
    {
      var now := port.Now();
      if TOTAL_MS < (now as int - start) % 0x1_0000_0000 || GAP_MS < (now as int - last) % 0x1_0000_0000 {
        ReadOn(all, buf[..got], 0);
        return got, false;
      }
      ghost var before := buf[..got];
      var b := port.Read();
      if b.Some? {
        buf[got] := b.value;
        got := got + 1;
        last := now;
        ReadOn(all, before, b.value);
        assert buf[..got] == before + [b.value];
      }
    }
    ReadOn(all, buf[..got], 0);
    whole := got == n;
  }

  /** Reading on from `rest`, with `sofar` read, gives the outcome `all`. */
  ghost predicate Resumes(all: (seq<Octet>, seq<Moment>, bool), sofar: seq<Octet>, rest: (seq<Octet>, seq<Moment>, bool)) {
    all == (sofar + rest.0, rest.1, rest.2)
  }

  lemma ReadOn(all: (seq<Octet>, seq<Moment>, bool), sofar: seq<Octet>, b: Octet)
    ensures Resumes(all, [], all)
    ensures forall left: seq<Moment>, whole: bool :: Resumes(all, sofar, ([], left, whole)) ==> all == (sofar, left, whole)
    ensures forall rest: (seq<Octet>, seq<Moment>, bool) {:trigger Resumes(all, sofar + [b], rest)} ::
              Resumes(all, sofar, ([b] + rest.0, rest.1, rest.2)) ==> Resumes(all, sofar + [b], rest)
  {
    assert [] + all.0 == all.0 && sofar + [] == sofar;
    forall rest: (seq<Octet>, seq<Moment>, bool) | Resumes(all, sofar, ([b] + rest.0, rest.1, rest.2))
      ensures Resumes(all, sofar + [b], rest)
    {
      assert sofar + ([b] + rest.0) == (sofar + [b]) + rest.0;
    }
  }

  method WaitsQuietly(port: Port) returns (quiet: bool)
    modifies port
    ensures old(port.taken) <= port.taken
    ensures (quiet, port.script) == StaysQuiet(old(port.script), old(Clock(port.script, port.stop)))
  {
    var start := port.Now();
    while port.script != []
      invariant StaysQuiet(port.script, start) == StaysQuiet(old(port.script), start)
      invariant old(port.taken) <= port.taken
      decreases |port.script|
    {
      var now := port.Now();
      if QUIET_MS <= (now as int - start) % 0x1_0000_0000 { return true; }
      var b := port.Read();
      if b.Some? { return false; }
    }
    return true;
  }

  /** The payload of an add, after its line: the network to save, or a quarantine
      with nothing kept. */
  method HandleAdd(header: Option<Header>, port: Port, input: LineInput, refused: bool, sum: seq<Octet> -> U32)
    returns (saved: Option<(seq<Octet>, seq<Octet>)>)
    requires input.Valid() && !input.quarantined && input.part == []
    modifies port, input, input.buf
    ensures var outcome := Outcome(old(port.script), port.stop, header, refused, sum);
            saved == if outcome.Parsed? then Some((outcome.name, outcome.pass)) else None
    ensures input.Valid() && (saved.None? <==> input.quarantined)
    ensures if saved.Some? then input.part == [] && input.buf[..] == old(input.buf[..])
            else input.heard == [] && input.since == Clock(port.script, port.stop) && Blank(input.buf[..])
    ensures refused || header.None? ==> port.script == old(port.script)
  {
    hide Arrives, StaysQuiet, ParseFrame;
    if refused || header.None? || header.value.len == 0 || FRAME_MAX < header.value.len {
      var now := port.Now();
      input.Quarantine(now);
      return None;
    }
    var frame := new Octet[FRAME_MAX](_ => 0);
    var got, read := ReadFrame(port, frame, header.value.len);
    var whole := false;
    if read { whole := WaitsQuietly(port); }
    var parsed := Invalid;
    if whole {
      WholeFrame(old(port.script), old(Clock(port.script, port.stop)), header.value.len);
      parsed := ParseFrame(frame[..header.value.len], header.value.crc, sum);
    }
    if !parsed.Parsed? {
      var now := port.Now();
      input.Quarantine(now);
      return None;
    }
    return Some((parsed.name, parsed.pass));
  }

  lemma WholeFrame(script: seq<Moment>, now: U32, n: nat)
    ensures var (data, _, whole) := Arrives(script, now, now, n); whole ==> |data| == n
  {
    ArrivesInOrder(script, now, now, n);
  }
}
