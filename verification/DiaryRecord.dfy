/** The battery diary's 16-byte records: written and read back, and what damage
    a reader can miss (lib/BatteryDiary/BatteryDiary.h). */
module DiaryRecord {
  import opened Common
  import opened Crc16

  const SIZE: nat := 16
  const BODY: nat := 14

  /** Signed fields are their two's complement bit patterns. */
  datatype Record = Record(seqNo: bv32, uptime: bv32, vcell: bv16, soc: bv8, crate: bv8, event: bv8, boot: bv8, crc: bv16)

  function Byte16(v: bv16, k: nat): bv8
    requires k < 2
  {
    if k == 0 then (v & 0xFF) as bv8 else (v >> 8) as bv8
  }

  function Byte32(v: bv32, k: nat): bv8
    requires k < 4
  {
    if k == 0 then (v & 0xFF) as bv8 else if k == 1 then ((v >> 8) & 0xFF) as bv8
    else if k == 2 then ((v >> 16) & 0xFF) as bv8 else (v >> 24) as bv8
  }

  function Le16(v: bv16): (s: Bytes)
    ensures |s| == 2
  {
    [Byte16(v, 0), Byte16(v, 1)]
  }

  function Le32(v: bv32): (s: Bytes)
    ensures |s| == 4
  {
    [Byte32(v, 0), Byte32(v, 1), Byte32(v, 2), Byte32(v, 3)]
  }

  function Word16(a: bv8, b: bv8): bv16 {
    (a as bv16) | ((b as bv16) << 8)
  }

  function Word32(a: bv8, b: bv8, c: bv8, d: bv8): bv32 {
    (a as bv32) | ((b as bv32) << 8) | ((c as bv32) << 16) | ((d as bv32) << 24)
  }

  function Body(r: Record): (s: Bytes)
    ensures |s| == BODY
  {
    Le32(r.seqNo) + Le32(r.uptime) + Le16(r.vcell) + [r.soc, r.crate, r.event, r.boot]
  }

  /** The stored form; the record's own crc field is not used. */
  function Encode(r: Record): (s: Bytes)
    ensures |s| == SIZE
  {
    Body(r) + Le16(Crc(Body(r)))
  }

  predicate Validates(e: Bytes)
    requires |e| == SIZE
  {
    Word16(e[14], e[15]) == Crc(e[..BODY])
  }

  function Decode(e: Bytes): Option<Record>
    requires |e| == SIZE
  {
    if !Validates(e) then None
    else Some(Record(Word32(e[0], e[1], e[2], e[3]), Word32(e[4], e[5], e[6], e[7]), Word16(e[8], e[9]),
                     e[10], e[11], e[12], e[13], Word16(e[14], e[15])))
  }

  // ---- there and back ----

  lemma BytesOfWord16(v: bv16)
    ensures Word16(Byte16(v, 0), Byte16(v, 1)) == v
  {
  }

  lemma BytesOfWord32(v: bv32)
    ensures Word32(Byte32(v, 0), Byte32(v, 1), Byte32(v, 2), Byte32(v, 3)) == v
  {
  }

  lemma WordOfBytes16(a: bv8, b: bv8)
    ensures Byte16(Word16(a, b), 0) == a && Byte16(Word16(a, b), 1) == b
  {
  }

  lemma WordOfBytes32(a: bv8, b: bv8, c: bv8, d: bv8)
    ensures var w := Word32(a, b, c, d);
            Byte32(w, 0) == a && Byte32(w, 1) == b && Byte32(w, 2) == c && Byte32(w, 3) == d
  {
  }

  /** What is written is read back, with the checksum filled in. */
  lemma DecodeOfEncode(r: Record)
    ensures Decode(Encode(r)) == Some(r.(crc := Crc(Body(r))))
  {
    hide Crc, Byte16, Byte32, Word16, Word32;
    var e := Encode(r);
    assert e[..BODY] == Body(r);
    assert e[0..4] == Le32(r.seqNo) && e[4..8] == Le32(r.uptime) && e[8..10] == Le16(r.vcell);
    assert e[14..16] == Le16(Crc(Body(r)));
    BytesOfWord32(r.seqNo);
    BytesOfWord32(r.uptime);
    BytesOfWord16(r.vcell);
    BytesOfWord16(Crc(Body(r)));
  }

  /** Only what Encode writes is accepted. */
  lemma EncodeOfDecode(e: Bytes)
    requires |e| == SIZE && Decode(e).Some?
    ensures Encode(Decode(e).value) == e && Decode(e).value.crc == Crc(Body(Decode(e).value))
  {
    hide Crc, Byte16, Byte32, Word16, Word32;
    WordOfBytes32(e[0], e[1], e[2], e[3]);
    WordOfBytes32(e[4], e[5], e[6], e[7]);
    WordOfBytes16(e[8], e[9]);
    WordOfBytes16(e[14], e[15]);
    assert Body(Decode(e).value) == e[..BODY];
  }

  /** Numbers are stored low byte first. */
  lemma LowByteFirst(a: bv8, b: bv8, c: bv8, d: bv8)
    ensures Word16(a, b) == a as bv16 + 0x100 * b as bv16
    ensures Word32(a, b, c, d) == a as bv32 + 0x100 * b as bv32 + 0x1_0000 * c as bv32 + 0x100_0000 * d as bv32
  {
  }

  /** Where each field is. */
  lemma FieldsArePlaced(r: Record)
    ensures var e := Encode(r);
            && r.seqNo == Word32(e[0], e[1], e[2], e[3]) && r.uptime == Word32(e[4], e[5], e[6], e[7])
            && r.vcell == Word16(e[8], e[9])
            && e[10] == r.soc && e[11] == r.crate && e[12] == r.event && e[13] == r.boot
            && Crc(e[..14]) == Word16(e[14], e[15])
  {
    hide Crc, Byte16, Byte32, Word16, Word32;
    var e := Encode(r);
    assert e[..BODY] == Body(r);
    assert e[0..4] == Le32(r.seqNo) && e[4..8] == Le32(r.uptime) && e[8..10] == Le16(r.vcell);
    assert e[14..16] == Le16(Crc(Body(r)));
    BytesOfWord32(r.seqNo);
    BytesOfWord32(r.uptime);
    BytesOfWord16(r.vcell);
    BytesOfWord16(Crc(Body(r)));
  }

  // ---- damage ----

  /** The one change of two neighbours that the checksum misses: the last body
      byte and the checksum's low byte, which is stored first. */
  predicate Missed(e: Bytes, f: Bytes, i: nat)
    requires |e| == |f| == SIZE
  {
    i == 13 && Diff(e[13], f[13]) == 0x89 && Diff(e[14], f[14]) == 0xA1
  }

  lemma SameWord(a: bv8, b: bv8, c: bv8, d: bv8)
    requires Word16(a, b) == Word16(c, d)
    ensures a == c && b == d
  {
    hide Word16, Byte16;
    WordOfBytes16(a, b);
    WordOfBytes16(c, d);
  }

  function Wide(d: bv8): bv16 {
    d as bv16
  }

  lemma LowBytesDiffer(a: bv8, c: bv8, b: bv8)
    ensures Xor(Word16(a, b), Word16(c, b)) == Wide(Diff(a, c))
    ensures OnlyLow(Wide(Diff(a, c)))
  {
  }

  lemma WideIsInjective(d: bv8)
    ensures Wide(d) == 0 ==> d == 0
    ensures Wide(d) == 0xA1 ==> d == 0xA1
    ensures Wide(0xA1) == 0xA1 && Wide(0) == 0
  {
  }

  /** A body's last byte a and the checksum's bytes b, h: after damage to a and b
      the checksum still fits exactly when nothing changed or both changed by
      the one pattern. */
  lemma Seam(c: bv16, a: bv8, a': bv8, b: bv8, b': bv8, h: bv8)
    requires Word16(b, h) == Fed(c, a)
    ensures Word16(b', h) == Fed(c, a') <==> (a == a' && b == b') || (Diff(a, a') == 0x89 && Diff(b, b') == 0xA1)
  {
    hide Word16, Xor, Change, OnlyLow, Fed, Diff, Wide;
    ChangeOfLastByte(c, a, a');
    LowBytesDiffer(b, b', h);
    if Change(Diff(a, a')) == Wide(Diff(b, b')) { XorIsInjective(Word16(b', h), Fed(c, a'), Word16(b, h)); }
    ChangeShows(Diff(a, a'));
    WideIsInjective(Diff(b, b'));
    XorIsZero(a, a');
    XorIsZero(b, b');
  }

  /** Damage to one stored byte, or to two neighbours, is always noticed but for
      the one missed pattern; that one never is. */
  lemma DamageIsRefused(e: Bytes, f: Bytes, i: nat)
    requires |e| == SIZE && OnlyAt(e, f, i) && i < SIZE && e != f && Decode(e).Some?
    ensures Decode(f) == None <==> !Missed(e, f, i)
  {
    hide Crc, Word16, Word32, Diff;
    if i == 13 {
      DamageAtTheSeam(e, f);
    } else if i < 13 {
      DamageInTheBody(e, f, i);
    } else {
      assert e[..BODY] == f[..BODY];
      if Word16(e[14], e[15]) == Word16(f[14], f[15]) { SameWord(e[14], e[15], f[14], f[15]); }
    }
  }

  lemma DamageInTheBody(e: Bytes, f: Bytes, i: nat)
    requires |e| == SIZE && OnlyAt(e, f, i) && i < 13 && e != f && Validates(e)
    ensures !Validates(f)
  {
    hide CrcFrom, Word16;
    assert OnlyAt(e[..BODY], f[..BODY], i);
    NeighboursShow(0xFFFF, e[..BODY], f[..BODY], i);
    assert e == e[..BODY] + e[BODY..] && f == f[..BODY] + f[BODY..];
    assert e[BODY..] == f[BODY..];
  }

  lemma DamageAtTheSeam(e: Bytes, f: Bytes)
    requires |e| == SIZE && OnlyAt(e, f, 13) && e != f && Validates(e)
    ensures Validates(f) <==> Missed(e, f, 13)
  {
    hide Word16, Fed, Diff;
    var c := CrcFrom(0xFFFF, e[..13]);
    assert e[..14][..13] == e[..13] && f[..14][..13] == f[..13] && e[..13] == f[..13];
    assert Crc(e[..14]) == Fed(c, e[13]) && Crc(f[..14]) == Fed(c, f[13]);
    Seam(c, e[13], f[13], e[14], f[14], e[15]);
    assert e[13] != f[13] || e[14] != f[14];
  }

  /** In particular a record with one damaged byte is refused. */
  lemma OneDamagedByteIsRefused(r: Record, i: nat, b: bv8)
    requires i < SIZE && Encode(r)[i] != b
    ensures Decode(Encode(r)[i := b]) == None
  {
    hide Encode, Decode, Diff;
    var e, f := Encode(r), Encode(r)[i := b];
    DecodeOfEncode(r);
    assert e[i] != f[i];
    DamageIsRefused(e, f, i);
    XorIsZero(e[14], f[14]);
    XorIsZero(e[13], f[13]);
  }

  lemma DiffOfDiff(a: bv8, d: bv8)
    ensures Diff(a, Diff(a, d)) == d && (d != 0 ==> Diff(a, d) != a)
  {
  }

  /** The missed damage done to a record. */
  function Spoilt(e: Bytes): (f: Bytes)
    requires |e| == SIZE
    ensures |f| == SIZE
  {
    e[13 := Diff(e[13], 0x89)][14 := Diff(e[14], 0xA1)]
  }

  /** Every record has such a damaged form that reads back as another record. */
  lemma SomeDamageIsMissed(r: Record)
    ensures Spoilt(Encode(r)) != Encode(r) && Decode(Spoilt(Encode(r))).Some?
    ensures Decode(Spoilt(Encode(r))).value.boot != r.boot
  {
    hide Encode, Validates, Word16, Word32, Diff;
    var e := Encode(r);
    var f := Spoilt(e);
    DecodeOfEncode(r);
    DiffOfDiff(e[13], 0x89);
    DiffOfDiff(e[14], 0xA1);
    assert f[13] != e[13];
    DamageIsRefused(e, f, 13);
  }

  // ---- the buffer ----

  method Checksum(data: array<bv8>, len: nat) returns (crc: bv16)
    requires len <= data.Length
    ensures crc == Crc(data[..len])
  {
    hide Shift, Fed, CrcFrom;
    crc := 0xFFFF;
    EmptyCrc();
    assert data[..0] == [];
    for i := 0 to len
      invariant crc == CrcFrom(0xFFFF, data[..i])
    {
      ghost var before := crc;
      crc := crc ^ ((data[i] as bv16) << 8);
      FirstBit(before, data[i]);
      for bit := 0 to 8
        invariant crc == Shifted(Xor(before, High(data[i])), bit)
      {
        BitShift(crc);
        crc := if crc & 0x8000 != 0 then (crc << 1) ^ 0x1021 else crc << 1;
      }
      OneMoreByte(data[..i], data[i], before, crc);
      assert data[..i + 1] == data[..i] + [data[i]];
    }
  }

  lemma EmptyCrc()
    ensures CrcFrom(0xFFFF, []) == 0xFFFF
  {
  }

  lemma FirstBit(c: bv16, b: bv8)
    ensures c ^ ((b as bv16) << 8) == Shifted(Xor(c, High(b)), 0)
  {
  }

  lemma BitShift(c: bv16)
    ensures (if c & 0x8000 != 0 then (c << 1) ^ 0x1021 else c << 1) == Shift(c)
  {
  }

  lemma OneMoreByte(data: Bytes, b: bv8, before: bv16, after: bv16)
    requires before == CrcFrom(0xFFFF, data) && after == Shifted(Xor(before, High(b)), 8)
    ensures after == CrcFrom(0xFFFF, data + [b])
  {
    hide Shifted, Xor, High;
    assert (data + [b])[..|data|] == data;
  }

  method PutLe32(out: array<bv8>, at: nat, v: bv32)
    requires at + 4 <= out.Length
    modifies out
    ensures out[..] == old(out[..at]) + Le32(v) + old(out[at + 4..])
  {
    hide Byte32;
    out[at], out[at + 1], out[at + 2], out[at + 3] := Byte32(v, 0), Byte32(v, 1), Byte32(v, 2), Byte32(v, 3);
  }

  method PutLe16(out: array<bv8>, at: nat, v: bv16)
    requires at + 2 <= out.Length
    modifies out
    ensures out[..] == old(out[..at]) + Le16(v) + old(out[at + 2..])
  {
    hide Byte16;
    out[at], out[at + 1] := Byte16(v, 0), Byte16(v, 1);
  }

  method EncodeInto(r: Record, out: array<bv8>)
    requires out.Length == SIZE
    modifies out
    ensures out[..] == Encode(r)
  {
    hide Crc, Le16, Le32;
    PutLe32(out, 0, r.seqNo);
    assert out[..4] == Le32(r.seqNo);
    PutLe32(out, 4, r.uptime);
    assert out[..8] == Le32(r.seqNo) + Le32(r.uptime);
    PutLe16(out, 8, r.vcell);
    assert out[..10] == Le32(r.seqNo) + Le32(r.uptime) + Le16(r.vcell);
    out[10], out[11], out[12], out[13] := r.soc, r.crate, r.event, r.boot;
    assert out[..10] == Le32(r.seqNo) + Le32(r.uptime) + Le16(r.vcell);
    assert out[..BODY] == Body(r);
    var crc := Checksum(out, BODY);
    PutLe16(out, BODY, crc);
    assert out[16..] == [];
  }

  method DecodeFrom(e: array<bv8>) returns (r: Option<Record>)
    requires e.Length == SIZE
    ensures r == Decode(e[..])
  {
    hide Crc, Word16, Word32;
    assert e[..][..BODY] == e[..BODY];
    var crc := Checksum(e, BODY);
    if Word16(e[14], e[15]) != crc { return None; }
    r := Some(Record(Word32(e[0], e[1], e[2], e[3]), Word32(e[4], e[5], e[6], e[7]), Word16(e[8], e[9]),
                     e[10], e[11], e[12], e[13], Word16(e[14], e[15])));
  }
}
