/** CRC-16 as the battery diary computes it, and the damage it cannot miss
    (lib/BatteryDiary/BatteryDiary.h). */
module Crc16 {
  import opened Common

  type Bytes = seq<bv8>

  // ---- polynomial 0x1021, from 0xFFFF, high bit first ----

  function Xor(a: bv16, b: bv16): bv16 {
    a ^ b
  }

  function Double(a: bv16): bv16 {
    a << 1
  }

  predicate Top(a: bv16) {
    a & 0x8000 != 0
  }

  function High(b: bv8): bv16 {
    (b as bv16) << 8
  }

  function Shift(c: bv16): bv16 {
    if Top(c) then Xor(Double(c), 0x1021) else Double(c)
  }

  function Shifted(c: bv16, n: nat): bv16 {
    if n == 0 then c else Shift(Shifted(c, n - 1))
  }

  /** The register after one byte. */
  function Fed(c: bv16, b: bv8): bv16 {
    Shifted(Xor(c, High(b)), 8)
  }

  /** The register after a message, from c. */
  function CrcFrom(c: bv16, data: Bytes): bv16 {
    if data == [] then c else Fed(CrcFrom(c, data[..|data| - 1]), data[|data| - 1])
  }

  function Crc(data: Bytes): bv16 {
    CrcFrom(0xFFFF, data)
  }

  // ---- exclusive or ----

  lemma XorSwaps(x: bv16, y: bv16, z: bv16)
    ensures Xor(Xor(x, y), z) == Xor(Xor(x, z), y)
  {
  }

  lemma XorAssociates(x: bv16, y: bv16, z: bv16)
    ensures Xor(Xor(x, y), z) == Xor(x, Xor(y, z))
  {
  }

  lemma XorIsInjective(x: bv16, y: bv16, z: bv16)
    requires Xor(x, z) == Xor(y, z) || Xor(z, x) == Xor(z, y)
    ensures x == y
  {
  }

  // ---- one bit ----

  /** The step undone: the polynomial is odd, so the bit shifted out shows. */
  function Unshift(c: bv16): bv16 {
    if c & 1 != 0 then (Xor(c, 0x1021) >> 1) | 0x8000 else c >> 1
  }

  lemma ShiftCanBeUndone(c: bv16)
    ensures Unshift(Shift(c)) == c
  {
    if Top(c) { UnshiftTop(c); } else { UnshiftRest(c); }
  }

  lemma UnshiftTop(c: bv16)
    requires Top(c)
    ensures Xor(Double(c), 0x1021) & 1 != 0 && (Xor(Xor(Double(c), 0x1021), 0x1021) >> 1) | 0x8000 == c
  {
  }

  lemma UnshiftRest(c: bv16)
    requires !Top(c)
    ensures Double(c) & 1 == 0 && Double(c) >> 1 == c
  {
  }

  lemma ShiftIsInjective(a: bv16, b: bv16)
    requires Shift(a) == Shift(b)
    ensures a == b
  {
    hide Shift, Unshift;
    ShiftCanBeUndone(a);
    ShiftCanBeUndone(b);
  }

  lemma TopOfXor(a: bv16, b: bv16)
    ensures Top(Xor(a, b)) == (Top(a) != Top(b))
  {
  }

  lemma DoubleOfXor(a: bv16, b: bv16)
    ensures Double(Xor(a, b)) == Xor(Double(a), Double(b))
  {
  }

  lemma ShiftIsLinear(a: bv16, b: bv16)
    ensures Shift(Xor(a, b)) == Xor(Shift(a), Shift(b))
  {
    hide Xor, Top, Double;
    var x, y := Double(a), Double(b);
    TopOfXor(a, b);
    DoubleOfXor(a, b);
    XorSwaps(x, y, 0x1021);
    XorAssociates(x, y, 0x1021);
    PolynomialTwice(x, y);
  }

  lemma PolynomialTwice(x: bv16, y: bv16)
    ensures Xor(Xor(x, 0x1021), Xor(y, 0x1021)) == Xor(x, y)
  {
  }

  // ---- one byte ----

  lemma {:induction false} ShiftedIsInjective(a: bv16, b: bv16, n: nat)
    requires Shifted(a, n) == Shifted(b, n)
    ensures a == b
  {
    hide Shift;
    if n != 0 {
      ShiftIsInjective(Shifted(a, n - 1), Shifted(b, n - 1));
      ShiftedIsInjective(a, b, n - 1);
    }
  }

  lemma FedIsInjective(c: bv16, d: bv16, b: bv8)
    requires Fed(c, b) == Fed(d, b)
    ensures c == d
  {
    hide Shifted, Xor, High;
    ShiftedIsInjective(Xor(c, High(b)), Xor(d, High(b)), 8);
    XorIsInjective(c, d, High(b));
  }

  /** The same bytes never bring two registers together. */
  lemma {:induction false} CrcIsInjective(c: bv16, d: bv16, data: Bytes)
    requires CrcFrom(c, data) == CrcFrom(d, data)
    ensures c == d
  {
    hide Fed;
    if data != [] {
      var n := |data| - 1;
      FedIsInjective(CrcFrom(c, data[..n]), CrcFrom(d, data[..n]), data[n]);
      CrcIsInjective(c, d, data[..n]);
    }
  }

  lemma {:induction false} CrcOfParts(c: bv16, a: Bytes, b: Bytes)
    ensures CrcFrom(c, a + b) == CrcFrom(CrcFrom(c, a), b)
  {
    hide Fed;
    if b == [] {
      assert a + b == a;
    } else {
      CrcOfParts(c, a, b[..|b| - 1]);
      assert (a + b)[..|a + b| - 1] == a + b[..|b| - 1];
    }
  }

  // ---- two bytes ----

  lemma {:induction false} ShiftedIsLinear(a: bv16, b: bv16, n: nat)
    ensures Shifted(Xor(a, b), n) == Xor(Shifted(a, n), Shifted(b, n))
  {
    hide Shift, Xor;
    if n != 0 {
      ShiftedIsLinear(a, b, n - 1);
      ShiftIsLinear(Shifted(a, n - 1), Shifted(b, n - 1));
    }
  }

  lemma {:induction false} ShiftedTwice(c: bv16, m: nat, n: nat)
    ensures Shifted(Shifted(c, m), n) == Shifted(c, m + n)
  {
    hide Shift;
    if n != 0 { ShiftedTwice(c, m, n - 1); }
  }

  lemma RoomAbove(x: bv16)
    requires x & 0xFF00 == 0
    ensures !Top(x) && !Top(x << 1) && !Top(x << 2) && !Top(x << 3)
    ensures !Top(x << 4) && !Top(x << 5) && !Top(x << 6) && !Top(x << 7)
  {
  }

  lemma DoubledEightTimes(x: bv16)
    ensures Double(x) == x << 1 && Double(x << 1) == x << 2 && Double(x << 2) == x << 3 && Double(x << 3) == x << 4
    ensures Double(x << 4) == x << 5 && Double(x << 5) == x << 6 && Double(x << 6) == x << 7 && Double(x << 7) == x << 8
  {
  }

  lemma ByteIsLow(b: bv8)
    ensures (b as bv16) & 0xFF00 == 0
  {
  }

  /** A byte below the top bits moves up unharmed. */
  lemma LowByteMovesUp(b: bv8)
    ensures Shifted(b as bv16, 8) == High(b)
  {
    hide Top, Double;
    var x := b as bv16;
    ByteIsLow(b);
    RoomAbove(x);
    DoubledEightTimes(x);
    assert Shifted(x, 0) == x;
    assert Shifted(x, 1) == x << 1;
    assert Shifted(x, 2) == x << 2;
    assert Shifted(x, 3) == x << 3;
    assert Shifted(x, 4) == x << 4;
    assert Shifted(x, 5) == x << 5;
    assert Shifted(x, 6) == x << 6;
    assert Shifted(x, 7) == x << 7;
  }

  /** Two bytes are one 16-bit word: the register takes them in whole. */
  lemma TwoBytesFed(c: bv16, a: bv8, b: bv8)
    ensures Fed(Fed(c, a), b) == Shifted(Xor(c, Xor(High(a), b as bv16)), 16)
  {
    hide Shifted, Xor;
    var word := Xor(c, High(a));
    LowByteMovesUp(b);
    ShiftedIsLinear(word, b as bv16, 8);
    ShiftedTwice(Xor(word, b as bv16), 8, 8);
    XorAssociates(c, High(a), b as bv16);
  }

  lemma WordsDiffer(a: bv8, b: bv8, a': bv8, b': bv8)
    requires Xor(High(a), b as bv16) == Xor(High(a'), b' as bv16)
    ensures a == a' && b == b'
  {
  }

  lemma TwoBytesAreInjective(c: bv16, a: bv8, b: bv8, a': bv8, b': bv8)
    requires Fed(Fed(c, a), b) == Fed(Fed(c, a'), b')
    ensures a == a' && b == b'
  {
    hide Fed, Shifted, Xor, High;
    TwoBytesFed(c, a, b);
    TwoBytesFed(c, a', b');
    var x, y := Xor(High(a), b as bv16), Xor(High(a'), b' as bv16);
    ShiftedIsInjective(Xor(c, x), Xor(c, y), 16);
    XorIsInjective(x, y, c);
    WordsDiffer(a, b, a', b');
  }

  /** Damage confined to the bytes at i and i + 1. */
  ghost predicate OnlyAt(m: Bytes, n: Bytes, i: nat) {
    |m| == |n| && forall j :: 0 <= j < |m| && j != i && j != i + 1 ==> m[j] == n[j]
  }

  /** Damage to one byte, or to two neighbours, of a message of any length always
      changes its CRC. */
  lemma NeighboursShow(c: bv16, m: Bytes, n: Bytes, i: nat)
    requires OnlyAt(m, n, i) && i < |m|
    ensures CrcFrom(c, m) == CrcFrom(c, n) <==> m == n
  {
    hide Fed, CrcFrom, OnlyAt;
    var k := if i + 1 < |m| then i + 2 else i + 1;
    InThreeParts(m, n, i, k);
    CrcOfParts(c, m[..k], m[k..]);
    CrcOfParts(c, n[..k], n[k..]);
    if CrcFrom(c, m) == CrcFrom(c, n) {
      CrcIsInjective(CrcFrom(c, m[..k]), CrcFrom(c, n[..k]), m[k..]);
      LastBytes(c, m, n, i, k);
    }
  }

  lemma InThreeParts(m: Bytes, n: Bytes, i: nat, k: nat)
    requires OnlyAt(m, n, i) && i < k <= |m| && k == (if i + 1 < |m| then i + 2 else i + 1)
    ensures |m| == |n| && m[..i] == n[..i] && m[k..] == n[k..]
    ensures m == m[..k] + m[k..] && n == n[..k] + n[k..]
    ensures m == n <==> m[i] == n[i] && (k == i + 2 ==> m[i + 1] == n[i + 1])
  {
  }

  lemma LastBytes(c: bv16, m: Bytes, n: Bytes, i: nat, k: nat)
    requires |m| == |n| && i < k <= |m| && k <= i + 2 && m[..i] == n[..i]
    requires CrcFrom(c, m[..k]) == CrcFrom(c, n[..k])
    ensures m[i] == n[i] && (k == i + 2 ==> m[i + 1] == n[i + 1])
  {
    hide Fed;
    assert m[..i + 1][..i] == m[..i] && n[..i + 1][..i] == n[..i];
    var r := CrcFrom(c, m[..i]);
    assert CrcFrom(c, m[..i + 1]) == Fed(r, m[i]) && CrcFrom(c, n[..i + 1]) == Fed(r, n[i]);
    if k == i + 2 {
      assert m[..k][..i + 1] == m[..i + 1] && n[..k][..i + 1] == n[..i + 1];
      TwoBytesAreInjective(r, m[i], m[i + 1], n[i], n[i + 1]);
    } else {
      OneByteIsInjective(r, m[i], n[i]);
    }
  }

  lemma OneByteIsInjective(c: bv16, a: bv8, b: bv8)
    requires Fed(c, a) == Fed(c, b)
    ensures a == b
  {
    hide Shifted, Xor, High;
    ShiftedIsInjective(Xor(c, High(a)), Xor(c, High(b)), 8);
    XorIsInjective(High(a), High(b), c);
    HighIsInjective(a, b);
  }

  lemma HighIsInjective(a: bv8, b: bv8)
    requires High(a) == High(b)
    ensures a == b
  {
  }

  // ---- what one byte does to the register's high byte ----

  function Row(n: bv16): bv16 {
    (n << 12) ^ (n << 5) ^ n
  }

  /** Some shifts at once, without a case split. */
  function Once(x: bv16): bv16 {
    (x << 1) ^ Row(x >> 15)
  }

  function Twice(x: bv16): bv16 {
    (x << 2) ^ Row(x >> 14)
  }

  function Four(x: bv16): bv16 {
    (x << 4) ^ Row(x >> 12)
  }

  lemma OnceTop(x: bv16)
    requires Top(x)
    ensures Xor(Double(x), 0x1021) == Once(x)
  {
    assert x >> 15 == 1;
  }

  lemma OnceRest(x: bv16)
    requires !Top(x)
    ensures Double(x) == Once(x)
  {
    assert x >> 15 == 0;
  }

  lemma OneShift(x: bv16)
    ensures Shift(x) == Once(x)
  {
    hide Top, Double, Xor, Once;
    if Top(x) { OnceTop(x); } else { OnceRest(x); }
  }

  lemma OnceTwice(x: bv16)
    ensures Once(Once(x)) == Twice(x)
  {
  }

  lemma TwiceTwice(x: bv16)
    ensures Twice(Twice(x)) == Four(x)
  {
  }

  lemma FourShifts(x: bv16, n: nat)
    ensures Shifted(x, n + 4) == Four(Shifted(x, n))
  {
    hide Shift, Once, Twice, Four;
    var x0, x1, x2, x3 := Shifted(x, n), Shifted(x, n + 1), Shifted(x, n + 2), Shifted(x, n + 3);
    OneShift(x0);
    OneShift(x1);
    OneShift(x2);
    OneShift(x3);
    OnceTwice(x0);
    OnceTwice(x2);
    TwiceTwice(x0);
  }

  lemma ByteRow(d: bv8)
    ensures Four(Four(High(d))) == Row((d as bv16) ^ ((d as bv16) >> 4))
  {
  }

  lemma HighByteOfRow(d: bv8)
    ensures OnlyLow(Row((d as bv16) ^ ((d as bv16) >> 4))) <==> d == 0 || d == 0x89
    ensures d == 0x89 ==> Row((d as bv16) ^ ((d as bv16) >> 4)) == 0xA1
    ensures d == 0 ==> Row((d as bv16) ^ ((d as bv16) >> 4)) == 0
  {
  }

  function Diff(a: bv8, b: bv8): bv8 {
    a ^ b
  }

  predicate OnlyLow(x: bv16) {
    x & 0xFF00 == 0
  }

  /** What a change of the last byte changes in the register. */
  function Change(d: bv8): bv16 {
    Shifted(High(d), 8)
  }

  lemma ChangeIsARow(d: bv8)
    ensures Change(d) == Row((d as bv16) ^ ((d as bv16) >> 4))
  {
    hide Row, Four, High, Shift;
    ByteRow(d);
    FourShifts(High(d), 0);
    FourShifts(High(d), 4);
    assert Shifted(High(d), 0) == High(d);
  }

  /** A changed byte shows in the register's high byte, unless the change is
      0x89; then it changes the low byte by 0xA1. */
  lemma ChangeShows(d: bv8)
    ensures OnlyLow(Change(d)) <==> d == 0 || d == 0x89
    ensures (d == 0 ==> Change(d) == 0) && (d == 0x89 ==> Change(d) == 0xA1)
  {
    hide Row, Change;
    ChangeIsARow(d);
    HighByteOfRow(d);
  }

  lemma ChangeOfLastByte(c: bv16, a: bv8, b: bv8)
    ensures Xor(Fed(c, a), Fed(c, b)) == Change(Diff(a, b))
  {
    hide Shifted, Xor, High, Diff;
    ShiftedIsLinear(Xor(c, High(a)), Xor(c, High(b)), 8);
    XorOfBoth(c, a, b);
  }

  lemma XorOfBoth(c: bv16, a: bv8, b: bv8)
    ensures Xor(Xor(c, High(a)), Xor(c, High(b))) == High(Diff(a, b))
  {
  }

  lemma XorIsZero(a: bv8, b: bv8)
    ensures Diff(a, b) == 0 <==> a == b
  {
  }

  // ---- known values ----

  /** The empty message, and the one that is the digit 1. */
  lemma KnownValues()
    ensures Crc([]) == 0xFFFF && Crc([0x31]) == 0xC782
  {
    assert CrcFrom(0xFFFF, []) == 0xFFFF;
    assert [0x31 as bv8][..0] == [];
    assert Crc([0x31]) == Fed(0xFFFF, 0x31);
    FirstByteFed();
  }

  lemma FirstByteFed()
    ensures Fed(0xFFFF, 0x31) == 0xC782
  {
    var c := Xor(0xFFFF, High(0x31));
    assert c == 0xCEFF;
    assert Shifted(c, 0) == c;
    assert Shifted(c, 1) == Shift(0xceff) == 0x8ddf;
    assert Shifted(c, 2) == Shift(0x8ddf) == 0xb9f;
    assert Shifted(c, 3) == Shift(0xb9f) == 0x173e;
    assert Shifted(c, 4) == Shift(0x173e) == 0x2e7c;
    assert Shifted(c, 5) == Shift(0x2e7c) == 0x5cf8;
    assert Shifted(c, 6) == Shift(0x5cf8) == 0xb9f0;
    assert Shifted(c, 7) == Shift(0xb9f0) == 0x63c1;
    assert Shifted(c, 8) == Shift(0x63c1) == 0xc782;
  }
}
