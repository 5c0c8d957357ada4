/** What the checksum of a stored copy refuses: FNV-1a is one to one in its
    register and in each byte, so a copy with one damaged byte is never read
    (lib/CloudSync/WifiList.cpp). */
module StoreDamage {
  import opened Common
  import opened Storage
  import opened WifiList
  import opened HintText
  import opened WifiStore

  // ---- one step of the hash ----

  const PRIME_INVERSE: int := 899433627

  lemma PrimeHasAnInverse(x: U32)
    ensures x * FNV_PRIME % 0x1_0000_0000 * PRIME_INVERSE % 0x1_0000_0000 == x
  {
    var w := 0x1_0000_0000;
    var q := x * FNV_PRIME / w;
    assert FNV_PRIME * PRIME_INVERSE == 3513497 * w + 1;
    var r := x * FNV_PRIME % w;
    assert x * FNV_PRIME == q * w + r;
    calc {
      r * PRIME_INVERSE;
      (x * FNV_PRIME - q * w) * PRIME_INVERSE;
      x * (FNV_PRIME * PRIME_INVERSE) - q * PRIME_INVERSE * w;
      x * (3513497 * w + 1) - q * PRIME_INVERSE * w;
      (x * 3513497 - q * PRIME_INVERSE) * w + x;
    }
    Remainder(x * 3513497 - q * PRIME_INVERSE, x);
  }

  lemma Remainder(k: int, x: U32)
    ensures (k * 0x1_0000_0000 + x) % 0x1_0000_0000 == x
  {
  }

  /** Exclusive or is one to one in each argument. */
  lemma {:induction false} XorIsOneToOne(a: nat, b: nat, c: nat, n: nat)
    requires a < TwoTo(n) && b < TwoTo(n)
    ensures Xor(a, c, n) == Xor(b, c, n) ==> a == b
    ensures Xor(c, a, n) == Xor(a, c, n)
  {
    if n != 0 {
      XorIsOneToOne(a / 2, b / 2, c / 2, n - 1);
      if Xor(a, c, n) == Xor(b, c, n) { LastBit(Xor(a / 2, c / 2, n - 1), Xor(b / 2, c / 2, n - 1), a, b, c); }
    }
  }

  lemma LastBit(p: nat, q: nat, a: nat, b: nat, c: nat)
    requires 2 * p + (a + c) % 2 == 2 * q + (b + c) % 2
    ensures p == q && (a / 2 == b / 2 ==> a == b)
  {
  }

  lemma XorByteIsOneToOne(a: Octet, b: Octet, c: Octet)
    ensures XorByte(a, c) == XorByte(b, c) ==> a == b
    ensures XorByte(c, a) == XorByte(c, b) ==> a == b
  {
    hide Xor, TwoTo;
    XorFits(0, 0, 8);
    XorIsOneToOne(a, b, c, 8);
    XorIsOneToOne(b, a, c, 8);
  }

  lemma MixingIsOneToOne(g: U32, h: U32, a: Octet, b: Octet)
    ensures MixedIn(g, a) == MixedIn(h, a) ==> g == h
    ensures MixedIn(h, a) == MixedIn(h, b) ==> a == b
  {
    hide XorByte;
    TopAndLow(g, h, XorByte(g % 256, a), XorByte(h % 256, a));
    XorByteIsOneToOne(g % 256, h % 256, a);
    XorByteIsOneToOne(a, b, h % 256);
  }

  lemma TopAndLow(g: U32, h: U32, x: Octet, y: Octet)
    ensures g / 256 * 256 + x == h / 256 * 256 + y ==> x == y && g / 256 == h / 256
  {
  }

  /** The hash step is one to one in the register and in the byte: its prime is odd. */
  lemma StepIsOneToOne(g: U32, h: U32, a: Octet, b: Octet)
    ensures Hashed(g, a) == Hashed(h, a) ==> g == h
    ensures Hashed(h, a) == Hashed(h, b) ==> a == b
  {
    StepIsMixed(g, a);
    StepIsMixed(h, a);
    StepIsMixed(h, b);
    hide Hashed, MixedIn;
    PrimeHasAnInverse(MixedIn(g, a));
    PrimeHasAnInverse(MixedIn(h, a));
    PrimeHasAnInverse(MixedIn(h, b));
    MixingIsOneToOne(g, h, a, b);
  }

  lemma StepIsMixed(h: U32, a: Octet)
    ensures Hashed(h, a) == MixedIn(h, a) * FNV_PRIME % 0x1_0000_0000
  {
  }

  // ---- the bytes a checksum covers ----

  function Fnv(h: U32, bytes: seq<Octet>): U32 {
    if bytes == [] then h else Hashed(Fnv(h, bytes[..|bytes| - 1]), bytes[|bytes| - 1])
  }

  /** A field as it is hashed: its bytes and a byte no text holds. */
  function FieldBytes(text: Text): seq<Octet> {
    text + [255]
  }

  function NetsBytes(nets: seq<Network>): seq<Octet> {
    if nets == [] then []
    else
      var n := nets[|nets| - 1];
      NetsBytes(nets[..|nets| - 1]) + FieldBytes(n.name) + FieldBytes(n.pass)
  }

  function CopyBytes(c: Copy, l: List): seq<Octet>
    requires |l.nets| <= MAX_NETS
  {
    FieldBytes([if c.CopyA? then 97 else 98, 48 + |l.nets|]) + NetsBytes(l.nets) + FieldBytes(PrintHint(l.hint))
  }

  lemma {:induction false} FnvTwice(h: U32, a: seq<Octet>, b: seq<Octet>)
    ensures Fnv(h, a + b) == Fnv(Fnv(h, a), b)
  {
    hide Hashed;
    if b == [] {
      assert a + b == a;
    } else {
      var n := |b| - 1;
      FnvTwice(h, a, b[..n]);
      assert (a + b)[..|a + b| - 1] == a + b[..n];
    }
  }

  lemma {:induction false} TextIsFnv(h: U32, text: Text)
    ensures HashedText(h, text) == Fnv(h, text)
  {
    hide Hashed;
    if text != [] { TextIsFnv(h, text[..|text| - 1]); }
  }

  lemma FieldIsFnv(h: U32, text: Text)
    ensures HashedField(h, text) == Fnv(h, FieldBytes(text))
  {
    hide Hashed;
    TextIsFnv(h, text);
    assert FieldBytes(text)[..|text|] == text;
  }

  lemma {:induction false} NetsAreFnv(h: U32, nets: seq<Network>)
    ensures HashedNets(h, nets) == Fnv(h, NetsBytes(nets))
  {
    hide Fnv, HashedField, FieldBytes;
    if nets != [] {
      var n, before := nets[|nets| - 1], nets[..|nets| - 1];
      NetsAreFnv(h, before);
      FnvTwice(h, NetsBytes(before), FieldBytes(n.name));
      FnvTwice(h, NetsBytes(before) + FieldBytes(n.name), FieldBytes(n.pass));
      FieldIsFnv(HashedNets(h, before), n.name);
      FieldIsFnv(HashedField(HashedNets(h, before), n.name), n.pass);
    } else {
      assert Fnv(h, []) == h by { NothingHashed(h); }
    }
  }

  lemma NothingHashed(h: U32)
    ensures Fnv(h, []) == h
  {
  }

  /** The checksum is FNV-1a over everything a copy holds. */
  lemma ChecksumIsFnv(c: Copy, l: List)
    requires |l.nets| <= MAX_NETS
    ensures Checksum(c, l) == Fnv(2166136261, CopyBytes(c, l))
  {
    hide Fnv, HashedField, HashedNets, FieldBytes, NetsBytes, PrintHint;
    var head := HeadText(c, |l.nets|);
    var first := FieldBytes(head);
    FieldIsFnv(FNV_BASIS, head);
    NetsAreFnv(HashedField(FNV_BASIS, head), l.nets);
    FnvTwice(FNV_BASIS, first, NetsBytes(l.nets));
    FieldIsFnv(HashedNets(HashedField(FNV_BASIS, head), l.nets), PrintHint(l.hint));
    FnvTwice(FNV_BASIS, first + NetsBytes(l.nets), FieldBytes(PrintHint(l.hint)));
  }

  // ---- one damaged byte ----

  /** The same but for exactly one byte. */
  ghost predicate OneByteApart(a: seq<int>, b: seq<int>) {
    |a| == |b| && exists i :: 0 <= i < |a| && a[i] != b[i] && b == a[i := b[i]]
  }

  lemma {:induction false} RegistersStayApart(g: U32, h: U32, bytes: seq<Octet>)
    requires g != h
    ensures Fnv(g, bytes) != Fnv(h, bytes)
  {
    hide Hashed;
    if bytes != [] {
      var n := |bytes| - 1;
      RegistersStayApart(g, h, bytes[..n]);
      StepIsOneToOne(Fnv(g, bytes[..n]), Fnv(h, bytes[..n]), bytes[n], bytes[n]);
    }
  }

  /** One changed byte always changes the hash, wherever it is. */
  lemma OneByteShows(h: U32, a: seq<Octet>, b: seq<Octet>)
    requires OneByteApart(a, b)
    ensures Fnv(h, a) != Fnv(h, b)
  {
    hide Fnv, Hashed;
    var i :| 0 <= i < |a| && a[i] != b[i] && b == a[i := b[i]];
    InThree(h, a, i);
    InThree(h, b, i);
    assert a[..i] == b[..i] && a[i + 1..] == b[i + 1..];
    var r := Fnv(h, a[..i]);
    StepIsOneToOne(r, r, a[i], b[i]);
    RegistersStayApart(Hashed(r, a[i]), Hashed(r, b[i]), a[i + 1..]);
  }

  lemma InThree(h: U32, a: seq<Octet>, i: nat)
    requires i < |a|
    ensures Fnv(h, a) == Fnv(Hashed(Fnv(h, a[..i]), a[i]), a[i + 1..])
  {
    hide Hashed;
    assert a[..i + 1][..i] == a[..i] && a == a[..i + 1] + a[i + 1..];
    assert Fnv(h, a[..i + 1]) == Hashed(Fnv(h, a[..i]), a[i]);
    hide Fnv;
    FnvTwice(h, a[..i + 1], a[i + 1..]);
  }

  lemma ApartWithin(x: seq<int>, a: seq<int>, b: seq<int>, y: seq<int>)
    requires OneByteApart(a, b)
    ensures OneByteApart(x + a + y, x + b + y)
  {
    var i :| 0 <= i < |a| && a[i] != b[i] && b == a[i := b[i]];
    assert (x + a + y)[|x| + i] != (x + b + y)[|x| + i];
    assert x + b + y == (x + a + y)[|x| + i := b[i]];
  }

  lemma ApartFields(a: Text, b: Text)
    requires OneByteApart(a, b)
    ensures OneByteApart(FieldBytes(a), FieldBytes(b))
  {
    ApartWithin([], a, b, [255]);
    assert [] + a + [255] == FieldBytes(a) && [] + b + [255] == FieldBytes(b);
  }

  /** The network with one byte of its name or its password damaged. */
  ghost predicate NetDamaged(n: Network, d: Network) {
    (OneByteApart(n.name, d.name) && n.pass == d.pass) || (n.name == d.name && OneByteApart(n.pass, d.pass))
  }

  lemma {:induction false} ApartNets(nets: seq<Network>, i: nat, d: Network)
    requires i < |nets| && NetDamaged(nets[i], d)
    ensures OneByteApart(NetsBytes(nets), NetsBytes(nets[i := d]))
  {
    hide OneByteApart, FieldBytes;
    var n := |nets| - 1;
    var before, name, pass := NetsBytes(nets[..n]), FieldBytes(nets[n].name), FieldBytes(nets[n].pass);
    if i < n {
      ApartNets(nets[..n], i, d);
      assert nets[i := d][..n] == nets[..n][i := d];
      ApartWithin([], before, NetsBytes(nets[..n][i := d]), name + pass);
      assert [] + before + (name + pass) == before + name + pass;
      assert [] + NetsBytes(nets[..n][i := d]) + (name + pass) == NetsBytes(nets[..n][i := d]) + name + pass;
    } else {
      assert nets[i := d][..n] == nets[..n];
      if OneByteApart(nets[i].name, d.name) && nets[i].pass == d.pass {
        ApartFields(nets[i].name, d.name);
        ApartWithin(before, name, FieldBytes(d.name), pass);
      } else {
        ApartFields(nets[i].pass, d.pass);
        ApartWithin(before + name, pass, FieldBytes(d.pass), []);
        assert before + name + pass + [] == before + name + pass;
        assert before + name + FieldBytes(d.pass) + [] == before + name + FieldBytes(d.pass);
      }
    }
  }

  /** A list damaged in one byte of one network has another checksum. */
  lemma DamagedNetChangesTheSum(c: Copy, l: List, i: nat, d: Network)
    requires |l.nets| <= MAX_NETS && i < |l.nets| && NetDamaged(l.nets[i], d)
    ensures Checksum(c, l.(nets := l.nets[i := d])) != Checksum(c, l)
  {
    hide Checksum, OneByteApart, Fnv, NetsBytes, PrintHint;
    var damaged := l.(nets := l.nets[i := d]);
    ApartNets(l.nets, i, d);
    var head, hint := FieldBytes([if c.CopyA? then 97 else 98, 48 + |l.nets|]), FieldBytes(PrintHint(l.hint));
    ApartWithin(head, NetsBytes(l.nets), NetsBytes(damaged.nets), hint);
    OneByteShows(FNV_BASIS, CopyBytes(c, l), CopyBytes(c, damaged));
    ChecksumIsFnv(c, l);
    ChecksumIsFnv(c, damaged);
  }

  /** And so has one whose printed hint differs in one byte. */
  lemma DamagedHintChangesTheSum(c: Copy, l: List, hint: Option<Hint>)
    requires |l.nets| <= MAX_NETS && OneByteApart(PrintHint(l.hint), PrintHint(hint))
    ensures Checksum(c, l.(hint := hint)) != Checksum(c, l)
  {
    hide Checksum, OneByteApart, Fnv, NetsBytes, PrintHint;
    var damaged := l.(hint := hint);
    ApartFields(PrintHint(l.hint), PrintHint(hint));
    var head := FieldBytes([if c.CopyA? then 97 else 98, 48 + |l.nets|]) + NetsBytes(l.nets);
    ApartWithin(head, FieldBytes(PrintHint(l.hint)), FieldBytes(PrintHint(hint)), []);
    assert head + FieldBytes(PrintHint(l.hint)) + [] == CopyBytes(c, l);
    assert head + FieldBytes(PrintHint(hint)) + [] == CopyBytes(c, damaged);
    OneByteShows(FNV_BASIS, CopyBytes(c, l), CopyBytes(c, damaged));
    ChecksumIsFnv(c, l);
    ChecksumIsFnv(c, damaged);
  }

  // ---- a damaged copy is never read ----

  lemma CopyReads(m: Store, c: Copy, l: List)
    requires ReadCopy(m, c) == Some(l)
    ensures CountKey(c) in m && GetNumber(m, CountKey(c)) == |l.nets| <= MAX_NETS
    ensures ReadNets(m, c, |l.nets|) == Some(l.nets) && ReadHint(m, c, |l.nets|) == Some(l.hint)
    ensures SumKey(c) in m && GetNumber(m, SumKey(c)) == Checksum(c, l)
  {
    hide Checksum, ReadNets, ReadHint;
    ReadNetsOk(m, c, GetNumber(m, CountKey(c)));
  }

  /** Another checksum than that of what is read refuses the copy. */
  lemma WrongSumIsRefused(m: Store, c: Copy, l: List)
    requires |l.nets| <= MAX_NETS && GetNumber(m, CountKey(c)) == |l.nets|
    requires ReadNets(m, c, |l.nets|).Some? ==> ReadNets(m, c, |l.nets|).value == l.nets
    requires ReadHint(m, c, |l.nets|).Some? ==> ReadHint(m, c, |l.nets|).value == l.hint
    requires GetNumber(m, SumKey(c)) != Checksum(c, l)
    ensures ReadCopy(m, c) == None
  {
    hide Checksum, ReadNets, ReadHint;
  }

  /** The two stores differ in slot i of copy c at most. */
  ghost predicate OnlySlotDiffers(m: Store, n: Store, c: Copy, i: nat) {
    forall k: Key :: k != NameKey(c, i) && k != PassKey(c, i) ==> (k in m <==> k in n) && (k in m ==> m[k] == n[k])
  }

  lemma OtherSlotReads(m: Store, n: Store, c: Copy, i: nat, j: nat)
    requires OnlySlotDiffers(m, n, c, i) && i != j
    ensures GetText(n, NameKey(c, j), NAME_MAX) == GetText(m, NameKey(c, j), NAME_MAX)
    ensures GetText(n, PassKey(c, j), PASS_MAX) == GetText(m, PassKey(c, j), PASS_MAX)
  {
  }

  function PassOf(m: Store, c: Copy, i: nat): Text {
    var pass := GetText(m, PassKey(c, i), PASS_MAX);
    if pass.Some? then pass.value else []
  }

  /** The last of the networks read. */
  lemma LastNet(m: Store, c: Copy, count: nat)
    requires ReadNets(m, c, count).Some? && 0 < count
    ensures var before, name := ReadNets(m, c, count - 1), GetText(m, NameKey(c, count - 1), NAME_MAX);
            && before.Some? && |before.value| == count - 1 && name.Some?
            && ReadNets(m, c, count).value == before.value + [Network(name.value, PassOf(m, c, count - 1))]
  {
    hide GetText;
    ReadNetsOk(m, c, count - 1);
  }

  lemma {:induction false} EarlierNets(m: Store, n: Store, c: Copy, i: nat, count: nat)
    requires count <= i && OnlySlotDiffers(m, n, c, i)
    ensures ReadNets(n, c, count) == ReadNets(m, c, count)
    decreases count
  {
    hide OnlySlotDiffers, GetText;
    if count != 0 {
      EarlierNets(m, n, c, i, count - 1);
      OtherSlotReads(m, n, c, i, count - 1);
      hide ReadNets;
      OneMoreRead(m, n, c, count);
    }
  }

  /** What is read when one slot holds something else: the same networks but that
      one, if anything. */
  lemma {:induction false} DamagedNets(m: Store, n: Store, c: Copy, count: nat, i: nat, d: Network)
    requires ReadNets(m, c, count).Some? && i < count && |ReadNets(m, c, count).value| == count
    requires OnlySlotDiffers(m, n, c, i)
    requires GetText(n, NameKey(c, i), NAME_MAX) == Some(d.name) && PassOf(n, c, i) == d.pass
    ensures var r := ReadNets(n, c, count); r.Some? ==> r.value == ReadNets(m, c, count).value[i := d]
    decreases count
  {
    hide OnlySlotDiffers, ReadNets, GetText;
    if ReadNets(n, c, count).Some? {
      LastNet(m, c, count);
      LastNet(n, c, count);
      if i < count - 1 {
        DamagedNets(m, n, c, count - 1, i, d);
        OtherSlotReads(m, n, c, i, count - 1);
      } else {
        EarlierNets(m, n, c, i, count - 1);
      }
    }
  }

  /** A stored name or password with one damaged byte. */
  ghost predicate SlotDamaged(m: Store, n: Store, c: Copy, i: nat, was: Network, d: Network) {
    && OnlySlotDiffers(m, n, c, i) && NetDamaged(was, d)
    && GetText(n, NameKey(c, i), NAME_MAX) == Some(d.name) && PassOf(n, c, i) == d.pass
  }

  /** Whichever byte of whichever name or password is damaged, the copy is refused. */
  lemma DamagedCopyIsRefused(m: Store, n: Store, c: Copy, l: List, i: nat, d: Network)
    requires ReadCopy(m, c) == Some(l) && i < |l.nets| && SlotDamaged(m, n, c, i, l.nets[i], d)
    ensures ReadCopy(n, c) == None
  {
    CopyReads(m, c, l);
    assert ReadHint(n, c, |l.nets|) == ReadHint(m, c, |l.nets|) && GetNumber(n, CountKey(c)) == GetNumber(m, CountKey(c))
           && GetNumber(n, SumKey(c)) == GetNumber(m, SumKey(c)) by { hide ReadNets, NetDamaged; }
    hide ReadNets, ReadHint, GetText, GetNumber, Checksum, OnlySlotDiffers, NetDamaged, ReadCopy;
    DamagedNets(m, n, c, |l.nets|, i, d);
    DamagedNetChangesTheSum(c, l, i, d);
    WrongSumIsRefused(n, c, l.(nets := l.nets[i := d]));
  }

  /** A hint that does not parse, or that prints one byte apart, refuses the copy. */
  lemma DamagedHintIsRefused(m: Store, c: Copy, l: List, text: Text)
    requires ReadCopy(m, c) == Some(l) && 0 < |text| <= HINT_MAX
    requires var h := ParseHint(text); h.None? || OneByteApart(PrintHint(l.hint), PrintHint(h))
    ensures ReadCopy(m[HintKey(c) := Str(text)], c) == None
  {
    var n := m[HintKey(c) := Str(text)];
    hide Checksum, PrintHint, ParseHint, OneByteApart;
    CopyReads(m, c, l);
    ReadNetsWithoutHint(m, c, text, |l.nets|);
    hide ReadNets;
    if ParseHint(text).Some? {
      DamagedHintChangesTheSum(c, l, ParseHint(text));
      WrongSumIsRefused(n, c, l.(hint := ParseHint(text)));
    }
  }

  lemma {:induction false} ReadNetsWithoutHint(m: Store, c: Copy, text: Text, count: nat)
    ensures ReadNets(m[HintKey(c) := Str(text)], c, count) == ReadNets(m, c, count)
  {
    if count != 0 {
      ReadNetsWithoutHint(m, c, text, count - 1);
      OneMoreRead(m, m[HintKey(c) := Str(text)], c, count);
      hide ReadNets;
    }
  }

  /** Any other checksum refuses the copy, and so does none. */
  lemma OnlyItsOwnSumPasses(m: Store, c: Copy, l: List, n: U32)
    requires ReadCopy(m, c) == Some(l)
    ensures ReadCopy(m[SumKey(c) := Num(n)], c) == if n == Checksum(c, l) then Some(l) else None
    ensures ReadCopy(m - {SumKey(c)}, c) == None
  {
    hide Checksum, ReadNets, ReadHint;
    CopyReads(m, c, l);
    SumIsNotRead(m, m[SumKey(c) := Num(n)], c, |l.nets|);
    SumIsNotText(m, m[SumKey(c) := Num(n)], c, HintKey(c), HINT_MAX);
    HintAlike(m, m[SumKey(c) := Num(n)], c, |l.nets|);
  }

  lemma {:induction false} SumIsNotRead(m: Store, n: Store, c: Copy, count: nat)
    requires OnlySumDiffers(m, n, c)
    ensures ReadNets(n, c, count) == ReadNets(m, c, count)
  {
    hide OnlySumDiffers, GetText;
    if count != 0 {
      SumIsNotRead(m, n, c, count - 1);
      SumIsNotText(m, n, c, NameKey(c, count - 1), NAME_MAX);
      SumIsNotText(m, n, c, PassKey(c, count - 1), PASS_MAX);
      hide ReadNets;
      OneMoreRead(m, n, c, count);
    }
  }

  lemma HintAlike(m: Store, n: Store, c: Copy, count: nat)
    requires GetText(n, HintKey(c), HINT_MAX) == GetText(m, HintKey(c), HINT_MAX)
    ensures ReadHint(n, c, count) == ReadHint(m, c, count)
  {
  }

  ghost predicate OnlySumDiffers(m: Store, n: Store, c: Copy) {
    forall k: Key :: k != SumKey(c) ==> (k in m <==> k in n) && (k in m ==> m[k] == n[k])
  }

  lemma SumIsNotText(m: Store, n: Store, c: Copy, k: Key, cap: nat)
    requires OnlySumDiffers(m, n, c) && k != SumKey(c)
    ensures GetText(n, k, cap) == GetText(m, k, cap)
  {
  }

  /** With its current copy damaged, a store is read from the other one, whatever
      the older keys hold, and a repair is asked for. */
  lemma DamageFallsBack(m: Store, n: Store, l: List, other: List, i: nat, d: Network)
    requires CurrentCopy(m).Some? && i < |l.nets|
    requires var c := CurrentCopy(m).value;
             && ReadCopy(m, c) == Some(l) && ReadCopy(m, Other(c)) == Some(other)
             && SlotDamaged(m, n, c, i, l.nets[i], d)
    ensures Load(n) == Loaded(other, true)
  {
    var c := CurrentCopy(m).value;
    DamagedCopyIsRefused(m, n, c, l, i, d);
    hide NetDamaged, ReadCopy;
    OtherCopyReads(m, n, c, i);
    assert CurrentCopy(n) == CurrentCopy(m);
    hide OnlySlotDiffers;
  }

  lemma OtherCopyReads(m: Store, n: Store, c: Copy, i: nat)
    requires OnlySlotDiffers(m, n, c, i)
    ensures ReadCopy(n, Other(c)) == ReadCopy(m, Other(c))
  {
    hide ReadCopy;
    ReadCopyFrame(m, n, Other(c));
  }

  /** Two saves in a row, and then one damaged byte of the later one: the earlier
      list is read, and a repair is asked for. */
  lemma EarlierSaveIsRead(m: Store, first: List, p: seq<bool>, second: List, q: seq<bool>, n: Store, i: nat, d: Network)
    requires ListOk(first) && ListOk(second) && Saved(m, first, p).1 && i < |second.nets|
    requires var a := Saved(m, first, p).0; Saved(a, second, q).1
    requires var b := Saved(Saved(m, first, p).0, second, q).0;
             CurrentCopy(b).Some? && SlotDamaged(b, n, CurrentCopy(b).value, i, second.nets[i], d)
    ensures Load(n) == Loaded(first, true)
  {
    hide ReadCopy, SlotDamaged, Saved, Load, OlderKeysAgree;
    var a := Saved(m, first, p).0;
    CompletedSave(m, first, p);
    CompletedSave(a, second, q);
    BothCopiesStand(a, first, second, q);
    DamageFallsBack(Saved(a, second, q).0, n, second, first, i, d);
  }

  /** A save over a whole current copy leaves that one as the other copy. */
  lemma BothCopiesStand(m: Store, first: List, second: List, power: seq<bool>)
    requires HeldWhole(m, first) && ListOk(second) && Saved(m, second, power).1
    ensures var b := Saved(m, second, power).0;
            CurrentCopy(b) == Some(Other(CurrentCopy(m).value)) && ReadCopy(b, CurrentCopy(m).value) == Some(first)
  {
    hide ReadCopy, CopyWrites, Checksum;
    var c := CurrentCopy(m).value;
    var b := Saved(m, second, power).0;
    forall k: Key | k in CopyKeys(c)
      ensures (k in m <==> k in b) && (k in m ==> m[k] == b[k])
    {
      KeptBySave(m, second, power, k);
    }
    ReadCopyFrame(m, b, c);
    CurrentAfterSave(m, second, power);
  }

  lemma KeptBySave(m: Store, l: List, power: seq<bool>, k: Key)
    requires ListOk(l) && CurrentCopy(m).Some? && ReadCopy(m, CurrentCopy(m).value).Some? && InCopy(k, CurrentCopy(m).value)
    ensures var b := Saved(m, l, power).0; (k in m <==> k in b) && (k in m ==> m[k] == b[k])
  {
    hide ReadCopy, CopyWrites, Tried;
    var marked := m[SyncKey := Num(1)];
    var target := Target(m);
    CopyWritesTouchOneCopy(marked, target, l, Rest(power, 1));
    assert k in iset k: Key | !InCopy(k, target);
    var copied := Tried(marked, CopyWrites(target, l), Rest(power, 1));
    var flipped := copied[CurrentKey := Num(if target.CopyA? then 1 else 2)];
    TriedElsewhere(flipped, OlderWrites(l), Rest(power, 12), k);
  }

  lemma CurrentAfterSave(m: Store, l: List, power: seq<bool>)
    requires ListOk(l) && Saved(m, l, power).1
    ensures CurrentCopy(Saved(m, l, power).0) == Some(Target(m))
  {
    hide ReadCopy, CopyWrites, Tried, Target;
    var copied := Tried(m[SyncKey := Num(1)], CopyWrites(Target(m), l), Rest(power, 1));
    var flipped := copied[CurrentKey := Num(if Target(m).CopyA? then 1 else 2)];
    TriedElsewhere(flipped, OlderWrites(l), Rest(power, 12), CurrentKey);
  }
}
