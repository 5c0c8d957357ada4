/** The stored form of the WiFi list: two whole copies, a checksum written last,
    one key that says which copy is current, a marker set while a save is under
    way, and the older single-network keys (lib/CloudSync/WifiList.cpp). */
module WifiStore {
  import opened Common
  import opened Storage
  import opened WifiList
  import opened HintText

  datatype Copy = CopyA | CopyB

  // The store's key names: "bank", "lsync", "ssid", "pass", and per copy
  // "<b>n", "<b>s<i>", "<b>p<i>", "<b>h", "<b>c".
  datatype Key =
    | CurrentKey
    | SyncKey
    | OlderName
    | OlderPass
    | CountKey(copy: Copy)
    | NameKey(copy: Copy, slot: nat)
    | PassKey(copy: Copy, slot: nat)
    | HintKey(copy: Copy)
    | SumKey(copy: Copy)

  type Store = map<Key, Value>

  function Other(c: Copy): Copy {
    if c.CopyA? then CopyB else CopyA
  }

  predicate InCopy(k: Key, c: Copy) {
    match k
    case CountKey(d) => d == c
    case NameKey(d, _) => d == c
    case PassKey(d, _) => d == c
    case HintKey(d) => d == c
    case SumKey(d) => d == c
    case _ => false
  }

  // ---- reading one key ----

  function GetText(m: Store, k: Key, cap: nat): Option<Text> {
    if k !in m then None
    else if !m[k].Str? then Some([])
    else Some(if |m[k].text| <= cap then m[k].text else m[k].text[..cap])
  }

  function GetNumber(m: Store, k: Key): U32 {
    if k in m && m[k].Num? then m[k].n else 0
  }

  // ---- the checksum: 32-bit FNV-1a over everything a copy holds ----

  const FNV_BASIS: U32 := 2166136261
  const FNV_PRIME: U32 := 16777619

  /** The exclusive or of the low n bits, bit by bit. */
  function Xor(a: nat, b: nat, n: nat): (r: nat) {
    if n == 0 then 0 else 2 * Xor(a / 2, b / 2, n - 1) + (a + b) % 2
  }

  function XorByte(a: Octet, b: Octet): Octet {
    XorFits(a, b, 8);
    Xor(a, b, 8)
  }

  /** One byte into the register: only its low eight bits can change first. */
  function MixedIn(h: U32, b: Octet): U32 {
    h / 256 * 256 + XorByte(h % 256, b)
  }

  function Hashed(h: U32, b: Octet): U32 {
    MixedIn(h, b) * FNV_PRIME % 0x1_0000_0000
  }

  function TwoTo(n: nat): nat {
    if n == 0 then 1 else 2 * TwoTo(n - 1)
  }

  lemma {:induction false} XorFits(a: nat, b: nat, n: nat)
    ensures Xor(a, b, n) < TwoTo(n)
    ensures TwoTo(8) == 256
  {
    if n != 0 { XorFits(a / 2, b / 2, n - 1); }
    assert TwoTo(4) == 16;
  }

  function HashedText(h: U32, text: Text): U32 {
    if text == [] then h else Hashed(HashedText(h, text[..|text| - 1]), text[|text| - 1])
  }

  /** A field is closed by a byte no text holds, so "ab","c" and "a","bc" differ. */
  function HashedField(h: U32, text: Text): U32 {
    Hashed(HashedText(h, text), 255)
  }

  function HashedNets(h: U32, nets: seq<Network>): U32 {
    if nets == [] then h
    else
      var n := nets[|nets| - 1];
      HashedField(HashedField(HashedNets(h, nets[..|nets| - 1]), n.name), n.pass)
  }

  function HeadText(c: Copy, count: nat): Text
    requires count <= MAX_NETS
  {
    [if c.CopyA? then 97 else 98, ZERO + count]
  }

  function Checksum(c: Copy, l: List): U32
    requires |l.nets| <= MAX_NETS
  {
    HashedField(HashedNets(HashedField(FNV_BASIS, HeadText(c, |l.nets|)), l.nets), PrintHint(l.hint))
  }

  // ---- reading a copy and the whole store ----

  function ReadNets(m: Store, c: Copy, n: nat): Option<seq<Network>> {
    if n == 0 then Some([])
    else
      var before := ReadNets(m, c, n - 1);
      var name := GetText(m, NameKey(c, n - 1), NAME_MAX);
      var pass := GetText(m, PassKey(c, n - 1), PASS_MAX);
      if before.None? || name.None? || name.value == [] then None
      else if exists j :: 0 <= j < |before.value| && before.value[j].name == name.value then None
      else Some(before.value + [Network(name.value, if pass.Some? then pass.value else [])])
  }

  /** None when a stored hint cannot stand; otherwise the hint, if any. */
  function ReadHint(m: Store, c: Copy, count: nat): Option<Option<Hint>> {
    var text := GetText(m, HintKey(c), HINT_MAX);
    if text.None? || text.value == [] then Some(None)
    else if count == 0 || ParseHint(text.value).None? then None
    else Some(ParseHint(text.value))
  }

  lemma {:induction false} ReadNetsOk(m: Store, c: Copy, n: nat)
    ensures var r := ReadNets(m, c, n);
            r.Some? ==> |r.value| == n && DistinctNames(r.value) &&
                        forall i :: 0 <= i < n ==> NetworkOk(r.value[i])
  {
    if n != 0 { ReadNetsOk(m, c, n - 1); }
  }

  /** The list a copy holds; None unless the copy is whole and well formed. */
  function ReadCopy(m: Store, c: Copy): (r: Option<List>)
    ensures r.Some? ==> ListOk(r.value)
  {
    var count := GetNumber(m, CountKey(c));
    if CountKey(c) !in m || MAX_NETS < count then None
    else
      ReadNetsOk(m, c, count);
      var nets := ReadNets(m, c, count);
      var hint := ReadHint(m, c, count);
      if nets.None? || hint.None? then None
      else
        var l := List(nets.value, hint.value);
        if SumKey(c) !in m || GetNumber(m, SumKey(c)) != Checksum(c, l) then None else Some(l)
  }

  function CurrentCopy(m: Store): Option<Copy> {
    var id := GetNumber(m, CurrentKey);
    if id == 1 then Some(CopyA) else if id == 2 then Some(CopyB) else None
  }

  /** The network an older image left in the single-network keys. */
  function OlderNetwork(m: Store): (r: Option<Network>)
    ensures r.Some? ==> NetworkOk(r.value)
  {
    var name := GetText(m, OlderName, NAME_MAX);
    var pass := GetText(m, OlderPass, PASS_MAX);
    if name.None? || name.value == [] then None
    else Some(Network(name.value, if pass.Some? then pass.value else []))
  }

  /** The stored list when the older keys are not trusted. */
  function WholeList(m: Store): Option<List> {
    var current := CurrentCopy(m);
    if current.None? then None
    else if ReadCopy(m, current.value).Some? then ReadCopy(m, current.value)
    else ReadCopy(m, Other(current.value))
  }

  datatype Loaded = Loaded(list: List, repair: bool)

  function Adopted(l: List, older: Network): List {
    var room := if Find(l.nets, older.name) < 0 && |l.nets| == MAX_NETS then l.(nets := l.nets[..MAX_NETS - 1]) else l;
    AddTo(room, older.name, older.pass).0
  }

  function Load(m: Store): Loaded {
    var older := OlderNetwork(m);
    var current := CurrentCopy(m);
    var whole := WholeList(m);
    var fellBack := current.Some? && ReadCopy(m, current.value).None?;
    if whole.None? then
      if older.Some? then Loaded(List([older.value], None), true)
      else Loaded(EMPTY, SyncKey in m || current.Some?)
    else if SyncKey in m || fellBack then Loaded(whole.value, true)
    else
      var l := whole.value;
      if older.None? then Loaded(l, l.nets != [])
      else if l.nets == [] || older.value.name != l.nets[0].name then Loaded(Adopted(l, older.value), true)
      else if older.value.pass != l.nets[0].pass then Loaded(l.(nets := [older.value] + l.nets[1..]), true)
      else Loaded(l, false)
  }

  /** What is read can always be saved again. */
  lemma LoadIsWellFormed(m: Store)
    ensures ListOk(Load(m).list)
  {
    hide Checksum, ReadCopy;
    var older := OlderNetwork(m);
    var whole := WholeList(m);
    if whole.Some? && older.Some? {
      var l := whole.value;
      var room := if Find(l.nets, older.value.name) < 0 && |l.nets| == MAX_NETS
                  then l.(nets := l.nets[..MAX_NETS - 1]) else l;
      assert ListOk(room);
      AddKeepsListOk(room, older.value.name, older.value.pass);
    }
  }

  // ---- saving: every write in order ----

  function SlotWrite(c: Copy, l: List, i: nat): Write<Key> {
    var key := if i % 2 == 0 then NameKey(c, i / 2) else PassKey(c, i / 2);
    if i / 2 < |l.nets|
    then Put(key, Str(if i % 2 == 0 then l.nets[i / 2].name else l.nets[i / 2].pass))
    else Del(key)
  }

  const COPY_WRITES: nat := 10

  function HintWrite(c: Copy, l: List): Write<Key> {
    var text := PrintHint(if l.nets != [] then l.hint else None);
    if text != [] then Put(HintKey(c), Str(text)) else Del(HintKey(c))
  }

  function CopyWrites(c: Copy, l: List): (ws: seq<Write<Key>>)
    requires |l.nets| <= MAX_NETS
    ensures |ws| == COPY_WRITES
  {
    [Del(SumKey(c))] + seq(6, i requires 0 <= i => SlotWrite(c, l, i)) +
    [HintWrite(c, l), Put(CountKey(c), Num(|l.nets|)), Put(SumKey(c), Num(Checksum(c, l)))]
  }

  function OlderWrites(l: List): (ws: seq<Write<Key>>)
    ensures |ws| == 2
  {
    if l.nets != [] then [Put(OlderName, Str(l.nets[0].name)), Put(OlderPass, Str(l.nets[0].pass))]
    else [Del(OlderName), Del(OlderPass)]
  }

  /** The copy a save writes: never the only whole one. */
  function Target(m: Store): Copy {
    var current := CurrentCopy(m);
    if current.None? then CopyA
    else if ReadCopy(m, current.value).Some? then Other(current.value)
    else current.value
  }

  /** The store after a save under the given write outcomes, and whether the
      save reports success. */
  function Saved(m: Store, l: List, power: seq<bool>): (Store, bool)
    requires |l.nets| <= MAX_NETS
  {
    if !Lands(power, 0) then (m, false)
    else
      var marked := m[SyncKey := Num(1)];
      var target := Target(m);
      var copied := Tried(marked, CopyWrites(target, l), Rest(power, 1));
      if !AllLand(Rest(power, 1), COPY_WRITES) || !Lands(power, 11) then (copied, false)
      else
        var flipped := copied[CurrentKey := Num(if target.CopyA? then 1 else 2)];
        var synced := Tried(flipped, OlderWrites(l), Rest(power, 12));
        if !AllLand(Rest(power, 12), 2) || !Lands(power, 14) then (synced, false)
        else (synced - {SyncKey}, true)
  }

  // ---- what reading depends on ----

  ghost predicate SameOn(m: Store, n: Store, keys: iset<Key>) {
    forall k :: k in keys ==> (k in m <==> k in n) && (k in m ==> m[k] == n[k])
  }

  ghost function CopyKeys(c: Copy): iset<Key> {
    iset k | InCopy(k, c)
  }

  lemma SameTexts(m: Store, n: Store, c: Copy, i: nat)
    requires SameOn(m, n, CopyKeys(c))
    ensures GetText(m, NameKey(c, i), NAME_MAX) == GetText(n, NameKey(c, i), NAME_MAX)
    ensures GetText(m, PassKey(c, i), PASS_MAX) == GetText(n, PassKey(c, i), PASS_MAX)
  {
    assert NameKey(c, i) in CopyKeys(c) && PassKey(c, i) in CopyKeys(c);
  }

  lemma OneMoreRead(m: Store, n: Store, c: Copy, count: nat)
    requires 0 < count && ReadNets(m, c, count - 1) == ReadNets(n, c, count - 1)
    requires GetText(m, NameKey(c, count - 1), NAME_MAX) == GetText(n, NameKey(c, count - 1), NAME_MAX)
    requires GetText(m, PassKey(c, count - 1), PASS_MAX) == GetText(n, PassKey(c, count - 1), PASS_MAX)
    ensures ReadNets(m, c, count) == ReadNets(n, c, count)
  {
    hide GetText;
  }

  lemma {:induction false} ReadNetsFrame(m: Store, n: Store, c: Copy, count: nat)
    requires SameOn(m, n, CopyKeys(c))
    ensures ReadNets(m, c, count) == ReadNets(n, c, count)
  {
    if count != 0 {
      hide SameOn, GetText, ReadNets, CopyKeys;
      ReadNetsFrame(m, n, c, count - 1);
      SameTexts(m, n, c, count - 1);
      OneMoreRead(m, n, c, count);
    }
  }

  lemma ReadHintFrame(m: Store, n: Store, c: Copy, count: nat)
    requires SameOn(m, n, CopyKeys(c))
    ensures ReadHint(m, c, count) == ReadHint(n, c, count)
  {
    hide ParseHint;
    assert HintKey(c) in CopyKeys(c);
  }

  lemma ReadCopyFrame(m: Store, n: Store, c: Copy)
    requires SameOn(m, n, CopyKeys(c))
    ensures ReadCopy(m, c) == ReadCopy(n, c)
  {
    hide Checksum, ReadHint, ReadNets;
    ReadNetsFrame(m, n, c, GetNumber(m, CountKey(c)));
    ReadHintFrame(m, n, c, GetNumber(m, CountKey(c)));
    assert CountKey(c) in CopyKeys(c) && SumKey(c) in CopyKeys(c);
  }

  /** A copy without its checksum is never read. */
  lemma NoSumNoCopy(m: Store, c: Copy)
    requires SumKey(c) !in m
    ensures ReadCopy(m, c).None?
  {
  }

  // ---- what writing a copy does ----

  lemma CopyWriteKeys(c: Copy, l: List)
    requires |l.nets| <= MAX_NETS
    ensures forall i :: 0 <= i < COPY_WRITES ==> InCopy(CopyWrites(c, l)[i].key, c)
    ensures forall i :: 1 <= i < COPY_WRITES - 1 ==> CopyWrites(c, l)[i].key != SumKey(c)
    ensures CopyWrites(c, l)[0] == Del(SumKey(c))
  {
    hide Checksum, PrintHint;
    forall i | 1 <= i < 7
      ensures CopyWrites(c, l)[i] == SlotWrite(c, l, i - 1)
    {}
  }

  lemma CopyWritesTouchOneCopy(m: Store, c: Copy, l: List, power: seq<bool>)
    requires |l.nets| <= MAX_NETS
    ensures SameOn(m, Tried(m, CopyWrites(c, l), power), iset k | !InCopy(k, c))
  {
    hide CopyWrites;
    CopyWriteKeys(c, l);
    forall k: Key | !InCopy(k, c)
      ensures var n := Tried(m, CopyWrites(c, l), power);
              (k in m <==> k in n) && (k in m ==> m[k] == n[k])
    {
      TriedElsewhere(m, CopyWrites(c, l), power, k);
    }
  }

  /** Writes to a damaged copy under which nothing stale can pass in it: none
      lands, or its checksum goes (or was gone) and comes back only with all. */
  predicate NothingStalePasses(m: Store, c: Copy, power: seq<bool>) {
    || (forall i: nat :: i < COPY_WRITES ==> !Lands(power, i))
    || ((Lands(power, 0) || SumKey(c) !in m) && (Lands(power, COPY_WRITES - 1) ==> AllLand(power, COPY_WRITES)))
  }

  lemma PowerCutsAreSafe(m: Store, c: Copy, power: seq<bool>)
    requires PowerCut(power)
    ensures NothingStalePasses(m, c, power) && PowerCut(Rest(power, 1))
  {
  }

  /** A copy whose writing was cut off holds no checksum (or was not touched). */
  lemma CutCopyHasNoSum(m: Store, c: Copy, l: List, power: seq<bool>)
    requires |l.nets| <= MAX_NETS && NothingStalePasses(m, c, power) && !AllLand(power, COPY_WRITES)
    ensures var n := Tried(m, CopyWrites(c, l), power); n == m || SumKey(c) !in n
  {
    hide CopyWrites;
    var ws := CopyWrites(c, l);
    CopyWriteKeys(c, l);
    if forall i: nat :: i < COPY_WRITES ==> !Lands(power, i) {
      TriedInVain(m, ws, power);
    } else {
      assert !Lands(power, 9);
      SumStaysRemoved(m, c, l, power, 9);
      assert ws[..10] == ws;
    }
  }

  lemma {:induction false} SumStaysRemoved(m: Store, c: Copy, l: List, power: seq<bool>, n: nat)
    requires |l.nets| <= MAX_NETS && (Lands(power, 0) || SumKey(c) !in m)
    requires 1 <= n <= 9
    ensures SumKey(c) !in Tried(m, CopyWrites(c, l)[..n], power)
  {
    hide CopyWrites;
    var ws := CopyWrites(c, l);
    CopyWriteKeys(c, l);
    assert ws[..n][..n - 1] == ws[..n - 1] && ws[..n][n - 1] == ws[n - 1];
    if 1 < n {
      SumStaysRemoved(m, c, l, power, n - 1);
    } else {
      assert ws[..n - 1] == [];
    }
  }

  /** A copy written in full reads back as exactly the list. */
  lemma WholeCopyReadsBack(m: Store, c: Copy, l: List, power: seq<bool>)
    requires ListOk(l) && AllLand(power, COPY_WRITES)
    ensures ReadCopy(Tried(m, CopyWrites(c, l), power), c) == Some(l)
  {
    hide Checksum, CopyWrites, PrintHint, ParseHint, ReadHint, Tried;
    var n := Tried(m, CopyWrites(c, l), power);
    WholeCopyShowsItsWrites(m, c, l, power);
    ReadNetsReadsBack(n, c, l, |l.nets|);
    assert l.nets[..|l.nets|] == l.nets;
    HintReadsBack(n, c, l);
  }

  lemma HintReadsBack(m: Store, c: Copy, l: List)
    requires ListOk(l) && Shows(m, HintWrite(c, l))
    ensures ReadHint(m, c, |l.nets|) == Some(l.hint)
  {
    hide ParseHint;
    if l.hint.Some? {
      HintRoundTrip(l.hint.value);
      hide PrintHint;
    }
  }

  lemma WholeCopyShowsItsWrites(m: Store, c: Copy, l: List, power: seq<bool>)
    requires ListOk(l) && AllLand(power, COPY_WRITES)
    ensures var n := Tried(m, CopyWrites(c, l), power);
            && Shows(n, HintWrite(c, l))
            && Shows(n, Put(CountKey(c), Num(|l.nets|)))
            && Shows(n, Put(SumKey(c), Num(Checksum(c, l))))
            && forall i :: 0 <= i < 6 ==> Shows(n, SlotWrite(c, l, i))
  {
    hide Checksum, PrintHint, Tried;
    var ws := CopyWrites(c, l);
    LastWriteShows(m, ws, power, 7);
    LastWriteShows(m, ws, power, 8);
    LastWriteShows(m, ws, power, 9);
    forall i | 0 <= i < 6
      ensures Shows(Tried(m, ws, power), SlotWrite(c, l, i))
    {
      assert ws[i + 1] == SlotWrite(c, l, i);
      SlotWrittenOnce(c, l, i);
      LastWriteShows(m, ws, power, i + 1);
    }
  }

  lemma SlotWrittenOnce(c: Copy, l: List, i: nat)
    requires |l.nets| <= MAX_NETS && i < 6
    ensures forall j :: i + 1 < j < COPY_WRITES ==> CopyWrites(c, l)[j].key != SlotWrite(c, l, i).key
  {
    hide Checksum, PrintHint;
    forall j | i + 1 < j < COPY_WRITES
      ensures CopyWrites(c, l)[j].key != SlotWrite(c, l, i).key
    {
      if j < 7 {
        assert CopyWrites(c, l)[j] == SlotWrite(c, l, j - 1);
        assert i % 2 != (j - 1) % 2 || i / 2 != (j - 1) / 2;
      }
    }
  }

  lemma {:induction false} ReadNetsReadsBack(m: Store, c: Copy, l: List, n: nat)
    requires ListOk(l) && n <= |l.nets|
    requires forall i :: 0 <= i < 6 ==> Shows(m, SlotWrite(c, l, i))
    ensures ReadNets(m, c, n) == Some(l.nets[..n])
  {
    if n != 0 {
      ReadNetsReadsBack(m, c, l, n - 1);
      assert Shows(m, SlotWrite(c, l, 2 * (n - 1))) && Shows(m, SlotWrite(c, l, 2 * (n - 1) + 1));
      assert (2 * (n - 1) + 1) / 2 == n - 1;
      assert NetworkOk(l.nets[n - 1]);
      assert l.nets[..n] == l.nets[..n - 1] + [l.nets[n - 1]];
    }
  }

  // ---- old or new ----

  /** What a read gives when it does not trust the older keys. */
  function TrustedRead(m: Store): List {
    if WholeList(m).Some? then WholeList(m).value
    else if OlderNetwork(m).Some? then List([OlderNetwork(m).value], None)
    else EMPTY
  }

  /** The older keys make no difference: no older image saved a network since. */
  ghost predicate OlderKeysAgree(m: Store) {
    Load(m).list == Load(m[SyncKey := Num(1)]).list
  }

  ghost function AllButMarker(): iset<Key> {
    iset k: Key | !k.SyncKey?
  }

  lemma ReadFrame(m: Store, n: Store)
    requires SameOn(m, n, AllButMarker())
    ensures TrustedRead(m) == TrustedRead(n)
    ensures Target(m) == Target(n) && CurrentCopy(m) == CurrentCopy(n)
    ensures WholeList(m) == WholeList(n)
  {
    hide ReadCopy;
    ReadCopyFrame(m, n, CopyA);
    ReadCopyFrame(m, n, CopyB);
    assert CurrentKey in AllButMarker() && OlderName in AllButMarker() && OlderPass in AllButMarker();
  }

  lemma MarkedRead(m: Store)
    ensures SyncKey in m ==> Load(m).list == TrustedRead(m) && OlderKeysAgree(m)
    ensures OlderKeysAgree(m) <==> Load(m).list == TrustedRead(m)
  {
    hide ReadCopy;
    ReadFrame(m, m[SyncKey := Num(1)]);
  }

  /** Writes of the target copy that cannot make a stale list pass. */
  predicate SafeToCopy(m: Store, power: seq<bool>) {
    CurrentCopy(m).None? || ReadCopy(m, CurrentCopy(m).value).Some? || NothingStalePasses(m, CurrentCopy(m).value, power)
  }

  /** Writing the target copy shows the old list until its last write, and then
      the new one exactly when the target is the current copy. */
  lemma CopyingIsSafe(m: Store, l: List, power: seq<bool>)
    requires ListOk(l) && SafeToCopy(m, power)
    ensures var n := Tried(m, CopyWrites(Target(m), l), power);
            && (!AllLand(power, COPY_WRITES) ==> TrustedRead(n) == TrustedRead(m))
            && (AllLand(power, COPY_WRITES) ==>
                  && ReadCopy(n, Target(m)) == Some(l)
                  && TrustedRead(n) == if CurrentCopy(m) == Some(Target(m)) then l else TrustedRead(m))
  {
    hide ReadCopy, CopyWrites, Checksum, NothingStalePasses;
    var c := Target(m);
    var n := Tried(m, CopyWrites(c, l), power);
    CopyWritesTouchOneCopy(m, c, l, power);
    var kept := iset k | !InCopy(k, c);
    assert CurrentKey in kept && OlderName in kept && OlderPass in kept;
    ReadCopyFrame(m, n, Other(c)) by {
      forall k | k in CopyKeys(Other(c)) ensures k in kept {}
    }
    if AllLand(power, COPY_WRITES) {
      WholeCopyReadsBack(m, c, l, power);
    } else if CurrentCopy(m) == Some(c) {
      CutCopyHasNoSum(m, c, l, power);
      if n != m { NoSumNoCopy(n, c); }
    }
  }

  /** Flipping to a whole copy, and everything after it, shows the new list. */
  lemma AfterTheFlip(m: Store, c: Copy, l: List, power: seq<bool>)
    requires ListOk(l) && ReadCopy(m, c) == Some(l)
    ensures var flipped := m[CurrentKey := Num(if c.CopyA? then 1 else 2)];
            var n := Tried(flipped, OlderWrites(l), power);
            && WholeList(n) == Some(l) && ReadCopy(n, c) == Some(l) && CurrentCopy(n) == Some(c)
            && (SyncKey in m ==> SyncKey in n)
            && (AllLand(power, 2) ==> OlderNetwork(n) == if l.nets == [] then None else Some(l.nets[0]))
  {
    hide ReadCopy, Checksum;
    var flipped := m[CurrentKey := Num(if c.CopyA? then 1 else 2)];
    var ws := OlderWrites(l);
    var n := Tried(flipped, ws, power);
    forall k: Key | !k.OlderName? && !k.OlderPass?
      ensures (k in flipped <==> k in n) && (k in flipped ==> flipped[k] == n[k])
    {
      TriedElsewhere(flipped, ws, power, k);
    }
    ReadCopyFrame(m, n, c);
    if AllLand(power, 2) {
      LastWriteShows(flipped, ws, power, 0);
      LastWriteShows(flipped, ws, power, 1);
      if l.nets != [] { assert NetworkOk(l.nets[0]); }
    }
  }

  /** From any store: once the marker is written, a save cut off after any number
      of its writes leaves a store that reads as the list it held, older keys
      aside, or as the new one, and whose older keys agree. */
  lemma SaveFromAnyStore(m: Store, l: List, power: seq<bool>)
    requires ListOk(l) && (PowerCut(power) || SafeToCopy(m, Rest(power, 1)))
    ensures var n := Saved(m, l, power).0;
            if Lands(power, 0) then OlderKeysAgree(n) && (Load(n).list == TrustedRead(m) || Load(n).list == l)
            else n == m
  {
    hide ReadCopy, CopyWrites, Load, OlderKeysAgree, OlderWrites, OlderNetwork, WholeList, NothingStalePasses, PowerCut;
    if Lands(power, 0) {
      var marked := m[SyncKey := Num(1)];
      Marking(m, power);
      var target := Target(m);
      CopyingIsSafe(marked, l, Rest(power, 1));
      var copied := Tried(marked, CopyWrites(target, l), Rest(power, 1));
      CopyWritesTouchOneCopy(marked, target, l, Rest(power, 1));
      assert SyncKey in iset k | !InCopy(k, target);
      MarkedRead(copied);
      if AllLand(Rest(power, 1), COPY_WRITES) && Lands(power, 11) {
        FlippedReads(copied, target, l, Rest(power, 12));
      }
    }
  }

  /** The marker changes neither copy. */
  lemma Marking(m: Store, power: seq<bool>)
    ensures var marked := m[SyncKey := Num(1)];
            && TrustedRead(m) == TrustedRead(marked) && Target(m) == Target(marked)
            && (PowerCut(power) || SafeToCopy(m, Rest(power, 1)) ==> SafeToCopy(marked, Rest(power, 1)))
  {
    hide ReadCopy, WholeList, TrustedRead, Target;
    var marked := m[SyncKey := Num(1)];
    ReadFrame(m, marked);
    ReadCopyFrame(m, marked, CopyA);
    ReadCopyFrame(m, marked, CopyB);
    if PowerCut(power) && CurrentCopy(marked).Some? {
      PowerCutsAreSafe(m, CopyA, power);
      PowerCutsAreSafe(marked, CurrentCopy(marked).value, Rest(power, 1));
    }
  }

  /** The current copy is whole and holds exactly this list. */
  predicate HeldWhole(m: Store, l: List) {
    CurrentCopy(m).Some? && ReadCopy(m, CurrentCopy(m).value) == Some(l) && WholeList(m) == Some(l)
  }

  /** A save that reports success, from any store and whatever failed before it:
      it reads back as the new list, needs no repair, stands whole in the current
      copy, has the first network in the older keys, and the marker is gone. */
  lemma CompletedSave(m: Store, l: List, power: seq<bool>)
    requires ListOk(l) && Saved(m, l, power).1
    ensures var n := Saved(m, l, power).0;
            && Load(n) == Loaded(l, false) && OlderKeysAgree(n) && SyncKey !in n
            && HeldWhole(n, l) && OlderNetwork(n) == if l.nets == [] then None else Some(l.nets[0])
  {
    hide ReadCopy, CopyWrites, Load, OlderKeysAgree, OlderWrites, OlderNetwork, HeldWhole;
    var marked := m[SyncKey := Num(1)];
    var target := Target(m);
    WholeCopyReadsBack(marked, target, l, Rest(power, 1));
    CopyWritesTouchOneCopy(marked, target, l, Rest(power, 1));
    assert SyncKey in iset k | !InCopy(k, target);
    FlippedReads(Tried(marked, CopyWrites(target, l), Rest(power, 1)), target, l, Rest(power, 12));
  }

  /** The central claim. From a store whose older keys agree with its list, a
      save cut off after any number of its writes leaves a store that reads as
      exactly the earlier list or exactly the new one, and whose older keys
      still agree. The same holds for writes that fail one by one unless the
      current copy is damaged and something stale could pass in it. Nothing is
      assumed about checksums. */
  lemma SaveIsOldOrNew(m: Store, l: List, power: seq<bool>)
    requires ListOk(l) && OlderKeysAgree(m)
    requires PowerCut(power) || SafeToCopy(m, Rest(power, 1))
    ensures var (n, ok) := Saved(m, l, power);
            && OlderKeysAgree(n)
            && (Load(n).list == Load(m).list || Load(n).list == l)
            && (ok ==> Load(n) == Loaded(l, false))
            && (ok ==> OlderNetwork(n) == if l.nets == [] then None else Some(l.nets[0]))
            && (ok ==> SyncKey !in n)
  {
    hide Saved, Load, OlderKeysAgree, OlderNetwork, SafeToCopy, PowerCut, TrustedRead;
    MarkedRead(m);
    SaveFromAnyStore(m, l, power);
    if Saved(m, l, power).1 { CompletedSave(m, l, power); }
  }

  lemma FlippedReads(m: Store, c: Copy, l: List, power: seq<bool>)
    requires ListOk(l) && ReadCopy(m, c) == Some(l) && SyncKey in m
    ensures var n := Tried(m[CurrentKey := Num(if c.CopyA? then 1 else 2)], OlderWrites(l), power);
            && Load(n).list == l && OlderKeysAgree(n)
            && (AllLand(power, 2) ==> Load(n - {SyncKey}) == Loaded(l, false) && OlderKeysAgree(n - {SyncKey}))
            && (AllLand(power, 2) ==> OlderNetwork(n - {SyncKey}) == if l.nets == [] then None else Some(l.nets[0]))
            && (AllLand(power, 2) ==> HeldWhole(n - {SyncKey}, l))
  {
    hide ReadCopy, OlderWrites, Tried;
    var n := Tried(m[CurrentKey := Num(if c.CopyA? then 1 else 2)], OlderWrites(l), power);
    AfterTheFlip(m, c, l, power);
    MarkedRead(n);
    if AllLand(power, 2) {
      var done := n - {SyncKey};
      ReadFrame(n, done);
      ReadCopyFrame(n, done, c);
      MarkedRead(done);
    }
  }

  // ---- any number of saves, boots and power cuts ----

  /** What happens to the store: a change saves a list; a boot reads the store
      and, when told to, saves what it read; an older image, after a return to
      it, saves its single network. */
  datatype Job =
    | SaveJob(list: List, power: seq<bool>)
    | BootJob(power: seq<bool>)
    | OlderJob(net: Network, power: seq<bool>)

  ghost predicate JobOk(j: Job) {
    PowerCut(j.power) && (j.SaveJob? ==> ListOk(j.list)) && (j.OlderJob? ==> NetworkOk(j.net))
  }

  function Ran(m: Store, j: Job): (Store, bool)
    requires j.SaveJob? ==> |j.list.nets| <= MAX_NETS
  {
    match j
    case SaveJob(l, power) => Saved(m, l, power)
    case BootJob(power) =>
      LoadIsWellFormed(m);
      if Load(m).repair then Saved(m, Load(m).list, power) else (m, true)
    case OlderJob(net, power) => (Tried(m, OlderWrites(List([net], None)), power), AllLand(power, 2))
  }

  ghost predicate JobsOk(jobs: seq<Job>) {
    forall i :: 0 <= i < |jobs| ==> JobOk(jobs[i])
  }

  ghost function StoreAfter(m: Store, jobs: seq<Job>): Store
    requires JobsOk(jobs)
  {
    if jobs == [] then m else
      assert JobOk(jobs[|jobs| - 1]);
      Ran(StoreAfter(m, jobs[..|jobs| - 1]), jobs[|jobs| - 1]).0
  }

  /** Whether the i-th job reported success. */
  ghost predicate Succeeded(m: Store, jobs: seq<Job>, i: nat)
    requires i < |jobs| && JobsOk(jobs)
  {
    assert JobOk(jobs[i]);
    Ran(StoreAfter(m, jobs[..i]), jobs[i]).1
  }

  /** Whether the i-th job is a save that reported success. */
  ghost predicate Completed(m: Store, jobs: seq<Job>, i: nat)
    requires i < |jobs| && JobsOk(jobs)
  {
    jobs[i].SaveJob? && Succeeded(m, jobs, i)
  }

  /** Over every run of saves, boots and repairs, each cut off anywhere: the
      store reads as the list of one save (or as it did at the start), and no
      save completed after that one - a completed save is never undone. */
  lemma {:induction false} EveryRunKeepsOneList(m: Store, jobs: seq<Job>) returns (from: int)
    requires OlderKeysAgree(m) && JobsOk(jobs) && forall i :: 0 <= i < |jobs| ==> !jobs[i].OlderJob?
    ensures OlderKeysAgree(StoreAfter(m, jobs))
    ensures -1 <= from < |jobs| && (0 <= from ==> jobs[from].SaveJob?)
    ensures Load(StoreAfter(m, jobs)).list == if from < 0 then Load(m).list else jobs[from].list
    ensures forall i :: from < i < |jobs| ==> !Completed(m, jobs, i)
  {
    hide OlderKeysAgree, Load, Saved, ReadCopy;
    if jobs == [] { return -1; }
    var n := |jobs| - 1;
    from := EveryRunKeepsOneList(m, jobs[..n]);
    forall i | from < i < n
      ensures !Completed(m, jobs, i)
    {
      assert jobs[..n][..i] == jobs[..i];
      assert !Completed(m, jobs[..n], i);
    }
    var before := StoreAfter(m, jobs[..n]);
    assert JobOk(jobs[n]);
    if jobs[n].SaveJob? {
      SaveIsOldOrNew(before, jobs[n].list, jobs[n].power);
      if Load(Saved(before, jobs[n].list, jobs[n].power).0).list == jobs[n].list { from := n; }
    } else {
      LoadIsWellFormed(before);
      if Load(before).repair { SaveIsOldOrNew(before, Load(before).list, jobs[n].power); }
    }
  }

  /** A read that asks for no repair did not depend on the older keys. */
  lemma NoRepairMeansAgree(m: Store)
    requires !Load(m).repair
    ensures OlderKeysAgree(m)
  {
    hide ReadCopy, OlderKeysAgree;
    MarkedRead(m);
  }

  /** A boot that finishes, from any store: it leaves exactly what it read, with
      nothing to repair, and the older keys agree from then on. */
  lemma FinishedBoot(m: Store, power: seq<bool>)
    requires Ran(m, BootJob(power)).1
    ensures var n := Ran(m, BootJob(power)).0; OlderKeysAgree(n) && Load(n) == Loaded(Load(m).list, false)
  {
    hide OlderKeysAgree, Load, Saved;
    LoadIsWellFormed(m);
    if Load(m).repair { CompletedSave(m, Load(m).list, power); } else { NoRepairMeansAgree(m); }
  }

  lemma {:induction false} RunInParts(m: Store, jobs: seq<Job>, k: nat)
    requires JobsOk(jobs) && k <= |jobs|
    ensures StoreAfter(m, jobs) == StoreAfter(StoreAfter(m, jobs[..k]), jobs[k..])
    decreases |jobs|
  {
    hide Ran;
    if k == |jobs| {
      assert jobs[..k] == jobs;
    } else {
      var n := |jobs| - 1;
      RunInParts(m, jobs[..n], k);
      assert jobs[..n][..k] == jobs[..k] && jobs[..n][k..] == jobs[k..][..n - k];
    }
  }

  /** Over every run, older images' saves among them, from any store: once a boot
      or a save after the last of those finishes, the store reads as what that
      boot read (or that save saved) or as the list of a later save, and no save
      completed after that one. */
  lemma EveryRunSettles(m: Store, jobs: seq<Job>, b: nat) returns (from: int)
    requires JobsOk(jobs) && b < |jobs| && Succeeded(m, jobs, b)
    requires forall i :: b <= i < |jobs| ==> !jobs[i].OlderJob?
    ensures OlderKeysAgree(StoreAfter(m, jobs))
    ensures b <= from < |jobs| && (b < from ==> jobs[from].SaveJob?)
    ensures Load(StoreAfter(m, jobs)).list ==
              if jobs[from].SaveJob? then jobs[from].list else Load(StoreAfter(m, jobs[..b])).list
    ensures forall i :: from < i < |jobs| ==> !Completed(m, jobs, i)
  {
    hide OlderKeysAgree, Load, Ran, StoreAfter;
    FinishedJob(m, jobs, b);
    var settled := StoreAfter(m, jobs[..b + 1]);
    var rest := jobs[b + 1..];
    var last := EveryRunKeepsOneList(settled, rest);
    RunInParts(m, jobs, b + 1);
    from := b + 1 + last;
    forall i | from < i < |jobs|
      ensures !Completed(m, jobs, i)
    {
      CompletedInRest(m, jobs, b + 1, i);
      assert !Completed(settled, rest, i - b - 1);
    }
  }

  lemma FinishedJob(m: Store, jobs: seq<Job>, b: nat)
    requires JobsOk(jobs) && b < |jobs| && Succeeded(m, jobs, b) && !jobs[b].OlderJob?
    ensures var n := StoreAfter(m, jobs[..b + 1]);
            && OlderKeysAgree(n)
            && Load(n).list == if jobs[b].SaveJob? then jobs[b].list else Load(StoreAfter(m, jobs[..b])).list
  {
    hide OlderKeysAgree, Load, Saved;
    assert JobOk(jobs[b]);
    var before := StoreAfter(m, jobs[..b]);
    assert jobs[..b + 1][..b] == jobs[..b];
    if jobs[b].SaveJob? { CompletedSave(before, jobs[b].list, jobs[b].power); } else { FinishedBoot(before, jobs[b].power); }
  }

  lemma CompletedInRest(m: Store, jobs: seq<Job>, k: nat, i: nat)
    requires JobsOk(jobs) && k <= i < |jobs|
    ensures Completed(m, jobs, i) == Completed(StoreAfter(m, jobs[..k]), jobs[k..], i - k)
  {
    hide Ran, StoreAfter;
    RunInParts(m, jobs[..i], k);
    assert jobs[..i][..k] == jobs[..k] && jobs[..i][k..] == jobs[k..][..i - k];
  }

  // ---- where the claim stops ----

  /** When the older keys agree: the marker is set, there is no whole list, the
      current copy was damaged, or they hold nothing or exactly the first network. */
  lemma OlderKeysAgreeExactlyWhen(m: Store)
    ensures OlderKeysAgree(m) <==>
            (|| SyncKey in m || WholeList(m).None? || OlderNetwork(m).None?
             || ReadCopy(m, CurrentCopy(m).value).None?
             || (WholeList(m).value.nets != [] && OlderNetwork(m).value == WholeList(m).value.nets[0]))
  {
    hide ReadCopy, OlderNetwork, OlderKeysAgree;
    MarkedRead(m);
    if WholeList(m).Some? && OlderNetwork(m).Some? {
      var l := WholeList(m).value;
      if l.nets == [] || OlderNetwork(m).value.name != l.nets[0].name {
        AdoptedGoesFirst(l, OlderNetwork(m).value);
      }
    }
  }

  lemma AdoptedGoesFirst(l: List, older: Network)
    requires ListOk(l) && NetworkOk(older)
    ensures Adopted(l, older).nets != [] && Adopted(l, older).nets[0] == older
  {
    var room := if Find(l.nets, older.name) < 0 && |l.nets| == MAX_NETS then l.(nets := l.nets[..MAX_NETS - 1]) else l;
    assert Find(l.nets, older.name) < 0 ==> Find(room.nets, older.name) < 0 by {
      assert forall j :: 0 <= j < |room.nets| ==> room.nets[j] == l.nets[j];
    }
  }

  /** Whether the older keys are read at all over a whole list. */
  predicate OlderKeysCount(m: Store) {
    || WholeList(m).None?
    || (SyncKey !in m && ReadCopy(m, CurrentCopy(m).value).Some?)
  }

  lemma OlderKeysWritten(m: Store, net: Network, power: seq<bool>)
    requires NetworkOk(net) && AllLand(power, 2)
    ensures var o := Tried(m, OlderWrites(List([net], None)), power);
            && OlderNetwork(o) == Some(net) && WholeList(o) == WholeList(m) && CurrentCopy(o) == CurrentCopy(m)
            && (SyncKey in o <==> SyncKey in m)
            && ReadCopy(o, CopyA) == ReadCopy(m, CopyA) && ReadCopy(o, CopyB) == ReadCopy(m, CopyB)
  {
    hide ReadCopy;
    var ws := OlderWrites(List([net], None));
    var o := Tried(m, ws, power);
    forall k: Key | !k.OlderName? && !k.OlderPass?
      ensures (k in m <==> k in o) && (k in m ==> m[k] == o[k])
    {
      TriedElsewhere(m, ws, power, k);
    }
    ReadCopyFrame(m, o, CopyA);
    ReadCopyFrame(m, o, CopyB);
    LastWriteShows(m, ws, power, 0);
    LastWriteShows(m, ws, power, 1);
  }

  /** What is read once an older image has saved a network. */
  lemma ReadAfterOlderImage(o: Store, net: Network)
    requires OlderNetwork(o) == Some(net)
    ensures var l := Load(o).list;
            (l.nets != [] && l.nets[0] == net) <==>
              OlderKeysCount(o) || (WholeList(o).value.nets != [] && WholeList(o).value.nets[0] == net)
  {
    hide ReadCopy, OlderNetwork, Adopted;
    if WholeList(o).Some? { AdoptedGoesFirst(WholeList(o).value, net); }
  }

  /** A network an older image saved is first once a boot finishes, and for good,
      exactly when the older keys count (or it was first already). */
  lemma OlderImagesNetworkIsAdopted(m: Store, net: Network, power: seq<bool>, boot: seq<bool>)
    requires NetworkOk(net) && AllLand(power, 2)
    requires var o := Ran(m, OlderJob(net, power)).0; Ran(o, BootJob(boot)).1
    ensures var o := Ran(m, OlderJob(net, power)).0; var n := Ran(o, BootJob(boot)).0; var l := Load(n).list;
            && OlderKeysAgree(n) && Load(n) == Loaded(Load(o).list, false)
            && ((l.nets != [] && l.nets[0] == net) <==>
                  OlderKeysCount(m) || (WholeList(m).value.nets != [] && WholeList(m).value.nets[0] == net))
  {
    hide ReadCopy, OlderKeysAgree, OlderNetwork, OlderWrites, WholeList, CurrentCopy, Load, Saved, OlderKeysCount;
    var o := Ran(m, OlderJob(net, power)).0;
    OlderKeysWritten(m, net, power);
    FinishedBoot(o, boot);
    ReadAfterOlderImage(o, net);
    CountAlike(m, o);
  }

  lemma CountAlike(m: Store, o: Store)
    requires WholeList(o) == WholeList(m) && CurrentCopy(o) == CurrentCopy(m) && (SyncKey in o <==> SyncKey in m)
    requires ReadCopy(o, CopyA) == ReadCopy(m, CopyA) && ReadCopy(o, CopyB) == ReadCopy(m, CopyB)
    ensures OlderKeysCount(o) == OlderKeysCount(m)
  {
    hide ReadCopy, CurrentCopy;
    if CurrentCopy(m).Some? { assert CurrentCopy(m).value == CopyA || CurrentCopy(m).value == CopyB; }
  }

  /** Saving back what was read never changes what is read, wherever it is cut,
      exactly when the older keys agree: otherwise a cut right after the marker
      forgets the network an older image had saved. */
  lemma RepairIsSafeExactlyWhenOlderKeysAgree(m: Store)
    ensures ListOk(Load(m).list)
    ensures (forall power {:trigger PowerCut(power)} ::
               PowerCut(power) ==> Load(Saved(m, Load(m).list, power).0).list == Load(m).list)
            <==> OlderKeysAgree(m)
  {
    hide ReadCopy, Load, Saved;
    LoadIsWellFormed(m);
    var l := Load(m).list;
    if OlderKeysAgree(m) {
      forall power | PowerCut(power)
        ensures Load(Saved(m, l, power).0).list == l
      {
        SaveIsOldOrNew(m, l, power);
      }
    } else {
      assert PowerCut([true]);
      CutAfterTheMarker(m, l);
    }
  }

  lemma CutAfterTheMarker(m: Store, l: List)
    requires |l.nets| <= MAX_NETS
    ensures Saved(m, l, [true]).0 == m[SyncKey := Num(1)]
  {
    hide Target, CopyWrites;
    var power := Rest([true], 1);
    forall i: nat | i < COPY_WRITES ensures !Lands(power, i) {}
    TriedInVain(m[SyncKey := Num(1)], CopyWrites(Target(m), l), power);
  }

  /** Nothing is to be repaired exactly when the store is as a completed save leaves
      it - no marker, a whole current copy, the older keys holding its first network
      and no other - or holds nothing at all. */
  lemma NothingToRepairExactlyWhen(m: Store)
    ensures !Load(m).repair <==>
              && SyncKey !in m
              && (|| (CurrentCopy(m).None? && OlderNetwork(m).None?)
                  || (exists l :: HeldWhole(m, l) && OlderNetwork(m) == if l.nets == [] then None else Some(l.nets[0])))
  {
    hide ReadCopy, OlderNetwork, Adopted;
    if CurrentCopy(m).Some? && ReadCopy(m, CurrentCopy(m).value).Some? {
      assert HeldWhole(m, ReadCopy(m, CurrentCopy(m).value).value);
    }
    if WholeList(m).Some? && OlderNetwork(m).Some? && WholeList(m).value.nets != [] {
      var first, older := WholeList(m).value.nets[0], OlderNetwork(m).value;
      assert older == first <==> older.name == first.name && older.pass == first.pass;
    }
  }

  /** A save reports success exactly when all its fifteen writes land. */
  lemma SaveSucceedsExactlyWhen(m: Store, l: List, power: seq<bool>)
    requires |l.nets| <= MAX_NETS
    ensures Saved(m, l, power).1 <==> AllLand(power, COPY_WRITES + 5)
  {
    hide Target, CopyWrites, OlderWrites, Tried;
    var copy, older := Rest(power, 1), Rest(power, 12);
    assert Lands(older, 0) == Lands(power, 12) && Lands(older, 1) == Lands(power, 13);
    if AllLand(power, COPY_WRITES + 5) {
      assert AllLand(copy, COPY_WRITES) && AllLand(older, 2);
    } else {
      var i :| 0 <= i < COPY_WRITES + 5 && !Lands(power, i);
      if 1 <= i <= COPY_WRITES { assert !Lands(copy, i - 1); }
    }
  }

  /** Where such stores come from: a list is saved, then an older image saves a
      network. The older keys agree exactly if that is the list's first one; else
      the network is read as the first, and a repair cut off right after its
      marker forgets it. */
  lemma OlderImageMakesThemDisagree(m: Store, l: List, power: seq<bool>, net: Network, older: seq<bool>)
    requires ListOk(l) && Saved(m, l, power).1 && NetworkOk(net) && AllLand(older, 2)
    ensures var o := Ran(Saved(m, l, power).0, OlderJob(net, older)).0;
            && ListOk(Load(o).list) && Load(o).list.nets != [] && Load(o).list.nets[0] == net
            && (OlderKeysAgree(o) <==> l.nets != [] && l.nets[0] == net)
            && Load(Saved(o, Load(o).list, [true]).0).list == l
  {
    hide ReadCopy, OlderNetwork, Adopted, OlderWrites, Saved, Load;
    var n := Saved(m, l, power).0;
    CompletedSave(m, l, power);
    var o := Ran(n, OlderJob(net, older)).0;
    OlderKeysWritten(n, net, older);
    LoadIsWellFormed(o);
    OlderKeysAgreeExactlyWhen(o);
    ReadOverWhole(o, l, net);
    CutAfterTheMarker(o, Load(o).list);
    ReadFrame(o, o[SyncKey := Num(1)]);
    MarkedRead(o[SyncKey := Num(1)]);
  }

  lemma ReadOverWhole(o: Store, l: List, net: Network)
    requires HeldWhole(o, l) && SyncKey !in o && OlderNetwork(o) == Some(net)
    ensures Load(o).list.nets != [] && Load(o).list.nets[0] == net
  {
    hide ReadCopy, OlderNetwork, Load;
    ReadAfterOlderImage(o, net);
  }

  /** Writes that fail one by one, with power still on, are another matter when
      the current copy is damaged: here an empty list is read, "y" is saved, the
      save reports failure, and what is read afterwards is the stale "x". */
  lemma FailingWritesCanReviveAStaleCopy()
    ensures exists m: Store, l: List, power ::
              && ListOk(l) && OlderKeysAgree(m) && !Saved(m, l, power).1
              && Load(Saved(m, l, power).0).list != Load(m).list
              && Load(Saved(m, l, power).0).list != l
  {
    hide Checksum, Load, Saved, ReadNets;
    var stale := List([Network([120], [])], None);
    var l := List([Network([121], [])], None);
    var m: Store := map[
      CurrentKey := Num(1), NameKey(CopyA, 0) := Str([120]), SumKey(CopyA) := Num(Checksum(CopyA, stale)),
      CountKey(CopyB) := Num(0), SumKey(CopyB) := Num(Checksum(CopyB, EMPTY))];
    var n := m[SyncKey := Num(1)][CountKey(CopyA) := Num(1)];
    var power := [true] + seq(8, i => false) + [true];
    StaleCopyIsRead(m, n, stale);
    OnlyTheCountLandsInASave(m, l, power);
    assert Saved(m, l, power) == (n, false);
  }

  lemma StaleCopyIsRead(m: Store, n: Store, stale: List)
    requires stale == List([Network([120], [])], None)
    requires m == map[
      CurrentKey := Num(1), NameKey(CopyA, 0) := Str([120]), SumKey(CopyA) := Num(Checksum(CopyA, stale)),
      CountKey(CopyB) := Num(0), SumKey(CopyB) := Num(Checksum(CopyB, EMPTY))]
    requires n == m[SyncKey := Num(1)][CountKey(CopyA) := Num(1)]
    ensures OlderKeysAgree(m) && Load(m).list == EMPTY && Load(n).list == stale
    ensures CurrentCopy(m) == Some(CopyA) && ReadCopy(m, CopyA) == None
  {
    hide Checksum, Load, ReadCopy;
    DamagedAndEmpty(m, stale);
    StaleReads(n, stale);
    OlderKeysAgreeExactlyWhen(m);
    MarkedRead(m);
    MarkedRead(n);
  }

  lemma DamagedAndEmpty(m: Store, stale: List)
    requires stale == List([Network([120], [])], None)
    requires m == map[
      CurrentKey := Num(1), NameKey(CopyA, 0) := Str([120]), SumKey(CopyA) := Num(Checksum(CopyA, stale)),
      CountKey(CopyB) := Num(0), SumKey(CopyB) := Num(Checksum(CopyB, EMPTY))]
    ensures ReadCopy(m, CopyB) == Some(EMPTY) && ReadCopy(m, CopyA) == None
  {
    hide Checksum;
    assert ReadNets(m, CopyB, 0) == Some([]);
  }

  lemma StaleReads(n: Store, stale: List)
    requires stale == List([Network([120], [])], None)
    requires CountKey(CopyA) in n && n[CountKey(CopyA)] == Num(1)
    requires NameKey(CopyA, 0) in n && n[NameKey(CopyA, 0)] == Str([120])
    requires PassKey(CopyA, 0) !in n && HintKey(CopyA) !in n
    requires SumKey(CopyA) in n && n[SumKey(CopyA)] == Num(Checksum(CopyA, stale))
    ensures ReadCopy(n, CopyA) == Some(stale)
  {
    hide Checksum, ReadNets;
    OneNetworkReads(n, stale.nets[0], 1);
    assert GetNumber(n, CountKey(CopyA)) == 1 && ReadHint(n, CopyA, 1) == Some(None) by { hide ReadCopy; }
  }

  lemma OnlyTheCountLandsInASave(m: Store, l: List, power: seq<bool>)
    requires |l.nets| <= MAX_NETS && CurrentCopy(m) == Some(CopyA) && ReadCopy(m, CopyA) == None
    requires power == [true] + seq(8, i => false) + [true]
    ensures Saved(m, l, power) == (m[SyncKey := Num(1)][CountKey(CopyA) := Num(|l.nets|)], false)
  {
    hide CopyWrites, Tried, ReadCopy;
    assert !Lands(power, 11);
    OnlyTheCountLands(m[SyncKey := Num(1)], CopyA, l, Rest(power, 1));
  }

  lemma OneNetworkReads(m: Store, n: Network, count: nat)
    requires NetworkOk(n) && n.pass == [] && count == 1
    requires NameKey(CopyA, 0) in m && m[NameKey(CopyA, 0)] == Str(n.name) && PassKey(CopyA, 0) !in m
    ensures ReadNets(m, CopyA, count) == Some([n])
  {
    assert ReadNets(m, CopyA, count - 1) == Some([]);
    assert GetText(m, NameKey(CopyA, count - 1), NAME_MAX) == Some(n.name);
    assert [] + [Network(n.name, [])] == [n];
  }

  lemma OnlyTheCountLands(m: Store, c: Copy, l: List, power: seq<bool>)
    requires |l.nets| <= MAX_NETS
    requires forall i: nat :: Lands(power, i) <==> i == 8
    ensures Tried(m, CopyWrites(c, l), power) == m[CountKey(c) := Num(|l.nets|)]
  {
    hide Checksum, PrintHint;
    var ws := CopyWrites(c, l);
    TriedInVain(m, ws[..8], power);
    assert ws[..9][..8] == ws[..8] && ws[..10] == ws && ws[..9][8] == ws[8];
    assert Tried(m, ws[..9], power) == Written(m, ws[8]);
  }
}
