/** Reading and saving the WiFi list on the device, key by key, as the firmware
    does it; each method is proved against its function in WifiStore. */
module WifiStoreMethods {
  import opened Common
  import opened Storage
  import opened WifiList
  import opened HintText
  import opened WifiStore

  method Mix(h: U32, text: Text) returns (r: U32)
    ensures r == HashedField(h, text)
  {
    hide Hashed;
    r := h;
    for p := 0 to |text|
      invariant r == HashedText(h, text[..p])
    {
      assert text[..p + 1][..p] == text[..p];
      r := Hashed(r, text[p]);
    }
    assert text[..|text|] == text;
    r := Hashed(r, 255);
  }

  method ComputeChecksum(c: Copy, l: List) returns (h: U32)
    requires |l.nets| <= MAX_NETS
    ensures h == Checksum(c, l)
  {
    hide HashedField, PrintHint;
    h := Mix(FNV_BASIS, HeadText(c, |l.nets|));
    ghost var head := h;
    for i := 0 to |l.nets|
      invariant h == HashedNets(head, l.nets[..i])
    {
      assert l.nets[..i + 1][..i] == l.nets[..i];
      h := Mix(h, l.nets[i].name);
      h := Mix(h, l.nets[i].pass);
    }
    assert l.nets[..|l.nets|] == l.nets;
    var hint := HintToText(l.hint);
    h := Mix(h, hint);
  }

  lemma {:induction false} FailedNetsStayFailed(m: Store, c: Copy, i: nat, n: nat)
    requires i <= n && ReadNets(m, c, i).None?
    ensures ReadNets(m, c, n).None?
  {
    if i < n { FailedNetsStayFailed(m, c, i, n - 1); }
  }

  predicate HasName(nets: seq<Network>, name: Text) {
    exists j :: 0 <= j < |nets| && nets[j].name == name
  }

  lemma OneMoreNet(m: Store, c: Copy, n: nat, before: seq<Network>)
    requires ReadNets(m, c, n) == Some(before)
    ensures var name := GetText(m, NameKey(c, n), NAME_MAX);
            var pass := GetText(m, PassKey(c, n), PASS_MAX);
            ReadNets(m, c, n + 1) ==
              if name.None? || name.value == [] || HasName(before, name.value) then None
              else Some(before + [Network(name.value, if pass.Some? then pass.value else [])])
  {
    hide GetText;
  }

  method Repeats(out: NetList, count: nat, name: Text) returns (found: bool)
    requires count <= out.nets.Length
    ensures found == HasName(out.nets[..count], name)
  {
    for j := 0 to count
      invariant !HasName(out.nets[..j], name)
    {
      if out.nets[j].name == name {
        assert out.nets[..count][j].name == name;
        return true;
      }
    }
    return false;
  }

  /** Reads the stored networks one by one; stops at the first that cannot stand. */
  method ReadNetsInto(store: Device<Key>, c: Copy, count: nat, out: NetList) returns (ok: bool)
    requires out.Valid() && out.Value() == EMPTY && count <= MAX_NETS
    modifies out, out.nets
    ensures out.Valid()
    ensures ok == ReadNets(store.data, c, count).Some?
    ensures ok ==> out.Value() == List(ReadNets(store.data, c, count).value, None)
  {
    ghost var m := store.data;
    assert ReadNets(m, c, 0) == Some([]);
    hide ReadNets, GetText, HasName;
    for i := 0 to count
      invariant out.Valid() && out.count == i && out.hint == None
      invariant ReadNets(m, c, i) == Some(out.Value().nets)
    {
      ghost var before := out.Value().nets;
      OneMoreNet(m, c, i, before);
      var name := GetText(store.data, NameKey(c, i), NAME_MAX);
      if name.None? || name.value == [] {
        FailedNetsStayFailed(m, c, i + 1, count);
        return false;
      }
      var pass := GetText(store.data, PassKey(c, i), PASS_MAX);
      var repeats := Repeats(out, i, name.value);
      if repeats {
        FailedNetsStayFailed(m, c, i + 1, count);
        return false;
      }
      out.nets[i] := Network(name.value, if pass.Some? then pass.value else []);
      out.count := i + 1;
      assert out.Value().nets == before + [out.nets[i]];
    }
    return true;
  }

  method ReadCopyInto(store: Device<Key>, c: Copy, out: NetList) returns (whole: bool)
    requires out.nets.Length == MAX_NETS
    modifies out, out.nets
    ensures out.Valid()
    ensures whole == ReadCopy(store.data, c).Some?
    ensures out.Value() == if whole then ReadCopy(store.data, c).value else EMPTY
  {
    hide Checksum, ReadNets, ParseHint;
    out.Wipe();
    if CountKey(c) !in store.data { return false; }
    var count := GetNumber(store.data, CountKey(c));
    if MAX_NETS < count { return false; }
    var ok := ReadNetsInto(store, c, count, out);
    if !ok {
      out.Wipe();
      return false;
    }
    ReadNetsOk(store.data, c, count);
    var text := GetText(store.data, HintKey(c), HINT_MAX);
    if text.Some? && text.value != [] {
      var hint := HintFromText(text.value);
      if count == 0 || hint.None? {
        out.Wipe();
        return false;
      }
      out.hint := hint;
    }
    assert ReadHint(store.data, c, count) == Some(out.hint);
    var sum := ComputeChecksum(c, List(out.nets[..out.count], out.hint));
    if SumKey(c) !in store.data || GetNumber(store.data, SumKey(c)) != sum {
      out.Wipe();
      return false;
    }
    return true;
  }

  /** A network an older image saved goes to the front, the last one out if full. */
  method Adopt(out: NetList, older: Network)
    requires out.Valid()
    modifies out, out.nets
    ensures out.Valid() && out.Value() == Adopted(old(out.Value()), older)
  {
    ghost var l := out.Value();
    var at := out.FindName(older.name);
    if at < 0 && out.count == MAX_NETS {
      out.nets[MAX_NETS - 1] := BLANK;
      out.count := out.count - 1;
      assert out.Value() == l.(nets := l.nets[..MAX_NETS - 1]);
    }
    var _ := out.AddNet(older.name, older.pass);
  }

  /** Reads the list; `repair` says that it should be written back. */
  method LoadInto(store: Device<Key>, out: NetList) returns (repair: bool)
    requires out.nets.Length == MAX_NETS
    modifies out, out.nets
    ensures out.Valid() && Loaded(out.Value(), repair) == Load(store.data)
  {
    hide ReadCopy, Adopted, AddTo;
    repair := false;
    var older := OlderNetwork(store.data);
    var interrupted := SyncKey in store.data;
    var current := CurrentCopy(store.data);
    var haveList := false;
    var fellBack := false;
    out.Wipe();
    if current.Some? {
      haveList := ReadCopyInto(store, current.value, out);
      if !haveList {
        haveList := ReadCopyInto(store, Other(current.value), out);
        fellBack := haveList;
        repair := true;
      }
    }
    if !haveList {
      if older.Some? {
        out.nets[0] := older.value;
        out.count := 1;
        assert out.Value().nets == [older.value];
        repair := true;
      }
      if interrupted || current.Some? { repair := true; }
      return;
    }
    ghost var l := out.Value();
    assert WholeList(store.data) == Some(l);
    if interrupted || fellBack {
      repair := true;
    } else if older.Some? {
      if out.count == 0 || older.value.name != out.nets[0].name {
        Adopt(out, older.value);
        repair := true;
      } else if older.value.pass != out.nets[0].pass {
        out.nets[0] := out.nets[0].(pass := older.value.pass);
        assert out.Value().nets == [older.value] + l.nets[1..];
        repair := true;
      }
    } else if 0 < out.count {
      repair := true;
    }
  }

  lemma CopyWritesInOrder(c: Copy, l: List)
    requires |l.nets| <= MAX_NETS
    ensures var ws := CopyWrites(c, l); var hint := PrintHint(if l.nets != [] then l.hint else None);
            && |ws| == COPY_WRITES && ws[0] == Del(SumKey(c))
            && ws[7] == (if hint == [] then Del(HintKey(c)) else Put(HintKey(c), Str(hint)))
            && ws[8] == Put(CountKey(c), Num(|l.nets|)) && ws[9] == Put(SumKey(c), Num(Checksum(c, l)))
  {
    hide Checksum, PrintHint;
  }

  lemma SlotWritesInOrder(c: Copy, l: List, i: nat)
    requires |l.nets| <= MAX_NETS && i < MAX_NETS
    ensures var ws := CopyWrites(c, l);
            && ws[1 + 2 * i] == (if i < |l.nets| then Put(NameKey(c, i), Str(l.nets[i].name)) else Del(NameKey(c, i)))
            && ws[2 + 2 * i] == (if i < |l.nets| then Put(PassKey(c, i), Str(l.nets[i].pass)) else Del(PassKey(c, i)))
  {
    hide Checksum, PrintHint;
    assert (2 * i) / 2 == i && (2 * i + 1) / 2 == i;
  }

  /** Writes one copy: the checksum is removed first and written last. */
  method WriteCopy(store: Device<Key>, c: Copy, l: List) returns (ok: bool)
    requires |l.nets| <= MAX_NETS
    modifies store
    ensures store.data == Tried(old(store.data), CopyWrites(c, l), old(store.power))
    ensures ok == AllLand(old(store.power), COPY_WRITES)
    ensures store.power == Rest(old(store.power), COPY_WRITES)
  {
    hide Checksum, PrintHint, Tried, CopyWrites, SlotWrite;
    ghost var m, power := store.data, store.power;
    ghost var ws := CopyWrites(c, l);
    CopyWritesInOrder(c, l);
    NothingTried(m, ws, power);
    ok := TryNext(store, m, ws, power, 0, true, Del(SumKey(c)));
    for i := 0 to MAX_NETS
      invariant UpTo(store.data, store.power, ok, m, ws, power, 1 + 2 * i)
    {
      SlotWritesInOrder(c, l, i);
      if i < |l.nets| {
        ok := TryNext(store, m, ws, power, 1 + 2 * i, ok, Put(NameKey(c, i), Str(l.nets[i].name)));
        ok := TryNext(store, m, ws, power, 2 + 2 * i, ok, Put(PassKey(c, i), Str(l.nets[i].pass)));
      } else {
        ok := TryNext(store, m, ws, power, 1 + 2 * i, ok, Del(NameKey(c, i)));
        ok := TryNext(store, m, ws, power, 2 + 2 * i, ok, Del(PassKey(c, i)));
      }
    }
    var hint := HintToText(if l.nets != [] then l.hint else None);
    if hint != [] {
      ok := TryNext(store, m, ws, power, 7, ok, Put(HintKey(c), Str(hint)));
    } else {
      ok := TryNext(store, m, ws, power, 7, ok, Del(HintKey(c)));
    }
    ok := TryNext(store, m, ws, power, 8, ok, Put(CountKey(c), Num(|l.nets|)));
    var sum := ComputeChecksum(c, l);
    ok := TryNext(store, m, ws, power, 9, ok, Put(SumKey(c), Num(sum)));
    assert ws[..COPY_WRITES] == ws;
  }

  /** The copy to write over: the one that is not the good one. */
  method PickTarget(store: Device<Key>) returns (target: Copy)
    ensures target == Target(store.data)
  {
    hide ReadCopy;
    var current := CurrentCopy(store.data);
    var scratch := new NetList();
    var currentWhole := false;
    if current.Some? { currentWhole := ReadCopyInto(store, current.value, scratch); }
    scratch.Wipe();
    target := if currentWhole then Other(current.value) else if current.Some? then current.value else CopyA;
  }

  /** The single-network keys follow the first network. */
  method WriteOlderKeys(store: Device<Key>, l: List) returns (ok: bool)
    modifies store
    ensures store.data == Tried(old(store.data), OlderWrites(l), old(store.power))
    ensures ok == AllLand(old(store.power), 2)
    ensures store.power == Rest(old(store.power), 2)
  {
    hide Tried;
    ghost var m, power := store.data, store.power;
    ghost var ws := OlderWrites(l);
    NothingTried(m, ws, power);
    if l.nets != [] {
      ok := TryNext(store, m, ws, power, 0, true, Put(OlderName, Str(l.nets[0].name)));
      ok := TryNext(store, m, ws, power, 1, ok, Put(OlderPass, Str(l.nets[0].pass)));
    } else {
      ok := TryNext(store, m, ws, power, 0, true, Del(OlderName));
      ok := TryNext(store, m, ws, power, 1, ok, Del(OlderPass));
    }
    assert ws[..2] == ws;
  }

  /** Saves the whole list. */
  method Save(store: Device<Key>, l: List) returns (ok: bool)
    requires |l.nets| <= MAX_NETS
    modifies store
    ensures (store.data, ok) == Saved(old(store.data), l, old(store.power))
  {
    hide ReadCopy, CopyWrites, OlderWrites, Tried, Target, AllLand;
    ghost var m, power := store.data, store.power;
    ok := store.Perform(Put(SyncKey, Num(1)));
    if !ok { return; }
    ReadFrame(m, store.data);
    var target := PickTarget(store);
    ok := WriteCopy(store, target, l);
    assert store.power == Rest(power, 11);
    if ok {
      ok := store.Perform(Put(CurrentKey, Num(if target.CopyA? then 1 else 2)));
    }
    if !ok { return; }
    assert store.power == Rest(power, 12);
    ok := WriteOlderKeys(store, l);
    if ok {
      assert store.power == Rest(power, 14);
      ok := store.Perform(Del(SyncKey));
    }
  }
}
