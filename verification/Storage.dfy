/** Bytes, C strings, and the device's key/value flash store.

    The store keeps one value per key and every write to one key is atomic.
    What a power cut or a failing flash does is a sequence of outcomes, one per
    coming write: a write whose outcome is false, or that comes after the last
    outcome, leaves the store as it was and reports failure. A power cut is the
    special case in which nothing lands after the first write that does not.
 */
module Storage {
  import opened Common

  type Octet = b: int | 0 <= b < 256
  // A byte of a NUL-terminated string.
  type Letter = c: int | 1 <= c < 256 witness 1
  type Text = seq<Letter>

  datatype Value = Str(text: Text) | Num(n: U32) | Flag(b: bool)
  datatype Write<+K> = Put(key: K, value: Value) | Del(key: K)

  function Written<K>(m: map<K, Value>, w: Write<K>): map<K, Value> {
    match w
    case Put(k, v) => m[k := v]
    case Del(k) => m - {k}
  }

  /** Whether the i-th coming write lands. */
  predicate Lands(power: seq<bool>, i: nat) {
    i < |power| && power[i]
  }

  predicate AllLand(power: seq<bool>, n: nat) {
    forall i :: 0 <= i < n ==> Lands(power, i)
  }

  /** A power cut: once one write is lost, every later one is. */
  ghost predicate PowerCut(power: seq<bool>) {
    forall i, j :: 0 <= i <= j < |power| && power[j] ==> power[i]
  }

  function Rest(power: seq<bool>, n: nat): (r: seq<bool>)
    ensures forall i: nat :: Lands(r, i) == Lands(power, n + i)
  {
    if n <= |power| then power[n..] else []
  }

  /** The store after trying every write of ws in order. */
  function Tried<K>(m: map<K, Value>, ws: seq<Write<K>>, power: seq<bool>): map<K, Value> {
    if ws == [] then m
    else
      var n := |ws| - 1;
      var before := Tried(m, ws[..n], power);
      if Lands(power, n) then Written(before, ws[n]) else before
  }

  lemma {:induction false} TriedElsewhere<K>(m: map<K, Value>, ws: seq<Write<K>>, power: seq<bool>, k: K)
    requires forall i :: 0 <= i < |ws| ==> ws[i].key != k
    ensures k in Tried(m, ws, power) <==> k in m
    ensures k in m ==> Tried(m, ws, power)[k] == m[k]
  {
    if ws != [] { TriedElsewhere(m, ws[..|ws| - 1], power, k); }
  }

  lemma {:induction false} TriedInVain<K>(m: map<K, Value>, ws: seq<Write<K>>, power: seq<bool>)
    requires forall i: nat :: i < |ws| ==> !Lands(power, i)
    ensures Tried(m, ws, power) == m
  {
    if ws != [] { TriedInVain(m, ws[..|ws| - 1], power); }
  }

  /** Whether the store shows the effect of w. */
  predicate Shows<K>(m: map<K, Value>, w: Write<K>) {
    match w
    case Put(k, v) => k in m && m[k] == v
    case Del(k) => k !in m
  }

  /** When everything lands, the last write to a key is what the store shows. */
  lemma {:induction false} LastWriteShows<K>(m: map<K, Value>, ws: seq<Write<K>>, power: seq<bool>, j: nat)
    requires j < |ws| && AllLand(power, |ws|)
    requires forall i :: j < i < |ws| ==> ws[i].key != ws[j].key
    ensures Shows(Tried(m, ws, power), ws[j])
  {
    var n := |ws| - 1;
    if j < n { LastWriteShows(m, ws[..n], power, j); }
  }

  /** The flash device: `power` holds the outcomes of the coming writes. */
  class Device<K(==)> {
    var data: map<K, Value>
    var power: seq<bool>

    constructor (data: map<K, Value>, power: seq<bool>)
      ensures this.data == data && this.power == power
    {
      this.data := data;
      this.power := power;
    }

    method Perform(w: Write<K>) returns (ok: bool)
      modifies this
      ensures ok == Lands(old(power), 0)
      ensures data == if ok then Written(old(data), w) else old(data)
      ensures power == Rest(old(power), 1)
    {
      ok := power != [] && power[0];
      power := if power == [] then [] else power[1..];
      if ok {
        match w
        case Put(k, v) => data := data[k := v];
        case Del(k) => data := data - {k};
      }
    }
  }

  /** The first n writes of ws have been tried from the store m. */
  ghost predicate UpTo<K>(data: map<K, Value>, left: seq<bool>, ok: bool,
                                m: map<K, Value>, ws: seq<Write<K>>, power: seq<bool>, n: nat) {
    && n <= |ws|
    && data == Tried(m, ws[..n], power)
    && left == Rest(power, n)
    && ok == AllLand(power, n)
  }

  lemma NothingTried<K>(m: map<K, Value>, ws: seq<Write<K>>, power: seq<bool>)
    ensures UpTo(m, power, true, m, ws, power, 0)
  {
  }

  /** One more write of ws; what failed before stays failed. */
  method TryNext<K(==)>(store: Device<K>, ghost m: map<K, Value>, ghost ws: seq<Write<K>>, ghost power: seq<bool>,
                        ghost n: nat, okBefore: bool, w: Write<K>) returns (ok: bool)
    requires n < |ws| && w == ws[n]
    requires UpTo(store.data, store.power, okBefore, m, ws, power, n)
    modifies store
    ensures UpTo(store.data, store.power, ok, m, ws, power, n + 1)
  {
    var landed := store.Perform(w);
    ok := landed && okBefore;
    assert ws[..n + 1][..n] == ws[..n];
    assert AllLand(power, n + 1) <==> AllLand(power, n) && Lands(power, n);
    assert store.power == Rest(power, n + 1);
  }
}
