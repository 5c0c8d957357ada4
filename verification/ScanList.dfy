/** The nearby-network list: a streaming top 20 that always agrees with the
    whole history of records (lib/CloudSync/UsbWifi.cpp). */
module ScanList {
  import opened Storage

  const SCAN_MAX: nat := 20
  const NAME_MAX: nat := 32

  datatype Security = Open | Wpa | Wpa2 | Wpa3 | Enterprise

  /** One access point record as the radio gives it. */
  datatype Record = Record(name: seq<Octet>, rssi: int, auth: int)
  datatype Entry = Entry(name: seq<Octet>, level: int, sec: Security)

  const BLANK: Entry := Entry([], 0, Open)

  function SecurityOf(auth: int): Security {
    match auth
    case 0 => Open
    case 1 => Wpa
    case 2 => Wpa
    case 3 => Wpa2
    case 4 => Wpa2
    case 5 => Enterprise
    case 6 => Wpa3
    case 7 => Wpa3
    case 8 => Wpa2
    case 9 => Open
    case 10 => Enterprise
    case _ => Wpa2
  }

  function UpToNul(s: seq<Octet>): (r: seq<Octet>)
    ensures r <= s && 0 !in r && (r == s || s[|r|] == 0)
  {
    if s == [] || s[0] == 0 then [] else [s[0]] + UpToNul(s[1..])
  }

  /** The name a record counts under; a hidden network's is empty. */
  function Label(r: Record): seq<Octet> {
    UpToNul(if NAME_MAX < |r.name| then r.name[..NAME_MAX] else r.name)
  }

  function Level(r: Record): int {
    if 127 < r.rssi then 127 else if r.rssi < -128 then -128 else r.rssi
  }

  function Noted(r: Record): Entry {
    Entry(Label(r), Level(r), SecurityOf(r.auth))
  }

  // ---- the whole history ----

  /** The names ever heard. */
  function Names(h: seq<Record>): set<seq<Octet>> {
    (set i | 0 <= i < |h| :: Label(h[i])) - {[]}
  }

  /** The i-th record is the first to reach the name's strongest level ever. */
  predicate FirstStrongest(h: seq<Record>, i: nat) {
    && i < |h|
    && (forall j :: 0 <= j < |h| && Label(h[j]) == Label(h[i]) ==> Level(h[j]) <= Level(h[i]))
    && (forall j :: 0 <= j < i && Label(h[j]) == Label(h[i]) ==> Level(h[j]) < Level(h[i]))
  }

  /** The entry is a name's strongest record ever, the first of equals. */
  ghost predicate Best(h: seq<Record>, e: Entry) {
    exists i: nat :: FirstStrongest(h, i) && Noted(h[i]) == e
  }

  predicate Distinct(es: seq<Entry>) {
    forall i, j :: 0 <= i < j < |es| ==> es[i].name != es[j].name
  }

  predicate Lists(es: seq<Entry>, name: seq<Octet>) {
    exists i :: 0 <= i < |es| && es[i].name == name
  }

  /** The list holds the strongest names, at most 20, each with its strongest
      level ever and the security of the record that first reached it; no name
      left out was ever stronger than one that is in. */
  ghost predicate Summarises(es: seq<Entry>, h: seq<Record>) {
    && |es| == (if |Names(h)| < SCAN_MAX then |Names(h)| else SCAN_MAX)
    && Distinct(es)
    && (forall i :: 0 <= i < |es| ==> es[i].name in Names(h) && Best(h, es[i]))
    && (forall r, i :: r in h && Label(r) in Names(h) && !Lists(es, Label(r)) && 0 <= i < |es|
          ==> Level(r) <= es[i].level)
  }

  // ---- one more record ----

  lemma OneMoreName(h: seq<Record>, r: Record)
    ensures Names(h + [r]) == Names(h) + ({Label(r)} - {[]})
    ensures [] !in Names(h) && [] !in Names(h + [r])
    ensures forall x :: x in h + [r] <==> x in h || x == r
  {
    var g := h + [r];
    assert forall i :: 0 <= i < |h| ==> g[i] == h[i];
    assert g[|h|] == r;
    forall n | n in Names(h) + ({Label(r)} - {[]})
      ensures n in Names(g)
    {
      if n in Names(h) {
        var i :| 0 <= i < |h| && Label(h[i]) == n;
        assert Label(g[i]) == n;
      }
    }
  }

  /** A record of another name, or no stronger, leaves a name's best as it was. */
  lemma BestStays(h: seq<Record>, r: Record, e: Entry)
    requires Best(h, e) && (Label(r) != e.name || Level(r) <= e.level)
    ensures Best(h + [r], e)
  {
    hide Label, Level, SecurityOf;
    var i: nat :| FirstStrongest(h, i) && Noted(h[i]) == e;
    assert FirstStrongest(h + [r], i) && Noted((h + [r])[i]) == e;
  }

  /** A record stronger than all before of its name is that name's best. */
  lemma NewBest(h: seq<Record>, r: Record)
    requires forall x :: x in h && Label(x) == Label(r) ==> Level(x) < Level(r)
    ensures Best(h + [r], Noted(r))
  {
    hide Label, Level, SecurityOf;
    assert FirstStrongest(h + [r], |h|) && Noted((h + [r])[|h|]) == Noted(r);
  }

  lemma BestIsStrongest(h: seq<Record>, e: Entry, r: Record)
    requires Best(h, e) && r in h && Label(r) == e.name
    ensures Level(r) <= e.level
  {
    var i: nat :| FirstStrongest(h, i) && Noted(h[i]) == e;
    var j :| 0 <= j < |h| && h[j] == r;
  }

  lemma {:induction false} ManyNames(es: seq<Entry>, names: set<seq<Octet>>)
    requires Distinct(es) && forall i :: 0 <= i < |es| ==> es[i].name in names
    ensures |es| <= |names|
    ensures |es| == |names| ==> forall n :: n in names ==> Lists(es, n)
  {
    if es == [] {
      assert |names| == 0 ==> names == {};
    } else {
      var k := |es| - 1;
      var rest := names - {es[k].name};
      ManyNames(es[..k], rest);
      forall n | |es| == |names| && n in names
        ensures Lists(es, n)
      {
        if n == es[k].name {
          assert es[k].name == n;
        } else {
          assert n in rest;
          var i :| 0 <= i < k && es[..k][i].name == n;
          assert es[i].name == n;
        }
      }
    }
  }

  /** A hidden network changes nothing. */
  lemma HiddenIsNothing(es: seq<Entry>, h: seq<Record>, r: Record)
    requires Summarises(es, h) && Label(r) == []
    ensures Summarises(es, h + [r])
  {
    hide Best, Label, Level, Names;
    OneMoreName(h, r);
    assert Names(h + [r]) == Names(h);
    forall i | 0 <= i < |es|
      ensures Best(h + [r], es[i])
    {
      assert es[i].name in Names(h);
      BestStays(h, r, es[i]);
    }
  }

  /** A listed name: its entry takes a stronger record. */
  lemma ListedAgain(es: seq<Entry>, h: seq<Record>, r: Record, at: nat)
    requires Summarises(es, h) && at < |es| && es[at].name == Label(r)
    ensures Summarises(if es[at].level < Level(r) then es[at := Noted(r)] else es, h + [r])
  {
    hide Best, Label, Level, Names;
    OneMoreName(h, r);
    var fs := if es[at].level < Level(r) then es[at := Noted(r)] else es;
    assert Names(h + [r]) == Names(h);
    assert forall i :: 0 <= i < |es| ==> fs[i].name == es[i].name;
    forall i | 0 <= i < |es|
      ensures Best(h + [r], fs[i])
    {
      if i == at && es[at].level < Level(r) {
        forall x | x in h && Label(x) == Label(r)
          ensures Level(x) < Level(r)
        {
          BestIsStrongest(h, es[at], x);
        }
        NewBest(h, r);
      } else {
        BestStays(h, r, es[i]);
      }
    }
    forall x, i | x in h + [r] && Label(x) in Names(h) && !Lists(fs, Label(x)) && 0 <= i < |fs|
      ensures Level(x) <= fs[i].level
    {
      assert fs[at].name == Label(r);
      assert x in h;
      assert !Lists(es, Label(x));
    }
  }

  /** Room left means that every name is listed. */
  lemma RoomLeft(es: seq<Entry>, h: seq<Record>, name: seq<Octet>)
    requires Summarises(es, h) && |es| < SCAN_MAX && !Lists(es, name)
    ensures name !in Names(h) && forall n :: n in Names(h) ==> Lists(es, n)
  {
    hide Best, Label, Level, Names;
    ManyNames(es, Names(h));
  }

  lemma ListsOneMore(es: seq<Entry>, e: Entry)
    ensures forall n :: Lists(es, n) || n == e.name ==> Lists(es + [e], n)
  {
    var fs := es + [e];
    assert fs[|es|] == e;
    forall n | Lists(es, n)
      ensures Lists(fs, n)
    {
      var i :| 0 <= i < |es| && es[i].name == n;
      assert fs[i].name == n;
    }
  }

  /** A new name is simply added while there is room. */
  lemma AddedAtTheEnd(es: seq<Entry>, h: seq<Record>, r: Record)
    requires Summarises(es, h) && |es| < SCAN_MAX && Label(r) != [] && !Lists(es, Label(r))
    ensures Summarises(es + [Noted(r)], h + [r])
  {
    hide Best, Label, Level, Names;
    OneMoreName(h, r);
    RoomLeft(es, h, Label(r));
    ListsOneMore(es, Noted(r));
    assert Names(h + [r]) == Names(h) + {Label(r)};
    forall x | x in h
      ensures Label(x) != Label(r)
    {
      if Label(x) != [] { KnownName(h, x); }
    }
    NewBest(h, r);
    forall i | 0 <= i < |es|
      ensures Best(h + [r], es[i])
    {
      BestStays(h, r, es[i]);
    }
    hide Lists;
  }

  lemma KnownName(h: seq<Record>, x: Record)
    requires x in h && Label(x) != []
    ensures Label(x) in Names(h)
  {
  }

  /** A full list: a name not on it takes the place of a weakest entry if its
      record is stronger, and is passed over if not; it may have been on the list
      before. */
  lemma FullList(es: seq<Entry>, h: seq<Record>, r: Record, at: nat)
    requires Summarises(es, h) && |es| == SCAN_MAX && Label(r) != [] && !Lists(es, Label(r))
    requires at < |es| && forall i :: 0 <= i < |es| ==> es[at].level <= es[i].level
    ensures Summarises(if es[at].level < Level(r) then es[at := Noted(r)] else es, h + [r])
  {
    hide Best, Label, Level, Names;
    OneMoreName(h, r);
    var fs := if es[at].level < Level(r) then es[at := Noted(r)] else es;
    assert Names(h) <= Names(h + [r]);
    ManyNames(es, Names(h));
    ManyNames(es, Names(h + [r]));
    forall i | 0 <= i < |es|
      ensures fs[i].name in Names(h + [r]) && Best(h + [r], fs[i])
    {
      if i == at && es[at].level < Level(r) {
        forall x | x in h && Label(x) == Label(r)
          ensures Level(x) < Level(r)
        {
          KnownName(h, x);
        }
        NewBest(h, r);
      } else {
        assert es[i].name != Label(r);
        BestStays(h, r, es[i]);
      }
    }
    forall i, j | 0 <= i < j < |fs|
      ensures fs[i].name != fs[j].name
    {
      assert es[i].name != Label(r) && es[j].name != Label(r);
    }
    NothingStrongerLeftOut(es, h, r, at);
  }

  lemma NothingStrongerLeftOut(es: seq<Entry>, h: seq<Record>, r: Record, at: nat)
    requires Summarises(es, h) && |es| == SCAN_MAX && !Lists(es, Label(r))
    requires at < |es| && forall i :: 0 <= i < |es| ==> es[at].level <= es[i].level
    ensures var fs := if es[at].level < Level(r) then es[at := Noted(r)] else es;
            forall x, i :: x in h + [r] && Label(x) != [] && !Lists(fs, Label(x)) && 0 <= i < |fs|
              ==> Level(x) <= fs[i].level
  {
    hide Best, Label, Level, Names;
    var fs := if es[at].level < Level(r) then es[at := Noted(r)] else es;
    if es[at].level < Level(r) { assert fs[at].name == Label(r); }
    forall k | 0 <= k < |es| && k != at
      ensures Lists(fs, es[k].name)
    {
      assert fs[k].name == es[k].name;
    }
    forall x, i | x in h + [r] && Label(x) != [] && !Lists(fs, Label(x)) && 0 <= i < |fs|
      ensures Level(x) <= fs[i].level
    {
      if x in h {
        KnownName(h, x);
        if Lists(es, Label(x)) { BestIsStrongest(h, es[at], x); }
      }
    }
  }

  // ---- the order shown ----

  /** Name bytes first, then length. */
  predicate Less(a: seq<Octet>, b: seq<Octet>) {
    b != [] && (a == [] || a[0] < b[0] || (a[0] == b[0] && Less(a[1..], b[1..])))
  }

  /** Stronger first; equal strength by name. */
  predicate Before(a: Entry, b: Entry) {
    if a.level != b.level then b.level < a.level else Less(a.name, b.name)
  }

  lemma {:induction false} LessIsLinear(a: seq<Octet>, b: seq<Octet>)
    ensures Less(a, b) ==> !Less(b, a)
    ensures Less(a, b) || Less(b, a) || a == b
  {
    if a != [] && b != [] && a[0] == b[0] {
      LessIsLinear(a[1..], b[1..]);
      assert a == [a[0]] + a[1..] && b == [b[0]] + b[1..];
    }
  }

  lemma {:induction false} LessIsTransitive(a: seq<Octet>, b: seq<Octet>, c: seq<Octet>)
    requires Less(a, b) && Less(b, c)
    ensures Less(a, c)
  {
    if a != [] && a[0] == b[0] && b[0] == c[0] { LessIsTransitive(a[1..], b[1..], c[1..]); }
  }

  /** Strictly in the order shown. */
  predicate InOrder(es: seq<Entry>) {
    forall i, j :: 0 <= i < j < |es| ==> Before(es[i], es[j])
  }

  /** The first byte in which two names differ decides, and a name comes before the
      longer ones it begins. */
  ghost predicate NameBefore(a: seq<Octet>, b: seq<Octet>) {
    exists k :: 0 <= k <= |a| && k <= |b| && a[..k] == b[..k]
                && ((k == |a| && k < |b|) || (k < |a| && k < |b| && a[k] < b[k]))
  }

  lemma {:induction false} LessMeans(a: seq<Octet>, b: seq<Octet>)
    ensures Less(a, b) <==> NameBefore(a, b)
  {
    if a == [] || b == [] || a[0] != b[0] {
      if Less(a, b) { assert a[..0] == b[..0]; }
      if NameBefore(a, b) {
        var k :| 0 <= k <= |a| && k <= |b| && a[..k] == b[..k] && ((k == |a| && k < |b|) || (k < |a| && k < |b| && a[k] < b[k]));
        if k != 0 { assert a[..k][0] == b[..k][0]; }
      }
    } else {
      LessMeans(a[1..], b[1..]);
      if NameBefore(a[1..], b[1..]) {
        var k :| 0 <= k <= |a[1..]| && k <= |b[1..]| && a[1..][..k] == b[1..][..k]
                 && ((k == |a[1..]| && k < |b[1..]|) || (k < |a[1..]| && k < |b[1..]| && a[1..][k] < b[1..][k]));
        assert a[..k + 1] == [a[0]] + a[1..][..k] && b[..k + 1] == [b[0]] + b[1..][..k];
      }
      if NameBefore(a, b) {
        var k :| 0 <= k <= |a| && k <= |b| && a[..k] == b[..k] && ((k == |a| && k < |b|) || (k < |a| && k < |b| && a[k] < b[k]));
        assert k != 0;
        assert a[1..][..k - 1] == a[..k][1..] && b[1..][..k - 1] == b[..k][1..];
      }
    }
  }

  /** The order shown: of any two entries the one further up is stronger, or as
      strong and of the earlier name. */
  lemma ShownMeans(es: seq<Entry>)
    ensures InOrder(es) <==>
              forall i, j :: 0 <= i < j < |es| ==>
                es[i].level > es[j].level || (es[i].level == es[j].level && NameBefore(es[i].name, es[j].name))
  {
    hide Less, NameBefore;
    forall i, j | 0 <= i < j < |es|
      ensures Before(es[i], es[j]) <==>
                es[i].level > es[j].level || (es[i].level == es[j].level && NameBefore(es[i].name, es[j].name))
    {
      LessMeans(es[i].name, es[j].name);
    }
  }

  lemma BeforeIsTransitive(a: Entry, b: Entry, c: Entry)
    requires Before(a, b) && Before(b, c)
    ensures Before(a, c)
  {
    if a.level == c.level { LessIsTransitive(a.name, b.name, c.name); }
  }

  lemma BeforeIsLinear(a: Entry, b: Entry)
    requires a.name != b.name
    ensures Before(a, b) <==> !Before(b, a)
  {
    LessIsLinear(a.name, b.name);
  }

  /** The list does not depend on how its entries are arranged. */
  lemma Rearranged(es: seq<Entry>, fs: seq<Entry>, h: seq<Record>)
    requires Summarises(es, h) && multiset(es) == multiset(fs)
    ensures Summarises(fs, h)
  {
    hide Best, Label, Level, Names;
    SameEntries(es, fs);
    forall k | 0 <= k < |es|
      ensures Lists(fs, es[k].name)
    {
      assert es[k] in fs;
    }
    forall r, i | r in h && Label(r) in Names(h) && !Lists(fs, Label(r)) && 0 <= i < |fs|
      ensures Level(r) <= fs[i].level
    {
      assert fs[i] in es;
    }
    forall i | 0 <= i < |fs|
      ensures fs[i].name in Names(h) && Best(h, fs[i])
    {
      assert fs[i] in es;
    }
  }

  lemma SameEntries(es: seq<Entry>, fs: seq<Entry>)
    requires multiset(es) == multiset(fs) && Distinct(es)
    ensures |es| == |fs| && Distinct(fs)
    ensures forall e :: e in es <==> e in fs
  {
    assert |es| == |multiset(es)| && |fs| == |multiset(fs)|;
    forall e
      ensures e in es <==> e in fs
    {
      assert e in es <==> e in multiset(es);
      assert e in fs <==> e in multiset(fs);
    }
    assert forall i, j :: 0 <= i < |es| && 0 <= j < |es| && es[i].name == es[j].name ==> es[i] == es[j];
    forall i, j | 0 <= i < j < |fs| && fs[i].name == fs[j].name
      ensures false
    {
      assert fs[i] in es && fs[j] in es;
      TwiceIn(fs, i, j);
      OnceOnly(es, fs[i]);
    }
  }

  lemma TwiceIn(es: seq<Entry>, i: nat, j: nat)
    requires i < j < |es| && es[i] == es[j]
    ensures 2 <= multiset(es)[es[i]]
  {
    assert es == es[..i] + [es[i]] + es[i + 1..j] + [es[i]] + es[j + 1..];
  }

  lemma {:induction false} OnceOnly(es: seq<Entry>, e: Entry)
    requires Distinct(es)
    ensures multiset(es)[e] <= 1
  {
    if es != [] {
      var n := |es| - 1;
      OnceOnly(es[..n], e);
      assert es == es[..n] + [es[n]];
      if es[n] == e { assert e !in es[..n]; }
    }
  }

  /** The entries with e put in at k. */
  function With(es: seq<Entry>, e: Entry, k: nat): (fs: seq<Entry>)
    requires k <= |es|
    ensures |fs| == |es| + 1 && multiset(fs) == multiset(es) + multiset{e}
    ensures forall i :: 0 <= i <= |es| ==> fs[i] == (if i < k then es[i] else if i == k then e else es[i - 1])
  {
    assert es == es[..k] + es[k..];
    es[..k] + [e] + es[k..]
  }

  /** An entry put before everything it comes before, and nothing else. */
  lemma Inserted(es: seq<Entry>, e: Entry, k: nat)
    requires InOrder(es) && k <= |es|
    requires forall i :: 0 <= i < |es| ==> es[i].name != e.name
    requires forall i :: k <= i < |es| ==> Before(e, es[i])
    requires 0 < k ==> !Before(e, es[k - 1])
    ensures InOrder(With(es, e, k))
  {
    hide Before;
    forall i | 0 <= i < k
      ensures Before(es[i], e)
    {
      BeforeIsLinear(es[k - 1], e);
      if i < k - 1 { BeforeIsTransitive(es[i], es[k - 1], e); }
    }
    var fs := With(es, e, k);
    forall i, j | 0 <= i < j < |fs|
      ensures Before(fs[i], fs[j])
    {
      assert fs[i] == if i < k then es[i] else if i == k then e else es[i - 1];
      assert fs[j] == if j < k then es[j] else if j == k then e else es[j - 1];
    }
  }

  /** The entry at i moved down to k, those from k up to i moved up by one. */
  function Moved(es: seq<Entry>, i: nat, k: nat): (fs: seq<Entry>)
    requires k <= i < |es|
    ensures |fs| == |es|
    ensures forall m :: 0 <= m < |es| ==>
              fs[m] == (if m < k || i < m then es[m] else if m == k then es[i] else es[m - 1])
  {
    With(es[..i], es[i], k) + es[i + 1..]
  }

  lemma MovedIs(fs: seq<Entry>, es: seq<Entry>, i: nat, k: nat)
    requires k <= i < |es| == |fs|
    requires forall m :: 0 <= m < k ==> fs[m] == es[m]
    requires fs[k] == es[i]
    requires forall m :: k < m <= i ==> fs[m] == es[m - 1]
    requires forall m :: i < m < |es| ==> fs[m] == es[m]
    ensures fs == Moved(es, i, k)
  {
  }

  /** Moving within the first n entries. */
  lemma MovedWithin(es: seq<Entry>, i: nat, k: nat, n: nat)
    requires k <= i < n <= |es|
    ensures Moved(es, i, k)[..n] == Moved(es[..n], i, k)
  {
    MovedIs(Moved(es, i, k)[..n], es[..n], i, k);
  }

  lemma MovedIsTheSame(es: seq<Entry>, i: nat, k: nat)
    requires k <= i < |es|
    ensures multiset(Moved(es, i, k)) == multiset(es)
  {
    assert es == es[..i] + [es[i]] + es[i + 1..];
  }

  lemma MovedInOrder(es: seq<Entry>, i: nat, k: nat)
    requires k <= i < |es| && Distinct(es) && InOrder(es[..i])
    requires forall m :: k <= m < i ==> Before(es[i], es[m])
    requires 0 < k ==> !Before(es[i], es[k - 1])
    ensures InOrder(Moved(es, i, k)[..i + 1])
  {
    hide Before, InOrder;
    Inserted(es[..i], es[i], k);
    assert Moved(es, i, k)[..i + 1] == With(es[..i], es[i], k);
  }

  lemma OnePass(es: seq<Entry>, i: nat, k: nat, n: nat)
    requires k <= i < n <= |es| && Distinct(es[..n]) && InOrder(es[..i])
    requires forall m :: k <= m < i ==> Before(es[i], es[m])
    requires 0 < k ==> !Before(es[i], es[k - 1])
    ensures multiset(Moved(es, i, k)[..n]) == multiset(es[..n])
    ensures InOrder(Moved(es, i, k)[..i + 1])
  {
    hide Before, InOrder, Moved, Distinct;
    MovedWithin(es, i, k, n);
    MovedIsTheSame(es[..n], i, k);
    assert es[..n][..i] == es[..i];
    MovedInOrder(es[..n], i, k);
    assert Moved(es, i, k)[..i + 1] == Moved(es[..n], i, k)[..i + 1];
  }

  lemma OneIsInOrder(es: seq<Entry>)
    requires |es| <= 1
    ensures InOrder(es)
  {
  }

  // ---- the list itself ----

  class ScanList {
    const entries: array<Entry>
    var count: nat
    // every record considered so far
    ghost var history: seq<Record>

    ghost predicate Valid()
      reads this, entries
    {
      entries.Length == SCAN_MAX && count <= SCAN_MAX && Summarises(entries[..count], history)
    }

    constructor ()
      ensures Valid() && history == []
    {
      entries := new Entry[SCAN_MAX](_ => BLANK);
      count, history := 0, [];
    }

    /** Every entry is wiped, whatever was listed before. */
    method Begin()
      requires entries.Length == SCAN_MAX
      modifies this, entries
      ensures Valid() && history == [] && count == 0
      ensures forall i :: 0 <= i < SCAN_MAX ==> entries[i] == BLANK
    {
      for i := 0 to SCAN_MAX
        invariant forall k :: 0 <= k < i ==> entries[k] == BLANK
      {
        entries[i] := BLANK;
      }
      count, history := 0, [];
    }

    method Find(name: seq<Octet>) returns (at: nat)
      requires entries.Length == SCAN_MAX && count <= SCAN_MAX
      ensures at <= count
      ensures if at < count then entries[at].name == name else !Lists(entries[..count], name)
    {
      at := 0;
      while at < count
        invariant at <= count && forall i :: 0 <= i < at ==> entries[i].name != name
      {
        if entries[at].name == name { return; }
        at := at + 1;
      }
    }

    method Weakest() returns (weakest: nat)
      requires entries.Length == SCAN_MAX && 0 < count <= SCAN_MAX
      ensures weakest < count && forall i :: 0 <= i < count ==> entries[weakest].level <= entries[i].level
    {
      weakest := 0;
      for i := 1 to count
        invariant weakest < i && forall k :: 0 <= k < i ==> entries[weakest].level <= entries[k].level
      {
        if entries[i].level < entries[weakest].level { weakest := i; }
      }
    }

    /** After any records at all, the list answers for the whole history. */
    method Consider(r: Record)
      requires Valid()
      modifies this, entries
      ensures Valid() && history == old(history) + [r]
    {
      hide Summarises, Label, Level, SecurityOf;
      ghost var es, h := entries[..count], history;
      history := history + [r];
      var name := Label(r);
      if name == [] {
        HiddenIsNothing(es, h, r);
        return;
      }
      var level := Level(r);
      var at := Find(name);
      if at < count {
        ListedAgain(es, h, r, at);
        if entries[at].level < level {
          entries[at] := Entry(name, level, SecurityOf(r.auth));
          assert entries[..count] == es[at := Noted(r)];
        }
        return;
      }
      if count == SCAN_MAX {
        at := Weakest();
        FullList(es, h, r, at);
        if level <= entries[at].level { return; }
      } else {
        AddedAtTheEnd(es, h, r);
        count := count + 1;
      }
      entries[at] := Entry(name, level, SecurityOf(r.auth));
      assert entries[..count] == if at < |es| then es[at := Noted(r)] else es + [Noted(r)];
    }

    /** One pass of the insertion sort: the entry at i goes down past every entry
        it comes before. */
    method Settle(i: nat) returns (k: nat)
      requires i < entries.Length
      modifies entries
      ensures k <= i && entries[..] == Moved(old(entries[..]), i, k)
      ensures forall m :: k <= m < i ==> Before(old(entries[i]), old(entries[m]))
      ensures 0 < k ==> !Before(old(entries[i]), old(entries[k - 1]))
    {
      hide Before, Moved;
      ghost var was := entries[..];
      var e := entries[i];
      k := i;
      while 0 < k && Before(e, entries[k - 1])
        invariant 0 <= k <= i
        invariant forall m :: 0 <= m <= k ==> entries[m] == was[m]
        invariant forall m :: k < m <= i ==> entries[m] == was[m - 1]
        invariant forall m :: i < m < |was| ==> entries[m] == was[m]
        invariant forall m :: k <= m < i ==> Before(e, was[m])
      {
        entries[k] := entries[k - 1];
        k := k - 1;
      }
      entries[k] := e;
      MovedIs(entries[..], was, i, k);
    }

    /** Strongest first; the same entries. */
    method Sort()
      requires Valid()
      modifies entries
      ensures Valid() && InOrder(entries[..count])
      ensures multiset(entries[..count]) == multiset(old(entries[..count]))
    {
      hide Summarises, InOrder, Distinct, Before, Moved;
      ghost var es := entries[..count];
      SummaryIsDistinct(es, history);
      OneIsInOrder(entries[..if count == 0 then 0 else 1]);
      var i := 1;
      while i < count
        invariant 1 <= i && (i <= count || count == 0)
        invariant multiset(es) == multiset(entries[..count])
        invariant InOrder(entries[..if count == 0 then 0 else i])
      {
        SameEntries(es, entries[..count]);
        ghost var whole := entries[..];
        assert whole[..count] == entries[..count] && whole[..i] == entries[..i];
        var k := Settle(i);
        OnePass(whole, i, k, count);
        assert entries[..count] == Moved(whole, i, k)[..count] && entries[..i + 1] == Moved(whole, i, k)[..i + 1];
        i := i + 1;
      }
      Rearranged(es, entries[..count], history);
    }
  }

  lemma SummaryIsDistinct(es: seq<Entry>, h: seq<Record>)
    requires Summarises(es, h)
    ensures Distinct(es)
  {
  }
}
