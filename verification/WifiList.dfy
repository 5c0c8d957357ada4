/** The saved WiFi networks: at most three, in the order they are tried, and
    where the first one was joined last time (lib/CloudSync/WifiList). */
module WifiList {
  import opened Common
  import opened Storage

  const MAX_NETS: nat := 3
  const NAME_MAX: nat := 32
  const PASS_MAX: nat := 64

  datatype Network = Network(name: Text, pass: Text)
  type Address = a: seq<Octet> | |a| == 6 witness [0, 0, 0, 0, 0, 0]

  datatype Hint = Hint(channel: Octet, address: Address)
  datatype List = List(nets: seq<Network>, hint: Option<Hint>)
  datatype AddResult = Added | Updated | Full | Invalid

  const BLANK := Network([], [])
  const EMPTY := List([], None)

  predicate HintOk(h: Hint) {
    1 <= h.channel <= 14
  }

  predicate NetworkOk(n: Network) {
    1 <= |n.name| <= NAME_MAX && |n.pass| <= PASS_MAX
  }

  predicate DistinctNames(nets: seq<Network>) {
    forall i, j :: 0 <= i < j < |nets| ==> nets[i].name != nets[j].name
  }

  /** What every list in use satisfies. */
  predicate ListOk(l: List) {
    && |l.nets| <= MAX_NETS
    && (forall i :: 0 <= i < |l.nets| ==> NetworkOk(l.nets[i]))
    && DistinctNames(l.nets)
    && (l.hint.Some? ==> l.nets != [] && HintOk(l.hint.value))
  }

  // ---- the changes, as functions on list values ----

  function Find(nets: seq<Network>, name: Text): (at: int)
    ensures -1 <= at < |nets|
    ensures 0 <= at ==> nets[at].name == name && forall j :: 0 <= j < at ==> nets[j].name != name
    ensures at < 0 ==> forall j :: 0 <= j < |nets| ==> nets[j].name != name
  {
    if nets == [] then -1
    else
      var at := Find(nets[..|nets| - 1], name);
      if 0 <= at then at else if nets[|nets| - 1].name == name then |nets| - 1 else -1
  }

  function Without(nets: seq<Network>, at: nat): seq<Network>
    requires at < |nets|
  {
    nets[..at] + nets[at + 1..]
  }

  function Fronted(nets: seq<Network>, at: nat): seq<Network>
    requires at < |nets|
  {
    [nets[at]] + Without(nets, at)
  }

  predicate ValidText(name: Text, pass: Text) {
    1 <= |name| <= NAME_MAX && |pass| <= PASS_MAX
  }

  function AddTo(l: List, name: Text, pass: Text): (List, AddResult) {
    var at := Find(l.nets, name);
    if !ValidText(name, pass) then (l, Invalid)
    else if at < 0 && MAX_NETS <= |l.nets| then (l, Full)
    else if at < 0 then (List([Network(name, pass)] + l.nets, if l.nets == [] then l.hint else None), Added)
    else (List([Network(name, pass)] + Without(l.nets, at), if at == 0 then l.hint else None), Updated)
  }

  function ForgetIn(l: List, name: Text): (List, bool) {
    var at := Find(l.nets, name);
    if at < 0 then (l, false)
    else (List(Without(l.nets, at), if at == 0 then None else l.hint), true)
  }

  function UseFirstIn(l: List, name: Text): (List, bool) {
    var at := Find(l.nets, name);
    if at <= 0 then (l, false) else (List(Fronted(l.nets, at), None), true)
  }

  function MarkJoinedIn(l: List, index: int, channel: Octet, address: Option<Address>): (List, bool) {
    if index < 0 || |l.nets| <= index then (l, false)
    else
      var moved := if 0 < index then List(Fronted(l.nets, index), None) else l;
      var place := if address.None? || channel < 1 || 14 < channel then None
                   else Some(Hint(channel, address.value));
      (moved.(hint := place), 0 < index || l.hint != place)
  }

  // ---- what every history of changes keeps ----

  datatype Change =
    | Add(name: Text, pass: Text)
    | Forget(name: Text)
    | UseFirst(name: Text)
    | Joined(index: int, channel: Octet, place: Option<Address>)

  function Changed(l: List, c: Change): List {
    match c
    case Add(name, pass) => AddTo(l, name, pass).0
    case Forget(name) => ForgetIn(l, name).0
    case UseFirst(name) => UseFirstIn(l, name).0
    case Joined(index, channel, place) => MarkJoinedIn(l, index, channel, place).0
  }

  /** One change keeps the list well formed; it drops at most the network it
      forgets, and the remembered place survives only while the network it
      describes stays first. */
  lemma ChangeKeepsListOk(l: List, c: Change)
    requires ListOk(l)
    ensures ListOk(Changed(l, c))
    ensures !c.Forget? ==> forall n :: n in l.nets && !(c.Add? && n.name == c.name) ==> n in Changed(l, c).nets
    ensures !c.Joined? && Changed(l, c).hint.Some? ==>
              Changed(l, c).hint == l.hint && Changed(l, c).nets[0].name == l.nets[0].name
  {
    match c
    case Add(name, pass) => AddKeepsListOk(l, name, pass);
    case Forget(name) => ForgetKeepsListOk(l, name);
    case UseFirst(name) =>
      if 0 < Find(l.nets, name) { FrontedKeepsListOk(l, Find(l.nets, name)); }
    case Joined(index, channel, place) =>
      if 0 < index < |l.nets| { FrontedKeepsListOk(l, index); }
  }

  lemma ForgetKeepsListOk(l: List, name: Text)
    requires ListOk(l)
    ensures var r := ForgetIn(l, name).0;
            && ListOk(r)
            && (r.hint.Some? ==> r.hint == l.hint && r.nets[0].name == l.nets[0].name)
  {
    var at := Find(l.nets, name);
    if 0 <= at { WithoutKeepsTheRest(l.nets, at); }
  }

  lemma FrontedKeepsListOk(l: List, at: nat)
    requires ListOk(l) && at < |l.nets|
    ensures ListOk(List(Fronted(l.nets, at), None))
    ensures forall n :: n in Fronted(l.nets, at) <==> n in l.nets
  {
    FrontedKeepsAll(l.nets, at);
  }

  lemma AddKeepsListOk(l: List, name: Text, pass: Text)
    requires ListOk(l)
    ensures var r := AddTo(l, name, pass).0;
            && ListOk(r)
            && (forall n :: n in l.nets && n.name != name ==> n in r.nets)
            && (r.hint.Some? ==> r.hint == l.hint && r.nets[0].name == l.nets[0].name)
  {
    var at := Find(l.nets, name);
    var r := AddTo(l, name, pass).0;
    if 0 <= at {
      WithoutKeepsTheRest(l.nets, at);
      if r != l { assert r.nets[1..] == Without(l.nets, at); }
    } else if r != l {
      assert r.nets[1..] == l.nets;
    }
  }

  lemma FrontedKeepsAll(nets: seq<Network>, at: nat)
    requires at < |nets| && DistinctNames(nets)
    ensures DistinctNames(Fronted(nets, at)) && |Fronted(nets, at)| == |nets|
    ensures forall n :: n in Fronted(nets, at) <==> n in nets
    ensures forall j :: 0 <= j < |nets| ==> Fronted(nets, at)[j] in nets
  {
    WithoutKeepsTheRest(nets, at);
    assert Fronted(nets, at)[1..] == Without(nets, at);
  }

  lemma WithoutKeepsTheRest(nets: seq<Network>, at: nat)
    requires at < |nets| && DistinctNames(nets)
    ensures DistinctNames(Without(nets, at))
    ensures forall n :: n in Without(nets, at) <==> n in nets && n != nets[at]
    ensures forall j :: 0 <= j < |nets| - 1 ==>
              Without(nets, at)[j] == nets[if j < at then j else j + 1] && Without(nets, at)[j].name != nets[at].name
  {
    var w := Without(nets, at);
    assert forall j :: 0 <= j < |w| ==> w[j] == nets[if j < at then j else j + 1];
    hide Without;
    forall j | 0 <= j < |nets| && j != at
      ensures nets[j] in w
    {
      assert w[if j < at then j else j - 1] == nets[j];
    }
  }

  function History(l: List, cs: seq<Change>): List {
    if cs == [] then l else Changed(History(l, cs[..|cs| - 1]), cs[|cs| - 1])
  }

  /** Unique non-empty names, at most three, the hint only with a first network:
      after every history of changes. */
  lemma {:induction false} EveryHistoryKeepsListOk(l: List, cs: seq<Change>)
    requires ListOk(l)
    ensures ListOk(History(l, cs))
  {
    if cs != [] {
      EveryHistoryKeepsListOk(l, cs[..|cs| - 1]);
      ChangeKeepsListOk(History(l, cs[..|cs| - 1]), cs[|cs| - 1]);
    }
  }

  /** Adding is undone by forgetting: what was there comes back in order, and
      the place of the first network is the only thing lost. */
  lemma ForgetUndoesAdd(l: List, name: Text, pass: Text)
    requires AddTo(l, name, pass).1 == AddResult.Added
    ensures ForgetIn(AddTo(l, name, pass).0, name).0 == List(l.nets, None)
  {
    hide ValidText;
    var added := AddTo(l, name, pass).0;
    assert added.nets[0].name == name;
    assert Find(added.nets, name) == 0;
    assert Without(added.nets, 0) == l.nets;
  }

  // ---- what each change does, said of the lists alone ----

  /** The networks of any other name, in their order. */
  function OtherThan(nets: seq<Network>, name: Text): seq<Network> {
    if nets == [] then []
    else
      var n := nets[|nets| - 1];
      OtherThan(nets[..|nets| - 1], name) + if n.name == name then [] else [n]
  }

  predicate Names(nets: seq<Network>, name: Text) {
    exists i :: 0 <= i < |nets| && nets[i].name == name
  }

  lemma {:induction false} NoneHasIt(nets: seq<Network>, name: Text)
    requires forall i :: 0 <= i < |nets| ==> nets[i].name != name
    ensures OtherThan(nets, name) == nets
  {
    if nets != [] { NoneHasIt(nets[..|nets| - 1], name); }
  }

  /** Taking out a slot leaves exactly the networks of other names. */
  lemma {:induction false} WithoutIsOtherThan(nets: seq<Network>, at: nat)
    requires at < |nets| && DistinctNames(nets)
    ensures Without(nets, at) == OtherThan(nets, nets[at].name)
  {
    var n := |nets| - 1;
    if at < n {
      WithoutIsOtherThan(nets[..n], at);
      assert Without(nets, at) == Without(nets[..n], at) + [nets[n]];
    } else {
      NoneHasIt(nets[..n], nets[at].name);
    }
  }

  lemma {:induction false} OtherThanLeavesOut(nets: seq<Network>, name: Text)
    ensures forall i :: 0 <= i < |OtherThan(nets, name)| ==> OtherThan(nets, name)[i].name != name
    ensures forall n :: n in OtherThan(nets, name) <==> n in nets && n.name != name
  {
    if nets != [] {
      var n := |nets| - 1;
      OtherThanLeavesOut(nets[..n], name);
      assert nets == nets[..n] + [nets[n]];
    }
  }

  lemma FindTells(nets: seq<Network>, name: Text)
    ensures 0 <= Find(nets, name) <==> Names(nets, name)
    ensures Find(nets, name) == 0 <==> nets != [] && nets[0].name == name
  {
  }

  /** Leaving out a name there is, or one there is not. */
  lemma LeftOut(l: List, name: Text)
    requires ListOk(l)
    ensures var at := Find(l.nets, name);
            OtherThan(l.nets, name) == if 0 <= at then Without(l.nets, at) else l.nets
    ensures !Names(OtherThan(l.nets, name), name)
  {
    var at := Find(l.nets, name);
    if 0 <= at { WithoutIsOtherThan(l.nets, at); } else { NoneHasIt(l.nets, name); }
    OtherThanLeavesOut(l.nets, name);
  }

  /** An added network is the first and the others follow in order; the place is
      kept when it was the first before. A name of 1 to 32 and a password of at
      most 64 bytes are needed, and a fourth name has no room. */
  lemma AddDoes(l: List, name: Text, pass: Text)
    requires ListOk(l)
    ensures var (r, answer) := AddTo(l, name, pass); var had := Names(l.nets, name);
            if |name| < 1 || 32 < |name| || 64 < |pass| then answer == Invalid && r == l
            else if !had && |l.nets| == 3 then answer == Full && r == l
            else
              && answer == (if had then Updated else Added)
              && r.nets == [Network(name, pass)] + OtherThan(l.nets, name)
              && r.hint == if l.nets != [] && l.nets[0].name == name then l.hint else None
  {
    LeftOut(l, name);
    FindTells(l.nets, name);
    hide Without, OtherThan, DistinctNames, NetworkOk, Find, Names;
  }

  /** A forgotten network is gone, and only that one; the place goes with the first. */
  lemma ForgetDoes(l: List, name: Text)
    requires ListOk(l)
    ensures var (r, answer) := ForgetIn(l, name);
            && (answer <==> Names(l.nets, name))
            && r.nets == OtherThan(l.nets, name) && !Names(r.nets, name)
            && r.hint == if l.nets != [] && l.nets[0].name == name then None else l.hint
  {
    LeftOut(l, name);
    FindTells(l.nets, name);
    hide Without, OtherThan, Find, Names, ListOk;
  }

  /** Exactly a network behind the first place can be put there; the others keep
      their order and the place is forgotten. */
  lemma UseFirstDoes(l: List, name: Text)
    requires ListOk(l)
    ensures var (r, answer) := UseFirstIn(l, name);
            && (answer <==> Names(l.nets, name) && l.nets[0].name != name)
            && (!answer ==> r == l)
            && (answer ==> r.nets != [] && r.nets[0] in l.nets && r.nets[0].name == name
                           && r.nets[1..] == OtherThan(l.nets, name) && r.hint == None)
  {
    LeftOut(l, name);
    FindTells(l.nets, name);
    hide Without, OtherThan, Find, Names, ListOk;
  }

  /** The network joined is the first, the others follow in order, and the place is
      the one given if it is a place at all; the answer is whether anything changed. */
  lemma MarkJoinedDoes(l: List, index: int, channel: Octet, address: Option<Address>)
    requires ListOk(l)
    ensures var (r, answer) := MarkJoinedIn(l, index, channel, address);
            && (answer <==> r != l)
            && (index < 0 || |l.nets| <= index ==> r == l)
            && (0 <= index < |l.nets| ==>
                  && r.nets == [l.nets[index]] + OtherThan(l.nets, l.nets[index].name)
                  && (r.hint.Some? <==> address.Some? && 1 <= channel <= 14)
                  && (r.hint.Some? ==> r.hint.value.channel == channel && r.hint.value.address == address.value))
  {
    if 0 <= index < |l.nets| {
      WithoutIsOtherThan(l.nets, index);
      if index == 0 { assert l.nets == [l.nets[0]] + Without(l.nets, 0); }
    }
    hide Without, OtherThan;
  }

  lemma GapCloses(was: seq<Network>, now: seq<Network>, at: nat)
    requires at < |was| && |now| == |was| - 1
    requires forall j :: 0 <= j < at ==> now[j] == was[j]
    requires forall j :: at <= j < |now| ==> now[j] == was[j + 1]
    ensures now == Without(was, at)
  {
    assert now == was[..at] + was[at + 1..];
  }

  // ---- the list object: a fixed array changed in place ----

  class NetList {
    const nets: array<Network>
    var count: nat
    var hint: Option<Hint>

    /** No slot past the last network holds a name or a password. */
    ghost predicate Valid()
      reads this, nets
    {
      && nets.Length == MAX_NETS
      && count <= MAX_NETS
      && forall i :: count <= i < MAX_NETS ==> nets[i] == BLANK
    }

    ghost function Value(): List
      reads this, nets
      requires Valid()
    {
      List(nets[..count], hint)
    }

    constructor ()
      ensures Valid() && fresh(nets) && Value() == EMPTY
    {
      nets := new Network[MAX_NETS](_ => BLANK);
      count := 0;
      hint := None;
    }

    method Wipe()
      requires nets.Length == MAX_NETS
      modifies this, nets
      ensures Valid() && Value() == EMPTY
    {
      for i := 0 to MAX_NETS
        invariant forall j :: 0 <= j < i ==> nets[j] == BLANK
      {
        nets[i] := BLANK;
      }
      count := 0;
      hint := None;
    }

    method FindName(name: Text) returns (at: int)
      requires Valid()
      ensures at == Find(Value().nets, name)
    {
      for i := 0 to count
        invariant forall j :: 0 <= j < i ==> nets[j].name != name
      {
        if nets[i].name == name { return i; }
      }
      return -1;
    }

    method RemoveAt(at: nat)
      requires Valid() && at < count
      modifies this, nets
      ensures Valid() && Value() == List(Without(old(Value().nets), at), old(hint))
    {
      ghost var was := nets[..];
      var i := at;
      while i + 1 < count
        invariant count == old(count) && hint == old(hint)
        invariant at <= i < count
        invariant forall j :: 0 <= j < at ==> nets[j] == was[j]
        invariant forall j :: at <= j < i ==> nets[j] == was[j + 1]
        invariant forall j :: i <= j < MAX_NETS ==> nets[j] == was[j]
      {
        nets[i] := nets[i + 1];
        i := i + 1;
      }
      count := count - 1;
      nets[count] := BLANK;
      assert nets[..count] == Without(was[..count + 1], at) by { GapCloses(was[..count + 1], nets[..count], at); }
    }

    method InsertFront(n: Network)
      requires Valid() && count < MAX_NETS
      modifies this, nets
      ensures Valid() && Value() == List([n] + old(Value().nets), old(hint))
    {
      var i := count;
      while 0 < i
        invariant count == old(count) && hint == old(hint)
        invariant 0 <= i <= count
        invariant forall j :: 0 <= j <= i ==> nets[j] == old(nets[j])
        invariant forall j :: i < j <= count ==> nets[j] == old(nets[j - 1])
        invariant forall j :: count < j < MAX_NETS ==> nets[j] == BLANK
      {
        nets[i] := nets[i - 1];
        i := i - 1;
      }
      nets[0] := n;
      count := count + 1;
      assert Value().nets == [n] + old(Value().nets);
    }

    method MoveFront(at: nat)
      requires Valid() && at < count
      modifies this, nets
      ensures Valid() && Value() == List(Fronted(old(Value().nets), at), old(hint))
    {
      if at == 0 {
        assert Fronted(Value().nets, 0) == Value().nets;
        return;
      }
      var n := nets[at];
      RemoveAt(at);
      InsertFront(n);
    }

    method AddNet(name: Text, pass: Text) returns (result: AddResult)
      requires Valid()
      modifies this, nets
      ensures Valid() && (Value(), result) == AddTo(old(Value()), name, pass)
    {
      if !ValidText(name, pass) { return Invalid; }
      var at := FindName(name);
      if at < 0 && MAX_NETS <= count { return Full; }
      ghost var was := Value();
      if 0 < at { hint := None; }
      if at < 0 && 0 < count { hint := None; }
      if 0 <= at {
        nets[at] := nets[at].(pass := pass);
        assert Value().nets == was.nets[at := Network(name, pass)];
        MoveFront(at);
        assert Value().nets == [Network(name, pass)] + Without(was.nets, at);
        return Updated;
      }
      InsertFront(Network(name, pass));
      return AddResult.Added;
    }

    method ForgetNet(name: Text) returns (done: bool)
      requires Valid()
      modifies this, nets
      ensures Valid() && (Value(), done) == ForgetIn(old(Value()), name)
    {
      var at := FindName(name);
      if at < 0 { return false; }
      if at == 0 { hint := None; }
      RemoveAt(at);
      return true;
    }

    method UseNetFirst(name: Text) returns (done: bool)
      requires Valid()
      modifies this, nets
      ensures Valid() && (Value(), done) == UseFirstIn(old(Value()), name)
    {
      var at := FindName(name);
      if at <= 0 { return false; }
      hint := None;
      MoveFront(at);
      return true;
    }

    method MarkJoined(index: int, channel: Octet, address: Option<Address>) returns (changed: bool)
      requires Valid()
      modifies this, nets
      ensures Valid() && (Value(), changed) == MarkJoinedIn(old(Value()), index, channel, address)
    {
      if index < 0 || count <= index { return false; }
      changed := false;
      if 0 < index {
        MoveFront(index);
        hint := None;
        changed := true;
      }
      if address.None? || channel < 1 || 14 < channel {
        if hint.Some? { hint := None; changed := true; }
        return;
      }
      if hint.None? || hint.value.channel != channel || hint.value.address != address.value {
        hint := Some(Hint(channel, address.value));
        changed := true;
      }
    }
  }
}
