/** The conversation that links a device to an account
    (lib/CloudSync/LinkSession.cpp). */
module Pairing {
  import opened Common
  import opened Storage

  datatype Phase = Waiting | Confirm | ClearApps | Confirming | Store | Linked | Declined | Expired | Error

  const TOKEN_LENGTH: nat := 43

  // A reply's status text: "authorization_pending", "slow_down",
  // "confirm_on_device", "access_denied", "expired_token", "granted", or any other.
  datatype Status = Pending | SlowDown | ConfirmOnDevice | Denied | ExpiredToken | Grant | Other

  datatype Event =
    | Reply(status: Status, account: Text, token: Text, serverTime: U32, accountRef: Text)
    | Answer(accept: bool)
    | Clear(clear: bool)
    | Expire
    | Stored

  /** What the session has learnt; the old account is the one last linked. */
  datatype Session = Session(phase: Phase, account: Text, accountRef: Text, token: Text, linkTime: U32, clearApps: bool)
  datatype OldAccount = OldAccount(name: Text, ref: Text)

  const START: Session := Session(Waiting, [], [], [], 0, false)

  predicate Over(p: Phase) {
    p == Linked || p == Declined || p == Expired || p == Error
  }

  /** Whether the account is another than before: by reference when both are
      known, by name otherwise. */
  predicate Changed(former: OldAccount, account: Text, ref: Text) {
    if former.ref != [] && ref != [] then former.ref != ref else former.name != [] && former.name != account
  }

  function Step(former: OldAccount, s: Session, e: Event): Session {
    match e
    case Reply(status, account, token, serverTime, ref) =>
      if Over(s.phase) || status == Pending || status == SlowDown then s
      else if status == ConfirmOnDevice then
        if s.phase == Waiting then s.(account := account, accountRef := ref, linkTime := serverTime, phase := Confirm)
        else s
      else if status == Denied then s.(phase := Declined)
      else if status == ExpiredToken then s.(phase := Expired)
      else if status == Grant && s.phase == Confirming && |token| == TOKEN_LENGTH then
        s.(account := account, accountRef := ref, token := token,
           linkTime := if serverTime != 0 then serverTime else s.linkTime, phase := Store)
      else s.(phase := Error)
    case Answer(accept) =>
      if s.phase != Confirm then s
      else if !accept then s.(phase := Declined)
      else s.(phase := if Changed(former, s.account, s.accountRef) then ClearApps else Confirming)
    case Clear(clear) => if s.phase != ClearApps then s else s.(clearApps := clear, phase := Confirming)
    case Expire => if s.phase == Linked || s.phase == Declined then s else s.(phase := Expired)
    case Stored => if s.phase == Store then s.(phase := Linked) else s
  }

  function After(former: OldAccount, events: seq<Event>): Session {
    if events == [] then START else Step(former, After(former, events[..|events| - 1]), events[|events| - 1])
  }

  // ---- the one way to a link, read off a history ----

  predicate IsAsk(e: Event) {
    e.Reply? && e.status == ConfirmOnDevice
  }

  /** Neither an expiry nor a reply that ends or grants anything. */
  predicate Harmless(e: Event) {
    e != Expire && (e.Reply? ==> e.status == Pending || e.status == SlowDown || e.status == ConfirmOnDevice)
  }

  /** Where in a history the things happened that a link needs. */
  datatype Trail = Trail(asked: nat, agreed: nat, cleared: nat, granted: nat, stored: nat)

  /** The first ask: the one that is shown to the wearer. */
  predicate Asked(events: seq<Event>, t: Trail) {
    t.asked < |events| && IsAsk(events[t.asked]) && forall i :: 0 <= i < t.asked ==> !IsAsk(events[i])
  }

  /** The wearer's first answer to it is a yes. */
  predicate Agreed(events: seq<Event>, t: Trail) {
    && Asked(events, t) && t.asked < t.agreed < |events| && events[t.agreed] == Answer(true)
    && forall i :: t.asked < i < t.agreed ==> !events[i].Answer?
  }

  predicate IsAnother(former: OldAccount, events: seq<Event>, t: Trail)
    requires Asked(events, t)
  {
    Changed(former, events[t.asked].account, events[t.asked].accountRef)
  }

  /** The wearer agreed and, the account asked about being another, then decided
      about the apps, the first time so. */
  predicate Decided(former: OldAccount, events: seq<Event>, t: Trail, clear: bool) {
    && Agreed(events, t)
    && (if IsAnother(former, events, t)
        then && t.agreed < t.cleared < |events| && events[t.cleared] == Clear(clear)
             && (forall i :: t.agreed < i < t.cleared ==> !events[i].Clear?)
        else t.cleared == t.agreed && !clear)
  }

  /** A grant of a whole token follows, and nothing harmful came before it. */
  predicate Granted(former: OldAccount, events: seq<Event>, t: Trail, clear: bool) {
    && Decided(former, events, t, clear) && t.cleared < t.granted < |events|
    && events[t.granted].Reply? && events[t.granted].status == Grant && |events[t.granted].token| == TOKEN_LENGTH
    && forall i :: 0 <= i < t.granted ==> Harmless(events[i])
  }

  /** And then it is stored, nothing harmful having come in between. */
  predicate LinkedBy(former: OldAccount, events: seq<Event>, t: Trail, clear: bool) {
    && Granted(former, events, t, clear) && t.granted < t.stored < |events| && events[t.stored] == Stored
    && forall i :: t.granted < i < t.stored ==> Harmless(events[i]) && events[i] != Stored
  }

  predicate AllHarmless(events: seq<Event>, from: nat) {
    forall i :: from <= i < |events| ==> Harmless(events[i])
  }

  /** What the ask at this place shows. */
  function Shown(events: seq<Event>, t: Trail, phase: Phase, clear: bool): Session
    requires Asked(events, t)
  {
    var ask := events[t.asked];
    Session(phase, ask.account, ask.accountRef, [], ask.serverTime, clear)
  }

  /** What the grant at this place leaves: its own account, token and, if it
      gives one, time. */
  function Given(former: OldAccount, events: seq<Event>, t: Trail, phase: Phase, clear: bool): Session
    requires Granted(former, events, t, clear)
  {
    var ask, grant := events[t.asked], events[t.granted];
    Session(phase, grant.account, grant.accountRef, grant.token,
            if grant.serverTime != 0 then grant.serverTime else ask.serverTime, clear)
  }

  /** What a session says of the history behind it. */
  predicate Backed(former: OldAccount, events: seq<Event>, t: Trail, s: Session) {
    match s.phase
    case Waiting => s == START && AllHarmless(events, 0) && forall i :: 0 <= i < |events| ==> !IsAsk(events[i])
    case Confirm =>
      && Asked(events, t) && s == Shown(events, t, Confirm, false) && AllHarmless(events, 0)
      && forall i :: t.asked < i < |events| ==> !events[i].Answer?
    case ClearApps =>
      && Agreed(events, t) && IsAnother(former, events, t) && s == Shown(events, t, ClearApps, false) && AllHarmless(events, 0)
      && forall i :: t.agreed < i < |events| ==> !events[i].Clear?
    case Confirming =>
      Decided(former, events, t, s.clearApps) && s == Shown(events, t, Confirming, s.clearApps) && AllHarmless(events, 0)
    case Store =>
      && Granted(former, events, t, s.clearApps) && s == Given(former, events, t, Store, s.clearApps)
      && AllHarmless(events, t.granted + 1) && forall i :: t.granted < i < |events| ==> events[i] != Stored
    case Linked => LinkedBy(former, events, t, s.clearApps) && s == Given(former, events, t, Linked, s.clearApps)
    case _ => true
  }

  /** What is read off a history stays when more happens. */
  lemma TrailStill(former: OldAccount, events: seq<Event>, e: Event, t: Trail, clear: bool)
    ensures var more := events + [e];
            && (Asked(events, t) ==> Asked(more, t) && more[t.asked] == events[t.asked])
            && (Agreed(events, t) ==> Agreed(more, t))
            && (Decided(former, events, t, clear) ==> Decided(former, more, t, clear))
            && (Granted(former, events, t, clear) ==> Granted(former, more, t, clear) && more[t.granted] == events[t.granted])
            && (LinkedBy(former, events, t, clear) ==> LinkedBy(former, more, t, clear))
  {
    hide Changed;
    assert forall i :: 0 <= i < |events| ==> (events + [e])[i] == events[i];
  }

  /** One more event after which the session is as before. */
  lemma BackedStill(former: OldAccount, events: seq<Event>, e: Event, t: Trail, s: Session)
    requires Backed(former, events, t, s) && Step(former, s, e) == s
    ensures Backed(former, events + [e], t, s)
  {
    TrailStill(former, events, e, t, s.clearApps);
    GrantIsAfterAsk(former, events, t, s.clearApps);
    hide Changed, Asked, Agreed, Decided, Granted, LinkedBy;
    var more := events + [e];
    assert forall i :: 0 <= i < |events| ==> more[i] == events[i];
  }

  lemma GrantIsAfterAsk(former: OldAccount, events: seq<Event>, t: Trail, clear: bool)
    ensures LinkedBy(former, events, t, clear) ==> Granted(former, events, t, clear)
    ensures Granted(former, events, t, clear) ==> Decided(former, events, t, clear)
    ensures Decided(former, events, t, clear) ==> Agreed(events, t)
    ensures Agreed(events, t) ==> Asked(events, t)
  {
    hide Changed, Asked;
  }

  lemma AskedOnward(former: OldAccount, events: seq<Event>, e: Event, t: Trail, s: Session)
    requires Backed(former, events, t, s) && s.phase == Waiting && IsAsk(e)
    ensures Backed(former, events + [e], t.(asked := |events|), Step(former, s, e))
  {
    assert forall i :: 0 <= i < |events| ==> (events + [e])[i] == events[i];
  }

  lemma AgreedOnward(former: OldAccount, events: seq<Event>, t: Trail, s: Session)
    requires Backed(former, events, t, s) && s.phase == Confirm
    ensures Backed(former, events + [Answer(true)], t.(agreed := |events|, cleared := |events|), Step(former, s, Answer(true)))
  {
    hide Changed;
    assert forall i :: 0 <= i < |events| ==> (events + [Answer(true)])[i] == events[i];
  }

  lemma ClearedOnward(former: OldAccount, events: seq<Event>, clear: bool, t: Trail, s: Session)
    requires Backed(former, events, t, s) && s.phase == ClearApps
    ensures Backed(former, events + [Clear(clear)], t.(cleared := |events|), Step(former, s, Clear(clear)))
  {
    hide Changed;
    assert forall i :: 0 <= i < |events| ==> (events + [Clear(clear)])[i] == events[i];
  }

  lemma GrantedOnward(former: OldAccount, events: seq<Event>, e: Event, t: Trail, s: Session)
    requires Backed(former, events, t, s) && s.phase == Confirming && Step(former, s, e).phase == Store
    ensures Backed(former, events + [e], t.(granted := |events|), Step(former, s, e))
  {
    hide Changed;
    assert forall i :: 0 <= i < |events| ==> (events + [e])[i] == events[i];
  }

  lemma StoredOnward(former: OldAccount, events: seq<Event>, t: Trail, s: Session)
    requires Backed(former, events, t, s) && s.phase == Store
    ensures Backed(former, events + [Stored], t.(stored := |events|), Step(former, s, Stored))
  {
    hide Changed;
    assert forall i :: 0 <= i < |events| ==> (events + [Stored])[i] == events[i];
  }

  /** Which events move a session on. */
  lemma Moves(former: OldAccount, s: Session, e: Event)
    ensures var u := Step(former, s, e);
            || u == s || u.phase == Declined || u.phase == Expired || u.phase == Error
            || (s.phase == Waiting && IsAsk(e)) || (s.phase == Confirm && e == Answer(true))
            || (s.phase == ClearApps && e.Clear?) || (s.phase == Confirming && u.phase == Store)
            || (s.phase == Store && e == Stored)
  {
    hide Changed;
  }

  lemma Onward(former: OldAccount, events: seq<Event>, e: Event, t: Trail, s: Session) returns (u: Trail)
    requires Backed(former, events, t, s)
    ensures Backed(former, events + [e], u, Step(former, s, e))
  {
    Moves(former, s, e);
    var n, after := |events|, Step(former, s, e);
    u := t;
    if after.phase == Declined || after.phase == Expired || after.phase == Error {
      EndedIsBacked(former, events + [e], t, after);
    } else {
      hide Step, Backed;
      if after == s {
        BackedStill(former, events, e, t, s);
      } else if s.phase == Waiting {
        AskedOnward(former, events, e, t, s);
        u := t.(asked := n);
      } else if s.phase == Confirm {
        AgreedOnward(former, events, t, s);
        u := t.(agreed := n, cleared := n);
      } else if s.phase == ClearApps {
        ClearedOnward(former, events, e.clear, t, s);
        u := t.(cleared := n);
      } else if s.phase == Confirming {
        GrantedOnward(former, events, e, t, s);
        u := t.(granted := n);
      } else {
        StoredOnward(former, events, t, s);
        u := t.(stored := n);
      }
    }
  }

  lemma EndedIsBacked(former: OldAccount, events: seq<Event>, t: Trail, s: Session)
    requires s.phase == Declined || s.phase == Expired || s.phase == Error
    ensures Backed(former, events, t, s)
  {
  }

  /** Every phase has its history behind it: above all, a device is linked only
      after the site first asked on the device, the wearer's answer was yes and,
      for another account than before, a choice about the apps followed, the site
      granted a whole token, and it was stored, with nothing harmful between. */
  lemma {:induction false} EveryPhaseIsBacked(former: OldAccount, events: seq<Event>) returns (t: Trail)
    ensures Backed(former, events, t, After(former, events))
  {
    hide Backed, Step;
    if events == [] {
      t := Trail(0, 0, 0, 0, 0);
      StartIsBacked(former, t);
    } else {
      var n := |events| - 1;
      t := EveryPhaseIsBacked(former, events[..n]);
      t := Onward(former, events[..n], events[n], t, After(former, events[..n]));
      assert events[..n] + [events[n]] == events;
    }
  }

  lemma StartIsBacked(former: OldAccount, t: Trail)
    ensures Backed(former, [], t, START)
  {
  }

  lemma OverStays(former: OldAccount, s: Session, e: Event)
    requires Over(s.phase)
    ensures var u := Step(former, s, e);
            && Over(u.phase)
            && (s.phase == Linked || s.phase == Declined ==> u == s)
            && (s.phase == Expired || s.phase == Error ==> u.phase == Expired || u.phase == Error)
  {
  }

  /** A linked or declined session stays as it is; an expired or failed one never
      links. */
  lemma {:induction false} OverIsOver(former: OldAccount, events: seq<Event>, more: seq<Event>)
    requires Over(After(former, events).phase)
    ensures var s, u := After(former, events), After(former, events + more);
            && Over(u.phase)
            && (s.phase == Linked || s.phase == Declined ==> u == s)
            && (s.phase == Expired || s.phase == Error ==> u.phase == Expired || u.phase == Error)
  {
    hide Step;
    if more == [] {
      assert events + more == events;
    } else {
      var n := |more| - 1;
      OverIsOver(former, events, more[..n]);
      OverStays(former, After(former, events + more[..n]), more[n]);
      assert (events + more)[..|events| + n] == events + more[..n];
    }
  }

  /** Whether the wearer is asked about the apps: not on a first link, not for the
      same account; by reference when both are known, whatever the names; and by
      name when one is not. */
  lemma AppsAreAskedAbout(former: OldAccount, s: Session)
    requires s.phase == Confirm
    ensures var asked := Step(former, s, Answer(true)).phase == ClearApps;
            && (!asked ==> Step(former, s, Answer(true)).phase == Confirming)
            && (former.ref == [] && former.name == [] ==> !asked)
            && (former.ref == s.accountRef && former.name == s.account ==> !asked)
            && (former.ref != [] && s.accountRef != [] ==> (asked <==> former.ref != s.accountRef))
            && (former.name != [] && (former.ref == [] || s.accountRef == []) ==> (asked <==> former.name != s.account))
            && (former.name == [] && (former.ref == [] || s.accountRef == []) ==> !asked)
  {
  }

  // ---- and a history that goes that way links ----

  /** Events that change nothing, from the a-th up to the b-th. */
  lemma {:induction false} Unmoved(former: OldAccount, events: seq<Event>, a: nat, b: nat)
    requires a <= b <= |events|
    requires forall i :: a <= i < b ==> Step(former, After(former, events[..a]), events[i]) == After(former, events[..a])
    ensures After(former, events[..b]) == After(former, events[..a])
  {
    hide Step;
    if a < b {
      Unmoved(former, events, a, b - 1);
      assert events[..b][..b - 1] == events[..b - 1];
    }
  }

  /** From the a-th event on nothing changes the session up to the b-th, and the
      b-th does this. */
  lemma MovedAt(former: OldAccount, events: seq<Event>, a: nat, b: nat)
    requires a <= b < |events|
    requires forall i :: a <= i < b ==> Step(former, After(former, events[..a]), events[i]) == After(former, events[..a])
    ensures After(former, events[..b]) == After(former, events[..a])
    ensures After(former, events[..b + 1]) == Step(former, After(former, events[..a]), events[b])
  {
    hide Step;
    Unmoved(former, events, a, b);
    assert events[..b + 1][..b] == events[..b];
  }

  lemma AskShows(former: OldAccount, events: seq<Event>, t: Trail)
    requires Asked(events, t) && forall i :: 0 <= i < t.asked ==> Harmless(events[i])
    ensures After(former, events[..t.asked + 1]) == Shown(events, t, Confirm, false)
  {
    hide Changed, After;
    assert After(former, events[..0]) == START by { StartsThere(former); }
    MovedAt(former, events, 0, t.asked);
  }

  lemma AgreeingMoves(former: OldAccount, events: seq<Event>, t: Trail)
    requires Agreed(events, t) && forall i :: 0 <= i < t.agreed ==> Harmless(events[i])
    ensures After(former, events[..t.agreed]) == Shown(events, t, Confirm, false)
    ensures After(former, events[..t.agreed + 1]) ==
              Shown(events, t, if IsAnother(former, events, t) then ClearApps else Confirming, false)
  {
    hide Changed, After;
    AskShows(former, events, t);
    MovedAt(former, events, t.asked + 1, t.agreed);
  }

  lemma ClearingMoves(former: OldAccount, events: seq<Event>, t: Trail, clear: bool)
    requires Decided(former, events, t, clear) && forall i :: 0 <= i < t.cleared ==> Harmless(events[i])
    ensures After(former, events[..t.cleared + 1]) == Shown(events, t, Confirming, clear)
  {
    hide Changed, After;
    AgreeingMoves(former, events, t);
    if IsAnother(former, events, t) { MovedAt(former, events, t.agreed + 1, t.cleared); }
  }

  lemma GrantMoves(former: OldAccount, events: seq<Event>, t: Trail, clear: bool)
    requires Granted(former, events, t, clear)
    ensures After(former, events[..t.granted]) == Shown(events, t, Confirming, clear)
    ensures After(former, events[..t.granted + 1]) == Given(former, events, t, Store, clear)
  {
    hide Changed, After;
    ClearingMoves(former, events, t, clear);
    hide Decided;
    MovedAt(former, events, t.cleared + 1, t.granted);
  }

  /** The first Stored after the grant is the one that counts. */
  lemma StoringMoves(former: OldAccount, events: seq<Event>, t: Trail, clear: bool)
    requires LinkedBy(former, events, t, clear)
    ensures After(former, events[..t.stored + 1]) == Given(former, events, t, Linked, clear)
  {
    hide Granted, After;
    GrantMoves(former, events, t, clear);
    MovedAt(former, events, t.granted + 1, t.stored);
  }

  lemma StartsThere(former: OldAccount)
    ensures After(former, []) == START
  {
  }

  /** A device is linked exactly when its history goes the one way to a link. */
  lemma LinkedExactlyWhen(former: OldAccount, events: seq<Event>)
    ensures After(former, events).phase == Linked <==> exists t, clear :: LinkedBy(former, events, t, clear)
  {
    hide LinkedBy, Granted, After, Step;
    if After(former, events).phase == Linked {
      var t := EveryPhaseIsBacked(former, events);
    }
    forall t, clear | LinkedBy(former, events, t, clear)
      ensures After(former, events).phase == Linked
    {
      LinkedStays(former, events, t, clear);
    }
  }

  lemma LinkedStays(former: OldAccount, events: seq<Event>, t: Trail, clear: bool)
    requires LinkedBy(former, events, t, clear)
    ensures After(former, events) == Given(former, events, t, Linked, clear)
  {
    hide After, Step, Changed;
    StoringMoves(former, events, t, clear);
    OverIsOver(former, events[..t.stored + 1], events[t.stored + 1..]);
    assert events[..t.stored + 1] + events[t.stored + 1..] == events;
  }

  /** When a device is linked, the session showed the account of the first ask as
      the wearer agreed, and the choice about the apps was made for that one; the
      account linked is the same exactly when the grant names it. */
  lemma LinkedAsConfirmedExactlyWhen(former: OldAccount, events: seq<Event>) returns (t: Trail)
    requires After(former, events).phase == Linked
    ensures var s := After(former, events);
            && LinkedBy(former, events, t, s.clearApps)
            && s == Given(former, events, t, Linked, s.clearApps)
    ensures var s, shown, grant := After(former, events), After(former, events[..t.agreed]), events[t.granted];
            && shown == Shown(events, t, Confirm, false)
            && (s.account == shown.account && s.accountRef == shown.accountRef <==>
                  grant.account == shown.account && grant.accountRef == shown.accountRef)
  {
    hide After, Step, Changed;
    t := EveryPhaseIsBacked(former, events);
    AgreeingMoves(former, events, t);
  }

  /** Whatever was confirmed, a grant may name another account: after any history
      that waits for one, a grant with a whole token links the account it names,
      and the choice about the apps stands. */
  lemma GrantMayNameAnother(former: OldAccount, events: seq<Event>, other: Text, ref: Text, token: Text)
    requires After(former, events).phase == Confirming && |token| == TOKEN_LENGTH
    ensures var s := After(former, events);
            var linked := After(former, events + [Reply(Grant, other, token, 0, ref)] + [Stored]);
            && linked.phase == Linked && linked.account == other && linked.accountRef == ref
            && linked.clearApps == s.clearApps
  {
    hide After;
    OneMoreEvent(former, events, Reply(Grant, other, token, 0, ref));
    OneMoreEvent(former, events + [Reply(Grant, other, token, 0, ref)], Stored);
  }

  /** The site asks about "a", the wearer agrees to "a", and "b" is linked. */
  lemma AnotherThanAgreedIsLinked(token: Text)
    requires |token| == TOKEN_LENGTH
    ensures var former := OldAccount([], []);
            var asked := [Reply(ConfirmOnDevice, [97], [], 0, [97])];
            var agreed := asked + [Answer(true)];
            var events := agreed + [Reply(Grant, [98], token, 0, [98])] + [Stored];
            && After(former, asked).phase == Confirm && After(former, asked).account == [97]
            && After(former, agreed).phase == Confirming
            && After(former, events).phase == Linked && After(former, events).account == [98]
  {
    var former := OldAccount([], []);
    var ask := Reply(ConfirmOnDevice, [97], [], 0, [97]);
    StartsThere(former);
    OneMoreEvent(former, [], ask);
    assert [] + [ask] == [ask];
    OneMoreEvent(former, [ask], Answer(true));
    hide After;
    GrantMayNameAnother(former, [ask] + [Answer(true)], [98], [98], token);
  }

  lemma OneMoreEvent(former: OldAccount, events: seq<Event>, e: Event)
    ensures After(former, events + [e]) == Step(former, After(former, events), e)
  {
    assert (events + [e])[..|events|] == events;
  }

  /** The running session. */
  class PairSession {
    const former: OldAccount
    var phase: Phase
    var account: Text
    var accountRef: Text
    var token: Text
    var linkTime: U32
    var clearApps: bool

    ghost function Value(): Session
      reads this
    {
      Session(phase, account, accountRef, token, linkTime, clearApps)
    }

    constructor (former: OldAccount)
      ensures this.former == former && Value() == START
    {
      this.former := former;
      phase, account, accountRef, token, linkTime, clearApps := Waiting, [], [], [], 0, false;
    }

    method OnReply(status: Status, name: Text, granted: Text, serverTime: U32, ref: Text)
      modifies this
      ensures Value() == Step(former, old(Value()), Reply(status, name, granted, serverTime, ref))
    {
      if phase == Linked || phase == Declined || phase == Expired || phase == Error { return; }
      if status == Pending || status == SlowDown { return; }
      if status == ConfirmOnDevice {
        if phase == Waiting {
          account, accountRef, linkTime, phase := name, ref, serverTime, Confirm;
        }
        return;
      }
      if status == Denied { phase := Declined; return; }
      if status == ExpiredToken { phase := Expired; return; }
      if status == Grant && phase == Confirming && |granted| == TOKEN_LENGTH {
        account, accountRef, token := name, ref, granted;
        if serverTime != 0 { linkTime := serverTime; }
        phase := Store;
        return;
      }
      phase := Error;
    }

    method OnAnswer(accept: bool)
      modifies this
      ensures Value() == Step(former, old(Value()), Answer(accept))
    {
      if phase != Confirm { return; }
      if !accept { phase := Declined; return; }
      var changed := if former.ref != [] && accountRef != [] then former.ref != accountRef
                     else former.name != [] && former.name != account;
      phase := if changed then ClearApps else Confirming;
    }

    method OnClear(clear: bool)
      modifies this
      ensures Value() == Step(former, old(Value()), Clear(clear))
    {
      if phase != ClearApps { return; }
      clearApps, phase := clear, Confirming;
    }

    method OnExpire()
      modifies this
      ensures Value() == Step(former, old(Value()), Expire)
    {
      if phase != Linked && phase != Declined { phase := Expired; }
    }

    method OnStored()
      modifies this
      ensures Value() == Step(former, old(Value()), Stored)
    {
      if phase == Store { phase := Linked; }
    }
  }
}
