/** The stored link to an account and the revokes still to be sent for earlier
    links (lib/CloudSync/LinkSession.cpp). A credential is committed while it is
    the active token with its marker set, the held token, or in one of the two
    revoke slots. */
module LinkStore {
  import opened Common
  import opened Storage

  // The store's key names: "ok", "tok", "acct", "aref", "at", "id", "fid",
  // "ser", "unlk", "rev_tok"/"rev_tok2", "rev_rel"/"rev_rel2",
  // "rev_at"/"rev_at2", "rev_fail"/"rev_fail2", "rev_hold", "rev_hrel",
  // "prev_aref", "prev_acct".
  datatype Key =
    | Marker
    | Token
    | Account
    | AccountRef
    | LinkedAt
    | DeviceId
    | FlashId
    | Serial
    | Unlinking
    | SlotToken(second: bool)
    | SlotRelinked(second: bool)
    | SlotRetryAt(second: bool)
    | SlotFailed(second: bool)
    | HeldToken
    | HeldRelinked
    | PriorAccountRef
    | PriorAccount

  type Store = map<Key, Value>

  datatype Link = Link(token: Text, account: Text, accountRef: Text, id: Text, flashId: Text, serial: Text, at: U32)

  function GetText(m: Store, k: Key): Text {
    if k in m && m[k].Str? then m[k].text else []
  }

  function GetNumber(m: Store, k: Key): U32 {
    if k in m && m[k].Num? then m[k].n else 0
  }

  function GetFlag(m: Store, k: Key): bool {
    k in m && m[k].Flag? && m[k].b
  }

  /** A run of the device's code over the store: the data, the outcomes of the
      coming writes, and whether everything so far succeeded. */
  datatype Run = Run(data: Store, power: seq<bool>, ok: bool)

  function Try(r: Run, w: Write<Key>): Run {
    if !r.ok then r
    else if Lands(r.power, 0) then Run(Written(r.data, w), Rest(r.power, 1), true)
    else Run(r.data, Rest(r.power, 1), false)
  }

  // ---- reading ----

  function ReadLink(m: Store): (r: Option<Link>)
    ensures r.Some? ==> r.value.token != []
  {
    if !GetFlag(m, Marker) || GetFlag(m, Unlinking) || GetText(m, Token) == [] then None
    else Some(Link(GetText(m, Token), GetText(m, Account), GetText(m, AccountRef), GetText(m, DeviceId),
                   GetText(m, FlashId), GetText(m, Serial), GetNumber(m, LinkedAt)))
  }

  predicate SlotsFull(m: Store) {
    GetText(m, SlotToken(false)) != [] && GetText(m, SlotToken(true)) != []
  }

  predicate InSlot(m: Store, token: Text) {
    token == GetText(m, SlotToken(false)) || token == GetText(m, SlotToken(true))
  }

  function CanBeginLink(m: Store): bool {
    var held := GetText(m, HeldToken);
    var used := (if GetText(m, SlotToken(false)) == [] then 0 else 1) + (if GetText(m, SlotToken(true)) == [] then 0 else 1);
    (if held != [] && !InSlot(m, held) then used + 1 else used) < 2
  }

  // ---- the operations ----

  function PutOrDel(k: Key, text: Text): Write<Key> {
    if text == [] then Del(k) else Put(k, Str(text))
  }

  function DropLink(r: Run): Run {
    Try(Try(r, Del(Marker)), Del(Token))
  }

  function FillSlot(r: Run, second: bool, relinked: bool, token: Text): Run {
    var r1 := Try(r, Del(SlotFailed(second)));
    var r2 := Try(r1, Del(SlotRetryAt(second)));
    var r3 := Try(r2, Put(SlotRelinked(second), Flag(relinked)));
    Try(r3, Put(SlotToken(second), Str(token)))
  }

  function ClearHeld(r: Run): Run {
    Try(Try(Try(r, Del(HeldToken)), Del(HeldRelinked)), Del(Unlinking))
  }

  /** Moves a held token into a revoke slot. */
  function Recover(r: Run): Run {
    var held := GetText(r.data, HeldToken);
    if !r.ok || held == [] then r
    else
      var dropped := DropLink(r);
      if InSlot(r.data, held) then ClearHeld(dropped)
      else if SlotsFull(r.data) then dropped.(ok := false)
      else
        var second := GetText(r.data, SlotToken(false)) != [];
        ClearHeld(FillSlot(dropped, second, GetFlag(r.data, HeldRelinked), held))
  }

  function Remember(r: Run, link: Link): Run {
    Try(Try(r, PutOrDel(PriorAccountRef, link.accountRef)), PutOrDel(PriorAccount, link.account))
  }

  function Stage(r: Run, token: Text, relinked: bool): Run {
    Try(Try(r, Put(HeldRelinked, Flag(relinked))), Put(HeldToken, Str(token)))
  }

  function FieldWrites(next: Link): (ws: seq<Write<Key>>)
    ensures |ws| == 6
  {
    [PutOrDel(Account, next.account), PutOrDel(AccountRef, next.accountRef), Put(LinkedAt, Num(next.at)),
     PutOrDel(DeviceId, next.id), PutOrDel(FlashId, next.flashId), PutOrDel(Serial, next.serial)]
  }

  /** All six fields are tried, whatever fails. */
  function WriteFields(r: Run, next: Link): Run {
    if !r.ok then r
    else Run(Tried(r.data, FieldWrites(next), r.power), Rest(r.power, 6), AllLand(r.power, 6))
  }

  function Commit(r: Run, next: Link): Run {
    Try(Try(r, Put(Token, Str(next.token))), Put(Marker, Flag(true)))
  }

  function WriteLink(r: Run, next: Link): Run {
    var recovered := Recover(r);
    if !r.ok || next.token == [] then r.(ok := false)
    else if !recovered.ok then recovered
    else
      var prior := ReadLink(recovered.data);
      if prior.Some? && prior.value.token == next.token then recovered
      else if prior.Some? && SlotsFull(recovered.data) then recovered.(ok := false)
      else
        var staged := if prior.None? then recovered
                      else Stage(Remember(recovered, prior.value), prior.value.token, true);
        Commit(WriteFields(Recover(DropLink(staged)), next), next)
  }

  function PrepareUnlink(r: Run): Run {
    var recovered := Recover(r);
    if !recovered.ok then recovered
    else
      var prior := ReadLink(recovered.data);
      var active := GetText(recovered.data, Token);
      if active != [] && SlotsFull(recovered.data) then recovered.(ok := false)
      else
        var remembered := if prior.None? then recovered else Remember(recovered, prior.value);
        var marked := Try(remembered, Put(Unlinking, Flag(true)));
        var staged := if active == [] then marked else Stage(marked, active, false);
        Try(Recover(DropLink(staged)), Del(Unlinking))
  }

  predicate RevokeIsFinal(status: int) {
    status == 200 || (400 <= status < 500 && status != 408 && status != 429)
  }

  function FinishRevoke(r: Run, status: int, second: bool): Run {
    if !RevokeIsFinal(status) then r.(ok := false)
    else
      var dropped := Try(Try(r, Del(SlotToken(second))), Del(SlotRelinked(second)));
      Try(Try(dropped, Del(SlotRetryAt(second))), Del(SlotFailed(second)))
  }

  function ForgottenWrites(): (ws: seq<Write<Key>>)
    ensures |ws| == 5
  {
    [Del(Marker), Del(Token), Del(Account), Del(AccountRef), Del(LinkedAt)]
  }

  /** What a boot does before any session uses the link: finish a held revoke,
      resume a half-done unlink, and clear a link that is not whole. */
  function Boot(r: Run): Run {
    var recovered := Recover(r);
    var resumed := if recovered.ok && GetFlag(recovered.data, Unlinking) then PrepareUnlink(recovered) else recovered;
    if !resumed.ok || (GetFlag(resumed.data, Marker) && GetText(resumed.data, Token) != []) then resumed
    else Run(Tried(resumed.data, ForgottenWrites(), resumed.power), Rest(resumed.power, 5), true)
  }

  // ---- what must never be lost ----

  datatype Slot = Slot(token: Text, retryAt: bool, failed: bool, relinked: bool)

  /** The part of the store that credentials depend on. */
  datatype View = View(marker: bool, token: Text, held: Text, heldRelinked: bool, unlinking: bool, first: Slot, second: Slot)
  {
    function At(s: bool): Slot {
      if s then second else first
    }

    function With(s: bool, slot: Slot): View {
      if s then this.(second := slot) else this.(first := slot)
    }

    predicate InSlot(t: Text) {
      t == first.token || t == second.token
    }

    /** t is the active token, held, or in a revoke slot. */
    predicate Committed(t: Text) {
      t == held || InSlot(t) || (marker && t == token)
    }

    predicate SlotFree() {
      first.token == [] || second.token == []
    }

    /** Held and active both present means they are the same token; a held token
        has a slot to go to, and so has the token of a half-done unlink. */
    predicate Sound() {
      && (held != [] ==> (token != [] ==> token == held) && (InSlot(held) || SlotFree()))
      && (held == [] && unlinking && token != [] ==> SlotFree())
    }
  }

  function SlotOf(m: Store, s: bool): Slot {
    Slot(GetText(m, SlotToken(s)), SlotRetryAt(s) in m, SlotFailed(s) in m, GetFlag(m, SlotRelinked(s)))
  }

  function ViewOf(m: Store): View {
    View(GetFlag(m, Marker), GetText(m, Token), GetText(m, HeldToken), GetFlag(m, HeldRelinked),
         GetFlag(m, Unlinking), SlotOf(m, false), SlotOf(m, true))
  }

  ghost predicate Sound(m: Store) {
    ViewOf(m).Sound()
  }

  /** Every credential committed in v is committed in w. */
  ghost predicate NothingLost(v: View, w: View) {
    && (v.held != [] ==> w.Committed(v.held))
    && (v.first.token != [] ==> w.Committed(v.first.token))
    && (v.second.token != [] ==> w.Committed(v.second.token))
    && (v.marker && v.token != [] ==> w.Committed(v.token))
  }

  /** A slot whose token is new carries nothing of the token that was there before. */
  ghost predicate FreshSlot(x: Slot, y: Slot) {
    && (y.token != x.token ==> y.token != [] && !y.retryAt && !y.failed)
    && (y.retryAt ==> x.retryAt)
    && (y.failed ==> x.failed)
  }

  ghost predicate Keeps(v: View, w: View) {
    w.Sound() && NothingLost(v, w) && FreshSlot(v.first, w.first) && FreshSlot(v.second, w.second)
  }

  lemma NothingLostMeans(v: View, w: View, t: Text)
    requires NothingLost(v, w) && t != [] && v.Committed(t)
    ensures w.Committed(t)
  {
  }

  lemma KeepsTransitive(u: View, v: View, w: View)
    requires Keeps(u, v) && Keeps(v, w)
    ensures Keeps(u, w)
  {
  }

  // ---- what one write does to the view ----

  function TextIn(w: Write<Key>): Text {
    if w.Put? && w.value.Str? then w.value.text else []
  }

  predicate FlagIn(w: Write<Key>) {
    w.Put? && w.value.Flag? && w.value.b
  }

  lemma WrittenReads(m: Store, w: Write<Key>, k: Key)
    ensures GetText(Written(m, w), k) == if k == w.key then TextIn(w) else GetText(m, k)
    ensures GetFlag(Written(m, w), k) == if k == w.key then FlagIn(w) else GetFlag(m, k)
    ensures k in Written(m, w) <==> if k == w.key then w.Put? else k in m
  {
  }

  function SlotEffect(x: Slot, w: Write<Key>, s: bool): Slot {
    Slot(if w.key == SlotToken(s) then TextIn(w) else x.token,
         if w.key == SlotRetryAt(s) then w.Put? else x.retryAt,
         if w.key == SlotFailed(s) then w.Put? else x.failed,
         if w.key == SlotRelinked(s) then FlagIn(w) else x.relinked)
  }

  function Effect(v: View, w: Write<Key>): View {
    View(if w.key == Marker then FlagIn(w) else v.marker,
         if w.key == Token then TextIn(w) else v.token,
         if w.key == HeldToken then TextIn(w) else v.held,
         if w.key == HeldRelinked then FlagIn(w) else v.heldRelinked,
         if w.key == Unlinking then FlagIn(w) else v.unlinking,
         SlotEffect(v.first, w, false), SlotEffect(v.second, w, true))
  }

  lemma WrittenSlot(m: Store, w: Write<Key>, s: bool)
    ensures SlotOf(Written(m, w), s) == SlotEffect(SlotOf(m, s), w, s)
  {
    hide Written, GetText, GetFlag, TextIn, FlagIn;
    WrittenReads(m, w, SlotToken(s));
    WrittenReads(m, w, SlotRelinked(s));
    WrittenReads(m, w, SlotRetryAt(s));
    WrittenReads(m, w, SlotFailed(s));
  }

  lemma WrittenView(m: Store, w: Write<Key>)
    ensures ViewOf(Written(m, w)) == Effect(ViewOf(m), w)
  {
    hide Written, GetText, GetFlag, TextIn, FlagIn, SlotOf, SlotEffect;
    WrittenReads(m, w, Marker);
    WrittenReads(m, w, Token);
    WrittenReads(m, w, HeldToken);
    WrittenReads(m, w, HeldRelinked);
    WrittenReads(m, w, Unlinking);
    WrittenSlot(m, w, false);
    WrittenSlot(m, w, true);
  }

  lemma TryView(r: Run, w: Write<Key>)
    ensures var n := Try(r, w);
            && (n.ok ==> r.ok) && (!r.ok ==> n == r) && (!n.ok ==> n.data == r.data)
            && ViewOf(n.data) == if n.ok then Effect(ViewOf(r.data), w) else ViewOf(r.data)
  {
    hide Written, ViewOf, Effect;
    WrittenView(r.data, w);
  }

  // ---- each group of writes, wherever it is cut ----

  lemma DropLinkView(r: Run)
    ensures var n := DropLink(r); var v := ViewOf(r.data); var w := ViewOf(n.data);
            && (w == v || w == v.(marker := false) || w == v.(marker := false, token := []))
            && (n.ok ==> r.ok && w == v.(marker := false, token := [])) && (!r.ok ==> n == r)
            && (n.data == r.data || !w.marker)
  {
    hide ViewOf, Try;
    TryView(r, Del(Marker));
    TryView(Try(r, Del(Marker)), Del(Token));
  }

  lemma TrySlot(r: Run, w: Write<Key>, s: bool)
    requires w.key in {SlotToken(s), SlotRetryAt(s), SlotFailed(s), SlotRelinked(s)}
    ensures var n := Try(r, w); var v := ViewOf(r.data);
            && (n.ok ==> r.ok) && (!r.ok ==> n == r)
            && ViewOf(n.data) == if n.ok then v.With(s, SlotEffect(v.At(s), w, s)) else v
  {
    hide ViewOf, Try;
    TryView(r, w);
  }

  lemma FillSlotView(r: Run, s: bool, relinked: bool, token: Text)
    ensures var n := FillSlot(r, s, relinked, token); var v := ViewOf(r.data); var w := ViewOf(n.data);
            && w == v.With(s, w.At(s))
            && (w.At(s) == Slot(token, false, false, relinked)
                || (!n.ok && w.At(s).token == v.At(s).token
                    && (w.At(s).failed ==> v.At(s).failed) && (w.At(s).retryAt ==> v.At(s).retryAt)))
            && (n.ok ==> r.ok && w.At(s) == Slot(token, false, false, relinked)) && (!r.ok ==> n == r)
  {
    hide ViewOf, Try;
    var r1 := Try(r, Del(SlotFailed(s)));
    var r2 := Try(r1, Del(SlotRetryAt(s)));
    var r3 := Try(r2, Put(SlotRelinked(s), Flag(relinked)));
    TrySlot(r, Del(SlotFailed(s)), s);
    TrySlot(r1, Del(SlotRetryAt(s)), s);
    TrySlot(r2, Put(SlotRelinked(s), Flag(relinked)), s);
    TrySlot(r3, Put(SlotToken(s), Str(token)), s);
  }

  lemma ClearHeldView(r: Run)
    ensures var n := ClearHeld(r); var v := ViewOf(r.data); var w := ViewOf(n.data);
            && (w == v || w == v.(held := []) || w == v.(held := [], heldRelinked := false)
                || w == v.(held := [], heldRelinked := false, unlinking := false))
            && (n.ok ==> r.ok && w == v.(held := [], heldRelinked := false, unlinking := false))
            && (!r.ok ==> n == r)
  {
    hide ViewOf, Try;
    var r1 := Try(r, Del(HeldToken));
    TryView(r, Del(HeldToken));
    TryView(r1, Del(HeldRelinked));
    TryView(Try(r1, Del(HeldRelinked)), Del(Unlinking));
  }

  // ---- a held token reaches its slot ----

  /** Pure view facts behind the recovery of a held token. */
  lemma DroppingLinkKeeps(v: View, w: View)
    requires v.Sound() && v.held != []
    requires w == v || w == v.(marker := false) || w == v.(marker := false, token := [])
    ensures Keeps(v, w) && w.Sound()
  {
  }

  lemma FillingSlotKeeps(v: View, w: View, s: bool, relinked: bool)
    requires v.Sound() && v.held != [] && v.At(s).token == [] && w == v.With(s, w.At(s))
    requires w.At(s) == Slot(v.held, false, false, relinked)
             || (w.At(s).token == [] && (w.At(s).failed ==> v.At(s).failed) && (w.At(s).retryAt ==> v.At(s).retryAt))
    ensures Keeps(v, w) && w.Sound()
  {
  }

  lemma ClearingHeldKeeps(v: View, w: View)
    requires v.Sound() && v.InSlot(v.held) && v.token == []
    requires w.held == [] || w.held == v.held
    requires w == v.(held := w.held, heldRelinked := w.heldRelinked, unlinking := w.unlinking)
    ensures Keeps(v, w) && w.Sound()
  {
  }

  /** What recovery promises about the stores before and after it. */
  ghost predicate Recovered(v: View, w: View, ok: bool) {
    && Keeps(v, w)
    && (ok ==> w.held == [])
    && (ok && v.held != [] ==> !w.marker && w.token == [] && !w.unlinking)
    && (w.marker ==> v.marker) && (w.unlinking ==> v.unlinking)
    && (forall s :: w.At(s).token != v.At(s).token ==>
          v.At(s).token == [] && v.held != [] && w.At(s) == Slot(v.held, false, false, v.heldRelinked))
    && (forall s :: w.At(s).token == v.At(s).token != [] ==> w.At(s) == v.At(s))
    && (w.held != [] ==> w.held == v.held && w.heldRelinked == v.heldRelinked)
  }

  lemma AlreadyInSlot(r: Run)
    requires Sound(r.data) && r.ok && ViewOf(r.data).held != [] && ViewOf(r.data).InSlot(ViewOf(r.data).held)
    ensures var n := ClearHeld(DropLink(r)); Recovered(ViewOf(r.data), ViewOf(n.data), n.ok)
  {
    hide Keeps, ViewOf, DropLink, ClearHeld;
    var v, d := ViewOf(r.data), ViewOf(DropLink(r).data);
    DropLinkView(r);
    DroppingLinkKeeps(v, d);
    ClearHeldView(DropLink(r));
    if DropLink(r).ok {
      ClearingHeldKeeps(d, ViewOf(ClearHeld(DropLink(r)).data));
      KeepsTransitive(v, d, ViewOf(ClearHeld(DropLink(r)).data));
    }
  }

  lemma DroppedAndFilled(r: Run, s: bool)
    requires var v := ViewOf(r.data); v.Sound() && r.ok && v.held != [] && v.At(s).token == []
    ensures var v := ViewOf(r.data); var filled := FillSlot(DropLink(r), s, v.heldRelinked, v.held);
            var f := ViewOf(filled.data);
            && Keeps(v, f) && f.Sound()
            && f == v.(marker := f.marker, token := f.token).With(s, f.At(s))
            && (f.marker ==> v.marker)
            && (f.At(s).token == [] || f.At(s) == Slot(v.held, false, false, v.heldRelinked))
            && (filled.ok ==> !f.marker && f.token == [] && f.At(s).token == v.held)
  {
    hide Keeps, ViewOf, DropLink, FillSlot;
    var v := ViewOf(r.data);
    var dropped := DropLink(r);
    var d := ViewOf(dropped.data);
    DropLinkView(r);
    DroppingLinkKeeps(v, d);
    var f := ViewOf(FillSlot(dropped, s, v.heldRelinked, v.held).data);
    FillSlotView(dropped, s, v.heldRelinked, v.held);
    FillingSlotKeeps(d, f, s, v.heldRelinked);
    KeepsTransitive(v, d, f);
  }

  lemma IntoFreeSlot(r: Run, s: bool)
    requires var v := ViewOf(r.data); v.Sound() && r.ok && v.held != [] && v.At(s).token == []
    ensures var v := ViewOf(r.data); var n := ClearHeld(FillSlot(DropLink(r), s, v.heldRelinked, v.held));
            Recovered(v, ViewOf(n.data), n.ok)
  {
    hide Keeps, ViewOf, DropLink, ClearHeld, FillSlot;
    var v := ViewOf(r.data);
    var filled := FillSlot(DropLink(r), s, v.heldRelinked, v.held);
    var f := ViewOf(filled.data);
    DroppedAndFilled(r, s);
    ClearHeldView(filled);
    if filled.ok {
      ClearingHeldKeeps(f, ViewOf(ClearHeld(filled).data));
      KeepsTransitive(v, f, ViewOf(ClearHeld(filled).data));
    }
  }

  /** Recovery, cut off anywhere: nothing committed is lost, a slot is filled
      only with the held token and its flag, and afterwards nothing is held. */
  lemma RecoverKeeps(r: Run)
    requires Sound(r.data)
    ensures var n := Recover(r);
            && Recovered(ViewOf(r.data), ViewOf(n.data), n.ok)
            && (n.ok ==> r.ok)
            && (ViewOf(r.data).held == [] ==> n == r)
            && (n.data == r.data || !ViewOf(n.data).marker)
  {
    hide ViewOf, DropLink, ClearHeld, FillSlot, Recovered;
    var v := ViewOf(r.data);
    Reading(r.data);
    if r.ok && v.held != [] {
      RecoverDropsFirst(r);
      if v.InSlot(v.held) {
        AlreadyInSlot(r);
      } else if v.At(v.first.token != []).token == [] {
        IntoFreeSlot(r, v.first.token != []);
      }
    } else {
      NothingToRecover(v);
    }
  }

  lemma NothingToRecover(v: View)
    requires v.Sound()
    ensures Recovered(v, v, false) && (v.held == [] ==> Recovered(v, v, true))
  {
  }

  /** The marker goes before anything else changes. */
  lemma RecoverDropsFirst(r: Run)
    requires r.ok
    ensures var d := DropLink(r); var n := Recover(r);
            && (d.data == r.data || !ViewOf(d.data).marker)
            && (n.data == r.data || !ViewOf(n.data).marker)
            && (n.ok ==> r.ok)
  {
    hide ViewOf, DropLink, ClearHeld, FillSlot;
    Reading(r.data);
    var held, d := GetText(r.data, HeldToken), DropLink(r);
    DropLinkView(r);
    ClearHeldView(d);
    var s, relinked := GetText(r.data, SlotToken(false)) != [], GetFlag(r.data, HeldRelinked);
    FillSlotView(d, s, relinked, held);
    ClearHeldView(FillSlot(d, s, relinked, held));
  }

  lemma Reading(m: Store)
    ensures var v := ViewOf(m);
            && GetText(m, HeldToken) == v.held && GetText(m, Token) == v.token
            && GetFlag(m, Marker) == v.marker && GetFlag(m, Unlinking) == v.unlinking
            && GetFlag(m, HeldRelinked) == v.heldRelinked
            && (forall s :: GetText(m, SlotToken(s)) == v.At(s).token)
            && (forall t :: InSlot(m, t) <==> v.InSlot(t))
            && (SlotsFull(m) <==> v.first.token != [] && v.second.token != [])
            && (ReadLink(m).Some? <==> v.marker && !v.unlinking && v.token != [])
            && (ReadLink(m).Some? ==> ReadLink(m).value.token == v.token)
  {
  }
}
