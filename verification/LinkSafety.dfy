/** What linking, unlinking and booting keep, wherever they are cut off. */
module LinkSafety {
  import opened Common
  import opened Storage
  import opened LinkStore

  // ---- the pieces of a replacement ----

  lemma RememberView(r: Run, link: Link)
    ensures var n := Remember(r, link);
            && ViewOf(n.data) == ViewOf(r.data)
            && (ReadLink(n.data) == ReadLink(r.data))
            && (n.ok ==> r.ok)
  {
    hide ViewOf, Try, ReadLink;
    var w1, w2 := PutOrDel(PriorAccountRef, link.accountRef), PutOrDel(PriorAccount, link.account);
    TryView(r, w1);
    TryView(Try(r, w1), w2);
    TryLink(r, w1);
    TryLink(Try(r, w1), w2);
  }

  /** A write to none of the link's keys leaves the link as it reads. */
  lemma TryLink(r: Run, w: Write<Key>)
    requires w.key in {PriorAccountRef, PriorAccount, HeldRelinked, HeldToken}
    ensures ReadLink(Try(r, w).data) == ReadLink(r.data)
  {
    hide GetText, GetFlag, GetNumber, Written;
    if r.ok && Lands(r.power, 0) {
      forall k | k != w.key
        ensures GetText(Written(r.data, w), k) == GetText(r.data, k)
        ensures GetFlag(Written(r.data, w), k) == GetFlag(r.data, k)
        ensures GetNumber(Written(r.data, w), k) == GetNumber(r.data, k)
      {
        WrittenReads(r.data, w, k);
        WrittenNumber(r.data, w, k);
      }
    }
  }

  lemma WrittenNumber(m: Store, w: Write<Key>, k: Key)
    requires k != w.key
    ensures GetNumber(Written(m, w), k) == GetNumber(m, k)
  {
  }

  lemma StageView(r: Run, token: Text, relinked: bool)
    ensures var n := Stage(r, token, relinked); var v := ViewOf(r.data); var w := ViewOf(n.data);
            && (w == v || w == v.(heldRelinked := relinked) || w == v.(heldRelinked := relinked, held := token))
            && (n.ok ==> r.ok && w == v.(heldRelinked := relinked, held := token))
            && (!r.ok ==> n == r)
            && ReadLink(n.data) == ReadLink(r.data)
  {
    hide ViewOf, Try, ReadLink;
    var r1 := Try(r, Put(HeldRelinked, Flag(relinked)));
    TryView(r, Put(HeldRelinked, Flag(relinked)));
    TryLink(r, Put(HeldRelinked, Flag(relinked)));
    TryView(r1, Put(HeldToken, Str(token)));
    TryLink(r1, Put(HeldToken, Str(token)));
  }

  ghost predicate FieldKey(k: Key) {
    k in {Account, AccountRef, LinkedAt, DeviceId, FlashId, Serial}
  }

  lemma FieldsElsewhere(r: Run, next: Link, k: Key)
    requires !FieldKey(k)
    ensures var n := WriteFields(r, next);
            (k in n.data <==> k in r.data) && (k in r.data ==> n.data[k] == r.data[k])
  {
    if r.ok { TriedElsewhere(r.data, FieldWrites(next), r.power, k); }
  }

  lemma FieldsView(r: Run, next: Link)
    ensures ViewOf(WriteFields(r, next).data) == ViewOf(r.data)
  {
    hide WriteFields;
    forall k: Key | !FieldKey(k)
      ensures var n := WriteFields(r, next);
              (k in n.data <==> k in r.data) && (k in r.data ==> n.data[k] == r.data[k])
    {
      FieldsElsewhere(r, next, k);
    }
  }

  /** The store shows every field of the link but its token. */
  ghost predicate ShowsFields(m: Store, next: Link) {
    && GetText(m, Account) == next.account && GetText(m, AccountRef) == next.accountRef
    && GetText(m, DeviceId) == next.id && GetText(m, FlashId) == next.flashId
    && GetText(m, Serial) == next.serial && GetNumber(m, LinkedAt) == next.at
  }

  lemma FieldsReadBack(r: Run, next: Link)
    requires WriteFields(r, next).ok
    ensures r.ok && ShowsFields(WriteFields(r, next).data, next)
  {
    hide Tried;
    var ws := FieldWrites(next);
    forall i | 0 <= i < 6
      ensures Shows(Tried(r.data, ws, r.power), ws[i])
    {
      LastWriteShows(r.data, ws, r.power, i);
    }
    assert Shows(WriteFields(r, next).data, ws[0]);
    assert Shows(WriteFields(r, next).data, ws[1]);
    assert Shows(WriteFields(r, next).data, ws[2]);
    assert Shows(WriteFields(r, next).data, ws[3]);
    assert Shows(WriteFields(r, next).data, ws[4]);
    assert Shows(WriteFields(r, next).data, ws[5]);
  }

  lemma CommitView(r: Run, next: Link)
    ensures var n := Commit(r, next); var v := ViewOf(r.data); var w := ViewOf(n.data);
            && (w == v || w == v.(token := next.token) || w == v.(token := next.token, marker := true))
            && (n.ok ==> r.ok && w == v.(token := next.token, marker := true))
            && (!n.ok ==> w.marker == v.marker)
            && (!r.ok ==> n == r)
  {
    hide ViewOf, Try;
    var r1 := Try(r, Put(Token, Str(next.token)));
    TryView(r, Put(Token, Str(next.token)));
    TryView(r1, Put(Marker, Flag(true)));
  }

  lemma CommitFields(r: Run, next: Link)
    requires ShowsFields(r.data, next)
    ensures ShowsFields(Commit(r, next).data, next)
  {
  }

  // ---- replacing a link ----

  lemma DroppingDeadLinkKeeps(v: View, w: View)
    requires v.Sound() && v.held == [] && (v.marker ==> v.token == [])
    requires w == v || w == v.(marker := false) || w == v.(marker := false, token := [])
    ensures Keeps(v, w) && w.Sound()
  {
  }

  lemma StagingKeeps(v: View, w: View, relinked: bool)
    requires v.Sound() && v.held == [] && (v.token == [] || v.SlotFree())
    requires w == v || w == v.(heldRelinked := relinked) || w == v.(heldRelinked := relinked, held := v.token)
    ensures Keeps(v, w) && w.Sound()
  {
  }

  lemma CommittingKeeps(v: View, w: View, token: Text)
    requires v.held == [] && !v.marker && !v.unlinking
    requires w == v || w == v.(token := token) || w == v.(token := token, marker := true)
    ensures Keeps(v, w)
  {
  }

  lemma KeepsItself(v: View)
    requires v.Sound()
    ensures Keeps(v, v)
  {
  }

  /** The first half of a replacement: the prior link, if any, is staged, its
      marker and token are removed, and the held token moves to a slot. */
  function Cleared(r: Run, prior: Option<Link>): Run {
    var staged := if prior.None? then r else Stage(Remember(r, prior.value), prior.value.token, true);
    Recover(DropLink(staged))
  }

  /** What clearing promises: nothing lost, and the link reads as before or not at all. */
  ghost predicate ClearedWell(r: Run, n: Run) {
    var v, w := ViewOf(r.data), ViewOf(n.data);
    && Keeps(v, w)
    && (ReadLink(n.data) == ReadLink(r.data) || !w.marker)
    && (n.ok ==> r.ok && !w.marker && w.held == [])
    && (w.unlinking ==> v.unlinking)
  }

  lemma DropAndRecover(r: Run)
    requires r.ok && Sound(r.data)
    requires ViewOf(r.data).marker ==> ViewOf(r.data).held != [] || ViewOf(r.data).token == []
    ensures ClearedWell(r, Recover(DropLink(r)))
  {
    hide Keeps, ViewOf, DropLink, Recover, ReadLink;
    var v := ViewOf(r.data);
    var d := DropLink(r);
    DropLinkView(r);
    if v.held == [] { DroppingDeadLinkKeeps(v, ViewOf(d.data)); } else { DroppingLinkKeeps(v, ViewOf(d.data)); }
    RecoverKeeps(d);
    KeepsTransitive(v, ViewOf(d.data), ViewOf(Recover(d).data));
  }

  lemma ClearingKeeps(r: Run)
    requires r.ok && Sound(r.data) && ViewOf(r.data).held == [] && !ViewOf(r.data).unlinking
    requires ReadLink(r.data).Some? ==> !SlotsFull(r.data)
    ensures ClearedWell(r, Cleared(r, ReadLink(r.data)))
  {
    hide Keeps, ViewOf, DropLink, Recover, ReadLink, SlotsFull, Remember, Stage;
    var v := ViewOf(r.data);
    Reading(r.data);
    var prior := ReadLink(r.data);
    if prior.None? {
      DropAndRecover(r);
    } else {
      var r1 := Remember(r, prior.value);
      RememberView(r, prior.value);
      var r2 := Stage(r1, prior.value.token, true);
      StageView(r1, prior.value.token, true);
      StagingKeeps(v, ViewOf(r2.data), true);
      if r2.ok {
        DropAndRecover(r2);
        KeepsTransitive(v, ViewOf(r2.data), ViewOf(Recover(DropLink(r2)).data));
      } else {
        StoppedRun(r2);
      }
    }
  }

  lemma NothingHeld(r: Run)
    requires ViewOf(r.data).held == []
    ensures Recover(r) == r
  {
  }

  lemma StoppedRun(r: Run)
    requires !r.ok
    ensures Recover(DropLink(r)) == r
  {
  }

  /** The second half: the new fields, then the token, then the marker. */
  lemma RefillingKeeps(r: Run, next: Link)
    requires next.token != []
    requires r.ok && ViewOf(r.data).held == [] && !ViewOf(r.data).marker && !ViewOf(r.data).unlinking
    ensures var n := Commit(WriteFields(r, next), next);
            && Keeps(ViewOf(r.data), ViewOf(n.data))
            && !ViewOf(n.data).unlinking
            && (ReadLink(n.data) == if n.ok then Some(next) else None)
  {
    hide Keeps, ViewOf, WriteFields, Commit;
    var f := WriteFields(r, next);
    FieldsView(r, next);
    CommitView(f, next);
    var n := Commit(f, next);
    CommittingKeeps(ViewOf(f.data), ViewOf(n.data), next.token);
    Reading(n.data);
    if n.ok {
      FieldsReadBack(r, next);
      CommitFields(f, next);
    }
  }

  /** Replacing a link, cut off anywhere. No committed credential is lost, the
      link reads as nothing, as it did, or as the new one - never a mix - and
      success means that it reads as the new one (or that the prior link
      already had the new token, and then it is left as it was). The store
      must not hold a half-done unlink: the boot resumes that first. */
  lemma WriteLinkKeeps(r: Run, next: Link)
    requires r.ok && Sound(r.data) && !ViewOf(r.data).unlinking
    ensures var n := WriteLink(r, next); var before := ReadLink(r.data); var after := ReadLink(n.data);
            && Keeps(ViewOf(r.data), ViewOf(n.data))
            && !ViewOf(n.data).unlinking
            && (after == None || after == before || after == Some(next))
            && (n.ok ==> after == Some(next) || (after == before && before.Some? && before.value.token == next.token))
  {
    hide Keeps, ViewOf, DropLink, Recover, ReadLink, SlotsFull, Remember, Stage, Commit, WriteFields;
    var v := ViewOf(r.data);
    KeepsItself(v);
    Reading(r.data);
    if next.token != [] {
      var r1 := Recover(r);
      RecoverKeeps(r);
      Reading(r1.data);
      var prior := ReadLink(r1.data);
      if r1.ok && !(prior.Some? && (prior.value.token == next.token || SlotsFull(r1.data))) {
        ClearingKeeps(r1);
        var c := Cleared(r1, prior);
        KeepsTransitive(v, ViewOf(r1.data), ViewOf(c.data));
        Reading(c.data);
        if c.ok {
          RefillingKeeps(c, next);
          KeepsTransitive(v, ViewOf(c.data), ViewOf(Commit(WriteFields(c, next), next).data));
        } else {
          StoppedRefill(c, next);
        }
      }
    }
  }

  lemma StoppedRefill(r: Run, next: Link)
    requires !r.ok
    ensures Commit(WriteFields(r, next), next) == r
  {
  }

  // ---- unlinking ----

  lemma MarkingKeeps(v: View, w: View)
    requires v.Sound() && w == v.(unlinking := w.unlinking)
    requires w.unlinking && v.held == [] && v.token != [] ==> v.SlotFree()
    ensures Keeps(v, w) && w.Sound()
  {
  }

  lemma TryUnlinking(r: Run, w: Write<Key>)
    requires w.key == Unlinking
    ensures var n := Try(r, w); var v := ViewOf(r.data);
            && ViewOf(n.data) == v.(unlinking := if n.ok then FlagIn(w) else v.unlinking)
            && (n.ok ==> r.ok) && (!r.ok ==> n == r)
  {
    hide ViewOf, Try;
    TryView(r, w);
  }

  /** Staging whatever token is active, linked or not, and dropping the link. */
  function Retired(r: Run, active: Text): Run {
    var staged := if active == [] then r else Stage(r, active, false);
    Recover(DropLink(staged))
  }

  lemma RetiringKeeps(r: Run)
    requires r.ok && Sound(r.data) && ViewOf(r.data).held == []
    requires ViewOf(r.data).token != [] ==> !SlotsFull(r.data)
    ensures ClearedWell(r, Retired(r, ViewOf(r.data).token))
  {
    hide Keeps, ViewOf, DropLink, Recover, ReadLink, SlotsFull, Stage;
    var v := ViewOf(r.data);
    Reading(r.data);
    if v.token == [] {
      DropAndRecover(r);
    } else {
      var r1 := Stage(r, v.token, false);
      StageView(r, v.token, false);
      StagingKeeps(v, ViewOf(r1.data), false);
      if r1.ok {
        DropAndRecover(r1);
        KeepsTransitive(v, ViewOf(r1.data), ViewOf(Recover(DropLink(r1)).data));
      } else {
        StoppedRun(r1);
      }
    }
  }

  /** Unlinking, cut off anywhere, loses no committed credential; when it
      succeeds no link is left, nothing is held, and the mark of a half-done
      unlink is gone. */
  lemma PrepareUnlinkKeeps(r: Run)
    requires r.ok && Sound(r.data)
    ensures var n := PrepareUnlink(r); var w := ViewOf(n.data);
            && Keeps(ViewOf(r.data), w)
            && (n.ok ==> !w.marker && w.held == [] && !w.unlinking)
  {
    hide Keeps, ViewOf, DropLink, Recover, ReadLink, SlotsFull, Remember, Stage, Retired;
    var v := ViewOf(r.data);
    KeepsItself(v);
    var r1 := Recover(r);
    RecoverKeeps(r);
    Reading(r1.data);
    var active := GetText(r1.data, Token);
    var prior := ReadLink(r1.data);
    if r1.ok && !(active != [] && SlotsFull(r1.data)) {
      var r2 := if prior.None? then r1 else Remember(r1, prior.value);
      if prior.Some? { RememberView(r1, prior.value); }
      var r3 := Try(r2, Put(Unlinking, Flag(true)));
      TryUnlinking(r2, Put(Unlinking, Flag(true)));
      MarkingKeeps(ViewOf(r1.data), ViewOf(r3.data));
      KeepsTransitive(v, ViewOf(r1.data), ViewOf(r3.data));
      Reading(r3.data);
      var r4 := Retired(r3, active);
      if r3.ok {
        RetiringKeeps(r3);
      } else {
        StoppedRetire(r3, active);
        KeepsItself(ViewOf(r3.data));
      }
      KeepsTransitive(v, ViewOf(r3.data), ViewOf(r4.data));
      var r5 := Try(r4, Del(Unlinking));
      TryUnlinking(r4, Del(Unlinking));
      MarkingKeeps(ViewOf(r4.data), ViewOf(r5.data));
      KeepsTransitive(v, ViewOf(r4.data), ViewOf(r5.data));
      assert PrepareUnlink(r) == r5 by { UnlinkInSteps(r); }
    }
  }

  lemma StoppedRetire(r: Run, active: Text)
    requires !r.ok
    ensures Retired(r, active) == r
  {
  }

  lemma UnlinkInSteps(r: Run)
    requires var r1 := Recover(r); r1.ok && !(GetText(r1.data, Token) != [] && SlotsFull(r1.data))
    ensures var r1 := Recover(r); var prior := ReadLink(r1.data); var active := GetText(r1.data, Token);
            var r2 := if prior.None? then r1 else Remember(r1, prior.value);
            PrepareUnlink(r) == Try(Retired(Try(r2, Put(Unlinking, Flag(true))), active), Del(Unlinking))
  {
    hide Recover, Remember, Stage, DropLink, ReadLink, SlotsFull, Try;
  }

  // ---- booting ----

  lemma ForgettingKeeps(r: Run)
    requires Sound(r.data) && (ViewOf(r.data).marker ==> ViewOf(r.data).token == [])
    ensures var n := Tried(r.data, ForgottenWrites(), r.power);
            && Keeps(ViewOf(r.data), ViewOf(n))
            && ViewOf(n) == ViewOf(r.data).(marker := ViewOf(n).marker, token := ViewOf(n).token)
            && (ViewOf(n).marker ==> ViewOf(n).token == [])
  {
    hide Keeps, ViewOf, GetText;
    var ws := ForgottenWrites();
    var n := Tried(r.data, ws, r.power);
    forall k: Key | k !in {Marker, Token, Account, AccountRef, LinkedAt}
      ensures (k in n <==> k in r.data) && (k in r.data ==> n[k] == r.data[k])
    {
      TriedElsewhere(r.data, ws, r.power, k);
    }
    OnlyRemoved(r.data, ws, r.power, Marker);
    OnlyRemoved(r.data, ws, r.power, Token);
    ForgottenView(r.data, n);
    ForgottenKeeps(ViewOf(r.data), ViewOf(n));
  }

  lemma ForgottenView(m: Store, n: Store)
    requires forall k: Key :: k !in {Marker, Token, Account, AccountRef, LinkedAt} ==>
               (k in n <==> k in m) && (k in m ==> n[k] == m[k])
    requires forall k :: k in {Marker, Token} ==> k !in n || (k in m && n[k] == m[k])
    ensures ViewOf(n) == ViewOf(m).(marker := ViewOf(n).marker, token := ViewOf(n).token)
    ensures ViewOf(n).marker ==> ViewOf(m).marker
    ensures ViewOf(n).token == [] || ViewOf(n).token == ViewOf(m).token
  {
  }

  lemma ForgottenKeeps(v: View, w: View)
    requires v.Sound() && (v.marker ==> v.token == [])
    requires w == v.(marker := w.marker, token := w.token)
    requires (w.marker ==> v.marker) && (w.token == [] || w.token == v.token)
    ensures Keeps(v, w)
  {
  }

  lemma {:induction false} OnlyRemoved(m: Store, ws: seq<Write<Key>>, power: seq<bool>, k: Key)
    requires forall i :: 0 <= i < |ws| ==> ws[i].Del?
    ensures k !in Tried(m, ws, power) || (k in m && Tried(m, ws, power)[k] == m[k])
  {
    if ws != [] {
      assert ws[|ws| - 1].Del?;
      OnlyRemoved(m, ws[..|ws| - 1], power, k);
    }
  }

  /** A boot, cut off anywhere, loses no committed credential; when it succeeds
      nothing is held and no unlink is half done, so a link may be written. */
  lemma BootKeeps(r: Run)
    requires r.ok && Sound(r.data)
    ensures var n := Boot(r); var w := ViewOf(n.data);
            && Keeps(ViewOf(r.data), w)
            && (n.ok ==> w.held == [] && !w.unlinking)
  {
    hide Keeps, ViewOf, Recover, PrepareUnlink, GetText, GetFlag, ForgottenWrites;
    var v := ViewOf(r.data);
    var r1 := Recover(r);
    RecoverKeeps(r);
    Reading(r1.data);
    var r2 := r1;
    if r1.ok && GetFlag(r1.data, Unlinking) {
      r2 := PrepareUnlink(r1);
      PrepareUnlinkKeeps(r1);
      KeepsTransitive(v, ViewOf(r1.data), ViewOf(r2.data));
    }
    Reading(r2.data);
    if r2.ok && !(GetFlag(r2.data, Marker) && GetText(r2.data, Token) != []) {
      ForgettingKeeps(r2);
      KeepsTransitive(v, ViewOf(r2.data), ViewOf(Tried(r2.data, ForgottenWrites(), r2.power)));
    }
  }

  /** An answered revoke gives up that slot's token and nothing else. */
  lemma FinishRevokeKeeps(r: Run, status: int, s: bool)
    requires r.ok && Sound(r.data)
    ensures var n := FinishRevoke(r, status, s); var v := ViewOf(r.data); var w := ViewOf(n.data);
            && w.Sound()
            && w == v.With(s, w.At(s))
            && (w.At(s).token == v.At(s).token || (RevokeIsFinal(status) && w.At(s).token == []))
            && (n.ok ==> w.At(s) == Slot([], false, false, false))
  {
    hide ViewOf, Try;
    if RevokeIsFinal(status) {
      var r1 := Try(r, Del(SlotToken(s)));
      var r2 := Try(r1, Del(SlotRelinked(s)));
      var r3 := Try(r2, Del(SlotRetryAt(s)));
      TrySlot(r, Del(SlotToken(s)), s);
      TrySlot(r1, Del(SlotRelinked(s)), s);
      TrySlot(r2, Del(SlotRetryAt(s)), s);
      TrySlot(r3, Del(SlotFailed(s)), s);
    }
  }
}
