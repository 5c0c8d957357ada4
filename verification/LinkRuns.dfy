/** Whole histories of linking, unlinking, revoking and booting; when the
    operations succeed; and where the claims stop. */
module LinkRuns {
  import opened Common
  import opened Storage
  import opened LinkStore
  import opened LinkSafety

  // ---- with power on, nothing gets stuck ----

  /** The run is going and the next n writes will land. */
  ghost predicate Going(r: Run, n: nat) {
    r.ok && AllLand(r.power, n)
  }

  lemma TryGoes(r: Run, w: Write<Key>, n: nat)
    requires 0 < n && Going(r, n)
    ensures Going(Try(r, w), n - 1)
  {
  }

  lemma DropLinkGoes(r: Run, n: nat)
    requires 2 <= n && Going(r, n)
    ensures Going(DropLink(r), n - 2)
  {
    hide Try, Going;
    TryGoes(r, Del(Marker), n);
    TryGoes(Try(r, Del(Marker)), Del(Token), n - 1);
  }

  lemma FillSlotGoes(r: Run, s: bool, relinked: bool, token: Text, n: nat)
    requires 4 <= n && Going(r, n)
    ensures Going(FillSlot(r, s, relinked, token), n - 4)
  {
    hide Try, Going;
    var r1 := Try(r, Del(SlotFailed(s)));
    var r2 := Try(r1, Del(SlotRetryAt(s)));
    TryGoes(r, Del(SlotFailed(s)), n);
    TryGoes(r1, Del(SlotRetryAt(s)), n - 1);
    TryGoes(r2, Put(SlotRelinked(s), Flag(relinked)), n - 2);
    TryGoes(Try(r2, Put(SlotRelinked(s), Flag(relinked))), Put(SlotToken(s), Str(token)), n - 3);
  }

  lemma ClearHeldGoes(r: Run, n: nat)
    requires 3 <= n && Going(r, n)
    ensures Going(ClearHeld(r), n - 3)
  {
    hide Try, Going;
    var r1 := Try(r, Del(HeldToken));
    TryGoes(r, Del(HeldToken), n);
    TryGoes(r1, Del(HeldRelinked), n - 1);
    TryGoes(Try(r1, Del(HeldRelinked)), Del(Unlinking), n - 2);
  }

  const RECOVER_WRITES: nat := 9

  lemma GoesFurther(r: Run, n: nat, k: nat)
    requires k <= n && Going(r, n)
    ensures Going(r, k)
  {
  }

  /** A sound store's held token always finds its slot. */
  lemma RecoverGoes(r: Run, n: nat)
    requires RECOVER_WRITES <= n && Going(r, n) && Sound(r.data)
    ensures Going(Recover(r), n - RECOVER_WRITES)
  {
    hide ViewOf, DropLink, FillSlot, ClearHeld;
    Reading(r.data);
    var held := GetText(r.data, HeldToken);
    if held == [] {
      GoesFurther(r, n, n - RECOVER_WRITES);
    } else {
      var d := DropLink(r);
      DropLinkGoes(r, n);
      if InSlot(r.data, held) {
        ClearHeldGoes(d, n - 2);
        GoesFurther(ClearHeld(d), n - 5, n - RECOVER_WRITES);
      } else {
        var s, relinked := GetText(r.data, SlotToken(false)) != [], GetFlag(r.data, HeldRelinked);
        FillSlotGoes(d, s, relinked, held, n - 2);
        ClearHeldGoes(FillSlot(d, s, relinked, held), n - 6);
      }
    }
  }

  lemma DropAndRecoverGoes(r: Run, n: nat)
    requires 2 + RECOVER_WRITES <= n && Going(r, n) && Sound(r.data)
    requires ViewOf(r.data).marker ==> ViewOf(r.data).held != [] || ViewOf(r.data).token == []
    ensures Going(Recover(DropLink(r)), n - 2 - RECOVER_WRITES)
  {
    hide Going, Keeps, ViewOf, DropLink, Recover;
    DropLinkView(r);
    DropLinkGoes(r, n);
    if ViewOf(r.data).held == [] {
      DroppingDeadLinkKeeps(ViewOf(r.data), ViewOf(DropLink(r).data));
    } else {
      DroppingLinkKeeps(ViewOf(r.data), ViewOf(DropLink(r).data));
    }
    RecoverGoes(DropLink(r), n - 2);
  }

  lemma StageGoes(r: Run, token: Text, relinked: bool, n: nat)
    requires 2 <= n && Going(r, n)
    ensures Going(Stage(r, token, relinked), n - 2)
  {
    hide Try, Going;
    TryGoes(r, Put(HeldRelinked, Flag(relinked)), n);
    TryGoes(Try(r, Put(HeldRelinked, Flag(relinked))), Put(HeldToken, Str(token)), n - 1);
  }

  lemma RememberGoes(r: Run, link: Link, n: nat)
    requires 2 <= n && Going(r, n)
    ensures Going(Remember(r, link), n - 2)
  {
    hide Try, Going;
    var w := PutOrDel(PriorAccountRef, link.accountRef);
    TryGoes(r, w, n);
    TryGoes(Try(r, w), PutOrDel(PriorAccount, link.account), n - 1);
  }

  lemma RefillGoes(r: Run, next: Link, n: nat)
    requires 8 <= n && Going(r, n)
    ensures Going(Commit(WriteFields(r, next), next), n - 8)
  {
    hide Try, Tried;
    var f := WriteFields(r, next);
    assert Going(f, n - 6) by {
      forall i | 0 <= i < n - 6 ensures Lands(f.power, i) { assert Lands(r.power, 6 + i); }
    }
    TryGoes(f, Put(Token, Str(next.token)), n - 6);
    TryGoes(Try(f, Put(Token, Str(next.token))), Put(Marker, Flag(true)), n - 7);
  }

  const LINK_WRITES: nat := 32

  /** With power on, replacing a link fails in exactly one case: another link is
      active, nothing is held, and no revoke slot is free for it. */
  lemma WriteLinkFailsExactlyWhen(r: Run, next: Link)
    requires Going(r, LINK_WRITES) && Sound(r.data) && !ViewOf(r.data).unlinking && next.token != []
    ensures var link := ReadLink(r.data);
            !WriteLink(r, next).ok <==>
              (ViewOf(r.data).held == [] && link.Some? && link.value.token != next.token && !CanBeginLink(r.data))
  {
    hide Going, Keeps, ViewOf, DropLink, Recover, ReadLink, SlotsFull, Remember, Stage, Commit, WriteFields;
    var r1 := Recover(r);
    RecoverKeeps(r);
    RecoverGoes(r, LINK_WRITES);
    GoingIsOk(r1, LINK_WRITES - RECOVER_WRITES);
    GoingIsOk(r, LINK_WRITES);
    Reading(r.data);
    Reading(r1.data);
    if ViewOf(r.data).held == [] { SlotsAndCanBegin(r.data); }
    var prior := ReadLink(r1.data);
    if !(prior.Some? && (prior.value.token == next.token || SlotsFull(r1.data))) {
      ClearedGoes(r1, LINK_WRITES - RECOVER_WRITES);
      RefillGoes(Cleared(r1, prior), next, 8);
      GoingIsOk(Commit(WriteFields(Cleared(r1, prior), next), next), 0);
    }
  }

  lemma GoingIsOk(r: Run, n: nat)
    requires Going(r, n)
    ensures r.ok
  {
  }

  lemma SlotsAndCanBegin(m: Store)
    requires GetText(m, HeldToken) == []
    ensures CanBeginLink(m) <==> !SlotsFull(m)
  {
  }

  lemma ClearedGoes(r: Run, n: nat)
    requires n == LINK_WRITES - RECOVER_WRITES && Going(r, n)
    requires Sound(r.data) && ViewOf(r.data).held == [] && !ViewOf(r.data).unlinking
    requires ReadLink(r.data).Some? ==> !SlotsFull(r.data)
    ensures Going(Cleared(r, ReadLink(r.data)), 8)
  {
    hide Going, Keeps, ViewOf, DropLink, Recover, ReadLink, SlotsFull, Remember, Stage;
    Reading(r.data);
    var prior := ReadLink(r.data);
    if prior.None? {
      DropAndRecoverGoes(r, n);
      GoesFurther(Cleared(r, prior), n - 2 - RECOVER_WRITES, 8);
    } else {
      var token := prior.value.token;
      var r1 := Remember(r, prior.value);
      RememberView(r, prior.value);
      RememberGoes(r, prior.value, n);
      StageView(r1, token, true);
      StageGoes(r1, token, true, n - 2);
      StagingKeeps(ViewOf(r.data), ViewOf(Stage(r1, token, true).data), true);
      GoingIsOk(Stage(r1, token, true), n - 4);
      DropAndRecoverGoes(Stage(r1, token, true), n - 4);
      GoesFurther(Cleared(r, prior), n - 6 - RECOVER_WRITES, 8);
    }
  }

  /** When pairing may begin and power stays on, the link is always stored. */
  lemma PairingNeverLacksASlot(r: Run, next: Link)
    requires Going(r, LINK_WRITES) && Sound(r.data) && !ViewOf(r.data).unlinking && next.token != []
    requires CanBeginLink(r.data)
    ensures WriteLink(r, next).ok
  {
    WriteLinkFailsExactlyWhen(r, next);
  }

  // ---- booting finishes, once ----

  /** With power on, recovery succeeds and a second one finds nothing to do. */
  lemma RecoveryFinishesAndIsIdempotent(r: Run)
    requires Going(r, RECOVER_WRITES) && Sound(r.data)
    ensures Recover(r).ok && Recover(Recover(r)) == Recover(r)
  {
    hide Keeps, DropLink, ClearHeld, FillSlot;
    RecoverKeeps(r);
    RecoverGoes(r, RECOVER_WRITES);
  }

  const UNLINK_WRITES: nat := 26

  /** With power on, unlinking fails in exactly one case: after recovery there
      is a token to revoke and no slot for it. */
  lemma PrepareUnlinkFailsExactlyWhen(r: Run, n: nat)
    requires UNLINK_WRITES <= n && Going(r, n) && Sound(r.data)
    ensures var m := Recover(r).data;
            !PrepareUnlink(r).ok <==> GetText(m, Token) != [] && SlotsFull(m)
    ensures PrepareUnlink(r).ok ==> Going(PrepareUnlink(r), n - UNLINK_WRITES)
  {
    hide Going, Keeps, ViewOf, DropLink, Recover, ReadLink, SlotsFull, Remember, Stage, Retired, Try;
    var k := n - RECOVER_WRITES;
    var r1 := Recover(r);
    RecoverKeeps(r);
    RecoverGoes(r, n);
    GoingIsOk(r1, k);
    var active := GetText(r1.data, Token);
    if !(active != [] && SlotsFull(r1.data)) {
      var prior := ReadLink(r1.data);
      var r2 := if prior.None? then r1 else Remember(r1, prior.value);
      if prior.None? { GoesFurther(r1, k, k - 2); } else { RememberView(r1, prior.value); RememberGoes(r1, prior.value, k); }
      var r3 := Try(r2, Put(Unlinking, Flag(true)));
      TryGoes(r2, Put(Unlinking, Flag(true)), k - 2);
      TryUnlinking(r2, Put(Unlinking, Flag(true)));
      Reading(r1.data);
      Reading(r3.data);
      MarkingKeeps(ViewOf(r1.data), ViewOf(r3.data));
      RetiredGoes(r3, k - 3);
      TryGoes(Retired(r3, active), Del(Unlinking), k - 16);
      GoingIsOk(Try(Retired(r3, active), Del(Unlinking)), k - 17);
      UnlinkInSteps(r);
    }
  }

  lemma RetiredGoes(r: Run, n: nat)
    requires 13 <= n && Going(r, n) && Sound(r.data) && ViewOf(r.data).held == []
    requires ViewOf(r.data).token != [] ==> !SlotsFull(r.data)
    ensures Going(Retired(r, ViewOf(r.data).token), n - 13)
  {
    hide Going, Keeps, ViewOf, DropLink, Recover, SlotsFull, Stage;
    var v := ViewOf(r.data);
    Reading(r.data);
    if v.token == [] {
      DropAndRecoverGoes(r, n);
      GoesFurther(Retired(r, v.token), n - 2 - RECOVER_WRITES, n - 13);
    } else {
      var r1 := Stage(r, v.token, false);
      StageView(r, v.token, false);
      StageGoes(r, v.token, false, n);
      GoingIsOk(r, n);
      GoingIsOk(r1, n - 2);
      StagingKeeps(v, ViewOf(r1.data), false);
      DropAndRecoverGoes(r1, n - 2);
    }
  }

  const BOOT_WRITES: nat := RECOVER_WRITES + UNLINK_WRITES + 5

  /** With power on, every boot of a sound store succeeds, and booting again
      changes nothing. */
  lemma BootFinishesAndIsIdempotent(r: Run, again: seq<bool>)
    requires Going(r, BOOT_WRITES) && Sound(r.data)
    ensures Boot(r).ok
    ensures Boot(Run(Boot(r).data, again, true)).data == Boot(r).data
  {
    hide Going, Keeps, ViewOf, Recover, PrepareUnlink, ForgottenWrites, GetText, GetFlag;
    var r1 := Recover(r);
    RecoverKeeps(r);
    RecoverGoes(r, BOOT_WRITES);
    GoingIsOk(r1, UNLINK_WRITES + 5);
    Reading(r1.data);
    var r2 := r1;
    if GetFlag(r1.data, Unlinking) {
      r2 := PrepareUnlink(r1);
      PrepareUnlinkFailsExactlyWhen(r1, UNLINK_WRITES + 5);
      PrepareUnlinkKeeps(r1);
      RecoverKeeps(r1);
    } else {
      GoesFurther(r1, UNLINK_WRITES + 5, 5);
    }
    Reading(r2.data);
    var n := Boot(r).data;
    BootKeeps(r) by { GoingIsOk(r, BOOT_WRITES); }
    Reading(n);
    RecoverKeeps(Run(n, again, true));
    if !(GetFlag(r2.data, Marker) && GetText(r2.data, Token) != []) {
      ForgottenForGood(r2, again);
    }
  }

  lemma ForgottenForGood(r: Run, again: seq<bool>)
    requires Going(r, 5)
    ensures var n := Tried(r.data, ForgottenWrites(), r.power);
            && Tried(n, ForgottenWrites(), again) == n
            && !GetFlag(n, Marker)
  {
    hide Tried;
    var ws := ForgottenWrites();
    var n := Tried(r.data, ws, r.power);
    forall i | 0 <= i < 5 ensures ws[i].Del? && ws[i].key !in n {
      LastWriteShows(r.data, ws, r.power, i);
    }
    NothingToRemove(n, ws, again);
    assert ws[0].key == Marker;
  }

  lemma {:induction false} NothingToRemove(m: Store, ws: seq<Write<Key>>, power: seq<bool>)
    requires forall i :: 0 <= i < |ws| ==> ws[i].Del? && ws[i].key !in m
    ensures Tried(m, ws, power) == m
  {
    if ws != [] { NothingToRemove(m, ws[..|ws| - 1], power); }
  }

  // ---- every history ----

  datatype Op =
    | LinkTo(next: Link, power: seq<bool>)
    | Unlink(power: seq<bool>)
    | Reboot(power: seq<bool>)
    | Recovery(power: seq<bool>)
    | Answered(status: int, second: bool, power: seq<bool>)

  function After(m: Store, op: Op): Store {
    match op
    case LinkTo(next, power) => WriteLink(Run(m, power, true), next).data
    case Unlink(power) => PrepareUnlink(Run(m, power, true)).data
    case Reboot(power) => Boot(Run(m, power, true)).data
    case Recovery(power) => Recover(Run(m, power, true)).data
    case Answered(status, second, power) => FinishRevoke(Run(m, power, true), status, second).data
  }

  /** A session writes a link only once a boot has resumed a half-done unlink. */
  predicate Allowed(m: Store, op: Op) {
    op.LinkTo? ==> !GetFlag(m, Unlinking)
  }

  function AfterAll(m: Store, ops: seq<Op>): Store {
    if ops == [] then m else After(AfterAll(m, ops[..|ops| - 1]), ops[|ops| - 1])
  }

  ghost predicate AllAllowed(m: Store, ops: seq<Op>) {
    forall i :: 0 <= i < |ops| ==> Allowed(AfterAll(m, ops[..i]), ops[i])
  }

  /** The i-th operation is a final answer for the revoke of t. */
  ghost predicate Revoked(m: Store, ops: seq<Op>, i: nat, t: Text)
    requires i < |ops|
  {
    var op := ops[i];
    op.Answered? && RevokeIsFinal(op.status) && GetText(AfterAll(m, ops[..i]), SlotToken(op.second)) == t
  }

  lemma OneOpKeeps(m: Store, op: Op, t: Text)
    requires Sound(m) && Allowed(m, op)
    requires t != [] && ViewOf(m).Committed(t)
    requires !(op.Answered? && RevokeIsFinal(op.status) && GetText(m, SlotToken(op.second)) == t)
    ensures Sound(After(m, op)) && ViewOf(After(m, op)).Committed(t)
  {
    OneOpIsSound(m, op);
    hide ViewOf, WriteLink, PrepareUnlink, Boot, Recover, FinishRevoke;
    Reading(m);
    match op
    case LinkTo(next, power) =>
      WriteLinkKeeps(Run(m, power, true), next);
      NothingLostMeans(ViewOf(m), ViewOf(After(m, op)), t);
    case Unlink(power) =>
      PrepareUnlinkKeeps(Run(m, power, true));
      NothingLostMeans(ViewOf(m), ViewOf(After(m, op)), t);
    case Reboot(power) =>
      BootKeeps(Run(m, power, true));
      NothingLostMeans(ViewOf(m), ViewOf(After(m, op)), t);
    case Recovery(power) =>
      RecoverKeeps(Run(m, power, true));
      NothingLostMeans(ViewOf(m), ViewOf(After(m, op)), t);
    case Answered(status, second, power) =>
      FinishRevokeKeeps(Run(m, power, true), status, second);
  }

  lemma OneOpIsSound(m: Store, op: Op)
    requires Sound(m) && Allowed(m, op)
    ensures Sound(After(m, op))
  {
    hide ViewOf, WriteLink, PrepareUnlink, Boot, Recover, FinishRevoke;
    Reading(m);
    match op
    case LinkTo(next, power) => WriteLinkKeeps(Run(m, power, true), next);
    case Unlink(power) => PrepareUnlinkKeeps(Run(m, power, true));
    case Reboot(power) => BootKeeps(Run(m, power, true));
    case Recovery(power) => RecoverKeeps(Run(m, power, true));
    case Answered(status, second, power) => FinishRevokeKeeps(Run(m, power, true), status, second);
  }

  /** Over every history, each operation cut off anywhere: a committed credential
      stays committed until a final answer to its own revoke. */
  lemma {:induction false} NoCredentialIsEverLost(m: Store, ops: seq<Op>, t: Text)
    requires Sound(m) && AllAllowed(m, ops)
    requires t != [] && ViewOf(m).Committed(t)
    requires forall i :: 0 <= i < |ops| ==> !Revoked(m, ops, i, t)
    ensures Sound(AfterAll(m, ops)) && ViewOf(AfterAll(m, ops)).Committed(t)
  {
    hide ViewOf, After, Allowed;
    if ops != [] {
      var n := |ops| - 1;
      forall i | 0 <= i < n
        ensures Allowed(AfterAll(m, ops[..n][..i]), ops[..n][i])
        ensures !Revoked(m, ops[..n], i, t)
      {
        assert ops[..n][..i] == ops[..i];
        assert !Revoked(m, ops, i, t);
      }
      NoCredentialIsEverLost(m, ops[..n], t);
      assert !Revoked(m, ops, n, t);
      OneOpKeeps(AfterAll(m, ops[..n]), ops[n], t);
    }
  }

  // ---- where the claim stops ----

  /** An unlink is half done and its token is committed by the marker alone. */
  predicate HalfDone(v: View) {
    v.unlinking && v.marker && v.token != [] && v.held == [] && !v.InSlot(v.token)
  }

  /** From every other sound store a replacement loses nothing, wherever it is cut. */
  lemma ReplacementLosesNothing(r: Run, next: Link)
    requires r.ok && Sound(r.data) && next.token != [] && !HalfDone(ViewOf(r.data))
    ensures NothingLost(ViewOf(r.data), ViewOf(WriteLink(r, next).data))
  {
    hide Keeps, ViewOf, DropLink, Recover, ReadLink, SlotsFull, Remember, Stage, Commit, WriteFields;
    var v := ViewOf(r.data);
    Reading(r.data);
    if !v.unlinking {
      WriteLinkKeeps(r, next);
      KeepsLosesNothing(v, ViewOf(WriteLink(r, next).data));
    } else if v.held != [] {
      var r1 := Recover(r);
      RecoverKeeps(r);
      if r1.ok {
        RecoverKeeps(r1);
        WriteLinkKeeps(r1, next);
        KeepsTransitive(v, ViewOf(r1.data), ViewOf(WriteLink(r1, next).data));
      }
      KeepsLosesNothing(v, ViewOf(WriteLink(r, next).data));
    } else {
      OnlyTheLinkChanges(r, next);
    }
  }

  lemma KeepsLosesNothing(v: View, w: View)
    requires Keeps(v, w)
    ensures NothingLost(v, w)
  {
  }

  /** Over a half-done unlink that holds nothing, only marker and token change. */
  lemma OnlyTheLinkChanges(r: Run, next: Link)
    requires r.ok && ViewOf(r.data).unlinking && ViewOf(r.data).held == [] && Sound(r.data)
    ensures var v := ViewOf(r.data); var w := ViewOf(WriteLink(r, next).data);
            w == v.(marker := w.marker, token := w.token)
  {
    hide Keeps, ViewOf, DropLink, Recover, ReadLink, SlotsFull, Remember, Stage, Commit, WriteFields;
    Reading(r.data);
    RecoverKeeps(r);
    var d := DropLink(r);
    DropLinkView(r);
    if next.token != [] {
      NothingHeld(d);
      FieldsView(d, next);
      CommitView(WriteFields(d, next), next);
    }
  }

  /** A cut right after the marker is removed drops a half-done unlink's token. */
  lemma CutAfterTheMarker(m: Store, next: Link)
    requires HalfDone(ViewOf(m)) && next.token != []
    ensures !NothingLost(ViewOf(m), ViewOf(WriteLink(Run(m, [true], true), next).data))
  {
    hide ViewOf, ReadLink, SlotsFull, Remember, Stage;
    var r := Run(m, [true], true);
    Reading(m);
    NothingHeld(r);
    TryView(r, Del(Marker));
    var d := DropLink(r);
    assert !d.ok && ViewOf(d.data) == ViewOf(m).(marker := false);
    NothingHeld(d);
  }

  /** Replacing a link keeps every committed credential at every cut point exactly
      when no half-done unlink's token hangs on the marker alone; that is why a
      boot resumes the unlink first. */
  lemma ReplacementIsSafeExactlyWhen(m: Store, next: Link)
    requires Sound(m) && next.token != []
    ensures (forall power :: NothingLost(ViewOf(m), ViewOf(WriteLink(Run(m, power, true), next).data)))
            <==> !HalfDone(ViewOf(m))
  {
    hide NothingLost, ViewOf, WriteLink, HalfDone, Sound;
    if HalfDone(ViewOf(m)) {
      CutAfterTheMarker(m, next);
    } else {
      forall power
        ensures NothingLost(ViewOf(m), ViewOf(WriteLink(Run(m, power, true), next).data))
      {
        ReplacementLosesNothing(Run(m, power, true), next);
      }
    }
  }

  /** Such a store is left by every unlink that is cut right after its own mark. */
  lemma CutUnlinkIsHalfDone(m: Store)
    requires Sound(m) && ReadLink(m).Some? && !SlotsFull(m)
    requires ViewOf(m).held == [] && !ViewOf(m).InSlot(ViewOf(m).token)
    ensures var n := PrepareUnlink(Run(m, [true, true, true], true)).data; Sound(n) && HalfDone(ViewOf(n))
  {
    hide ViewOf, Keeps, Remember, Stage, DropLink, ReadLink, SlotsFull;
    var r := Run(m, [true, true, true], true);
    Reading(m);
    PrepareUnlinkKeeps(r);
    KeptSound(ViewOf(m), ViewOf(PrepareUnlink(r).data));
    NothingHeld(r);
    var prior := ReadLink(m).value;
    var r2 := Remember(r, prior);
    RememberedWithTwo(r, prior);
    RememberView(r, prior);
    var r3 := Try(r2, Put(Unlinking, Flag(true)));
    TryUnlinking(r2, Put(Unlinking, Flag(true)));
    var r4 := Stage(r3, GetText(m, Token), false);
    StageView(r3, GetText(m, Token), false);
    StagedWithNone(r3, GetText(m, Token));
    StoppedRun(r4);
  }

  lemma KeptSound(v: View, w: View)
    requires Keeps(v, w)
    ensures w.Sound()
  {
  }

  lemma RememberedWithTwo(r: Run, link: Link)
    requires r.ok && r.power == [true, true, true]
    ensures Remember(r, link).ok && Remember(r, link).power == [true]
  {
  }

  lemma StagedWithNone(r: Run, token: Text)
    requires r.ok && r.power == []
    ensures !Stage(r, token, false).ok && Stage(r, token, false).data == r.data
  {
  }
}
