/** The link operations on the device, write by write with early returns, each
    proved against its function in LinkStore; and the pairing session object. */
module LinkMethods {
  import opened Common
  import opened Storage
  import opened LinkStore

  /** Where the device's code stands. */
  function Now(store: Device<Key>, ok: bool): Run
    reads store
  {
    Run(store.data, store.power, ok)
  }

  /** One write of an operation; a failed one ends the operation. */
  method Attempt(store: Device<Key>, w: Write<Key>) returns (ok: bool)
    modifies store
    ensures Now(store, ok) == Try(old(Now(store, true)), w)
  {
    ok := store.Perform(w);
  }

  method RemoveLink(store: Device<Key>) returns (ok: bool)
    modifies store
    ensures Now(store, ok) == DropLink(old(Now(store, true)))
  {
    ok := Attempt(store, Del(Marker));
    if !ok { return; }
    ok := Attempt(store, Del(Token));
  }

  method RecoverPendingRevoke(store: Device<Key>) returns (ok: bool)
    modifies store
    ensures Now(store, ok) == Recover(old(Now(store, true)))
  {
    hide GetText, GetFlag;
    var held := GetText(store.data, HeldToken);
    if held == [] { return true; }
    ghost var start := store.data;
    var first := GetText(store.data, SlotToken(false));
    var full := SlotsFull(store.data);
    var relinked := GetFlag(store.data, HeldRelinked);
    var inSlot := InSlot(store.data, held);
    ok := RemoveLink(store);
    if !ok {
      StoppedRecovery(Now(store, false), first != [], relinked, held);
      return;
    }
    if !inSlot {
      if full { return false; }
      ok := PutInSlot(store, first != [], relinked, held);
      if !ok { return; }
    }
    ok := Attempt(store, Del(HeldToken));
    if !ok { return; }
    ok := Attempt(store, Del(HeldRelinked));
    if !ok { return; }
    ok := Attempt(store, Del(Unlinking));
  }

  lemma StoppedRecovery(r: Run, s: bool, relinked: bool, held: Text)
    requires !r.ok
    ensures ClearHeld(r) == r && ClearHeld(FillSlot(r, s, relinked, held)) == r
  {
  }

  method PutInSlot(store: Device<Key>, second: bool, relinked: bool, token: Text) returns (ok: bool)
    modifies store
    ensures Now(store, ok) == FillSlot(old(Now(store, true)), second, relinked, token)
  {
    ok := Attempt(store, Del(SlotFailed(second)));
    if !ok { return; }
    ok := Attempt(store, Del(SlotRetryAt(second)));
    if !ok { return; }
    ok := Attempt(store, Put(SlotRelinked(second), Flag(relinked)));
    if !ok { return; }
    ok := Attempt(store, Put(SlotToken(second), Str(token)));
  }

  method RememberAccount(store: Device<Key>, link: Link) returns (ok: bool)
    modifies store
    ensures Now(store, ok) == Remember(old(Now(store, true)), link)
  {
    ok := Attempt(store, PutOrDel(PriorAccountRef, link.accountRef));
    if !ok { return; }
    ok := Attempt(store, PutOrDel(PriorAccount, link.account));
  }

  method StageRevoke(store: Device<Key>, token: Text, relinked: bool) returns (ok: bool)
    modifies store
    ensures Now(store, ok) == Stage(old(Now(store, true)), token, relinked)
  {
    ok := Attempt(store, Put(HeldRelinked, Flag(relinked)));
    if !ok { return; }
    ok := Attempt(store, Put(HeldToken, Str(token)));
  }

  /** Every field is written, even after one has failed. */
  method SaveFields(store: Device<Key>, next: Link) returns (saved: bool)
    modifies store
    ensures Now(store, saved) == WriteFields(old(Now(store, true)), next)
  {
    hide PutOrDel, Tried;
    ghost var m, power := store.data, store.power;
    ghost var ws := FieldWrites(next);
    NothingTried(m, ws, power);
    saved := TryNext(store, m, ws, power, 0, true, PutOrDel(Account, next.account));
    saved := TryNext(store, m, ws, power, 1, saved, PutOrDel(AccountRef, next.accountRef));
    saved := TryNext(store, m, ws, power, 2, saved, Put(LinkedAt, Num(next.at)));
    saved := TryNext(store, m, ws, power, 3, saved, PutOrDel(DeviceId, next.id));
    saved := TryNext(store, m, ws, power, 4, saved, PutOrDel(FlashId, next.flashId));
    saved := TryNext(store, m, ws, power, 5, saved, PutOrDel(Serial, next.serial));
    assert ws[..6] == ws;
  }

  /** Replaces the stored link. */
  method StoreLink(store: Device<Key>, next: Link) returns (ok: bool)
    modifies store
    ensures Now(store, ok) == WriteLink(old(Now(store, true)), next)
  {
    hide Recover, DropLink, Remember, Stage, WriteFields, ReadLink, SlotsFull, Try;
    if next.token == [] { return false; }
    ok := RecoverPendingRevoke(store);
    if !ok { return; }
    var prior := ReadLink(store.data);
    if prior.Some? && prior.value.token == next.token { return true; }
    ghost var r1 := Now(store, true);
    if prior.Some? {
      if SlotsFull(store.data) { return false; }
      ok := RememberAccount(store, prior.value);
      if ok { ok := StageRevoke(store, prior.value.token, true); }
      if !ok {
        StoppedStaging(Now(store, false), prior.value, next);
        return;
      }
    }
    ok := RemoveLink(store);
    if !ok {
      StoppedClearing(Now(store, false), next);
      return;
    }
    ok := RecoverPendingRevoke(store);
    if !ok {
      StoppedClearing(Now(store, false), next);
      return;
    }
    ok := SaveFields(store, next);
    if !ok {
      StoppedClearing(Now(store, false), next);
      return;
    }
    ok := CommitLink(store, next);
  }

  lemma StoppedStaging(r: Run, prior: Link, next: Link)
    requires !r.ok
    ensures Stage(r, prior.token, true) == r
    ensures Commit(WriteFields(Recover(DropLink(r)), next), next) == r
  {
  }

  lemma StoppedClearing(r: Run, next: Link)
    requires !r.ok
    ensures Recover(r) == r && Commit(WriteFields(r, next), next) == r && Commit(r, next) == r
  {
  }

  method CommitLink(store: Device<Key>, next: Link) returns (ok: bool)
    modifies store
    ensures Now(store, ok) == Commit(old(Now(store, true)), next)
  {
    ok := Attempt(store, Put(Token, Str(next.token)));
    if !ok { return; }
    ok := Attempt(store, Put(Marker, Flag(true)));
  }

  /** Turns the stored link into a revoke to be sent. */
  method UnlinkStored(store: Device<Key>) returns (ok: bool)
    modifies store
    ensures Now(store, ok) == PrepareUnlink(old(Now(store, true)))
  {
    hide Recover, DropLink, Remember, Stage, ReadLink, SlotsFull, Try, GetText;
    ok := RecoverPendingRevoke(store);
    if !ok { return; }
    var prior := ReadLink(store.data);
    var active := GetText(store.data, Token);
    if active != [] && SlotsFull(store.data) { return false; }
    if prior.Some? {
      ok := RememberAccount(store, prior.value);
      if !ok {
        StoppedUnlink(Now(store, false), active);
        return;
      }
    }
    ok := Attempt(store, Put(Unlinking, Flag(true)));
    if !ok {
      StoppedUnlink(Now(store, false), active);
      return;
    }
    if active != [] {
      ok := StageRevoke(store, active, false);
      if !ok {
        StoppedUnlink(Now(store, false), active);
        return;
      }
    }
    ok := RemoveLink(store);
    if !ok {
      StoppedUnlink(Now(store, false), active);
      return;
    }
    ok := RecoverPendingRevoke(store);
    if !ok {
      StoppedUnlink(Now(store, false), active);
      return;
    }
    ok := Attempt(store, Del(Unlinking));
  }

  lemma StoppedUnlink(r: Run, active: Text)
    requires !r.ok
    ensures Try(r, Put(Unlinking, Flag(true))) == r && Try(r, Del(Unlinking)) == r
    ensures Stage(r, active, false) == r && DropLink(r) == r && Recover(r) == r
  {
  }

  /** Drops a revoke slot once its answer is final. */
  method DropRevokeSlot(store: Device<Key>, status: int, second: bool) returns (ok: bool)
    modifies store
    ensures Now(store, ok) == FinishRevoke(old(Now(store, true)), status, second)
  {
    if !RevokeIsFinal(status) { return false; }
    ok := Attempt(store, Del(SlotToken(second)));
    if !ok { return; }
    ok := Attempt(store, Del(SlotRelinked(second)));
    if !ok { return; }
    ok := Attempt(store, Del(SlotRetryAt(second)));
    if !ok { return; }
    ok := Attempt(store, Del(SlotFailed(second)));
  }
}
