/** Which flag a token carries to its revoke: replaced by another link, or unlinked. */
module LinkFlags {
  import opened Common
  import opened Storage
  import opened LinkStore
  import opened LinkSafety

  /** The flag of a token that was held before, or else was the active one. */
  predicate Carries(v: View, t: Text, relinked: bool, flag: bool) {
    t != [] && if t == v.held then relinked == v.heldRelinked else t == v.token && relinked == flag
  }

  /** Tokens keep their flags: one in a slot its own, a held one the flag it was
      held with, and the active one gets the operation's. */
  ghost predicate Flagged(v: View, w: View, flag: bool) {
    && (forall s :: if w.At(s).token == v.At(s).token
                    then v.At(s).token != [] ==> w.At(s).relinked == v.At(s).relinked
                    else Carries(v, w.At(s).token, w.At(s).relinked, flag))
    && (w.held != [] ==> Carries(v, w.held, w.heldRelinked, flag))
  }

  /** The same slots and the same held token. */
  predicate SamePlaces(v: View, w: View) {
    w == v.(marker := w.marker, token := w.token, unlinking := w.unlinking)
  }

  lemma FlaggedStill(u: View, v: View, w: View, flag: bool)
    requires Flagged(u, v, flag) && SamePlaces(v, w)
    ensures Flagged(u, w, flag)
  {
    assert forall s :: w.At(s) == v.At(s);
  }

  lemma FlaggedRecovery(u: View, v: View, w: View, ok: bool, flag: bool)
    requires Flagged(u, v, flag) && Recovered(v, w, ok)
    ensures Flagged(u, w, flag)
  {
    hide Keeps;
  }

  lemma FlaggedStaging(v: View, w: View, flag: bool)
    requires v.held == []
    requires w == v || w == v.(heldRelinked := flag) || w == v.(heldRelinked := flag, held := v.token)
    ensures Flagged(v, w, flag)
  {
  }

  lemma DroppingKeepsPlaces(r: Run)
    ensures SamePlaces(ViewOf(r.data), ViewOf(DropLink(r).data))
  {
    hide ViewOf, DropLink;
    DropLinkView(r);
  }

  /** A staged token is dropped from the link and moves on with its flag. */
  lemma StagedFlags(r: Run, staged: Run, flag: bool)
    requires Sound(r.data) && ViewOf(r.data).held == [] && (ViewOf(r.data).token == [] || ViewOf(r.data).SlotFree())
    requires var v, w := ViewOf(r.data), ViewOf(staged.data);
             && (w == v || w == v.(heldRelinked := flag) || w == v.(heldRelinked := flag, held := v.token))
             && (staged.ok && v.token != [] ==> w.held == v.token)
    ensures Flagged(ViewOf(r.data), ViewOf(Recover(DropLink(staged)).data), flag)
  {
    hide Keeps, Recovered, Flagged, SamePlaces, ViewOf, DropLink, Recover;
    var v := ViewOf(r.data);
    FlaggedStaging(v, ViewOf(staged.data), flag);
    if staged.ok {
      var d := DropLink(staged);
      DroppingKeepsPlaces(staged);
      FlaggedStill(v, ViewOf(staged.data), ViewOf(d.data), flag);
      StagingKeeps(v, ViewOf(staged.data), flag);
      if ViewOf(staged.data).held != [] {
        DropLinkView(staged);
        DroppingLinkKeeps(ViewOf(staged.data), ViewOf(d.data));
        RecoverKeeps(d);
        FlaggedRecovery(v, ViewOf(d.data), ViewOf(Recover(d).data), Recover(d).ok, flag);
      } else {
        HeldStill(ViewOf(staged.data), ViewOf(d.data));
        NothingHeld(d);
      }
    } else {
      StoppedRun(staged);
    }
  }

  lemma HeldStill(v: View, w: View)
    requires SamePlaces(v, w)
    ensures w.held == v.held
  {
  }

  /** A token that leaves the link for another one is revoked as relinked; one
      that was on its way before keeps the flag it had. */
  lemma ReplacementFlags(r: Run, next: Link)
    requires r.ok && Sound(r.data)
    ensures Flagged(ViewOf(r.data), ViewOf(WriteLink(r, next).data), true)
  {
    hide Keeps, Recovered, Flagged, SamePlaces, ViewOf, DropLink, Recover, ReadLink, SlotsFull, Cleared, Commit, WriteFields;
    var v := ViewOf(r.data);
    Unmoved(v, true);
    if next.token != [] {
      var r1 := Recover(r);
      RecoverKeeps(r);
      FlaggedRecovery(v, v, ViewOf(r1.data), r1.ok, true);
      var prior := ReadLink(r1.data);
      if r1.ok && !(prior.Some? && (prior.value.token == next.token || SlotsFull(r1.data))) {
        ClearedFlags(r);
        var c := Cleared(r1, prior);
        RefillingKeepsPlaces(c, next);
        FlaggedStill(v, ViewOf(c.data), ViewOf(Commit(WriteFields(c, next), next).data), true);
        ReplacedInSteps(r, next);
      }
    }
  }

  lemma ReplacedInSteps(r: Run, next: Link)
    requires r.ok && next.token != [] && Recover(r).ok
    requires var r1 := Recover(r); var prior := ReadLink(r1.data);
             !(prior.Some? && (prior.value.token == next.token || SlotsFull(r1.data)))
    ensures var r1 := Recover(r);
            WriteLink(r, next) == Commit(WriteFields(Cleared(r1, ReadLink(r1.data)), next), next)
  {
    hide Recover, Remember, Stage, DropLink, ReadLink, SlotsFull, Commit, WriteFields;
  }

  lemma ClearedFlags(r: Run)
    requires Sound(r.data) && Recover(r).ok
    requires var r1 := Recover(r); ReadLink(r1.data).Some? ==> !SlotsFull(r1.data)
    ensures var r1 := Recover(r); Flagged(ViewOf(r.data), ViewOf(Cleared(r1, ReadLink(r1.data)).data), true)
  {
    hide Keeps, Recovered, Flagged, SamePlaces, ViewOf, DropLink, Recover, ReadLink, SlotsFull, Remember, Stage;
    var v := ViewOf(r.data);
    var r1 := Recover(r);
    RecoverKeeps(r);
    FlaggedRecovery(v, v, ViewOf(r1.data), r1.ok, true) by { Unmoved(v, true); }
    RecoveredRun(v, ViewOf(r1.data));
    Reading(r1.data);
    var prior := ReadLink(r1.data);
    if prior.None? {
      DroppingKeepsPlaces(r1);
      HeldStill(ViewOf(r1.data), ViewOf(DropLink(r1).data));
      NothingHeld(DropLink(r1));
      FlaggedStill(v, ViewOf(r1.data), ViewOf(DropLink(r1).data), true);
    } else {
      var r2 := Remember(r1, prior.value);
      RememberView(r1, prior.value);
      StageView(r2, prior.value.token, true);
      StagedFlags(r1, Stage(r2, prior.value.token, true), true);
    }
  }

  /** After recovery nothing is held, and a link that is left was there before. */
  lemma RecoveredRun(v: View, w: View)
    requires Recovered(v, w, true)
    ensures w.held == [] && w.Sound() && (v.held != [] ==> !w.marker && w.token == [])
  {
  }

  /** A token that leaves the link for good is revoked as unlinked. */
  lemma UnlinkFlags(r: Run)
    requires r.ok && Sound(r.data)
    ensures Flagged(ViewOf(r.data), ViewOf(PrepareUnlink(r).data), false)
  {
    hide Keeps, Recovered, Flagged, SamePlaces, ViewOf, DropLink, Recover, ReadLink, SlotsFull, Remember, Stage, Retired;
    var v := ViewOf(r.data);
    var r1 := Recover(r);
    RecoverKeeps(r);
    FlaggedRecovery(v, v, ViewOf(r1.data), r1.ok, false) by { Unmoved(v, false); }
    Reading(r1.data);
    var active := GetText(r1.data, Token);
    var prior := ReadLink(r1.data);
    if r1.ok && !(active != [] && SlotsFull(r1.data)) {
      RecoveredRun(v, ViewOf(r1.data));
      var r2 := if prior.None? then r1 else Remember(r1, prior.value);
      if prior.Some? { RememberView(r1, prior.value); }
      var r3 := Try(r2, Put(Unlinking, Flag(true)));
      TryUnlinking(r2, Put(Unlinking, Flag(true)));
      MarkedPlaces(ViewOf(r1.data), ViewOf(r3.data));
      FlaggedStill(v, ViewOf(r1.data), ViewOf(r3.data), false);
      var r4 := Retired(r3, active);
      Reading(r3.data);
      MarkingKeeps(ViewOf(r1.data), ViewOf(r3.data));
      if r3.ok { RetiredFlags(v, r3, active); } else { StoppedRetire(r3, active); }
      var r5 := Try(r4, Del(Unlinking));
      TryUnlinking(r4, Del(Unlinking));
      MarkedPlaces(ViewOf(r4.data), ViewOf(r5.data));
      FlaggedStill(v, ViewOf(r4.data), ViewOf(r5.data), false);
      UnlinkInSteps(r);
    }
  }

  lemma RetiredFlags(v: View, r: Run, active: Text)
    requires r.ok && Sound(r.data) && ViewOf(r.data).held == [] && active == ViewOf(r.data).token
    requires active != [] ==> ViewOf(r.data).SlotFree() && v == ViewOf(r.data).(unlinking := v.unlinking)
    requires Flagged(v, ViewOf(r.data), false)
    ensures Flagged(v, ViewOf(Retired(r, active).data), false)
  {
    hide Keeps, Recovered, Flagged, SamePlaces, ViewOf, DropLink, Recover, Stage;
    if active == [] {
      DroppingKeepsPlaces(r);
      HeldStill(ViewOf(r.data), ViewOf(DropLink(r).data));
      NothingHeld(DropLink(r));
      FlaggedStill(v, ViewOf(r.data), ViewOf(DropLink(r).data), false);
    } else {
      StageView(r, active, false);
      StagedFlags(r, Stage(r, active, false), false);
      SameStart(v, ViewOf(r.data), ViewOf(Retired(r, active).data));
    }
  }

  lemma SameStart(u: View, v: View, w: View)
    requires u == v.(unlinking := u.unlinking) && Flagged(v, w, false)
    ensures Flagged(u, w, false)
  {
    assert forall s :: u.At(s) == v.At(s);
  }

  lemma MarkedPlaces(v: View, w: View)
    requires w == v.(unlinking := w.unlinking)
    ensures SamePlaces(v, w)
  {
  }

  lemma Unmoved(v: View, flag: bool)
    ensures Flagged(v, v, flag)
  {
  }

  lemma RefillingKeepsPlaces(r: Run, next: Link)
    ensures SamePlaces(ViewOf(r.data), ViewOf(Commit(WriteFields(r, next), next).data))
  {
    hide ViewOf, Commit, WriteFields;
    FieldsView(r, next);
    CommitView(WriteFields(r, next), next);
  }
}
