/** The account a device was linked to before is remembered when its link goes
    (lib/CloudSync/LinkSession.cpp). */
module LinkPrior {
  import opened Common
  import opened Storage
  import opened LinkStore
  import opened LinkSafety

  /** The account remembered as the prior one. */
  function Prior(m: Store): (Text, Text) {
    (GetText(m, PriorAccount), GetText(m, PriorAccountRef))
  }

  predicate ForPrior(w: Write<Key>) {
    w.key == PriorAccount || w.key == PriorAccountRef
  }

  lemma TryElsewhere(r: Run, w: Write<Key>)
    requires !ForPrior(w)
    ensures Prior(Try(r, w).data) == Prior(r.data)
  {
  }

  lemma DropKeepsPrior(r: Run)
    ensures Prior(DropLink(r).data) == Prior(r.data)
  {
    hide Try, Prior;
    TryElsewhere(r, Del(Marker));
    TryElsewhere(Try(r, Del(Marker)), Del(Token));
  }

  lemma RecoverKeepsPrior(r: Run)
    ensures Prior(Recover(r).data) == Prior(r.data)
  {
    hide Try, Prior, DropLink;
    DropKeepsPrior(r);
    var d, held := DropLink(r), GetText(r.data, HeldToken);
    var s, relinked := GetText(r.data, SlotToken(false)) != [], GetFlag(r.data, HeldRelinked);
    FillKeepsPrior(d, s, relinked, held);
    ClearKeepsPrior(d);
    ClearKeepsPrior(FillSlot(d, s, relinked, held));
    hide FillSlot, ClearHeld;
  }

  lemma FillKeepsPrior(r: Run, s: bool, relinked: bool, token: Text)
    ensures Prior(FillSlot(r, s, relinked, token).data) == Prior(r.data)
  {
    hide Try, Prior;
    var r1 := Try(r, Del(SlotFailed(s)));
    var r2 := Try(r1, Del(SlotRetryAt(s)));
    var r3 := Try(r2, Put(SlotRelinked(s), Flag(relinked)));
    TryElsewhere(r, Del(SlotFailed(s)));
    TryElsewhere(r1, Del(SlotRetryAt(s)));
    TryElsewhere(r2, Put(SlotRelinked(s), Flag(relinked)));
    TryElsewhere(r3, Put(SlotToken(s), Str(token)));
  }

  lemma ClearKeepsPrior(r: Run)
    ensures Prior(ClearHeld(r).data) == Prior(r.data)
  {
    hide Try, Prior;
    var r1 := Try(r, Del(HeldToken));
    TryElsewhere(r, Del(HeldToken));
    TryElsewhere(r1, Del(HeldRelinked));
    TryElsewhere(Try(r1, Del(HeldRelinked)), Del(Unlinking));
  }

  lemma StageKeepsPrior(r: Run, token: Text, relinked: bool)
    ensures Prior(Stage(r, token, relinked).data) == Prior(r.data)
  {
    hide Try, Prior;
    TryElsewhere(r, Put(HeldRelinked, Flag(relinked)));
    TryElsewhere(Try(r, Put(HeldRelinked, Flag(relinked))), Put(HeldToken, Str(token)));
  }

  lemma FieldsKeepPrior(r: Run, next: Link)
    ensures Prior(WriteFields(r, next).data) == Prior(r.data)
  {
    hide Tried;
    if r.ok {
      TriedElsewhere(r.data, FieldWrites(next), r.power, PriorAccount);
      TriedElsewhere(r.data, FieldWrites(next), r.power, PriorAccountRef);
    }
  }

  lemma CommitKeepsPrior(r: Run, next: Link)
    ensures Prior(Commit(r, next).data) == Prior(r.data)
  {
    hide Try, Prior;
    TryElsewhere(r, Put(Token, Str(next.token)));
    TryElsewhere(Try(r, Put(Token, Str(next.token))), Put(Marker, Flag(true)));
  }

  /** Once both keys are written they read as the link's account. */
  lemma RememberReads(r: Run, link: Link)
    requires Remember(r, link).ok
    ensures Prior(Remember(r, link).data) == (link.account, link.accountRef)
  {
  }

  lemma OkBefore(r: Run, w: Write<Key>)
    requires Try(r, w).ok
    ensures r.ok
  {
  }

  lemma StagedOk(r: Run, token: Text, relinked: bool)
    requires Recover(DropLink(Stage(r, token, relinked))).ok
    ensures r.ok
  {
    hide Recover, Stage, DropLink;
    if !r.ok { StoppedStays(r, token, relinked); }
  }

  lemma StoppedStays(r: Run, token: Text, relinked: bool)
    requires !r.ok
    ensures Recover(DropLink(Stage(r, token, relinked))) == r && Recover(DropLink(r)) == r
  {
  }

  /** A link that another replaces is remembered by its account. */
  lemma ReplacedAccountIsRemembered(r: Run, next: Link)
    requires r.ok && Sound(r.data) && WriteLink(r, next).ok
    ensures var prior := ReadLink(Recover(r).data);
            prior.Some? && prior.value.token != next.token ==>
              Prior(WriteLink(r, next).data) == (prior.value.account, prior.value.accountRef)
    ensures ViewOf(r.data).held == [] && ReadLink(r.data).None? ==> Prior(WriteLink(r, next).data) == Prior(r.data)
  {
    hide Prior, Keeps, ViewOf, DropLink, Recover, ReadLink, SlotsFull, Remember, Stage, Commit, WriteFields, Recovered;
    var r1 := Recover(r);
    RecoverKeeps(r);
    Reading(r.data);
    var prior := ReadLink(r1.data);
    if !(prior.Some? && prior.value.token == next.token) {
      var staged := if prior.None? then r1 else Stage(Remember(r1, prior.value), prior.value.token, true);
      var c := Recover(DropLink(staged));
      DropKeepsPrior(staged);
      RecoverKeepsPrior(DropLink(staged));
      FieldsKeepPrior(c, next);
      CommitKeepsPrior(WriteFields(c, next), next);
      if prior.Some? {
        StageKeepsPrior(Remember(r1, prior.value), prior.value.token, true);
        CommittedOk(c, next);
        StagedOk(Remember(r1, prior.value), prior.value.token, true);
        RememberReads(r1, prior.value);
      }
    }
  }

  lemma CommittedOk(r: Run, next: Link)
    requires Commit(WriteFields(r, next), next).ok
    ensures r.ok
  {
    hide Tried;
  }

  /** And so is one that is unlinked. */
  lemma UnlinkedAccountIsRemembered(r: Run)
    requires r.ok && Sound(r.data) && PrepareUnlink(r).ok
    ensures var prior := ReadLink(Recover(r).data);
            prior.Some? ==> Prior(PrepareUnlink(r).data) == (prior.value.account, prior.value.accountRef)
    ensures ViewOf(r.data).held == [] && ReadLink(r.data).None? ==> Prior(PrepareUnlink(r).data) == Prior(r.data)
  {
    hide Prior, Keeps, ViewOf, DropLink, Recover, ReadLink, SlotsFull, Remember, Stage, Recovered, Try;
    var r1 := Recover(r);
    RecoverKeeps(r);
    Reading(r.data);
    var prior, active := ReadLink(r1.data), GetText(r1.data, Token);
    var r2 := if prior.None? then r1 else Remember(r1, prior.value);
    var r3 := Try(r2, Put(Unlinking, Flag(true)));
    var r4 := if active == [] then r3 else Stage(r3, active, false);
    var r5 := Recover(DropLink(r4));
    TryElsewhere(r2, Put(Unlinking, Flag(true)));
    StageKeepsPrior(r3, active, false);
    DropKeepsPrior(r4);
    RecoverKeepsPrior(DropLink(r4));
    TryElsewhere(r5, Del(Unlinking));
    if prior.Some? {
      OkBefore(r5, Del(Unlinking));
      if active != [] { StagedOk(r3, active, false); } else { DroppedOk(r3); }
      OkBefore(r2, Put(Unlinking, Flag(true)));
      RememberReads(r1, prior.value);
    }
  }

  lemma DroppedOk(r: Run)
    requires Recover(DropLink(r)).ok
    ensures r.ok
  {
    hide Recover, DropLink;
    if !r.ok { StoppedStays(r, [], false); }
  }
}
