/** What a boot does to the link: nothing, unless a token is held or an unlink was
    under way (lib/BoardInfo/DeviceIdentity.cpp). */
module LinkBoot {
  import opened Common
  import opened Storage
  import opened LinkStore
  import opened LinkSafety
  import opened LinkRuns

  /** A link stands, and nothing asks for it to go. */
  predicate AtRest(v: View) {
    v.held == [] && !v.unlinking
  }

  /** A boot of a whole link at rest writes nothing, whatever its power. */
  lemma WholeLinkIsLeftAlone(r: Run)
    requires r.ok && Sound(r.data) && AtRest(ViewOf(r.data)) && ReadLink(r.data).Some?
    ensures Boot(r) == r
  {
    hide Keeps, ViewOf, Recover, PrepareUnlink, GetText, GetFlag, ForgottenWrites, ReadLink, Recovered;
    RecoverKeeps(r);
    Reading(r.data);
  }

  /** With nothing held and no unlink half done, a boot leaves the link exactly as
      it reads, wherever it is cut. */
  lemma BootKeepsTheLink(r: Run)
    requires r.ok && Sound(r.data) && AtRest(ViewOf(r.data))
    ensures ReadLink(Boot(r).data) == ReadLink(r.data)
  {
    hide Keeps, ViewOf, Recover, PrepareUnlink, GetText, GetFlag, ForgottenWrites, ReadLink, Recovered;
    RecoverKeeps(r);
    Reading(r.data);
    if ReadLink(r.data).Some? {
      WholeLinkIsLeftAlone(r);
    } else {
      var n := Tried(r.data, ForgottenWrites(), r.power);
      ForgettingKeeps(r);
      Reading(n);
    }
  }

  /** With power on, the token of a whole link leaves it at a boot exactly when it
      was held for a revoke or an unlink was half done. */
  lemma TokenLeavesExactlyWhen(r: Run)
    requires Going(r, BOOT_WRITES) && Sound(r.data) && ViewOf(r.data).marker && ViewOf(r.data).token != []
    ensures var v, w := ViewOf(r.data), ViewOf(Boot(r).data);
            !(w.marker && w.token == v.token) <==> v.held != [] || v.unlinking
  {
    hide Going, Keeps, ViewOf, Recover, PrepareUnlink, GetText, GetFlag, ForgottenWrites, ReadLink;
    var v := ViewOf(r.data);
    GoingIsOk(r, BOOT_WRITES);
    Reading(r.data);
    if AtRest(v) {
      WholeLinkIsLeftAlone(r);
    } else {
      var r1 := Recover(r);
      RecoverKeeps(r);
      RecoverGoes(r, BOOT_WRITES);
      GoingIsOk(r1, UNLINK_WRITES + 5);
      Reading(r1.data);
      var r2 := r1;
      if GetFlag(r1.data, Unlinking) {
        r2 := PrepareUnlink(r1);
        PrepareUnlinkFailsExactlyWhen(r1, UNLINK_WRITES + 5);
        PrepareUnlinkKeeps(r1);
        RecoverKeeps(r1);
      } else {
        GoesFurther(r1, UNLINK_WRITES + 5, 5);
      }
      Reading(r2.data);
      assert !ViewOf(r2.data).marker;
      ForgottenForGood(r2, []);
      Reading(Boot(r).data);
    }
  }

  /** The answer that makes a revoke final: done, or refused for good; a request
      that timed out or came too often is tried again. */
  lemma SlotIsGivenUpExactlyWhen(r: Run, status: int, s: bool)
    requires Going(r, 4) && Sound(r.data) && ViewOf(r.data).At(s).token != []
    ensures var w := ViewOf(FinishRevoke(r, status, s).data);
            && (w.At(s).token == [] <==> status == 200 || (400 <= status <= 499 && status != 408 && status != 429))
            && (w.At(s).token != [] ==> w == ViewOf(r.data))
  {
    hide Going, ViewOf, Try, Keeps;
    GoingIsOk(r, 4);
    FinishRevokeKeeps(r, status, s);
    if RevokeIsFinal(status) {
      TryGoes(r, Del(SlotToken(s)), 4);
      TryGoes(Try(r, Del(SlotToken(s))), Del(SlotRelinked(s)), 3);
      var dropped := Try(Try(r, Del(SlotToken(s))), Del(SlotRelinked(s)));
      TryGoes(dropped, Del(SlotRetryAt(s)), 2);
      TryGoes(Try(dropped, Del(SlotRetryAt(s))), Del(SlotFailed(s)), 1);
      GoingIsOk(FinishRevoke(r, status, s), 0);
    }
  }
}
