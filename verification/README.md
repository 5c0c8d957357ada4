# Cyber Fidget firmware: verified core

A Dafny model of the parts of the Cyber Fidget firmware whose correctness is hard
to see by reading: the fixed-point audio engine (`lib/AudioEngine`), the crash-safe
WiFi store, the link store and the USB serial input (`lib/CloudSync`), the calendar
arithmetic of `CloudProtocol.cpp`, and the records, checksum and upload window of
the battery diary (`lib/BatteryDiary`).

`dafny verify dfyconfig.toml` checks everything.

## How it is built

Each part has a specification on values (datatypes and functions, with lemmas about
whole runs) and, where the firmware works step by step, classes and methods with
the same fields, loops and branches. Every such method is proved equal to the
specification function for all inputs, so what the lemmas say of the functions
holds of the code. What the functions themselves mean is stated without them: a wave
by its shape, a stop by what becomes of each voice, a change by the list before and
after, a checksum by the damage it refuses.

| files | part |
|---|---|
| `Common.dfy`, `Storage.dfy` | options and 32-bit numbers; bytes, texts, and the key/value flash: one write is atomic; a sequence of outcomes says which coming writes land, and a power cut is the case where none lands after the first that does not |
| `WifiList.dfy`, `HintText.dfy`, `WifiStore.dfy`, `StoreDamage.dfy`, `WifiStoreMethods.dfy` | the saved networks, and their two checksummed copies with flip key, marker and older keys; what the checksum refuses |
| `LinkStore.dfy`, `LinkSafety.dfy`, `LinkRuns.dfy`, `LinkFlags.dfy`, `LinkBoot.dfy`, `LinkPrior.dfy`, `LinkMethods.dfy`, `Pairing.dfy` | the stored link, the held token, the two revoke slots and their flags; the pairing conversation |
| `Fixed.dfy`, `Oscillator.dfy`, `SineTableData.dfy`, `Voice.dfy`, `Waves.dfy`, `Front.dfy`, `Sequencer.dfy`, `Tones.dfy`, `VoiceBank.dfy` | oscillators, enveloped voices, what their samples are, stealing, the tone sequencer and what a whole step list plays |
| `Mealy.dfy`, `Eq.dfy`, `Bus.dfy`, `MixBus.dfy`, `Levels.dfy` | master gain, DC blocker, EQ, make-up gain, limiter, clamp |
| `Stops.dfy`, `EngineState.dfy`, `Releases.dfy`, `Effects.dfy`, `Heard.dfy`, `Engine.dfy`, `StopProtocol.dfy`, `Mailbox.dfy` | stops and commands, what they do, posted releases over whole runs, what is heard of a note, the engine one sample at a time and as the object that renders blocks, the two cross-thread protocols as interleaved atomic steps |
| `LineSpec.dfy`, `LineInput.dfy`, `AddFrame.dfy`, `ScanList.dfy` | the serial line assembler with its quarantine, the `wifi add` payload, the nearby-network list |
| `Calendar.dfy`, `CalendarText.dfy` | day counting and the IMF-fixdate |
| `Crc16.dfy`, `DiaryRecord.dfy`, `ChargeCycle.dfy`, `UploadWindow.dfy` | diary records, charge cycles, and what an upload sends |

Integers are unbounded in Dafny: every 16-, 32- or 64-bit limit of the firmware is
written out, either as a modulus (clocks, counters, hashes) or as a proved bound.
C++ division rounds toward zero and right shifts round down; both are modelled as
such.

## What turned out not to hold

Each is stated with its condition, as an if-and-only-if except where noted.

- **A repair after an older image saved a network.** While the marker is set the
  older keys are not read. A repair save that is cut off right after writing the
  marker therefore forgets a network an older image had just saved. Repair is safe
  at every cut point exactly when the older keys agree with the list
  (`WifiStore.RepairIsSafeExactlyWhenOlderKeysAgree`); they disagree whenever an older
  image saves another network than the first one of a list saved in full
  (`WifiStore.OlderImageMakesThemDisagree`). Once a boot finishes, the store has
  settled, from whatever state (`WifiStore.FinishedBoot`, `WifiStore.EveryRunSettles`),
  and the older image's network is first exactly when its keys counted
  (`WifiStore.OlderImagesNetworkIsAdopted`).
- **Single failing writes.** Old-or-new holds for a power cut anywhere. With writes
  failing one by one it holds while the current copy is whole, and over a damaged
  current copy as long as that copy is not touched, or loses its old checksum and
  gets the new one only together with its nine other writes
  (`WifiStore.SaveIsOldOrNew`). Outside that a stale copy can pass again
  (`WifiStore.FailingWritesCanReviveAStaleCopy`). This one is not an
  if-and-only-if: in the patterns left over, a mixture of the copy's old and new
  content stands under a checksum made for one whole content, and whether it then
  passes is whether the mixture happens to have that 32-bit hash.
- **A link over a half-done unlink** can lose the old token without a revoke: it
  does at some cut point exactly when the unlink's token still hangs on the link
  alone, neither held nor in a slot (`LinkRuns.ReplacementIsSafeExactlyWhen`), which
  is what an unlink cut off after its own mark leaves (`LinkRuns.CutUnlinkIsHalfDone`).
  Every caller lets a boot resume the unlink first.
- **The linked account** is the one the grant names. The session shows the account of
  the site's first ask when the wearer agrees, and that is the one linked exactly
  when the grant names it (`Pairing.LinkedAsConfirmedExactlyWhen`), which nothing
  enforces (`Pairing.GrantMayNameAnother`, `Pairing.AnotherThanAgreedIsLinked`); the
  choice about clearing apps was made for the account shown.
- **A posted release does not always drop its queued start.** The engine remembers
  the last eight ids released through the slots, and a start is dropped exactly when
  its id is one of them (or a stop has overtaken it)
  (`Releases.StartIsDroppedExactlyWhen`). With eight later releases a start queued
  before its own release was posted starts all the same
  (`Releases.EightLaterReleasesLetItStart`).
- **Tones do not always end on their own time.** The starts are exact, but a tone
  that must wait for another's switch fade sounds after it with its whole gate, and
  so ends later by that fade. In a list the lateness of every tone follows from the
  steps alone (`Tones.TonesOfAListEnd`): it is what is left of the fade of the last
  tone that sounded before it, at most 88 samples, and nothing if both have the same
  number of harmonics (`Tones.LatenessBehind`, `Tones.LatenessIsShort`; every tone of
  3 ms sounds, `Tones.ThreeMsSound`; a list: `Tones.LateListIsLate`). On any voice
  state a tone ends on time exactly when there is no such fade
  (`Sequencer.TonesEndOnTimeExactlyWhen`).
- **The diary's checksum misses one pattern of two neighbouring damaged bytes**,
  because it is stored low byte first: 0x89 on the last body byte together with 0xA1
  on the checksum's low byte. Every other damage of one byte or two neighbours is
  refused (`DiaryRecord.DamageIsRefused`, `DiaryRecord.SomeDamageIsMissed`).

Where comments and code differ, the code is followed. The header of the audio engine
says a note continues without a fade when wave, level and pulse duty are unchanged;
the code also asks for the same number of soft-square harmonics. It calls the ring of
released ids exact because ids are never reused; the ring has eight places.
`writeLink` reports success without touching the other fields when the prior link
already has the new token. An HTTP date's year check (2020-2099) makes the century
half of the leap-year test and the 32-bit limit of the result unreachable.

## Model

| member | source | states |
|---|---|---|
| WifiStore.SaveIsOldOrNew | lib/CloudSync/WifiList.cpp:242-265 | from a store whose older keys agree, cut off after any number of its writes, a save leaves a store that reads as exactly the earlier list or exactly the new one, and whose older keys still agree; the same with writes failing one by one, unless the current copy is damaged, is written to, and either keeps its old checksum or gets the new one without all nine other writes; no assumption about checksum collisions |
| WifiStore.SaveFromAnyStore | lib/CloudSync/WifiList.cpp:242-265 | the same from every store: a save that wrote its marker leaves the list held, older keys aside, or the new one, and older keys that agree; one that did not changes nothing |
| WifiStore.CompletedSave | lib/CloudSync/WifiList.cpp:242-265 | a save that reports success, from any store at all: the new list reads back and stands whole in the current copy, nothing is to be repaired, the older keys hold exactly the first network and the marker is gone |
| WifiStore.SaveSucceedsExactlyWhen | lib/CloudSync/WifiList.cpp:242-265 | a save reports success if and only if all its fifteen writes land |
| WifiStore.FinishedBoot | lib/CloudSync/WifiList.cpp:183-265 | a boot that finishes, from any store, leaves exactly what it read, with nothing to repair, and older keys that agree |
| WifiStore.EveryRunSettles | lib/CloudSync/WifiList.cpp:183-265 | over any sequence of saves, boots and older images' saves from any store, each cut off anywhere: once a boot or save after the last older image's save finishes, the store reads as that boot's or save's list or as a later save's, and no save completed after that one |
| WifiStore.OlderImagesNetworkIsAdopted | lib/CloudSync/WifiList.cpp:220-265 | a network an older image saved is first once a boot finishes if and only if the older keys count in that store (no whole list, or no marker and an undamaged current copy) or it was first already |
| WifiStore.EveryRunKeepsOneList | lib/CloudSync/WifiList.cpp:183-265 | over any sequence of saves, boots and repair saves from a store whose older keys agree, each cut off anywhere, the store reads as the list of one save (or the first list), and no save that reported success came after that one: a completed save is never undone |
| WifiStore.OlderKeysAgreeExactlyWhen | lib/CloudSync/WifiList.cpp:220-238 | the older keys make no difference to what is read exactly when the marker is set, there is no whole list, the current copy was damaged, or they hold nothing or exactly the first network |
| WifiStore.RepairIsSafeExactlyWhenOlderKeysAgree | lib/CloudSync/WifiList.cpp:220-265 | saving back what was read keeps what is read at every cut point if and only if the older keys agree; otherwise a cut right after the marker forgets the network an older image had saved |
| WifiStore.OlderImageMakesThemDisagree | lib/CloudSync/WifiList.cpp:220-265 | after any completed save of a list and an older image's save of a network, that network is read first; the older keys agree if and only if it was the list's first already; and a repair cut off right after its marker reads as the list alone again |
| WifiStore.FailingWritesCanReviveAStaleCopy | lib/CloudSync/WifiList.cpp:198-215 | a concrete store, list and pattern of single failing writes (not a power cut) after which a damaged current copy passes again and a stale list is read: old-or-new does not extend to that case |
| WifiStore.CopyingIsSafe | lib/CloudSync/WifiList.cpp:141-166 | writing the target copy shows the old list until its last write lands, and then the new one if and only if the target is current; written in full, the copy reads back; for power cuts, and for failing writes that let nothing stale pass |
| WifiStore.AfterTheFlip | lib/CloudSync/WifiList.cpp:255-264 | once the flip key names a whole copy, every prefix of the remaining writes shows the new list |
| WifiStore.CutCopyHasNoSum | lib/CloudSync/WifiList.cpp:144-164 | a copy not written in full is untouched or has no checksum key, so it is never read, whatever the checksum function does: for every power cut, and for failing writes as long as no checksum stands after the first write and the last lands only with all ten |
| WifiStore.WholeCopyReadsBack | lib/CloudSync/WifiList.cpp:112-166 | a copy written in full reads back as exactly the list, hint included, whichever values its keys held before |
| WifiStore.ReadNetsReadsBack | lib/CloudSync/WifiList.cpp:119-155 | the stored names and passwords of a well-formed list read back one by one |
| WifiStore.ReadCopyFrame | lib/CloudSync/WifiList.cpp:112-139 | reading a copy depends on that copy's keys only |
| WifiStore.CopyWritesTouchOneCopy | lib/CloudSync/WifiList.cpp:141-166 | writing one copy, cut anywhere, leaves every key outside it as it was |
| WifiStore.LoadIsWellFormed | lib/CloudSync/WifiList.cpp:183-240 | whatever the store holds, what is read has unique non-empty names, at most three, and a hint only for a first network |
| WifiStore.NothingToRepairExactlyWhen | lib/CloudSync/WifiList.cpp:183-240 | a load asks for no repair if and only if the marker is gone, the current copy is whole and the older keys hold exactly its first network (as a completed save leaves it), or the store holds nothing |
| StoreDamage.StepIsOneToOne | lib/CloudSync/WifiList.cpp:89-93 | one step of the hash is one to one in the register and in the byte: the prime is odd |
| StoreDamage.ChecksumIsFnv | lib/CloudSync/WifiList.cpp:97-109 | the checksum is FNV-1a over bank letter and count, names, passwords and printed hint, each field closed by a byte no text holds |
| StoreDamage.OneByteShows | lib/CloudSync/WifiList.cpp:89-109 | one changed byte, wherever it is, always changes the hash |
| StoreDamage.DamagedCopyIsRefused | lib/CloudSync/WifiList.cpp:112-139 | a whole copy with one damaged byte in one of its names or passwords is never read |
| StoreDamage.DamagedHintIsRefused | lib/CloudSync/WifiList.cpp:112-139 | nor is one whose hint no longer parses or parses to one printed one byte apart |
| StoreDamage.OnlyItsOwnSumPasses | lib/CloudSync/WifiList.cpp:137-139 | a whole copy passes under exactly its own checksum; under any other, or none, it is not read |
| StoreDamage.DamageFallsBack | lib/CloudSync/WifiList.cpp:183-204 | with its current copy so damaged a store is read from the other whole copy, whatever the older keys hold, and a repair is asked for |
| StoreDamage.EarlierSaveIsRead | lib/CloudSync/WifiList.cpp:183-265 | after two completed saves and one damaged byte of the later one, exactly the earlier list is read and a repair is asked for |
| WifiStoreMethods.Mix | lib/CloudSync/WifiList.cpp:89-93 | the running 32-bit FNV-1a hash over one field and its end mark |
| WifiStoreMethods.ComputeChecksum | lib/CloudSync/WifiList.cpp:97-109 | the checksum loop computes the specification's checksum of bank letter, count, names, passwords and hint |
| WifiStoreMethods.Repeats | lib/CloudSync/WifiList.cpp:125-126 | true exactly when an earlier slot has the name |
| WifiStoreMethods.ReadNetsInto | lib/CloudSync/WifiList.cpp:119-128 | fills the array network by network and succeeds exactly when all names are present, non-empty and unique |
| WifiStoreMethods.ReadCopyInto | lib/CloudSync/WifiList.cpp:112-139 | reads one copy into the array; true exactly when the copy is whole, its checksum the one of what was read (see StoreDamage.OnlyItsOwnSumPasses), and the array is wiped otherwise |
| WifiStoreMethods.Adopt | lib/CloudSync/WifiList.cpp:223-231 | a network an older image saved goes first; the last one makes room when three others are saved |
| WifiStoreMethods.LoadInto | lib/CloudSync/WifiList.cpp:183-240 | the list and repair flag are those of the specification, for every store content; what damage and the older keys make of them is stated by StoreDamage.DamageFallsBack and WifiStore.NothingToRepairExactlyWhen |
| WifiStoreMethods.WriteCopy | lib/CloudSync/WifiList.cpp:141-166 | performs exactly the specified writes in order, goes on after a failing one, and reports success exactly when all landed |
| WifiStoreMethods.PickTarget | lib/CloudSync/WifiList.cpp:245-252 | the copy that is not the good one: never the only whole copy |
| WifiStoreMethods.WriteOlderKeys | lib/CloudSync/WifiList.cpp:257-263 | both older keys are written (or removed) even when the first write fails |
| WifiStoreMethods.Save | lib/CloudSync/WifiList.cpp:242-265 | the whole save: resulting store and answer are the specification's for every pattern of write outcomes |
| WifiList.EveryHistoryKeepsListOk | lib/CloudSync/WifiList.cpp:267-323 | after every history of add, forget, use-first and mark-joined: names unique and non-empty, at most three, the hint valid and only with a first network |
| WifiList.ChangeKeepsListOk | lib/CloudSync/WifiList.cpp:267-323 | each single change keeps that invariant |
| WifiList.AddDoes | lib/CloudSync/WifiList.cpp:267-285 | an added network is first and the others follow in order; the hint stays only with a network that was first; a name of 1 to 32 and a password of at most 64 bytes are needed, and a fourth name is refused |
| WifiList.ForgetDoes | lib/CloudSync/WifiList.cpp:287-293 | the answer is whether the name was there; afterwards it is not, the others are in order, and the hint went with a first network only |
| WifiList.UseFirstDoes | lib/CloudSync/WifiList.cpp:295-301 | the answer is true if and only if the name stands behind the first place; then that network is first, the others keep their order and the hint is gone; otherwise nothing changes |
| WifiList.MarkJoinedDoes | lib/CloudSync/WifiList.cpp:303-323 | the network joined is first, the others keep their order, the hint is exactly the place given if its channel is 1 to 14, and the answer is whether anything changed |
| WifiList.ForgetUndoesAdd | lib/CloudSync/WifiList.cpp:267-293 | forgetting a just-added new network restores the networks in their order (the hint is gone), whatever list it was added to |
| WifiList.FrontedKeepsAll | lib/CloudSync/WifiList.cpp:37-43 | moving a network to the front keeps exactly the same networks |
| WifiList.WithoutKeepsTheRest | lib/CloudSync/WifiList.cpp:24-28 | removing a slot keeps all other networks in order and only them |
| WifiList.Find | lib/CloudSync/WifiList.cpp:170-175 | the index found holds the name and is the first; -1 exactly when no network has it |
| WifiList.NetList.Wipe | lib/CloudSync/WifiList.cpp:177-181 | every slot is blank, whatever was there |
| WifiList.NetList.FindName | lib/CloudSync/WifiList.cpp:170-175 | the loop finds the specified index |
| WifiList.NetList.RemoveAt | lib/CloudSync/WifiList.cpp:24-29 | in place: the later networks move up and the freed slot is blanked |
| WifiList.NetList.InsertFront | lib/CloudSync/WifiList.cpp:31-36 | in place: all networks move down by one and the new one is first |
| WifiList.NetList.MoveFront | lib/CloudSync/WifiList.cpp:37-43 | in place: the network at the index goes first, the others keep their order |
| WifiList.NetList.AddNet | lib/CloudSync/WifiList.cpp:267-285 | list, hint and answer after an add, in every branch (invalid text, full, update, new) |
| WifiList.NetList.ForgetNet | lib/CloudSync/WifiList.cpp:287-293 | list, hint and answer after a forget; a freed slot holds no password |
| WifiList.NetList.UseNetFirst | lib/CloudSync/WifiList.cpp:295-301 | list, hint and answer after use-first, as WifiList.UseFirstDoes states them |
| WifiList.NetList.MarkJoined | lib/CloudSync/WifiList.cpp:303-323 | list, hint and answer after a join: the joined network first, the hint replaced or dropped |
| HintText.HintRoundTrip | lib/CloudSync/WifiList.cpp:67-87 | a valid hint printed as channel:address parses back to itself |
| HintText.AddressRoundTrip | lib/CloudSync/WifiList.cpp:384-406 | a hardware address printed in hex parses back to itself |
| HintText.DecimalRoundTrip | lib/CloudSync/WifiList.cpp:71-82 | the decimal channel parses back |
| HintText.PrintedHint | lib/CloudSync/WifiList.cpp:67-72 | the printed form: the channel in decimal without a leading zero, a colon, the address |
| HintText.PrintedAddress | lib/CloudSync/WifiList.cpp:384-391 | the address byte by byte in small hex digits, the high half first |
| HintText.ParsedHintOk | lib/CloudSync/WifiList.cpp:74-87 | a text that parses gives a channel of 1 to 14 |
| HintText.AddressToHex | lib/CloudSync/WifiList.cpp:384-391 | the loop prints the specified twelve digits |
| HintText.AddressFromHex | lib/CloudSync/WifiList.cpp:393-406 | accepts exactly twelve hex digits of either case and returns their address |
| HintText.HintToText | lib/CloudSync/WifiList.cpp:67-72 | the printed hint |
| HintText.HintFromText | lib/CloudSync/WifiList.cpp:74-87 | accepts exactly the specified texts: one or two digits, a colon, an address |
| LinkRuns.NoCredentialIsEverLost | lib/CloudSync/LinkSession.cpp:95-209 | over every history of linking, unlinking, booting, recovery on its own and answered revokes, each cut off anywhere: a committed token (active with its marker, held, or in a revoke slot) stays committed until a final answer to its own revoke; linking is only done with no unlink half done |
| LinkSafety.WriteLinkKeeps | lib/CloudSync/LinkSession.cpp:113-135 | wherever a link replacement is cut off: no committed token is lost; the link reads as nothing, as before or as the new record, never a mix; a slot with a new token carries no older retry time or failure flag; success means the new record reads back (or the prior link already had that token and is left as it was) |
| LinkSafety.PrepareUnlinkKeeps | lib/CloudSync/LinkSession.cpp:159-172 | wherever an unlink is cut off no committed token is lost; on success no link is left, nothing is held and the half-done mark is gone |
| LinkSafety.BootKeeps | lib/BoardInfo/DeviceIdentity.cpp:80-97 | wherever a boot is cut off no committed token is lost; on success nothing is held and no unlink is half done (what it leaves alone is LinkBoot's) |
| LinkBoot.WholeLinkIsLeftAlone | lib/BoardInfo/DeviceIdentity.cpp:80-97 | a boot of a whole link, nothing held and no unlink half done, writes nothing, whatever the power |
| LinkBoot.BootKeepsTheLink | lib/BoardInfo/DeviceIdentity.cpp:80-97 | with nothing held and no unlink half done, a boot cut off anywhere leaves the link exactly as it reads |
| LinkBoot.TokenLeavesExactlyWhen | lib/BoardInfo/DeviceIdentity.cpp:80-97 | with power on, the token of a whole link leaves it at a boot if and only if it was held or an unlink was half done |
| LinkSafety.FinishRevokeKeeps | lib/CloudSync/LinkSession.cpp:187-209 | an answered revoke gives up that slot's token only when the answer is final, and touches nothing else |
| LinkBoot.SlotIsGivenUpExactlyWhen | lib/CloudSync/LinkSession.cpp:187-209 | with power on, an answered revoke gives its slot up if and only if the status is 200 or in 400-499 but not 408 or 429; otherwise nothing changes |
| LinkPrior.ReplacedAccountIsRemembered | lib/CloudSync/LinkSession.cpp:113-135 | a replacement that succeeds over another active link leaves that link's account and reference as the prior ones; with none active it leaves the prior ones alone |
| LinkPrior.UnlinkedAccountIsRemembered | lib/CloudSync/LinkSession.cpp:159-172 | and so does an unlink that succeeds |
| LinkStore.RecoverKeeps | lib/CloudSync/LinkSession.cpp:95-111 | recovery, cut off anywhere, loses nothing, puts only the held token with its flag into a free slot, leaves every other slot's flag, and keeps the invariant that a held token equals a still present active one |
| LinkRuns.RecoveryFinishesAndIsIdempotent | lib/CloudSync/LinkSession.cpp:95-111 | with power on, recovery from every sound store succeeds and a second one changes nothing |
| LinkRuns.BootFinishesAndIsIdempotent | lib/BoardInfo/DeviceIdentity.cpp:80-97 | with power on, every boot of a sound store succeeds and booting again changes nothing |
| LinkRuns.WriteLinkFailsExactlyWhen | lib/CloudSync/LinkSession.cpp:113-135 | with power on, replacing a link fails if and only if another link is active, nothing is held and no revoke slot is free |
| LinkRuns.PairingNeverLacksASlot | lib/CloudSync/LinkSession.cpp:257-264 | if pairing may begin, storing the link never fails for want of a revoke slot |
| LinkRuns.PrepareUnlinkFailsExactlyWhen | lib/CloudSync/LinkSession.cpp:159-172 | with power on, unlinking fails if and only if, after recovery, there is a token to revoke and both slots are taken |
| LinkRuns.ReplacementIsSafeExactlyWhen | lib/CloudSync/LinkSession.cpp:113-126 | replacing a link loses no committed token at any cut point if and only if the store is not one where an unlink is half done, the link still stands, nothing is held and its token is in no slot |
| LinkRuns.ReplacementLosesNothing | lib/CloudSync/LinkSession.cpp:113-135 | from every other sound store, half-done unlinks included, a replacement cut off anywhere (or with writes failing one by one) loses no committed token |
| LinkRuns.CutUnlinkIsHalfDone | lib/CloudSync/LinkSession.cpp:159-168 | an unlink cut off right after its own mark leaves exactly such a store |
| LinkFlags.ReplacementFlags | lib/CloudSync/LinkSession.cpp:113-126 | wherever a replacement is cut off, a token held or in a slot before keeps the flag it had, even if it is also still the active one; any other token that left the link is revoked as relinked |
| LinkFlags.UnlinkFlags | lib/CloudSync/LinkSession.cpp:159-172 | wherever an unlink is cut off, a token held or in a slot before keeps the flag it had, even if it is also still the active one; any other token that left the link is revoked as unlinked |
| LinkMethods.RemoveLink | lib/CloudSync/LinkSession.cpp:98 | marker, then token are removed |
| LinkMethods.RecoverPendingRevoke | lib/CloudSync/LinkSession.cpp:95-111 | the recovery step by step is the specification's, store and answer, for every pattern of write outcomes |
| LinkMethods.PutInSlot | lib/CloudSync/LinkSession.cpp:102-109 | retry data removed, flag written, token written last |
| LinkMethods.RememberAccount | lib/CloudSync/LinkSession.cpp:77-83 | the prior account is remembered or its key removed |
| LinkMethods.StageRevoke | lib/CloudSync/LinkSession.cpp:85-87 | flag first, held token last |
| LinkMethods.SaveFields | lib/CloudSync/LinkSession.cpp:127-132 | the six fields are all tried and the answer is whether all landed |
| LinkMethods.StoreLink | lib/CloudSync/LinkSession.cpp:113-135 | the whole replacement is the specification's for every pattern of write outcomes |
| LinkMethods.CommitLink | lib/CloudSync/LinkSession.cpp:133-134 | token, then marker |
| LinkMethods.UnlinkStored | lib/CloudSync/LinkSession.cpp:159-172 | the whole unlink is the specification's for every pattern of write outcomes |
| LinkMethods.DropRevokeSlot | lib/CloudSync/LinkSession.cpp:198-209 | a slot is given up only on a final answer, token first |
| Storage.Device.Perform | lib/CloudSync/LinkSession.h:42-52 | one atomic write: it lands whole or leaves the store as it was, and the answer tells which |
| Pairing.EveryPhaseIsBacked | lib/CloudSync/LinkSession.cpp:10-59 | every phase of a pairing has its history behind it, place by place: Confirm shows the site's first ask; Linked comes only after, in this order, that ask, the wearer's first answer being yes, a choice about the apps if the account asked about is another, a grant of a 43-byte token, and its storing, with no expiry or other reply between; the session's fields are exactly those of that ask and that grant |
| Pairing.OverIsOver | lib/CloudSync/LinkSession.cpp:13-14 | a linked or declined session never changes again; an expired or failed one never links |
| Pairing.AppsAreAskedAbout | lib/CloudSync/LinkSession.cpp:37-45 | the wearer is asked about the apps by reference when both are known, whatever the names, by name when one is not, never on a first link and never for the same account |
| Pairing.GrantMayNameAnother | lib/CloudSync/LinkSession.cpp:27-33 | after any history that waits for a grant, a grant links the account it names, whatever the wearer confirmed, and the choice about the apps stands |
| Pairing.LinkedAsConfirmedExactlyWhen | lib/CloudSync/LinkSession.cpp:10-59 | over all histories that end linked: at the place the wearer agreed the session showed exactly the account and reference of the first ask, and the account linked is that one if and only if the grant names it |
| Pairing.LinkedExactlyWhen | lib/CloudSync/LinkSession.cpp:10-59 | a history ends linked if and only if it goes that one way |
| Pairing.AnotherThanAgreedIsLinked | lib/CloudSync/LinkSession.cpp:10-45 | a concrete history: the site asks about one account, the wearer agrees to it, and another is linked |
| Pairing.PairSession.OnReply | lib/CloudSync/LinkSession.cpp:10-35 | a reply in every phase: the whole new state, as the history lemmas use it |
| Pairing.PairSession.OnAnswer | lib/CloudSync/LinkSession.cpp:37-45 | the wearer's answer: the whole new state, as the history lemmas use it |
| Pairing.PairSession.OnClear | lib/CloudSync/LinkSession.cpp:47-51 | the decision about the apps: the whole new state, as the history lemmas use it |
| Pairing.PairSession.OnExpire | lib/CloudSync/LinkSession.cpp:53-55 | expiry: the whole new state, as the history lemmas use it |
| Pairing.PairSession.OnStored | lib/CloudSync/LinkSession.cpp:57-59 | the stored link: the whole new state, as the history lemmas use it |
| EngineState.BlockSizesDoNotMatter | lib/AudioEngine/AudioEngine.cpp:906-928 | rendering a then b samples gives the same samples and final state as rendering a + b, across stage changes, gates, switch fades, sequence boundaries, ramps and filters |
| AudioEngine.AudioEngine.RenderBlock | lib/AudioEngine/AudioEngine.cpp:906-928 | chunks of 256, segments up to a boundary, runs within a stage and bus stage after bus stage give exactly the one-sample machine's samples and state; every sample is within 32700 and the clip counter does not move (what the samples are is stated in Waves and Heard) |
| AudioEngine.AudioEngine.RenderChunk | lib/AudioEngine/AudioEngine.cpp:908-926 | the same for one chunk, written at its place only |
| EngineState.EveryRunStaysInRange | lib/AudioEngine/AudioEngine.cpp:337-928 | over every run of commands, stops, hand-offs and renders from a sound engine: every sample within +/-32700, the clip counter unchanged, and all envelopes, gains, counters and filter states in range |
| AudioEngine.NeverClips | lib/AudioEngine/AudioEngine.cpp:899-903 | the saturating clamp never acts |
| Heard.OneVoiceIsHeard | lib/AudioEngine/AudioEngine.cpp:848-928 | a voice alone in an engine at unity is heard, in renders of any length, as its own samples with direct current blocked (y = x - x' + 32604/32768 y'), bit for bit up to the limiter's knee |
| Heard.HeldNoteIsHeard | lib/AudioEngine/AudioEngine.cpp:453-515 | on a fresh engine a full-level note on any voice is heard as its wave from the start of a cycle, one increment of phase a sample, with direct current blocked |
| Heard.PulseIsHeard | lib/AudioEngine/AudioEngine.cpp:704-739 | the first sample of a full-level pulse of any pitch and non-zero duty is 24000 |
| Heard.PoleRoundsTowardZero | lib/AudioEngine/AudioEngine.cpp:120-125 | the pole is 32604/32768 rounded toward zero, the same for either sign |
| AudioEngine.AudioEngine.constructor | lib/AudioEngine/AudioEngine.cpp:296-326 | an engine is built silent, at unity, with nothing pending, stopped or remembered |
| Levels.VolumeScales | lib/AudioEngine/AudioEngine.cpp:853-857 | a sample at volume g is a * g / 2^30 up to the fifteen low bits of the volume, exact at full volume and none |
| Levels.RampIsEven | lib/AudioEngine/AudioEngine.cpp:614-627 | a volume change moves by a 441st of the way a sample, rounded toward zero |
| Levels.MakeUpScales | lib/AudioEngine/AudioEngine.cpp:878-883 | the make-up gain is gain/256 rounded down, saturating at 2^24, and only with the EQ on |
| Levels.OpenLimiterFollowsTheCurve | lib/AudioEngine/AudioEngine.cpp:884-897 | from an open limiter a sample of peak up to 30000 is unchanged and one above comes out at 30000 plus a quarter of the rest, at most 32700, with its sign, low by under one unit and one for every 32768 of it |
| Levels.LimiterOpensSlowly | lib/AudioEngine/AudioEngine.cpp:885-889 | a partly closed limiter opens by a 1024th of what is left a sample, and all of it once less than 1024 is left |
| AudioEngine.ChunkIsSamples | lib/AudioEngine/AudioEngine.cpp:913-924 | front end over a chunk, then bus over the chunk, is the engine sample by sample |
| EngineState.StopAllSilences | lib/AudioEngine/AudioEngine.cpp:558-569 | after a pending stop-all every voice is idle and no sequence plays within 220 samples of the render that applies it, if nothing newer is applied |
| EngineState.StopAllFadesAll | lib/AudioEngine/AudioEngine.cpp:371-393 | a stop-all applied together with any other stops fades every voice |
| Effects.VoicesAfterStops | lib/AudioEngine/AudioEngine.cpp:362-393 | every voice after any pending stops together: exactly those covered (posted id, tone voice under a tone stop, id under a note stop) are let go over their own release, under a stop-all every one fades over 220 samples, all others are untouched |
| Effects.SequenceAfterStops | lib/AudioEngine/AudioEngine.cpp:371-393 | the sequence plays on exactly if neither it nor everything is stopped, and a stopped one publishes the requested tag |
| Effects.OneStopDoes | lib/AudioEngine/AudioEngine.cpp:337-393 | one stop asked of an engine with none pending: a tone stop lets go the tone voice and no other, a note stop every voice with an id and no other, a sequence stop ends the sequence under its tag and touches no voice, a stop-all fades every voice and ends the sequence |
| Effects.RequestMoves | lib/AudioEngine/AudioEngine.cpp:337-340 | a request moves its own counter and, for a sequence, the tag, and nothing else |
| Effects.CoveredVoicesEnd | lib/AudioEngine/AudioEngine.cpp:362-393 | a covered voice is idle once its release has run, as long as no sequence boundary falls |
| Effects.StoppedSequenceStaysStopped | lib/AudioEngine/AudioEngine.cpp:371-393 | a stopped sequence does not play, and its tag stands, at every later sample until something newer is applied |
| Effects.CommandVoices | lib/AudioEngine/AudioEngine.cpp:420-437 | what each command does to every voice: note-off and note-off by id let go exactly theirs, all-off fades every one, a start touches only its voice, the others none |
| Effects.CommandSequence | lib/AudioEngine/AudioEngine.cpp:420-437 | and to the sequence: a start of the pending list under its tag, a stop under the given tag, the end by an all-off, and no other change |
| Effects.CommandVolume | lib/AudioEngine/AudioEngine.cpp:614-627 | a volume command is at its place at once when nothing sounds, else ramps there over 441 samples; no other command moves the gain |
| Effects.CommandEq | lib/AudioEngine/AudioEngine.cpp:629-663 | a band is staged in its place; taking the bands clears their states and switches them on as asked, or the EQ off when one is unstable or a number is out of range; no other command touches it |
| Effects.NoteTakesOneVoice | lib/AudioEngine/AudioEngine.cpp:453-485 | a start that is not dropped takes exactly the voice asked for or picked, which then carries its id, the next stamp and its level clamped to 256 |
| Effects.StepPlays | lib/AudioEngine/AudioEngine.cpp:596-612 | a step sounds as a soft square of its pitch at level 230, 132 samples of attack, its own length and 220 samples of release |
| EngineState.AppliedOk | lib/AudioEngine/AudioEngine.cpp:420-437 | every command keeps the engine sound |
| StopProtocol.StartsPassExactlyWhenNotStopped | lib/AudioEngine/AudioEngine.cpp:337-407 | for every interleaving, with fewer than 2^32 stops of a kind while it waits: a queued start passes the stale check if and only if no stop covering it was requested between its stamp and the counter load that opens its apply |
| StopProtocol.StaleCountsStops | lib/AudioEngine/AudioEngine.cpp:396-407 | without that bound: dropped if and only if the number of covering stops in between is not a multiple of 2^32 |
| StopProtocol.KindsAreSeparate | lib/AudioEngine/AudioEngine.cpp:337-340 | stops of one kind never move another kind's counter |
| StopProtocol.EpochCounts | lib/AudioEngine/AudioEngine.cpp:337-340 | a counter moves by exactly the stops requested, modulo 2^32 |
| StopProtocol.AppliedIsLastLoaded | lib/AudioEngine/AudioEngine.cpp:371-390 | the applied value is the counter at its last load |
| Releases.StartIsDroppedExactlyWhen | lib/AudioEngine/AudioEngine.cpp:453-460 | over every run of commands, stops, posts and renders from an engine that has released nothing: a start with an id is dropped if and only if a stop has overtaken it or its id is among the last eight released through the slots; otherwise it starts |
| Releases.RunRemembers | lib/AudioEngine/AudioEngine.cpp:362-370 | over every run the ring of remembered ids holds exactly the last eight released, in order |
| Releases.RingTells | lib/AudioEngine/AudioEngine.cpp:457-460 | the loop over the ring finds an id if and only if it is one of the last eight |
| Releases.PostedIsReleased | lib/AudioEngine/AudioEngine.cpp:328-370 | an accepted release waits in its slot, or has been released since its post, at every later point of every run |
| Releases.PostedStartIsDropped | lib/AudioEngine/AudioEngine.h:240-245 | the start of a posted id that is still queued is dropped, as long as at most eight ids are released from the post to then |
| Releases.EightLaterReleasesLetItStart | lib/AudioEngine/AudioEngine.h:357-360 | the exact limit on concrete runs: a start queued before its release was posted is dropped after it if and only if fewer than eight other ids have been released since; with eight it starts all the same |
| Releases.BurstLog | lib/AudioEngine/AudioEngine.cpp:328-370 | ids posted one by one with a sample rendered after each are released exactly in that order |
| Stops.StaleMeansMoved | lib/AudioEngine/AudioEngine.cpp:342-407 | a start is stale exactly when a covering counter moved since its stamp |
| Stops.StopsApplyOnce | lib/AudioEngine/AudioEngine.cpp:362-393 | after applying, nothing is left to apply; applying again changes nothing |
| Mailbox.NeverBothInside | lib/AudioEngine/AudioEngine.cpp:249-282 | in every interleaving of claims, single entry writes, commit, tag check and single entry copies the two threads are never in the buffer at once |
| Mailbox.TakeReturnsTheLastCommitted | lib/AudioEngine/AudioEngine.cpp:262-282 | a successful take returns exactly the whole list as last committed, and that commit's tag is the one the take asked for when it began |
| Mailbox.TakeWasOpened | lib/AudioEngine/AudioEngine.cpp:262-282 | a take in progress works with the tag it was begun with |
| Mailbox.MismatchLeavesTheList | lib/AudioEngine/AudioEngine.cpp:270-277 | a take that asked for another tag leaves the newer list waiting and untouched |
| Mailbox.BusyOnlyWhileCopying | lib/AudioEngine/AudioEngine.cpp:249-260 | the producer is kept out only by a take in progress |
| Mailbox.EveryBoxOk | lib/AudioEngine/AudioEngine.cpp:249-282 | the hand-off invariant after every step of every interleaving |
| Eq.EqSample | lib/AudioEngine/AudioEngine.cpp:817-845 | the split 32-bit accumulators give, bit for bit, clamp((b0 x + b1 x1 + b2 x2 - a1 y1 - a2 y2) >> 29) over unbounded integers, in all three forms |
| Eq.BandIsItsEquation | lib/AudioEngine/AudioEngine.cpp:817-846 | from silence every output is floor((b0 x[n] + b1 x[n-1] + b2 x[n-2] - a1 y[n-1] - a2 y[n-2]) / 2^29) within 2^24, on the signal's own history |
| Eq.EqTerm | lib/AudioEngine/AudioEngine.cpp:112-117 | one multiply-accumulate keeps hi and lo in 32 bits and their meaning exact |
| Eq.OuterTerms | lib/AudioEngine/AudioEngine.cpp:825-830 | the b0 and b2 terms, separately or joined, hold the same sum |
| Eq.MiddleTerms | lib/AudioEngine/AudioEngine.cpp:831-836 | the b1 and a1 terms, separately or joined, hold the same sum |
| Eq.HeldSumIsFloored | lib/AudioEngine/AudioEngine.cpp:801-838 | high words plus carried low words are the exact floor of the whole sum, within 32 bits |
| Eq.EqRun | lib/AudioEngine/AudioEngine.cpp:817-846 | one band over a block in place is the plain filter sample by sample; the x8 states divide back exactly |
| Eq.BandTickOk | lib/AudioEngine/AudioEngine.cpp:106-117 | a band's states stay within 2^24 for every accepted setting |
| Eq.BandByBand | lib/AudioEngine/AudioEngine.cpp:866-874 | band after band over a block is sample after sample through the bands |
| Eq.EqBlock | lib/AudioEngine/AudioEngine.cpp:866-874 | the enabled bands over a block in place; samples stay within 2^24 |
| Bus.DcStaysBounded | lib/AudioEngine/AudioEngine.cpp:859-863 | the DC blocker's output never exceeds twice the mix bound; the invariant is on output minus input |
| Bus.MixTickOk | lib/AudioEngine/AudioEngine.cpp:852-864 | master gain within [0, 2^30] and no 32/64-bit overflow, for every input within the mix bound |
| Bus.RampLandsOnTarget | lib/AudioEngine/AudioEngine.cpp:614-627 | after a volume change the gain moves evenly and is exactly on target after 441 samples |
| Bus.SetMasterOk | lib/AudioEngine/AudioEngine.cpp:614-627 | a volume change keeps the gain stage sound |
| Bus.SilenceDecaysToZero | lib/AudioEngine/AudioEngine.cpp:120-125 | the pole's rounding toward zero lets the filter state die out to exactly 0 |
| Bus.LimitedPeak | lib/AudioEngine/AudioEngine.cpp:884-897 | for every gain in (0, 2^30] and input up to 2^24 the limited sample is within 32700 |
| Bus.OutTickOk | lib/AudioEngine/AudioEngine.cpp:878-902 | make-up gain, limiter and clamp from every state: output within 32700, clip counter unchanged, gain in (0, 2^30] |
| Bus.QuietPassesUnchanged | lib/AudioEngine/AudioEngine.cpp:883-897 | below the knee at unity gain samples pass bit for bit |
| Bus.GapCloses | lib/AudioEngine/AudioEngine.cpp:885-889 | a gap of at most 1024 * 2^k to unity is closed exactly within 1024 k + 2 samples |
| Bus.LimiterReturnsToUnity | lib/AudioEngine/AudioEngine.cpp:885-889 | once the input stays under the knee the gain is exactly 1 again within 20482 samples, from every state |
| MixBus.StageByStage | lib/AudioEngine/AudioEngine.cpp:848-904 | the bus stage by stage over a block is sample by sample through all stages |
| MixBus.BusTickOk | lib/AudioEngine/AudioEngine.cpp:851-904 | one sample keeps every bus stage in range and the output within the ceiling |
| MixBus.Mixer.SetMasterVolume | lib/AudioEngine/AudioEngine.cpp:614-627 | target, step and ramp length, or the target at once when nothing sounds |
| MixBus.Mixer.SetEqBand | lib/AudioEngine/AudioEngine.cpp:629-631 | the staged band, out-of-range indices ignored |
| MixBus.Mixer.SettingIsValid | lib/AudioEngine/AudioEngine.cpp:633-646 | true exactly for 0-4 bands, each inside the stability triangle, and a gain of 0-4096 |
| MixBus.Mixer.CommitEq | lib/AudioEngine/AudioEngine.cpp:648-663 | staged bands taken with cleared states, or flat when out of range |
| MixBus.Mixer.MixSample | lib/AudioEngine/AudioEngine.cpp:853-863 | one sample of gain and DC blocker |
| MixBus.Mixer.FollowPeak | lib/AudioEngine/AudioEngine.cpp:885-895 | the limiter's gain: recovery first, then the attack |
| MixBus.Mixer.OutSample | lib/AudioEngine/AudioEngine.cpp:879-901 | one sample of make-up gain, limiter and clamp, with the clip counted |
| MixBus.Mixer.MixBlock | lib/AudioEngine/AudioEngine.cpp:852-864 | the first stage over a block |
| MixBus.Mixer.OutBlock | lib/AudioEngine/AudioEngine.cpp:878-903 | the last stage over a block |
| MixBus.Mixer.Process | lib/AudioEngine/AudioEngine.cpp:851-904 | the whole bus over a block equals the one-sample bus run over it |
| Sequencer.StepsStartOnTime | lib/AudioEngine/AudioEngine.cpp:594-612 | drift-free: n samples after a start, step k has begun if and only if n >= floor(44.1 * the ms before it), for up to 128 steps; the sequence plays exactly until the sum over all of them |
| Sequencer.TonesEndAfterTheFade | lib/AudioEngine/AudioEngine.cpp:596-612 | a step's tone has ended exactly from floor(44.1 * (ms before + duration)) on, plus the fade of a tone it could not follow at once |
| Sequencer.TonesEndOnTimeExactlyWhen | lib/AudioEngine/AudioEngine.cpp:467-483 | tones end on their own time if and only if that fade is empty (idle or silent voice, or same number of harmonics) |
| Tones.GaplessChangeIsLate | lib/AudioEngine/AudioEngine.cpp:467-483 | in any list, a tone with no gap behind one that has sounded with another number of harmonics is late by a whole switch fade, 88 samples |
| Tones.ListFollowsItsPlan | lib/AudioEngine/AudioEngine.cpp:453-612 | started on an idle tone voice, a list of up to 128 steps plays, sample after sample, the plan its steps alone determine: which tone holds, fades or waits, and until when |
| Tones.TonesOfAListEnd | lib/AudioEngine/AudioEngine.cpp:453-612 | each tone of the list, seen up to the next step, has ended exactly from floor(44.1 * (ms before + duration)) plus its lateness on |
| Tones.LatenessFromTheGap | lib/AudioEngine/AudioEngine.cpp:467-483 | a tone right behind one that has sounded is late if and only if the number of harmonics changes and the other's 220-sample release, itself late or not, outlasts the gap; then by what is left of it, at most 88 samples |
| Tones.LatenessBehind | lib/AudioEngine/AudioEngine.cpp:453-550 | any tone, rests and tones too short to sound in between included, is late by what is left of the fade of the last tone that sounded, at most 88 samples, unless both have the same number of harmonics; that fade starts at the tone's end or at the next step, whichever is first |
| Tones.ThreeMsSound | lib/AudioEngine/AudioEngine.cpp:594-612 | a tone of at least 3 ms has always sounded before the next step begins |
| Tones.LatenessIsShort | lib/AudioEngine/AudioEngine.cpp:467-483 | no tone of any list is late by more than 88 samples: delays do not add up |
| Tones.FirstToneIsNotLate | lib/AudioEngine/AudioEngine.cpp:453-483 | a tone that nothing sounded before, the first on an idle voice above all, is on time |
| Tones.DelayIsLateness | lib/AudioEngine/AudioEngine.cpp:596-612 | at a step's boundary the running sequencer stands before a tone that waits exactly the lateness computed from the list |
| Tones.LateListIsLate | lib/AudioEngine/AudioEngine.cpp:467-483 | a concrete two-step list (100 ms each, no gap, seven harmonics then one) whose second tone, started on any idle voice, waits 88 samples and ends at sample 8908 instead of 8820 |
| Sequencer.ToneEnds | lib/AudioEngine/AudioEngine.cpp:788-792 | a tone on any voice state ends exactly when the fade before it and then its gate have run out |
| Sequencer.StretchToBoundary | lib/AudioEngine/AudioEngine.cpp:913-921 | a segment up to the next boundary at once is the same as its samples one by one, boundaries fired at its end |
| Front.CountersFit | lib/AudioEngine/AudioEngine.cpp:602-606 | no 32-bit sequencer counter wraps |
| Front.FireOk | lib/AudioEngine/AudioEngine.cpp:596-612 | a fired boundary keeps the invariant and schedules the next one |
| Front.SettleSettles | lib/AudioEngine/AudioEngine.cpp:914 | zero-length steps chain and end |
| Front.StealingPolicy | lib/AudioEngine/AudioEngine.cpp:439-451 | lowest idle voice; else the quietest releasing; else the oldest note, as long as no stamp is more than half the counter's range old |
| Front.MixBounded | lib/AudioEngine/AudioEngine.cpp:796-799 | the mix of eight voices is within eight times the oscillator peak |
| Voice.RunIsTicks | lib/AudioEngine/AudioEngine.cpp:745-794 | a run taken at once equals its samples one by one, through stage ends, gates and waiting notes |
| Voice.OutBounded | lib/AudioEngine/AudioEngine.cpp:739 | every sample is within the soft square's weight sum 59054 and every product fits 32 bits |
| Voice.TickOk | lib/AudioEngine/AudioEngine.cpp:745-794 | envelopes stay in [0, 2^24] and slopes never overshoot, sample after sample |
| Voice.TakeNoteOk | lib/AudioEngine/AudioEngine.cpp:453-516 | a note taking a voice, at once or after a fade, keeps it in range |
| Voice.ReleaseLasts | lib/AudioEngine/AudioEngine.cpp:532-543 | a release takes exactly its samples and ends silent and idle |
| Voice.AttackLasts | lib/AudioEngine/AudioEngine.cpp:507-515 | an attack reaches exactly full level after exactly its length |
| Voice.GateLasts | lib/AudioEngine/AudioEngine.cpp:788-791 | a gated note is released exactly when its gate has run out |
| Voice.FadeOutSilences | lib/AudioEngine/AudioEngine.cpp:558-564 | wherever a voice is, a stop-all's fade leaves it idle within 220 samples |
| Waves.SampleOfAStage | lib/AudioEngine/AudioEngine.cpp:698-743 | within a stage and a gate the k-th sample is the wave k increments on, times the envelope moved evenly by k + 1 steps and the level, to within four units; exactly the wave at full envelope and level |
| Waves.ShapedIsClose | lib/AudioEngine/AudioEngine.cpp:739 | a scaled sample is within four units of raw * env * level / 2^32 for every envelope and level |
| Waves.ShapedAtUnity | lib/AudioEngine/AudioEngine.cpp:739 | at full envelope and unity level it is the raw sample |
| Waves.RawIsTheWave | lib/AudioEngine/AudioEngine.cpp:705-736 | each wave by its shape: a pulse high exactly below its duty, the triangle's four quarters, the saw's two halves, the sine of the table, the soft square as its harmonic sum |
| Waves.TriangleIsOdd | lib/AudioEngine/AudioEngine.cpp:707-710 | the triangle crosses zero upward where the cycle begins, peaks a quarter on, and its second half is its first upside down |
| Waves.SineIsTheTable | lib/AudioEngine/AudioEngine.cpp:62-68 | the sine is the table's value at a table point and the straight line to the next, rounded down, between |
| Waves.SoftSumIsHarmonicSum | lib/AudioEngine/AudioEngine.cpp:723-733 | the soft square is the weighted sum of the sine at the odd multiples of the phase |
| Waves.WeightsFallLikeASquare | lib/AudioEngine/AudioEngine.cpp:46-54 | the weights of the kept harmonics are 1, 1/3, 1/5, 1/7 of the first, to rounding, and the others zero |
| Waves.HarmonicsKept | lib/AudioEngine/AudioEngine.cpp:70-75 | harmonic 2k + 1 is kept if and only if (2k + 1) * inc is at or below the increment of 10 kHz |
| Waves.RegisterShifts | lib/AudioEngine/AudioEngine.cpp:717-721 | the noise register shifts down, its new top bit the difference of its two lowest |
| Waves.RegistersStayApart | lib/AudioEngine/AudioEngine.cpp:717-721 | no two noise registers lead to the same one |
| Waves.NoiseIs | lib/AudioEngine/AudioEngine.cpp:714-722 | noise holds its value within a cycle; at its end the register moves on and its low bit chooses between 20000 and -20000 |
| Waves.NoteBegins | lib/AudioEngine/AudioEngine.cpp:492-530 | a note on an idle voice: its own wave, pitch, duty, harmonics and level from the start of a cycle, an even rise over its attack, an even fall to its sustain level over its decay, or that level at once |
| Waves.WhatFollows | lib/AudioEngine/AudioEngine.cpp:771-786 | an attack ends at full level, a decay exactly at the sustain level, a release in silence |
| Waves.LikeNoteContinues | lib/AudioEngine/AudioEngine.cpp:470-516 | a note like the sounding one but for its pitch follows without a break in phase or level |
| Waves.OtherNoteWaits | lib/AudioEngine/AudioEngine.cpp:465-490 | any other note waits for the sounding one to fade, over 88 samples or what is left of a shorter release, and then begins from silence |
| Oscillator.SineBetweenNeighbours | lib/AudioEngine/AudioEngine.cpp:62-68 | the interpolated sine lies between its table neighbours and its product fits 32 bits |
| Oscillator.SoftSumFits | lib/AudioEngine/AudioEngine.cpp:723-733 | the soft square's sum fits 32 bits; its peak is the weight sum |
| Oscillator.OneHarmonicIsTheSine | lib/AudioEngine/AudioEngine.cpp:46-50 | with one harmonic the soft square is exactly the sine |
| Oscillator.LfsrNeverSticks | lib/AudioEngine/AudioEngine.cpp:717-721 | the noise register never reaches 0 and stays within 15 bits |
| SineTableData.FirmwareTableIsASineTable | lib/AudioEngine/AudioEngine.cpp:18-44 | the 257-entry table meets the bounds the oscillator proofs need |
| VoiceBank.VoiceBank.BeginDecay | lib/AudioEngine/AudioEngine.cpp:518-530 | a voice entering decay |
| VoiceBank.VoiceBank.BeginRelease | lib/AudioEngine/AudioEngine.cpp:532-543 | a voice entering release |
| VoiceBank.VoiceBank.BeginNote | lib/AudioEngine/AudioEngine.cpp:492-516 | a note starting on a voice |
| VoiceBank.VoiceBank.BeginPending | lib/AudioEngine/AudioEngine.cpp:487-490 | the waiting note starting |
| VoiceBank.VoiceBank.EndNote | lib/AudioEngine/AudioEngine.cpp:545-550 | a note released, its waiting successor dropped |
| VoiceBank.VoiceBank.OscRun | lib/AudioEngine/AudioEngine.cpp:698-743 | run samples are added in place, exactly the oscillator's, whose shape Waves.SampleOfAStage gives |
| VoiceBank.VoiceBank.FinishRun | lib/AudioEngine/AudioEngine.cpp:771-792 | counters and stage changes after a run |
| VoiceBank.VoiceBank.RenderRun | lib/AudioEngine/AudioEngine.cpp:745-770 | one run: as long as stage and gate allow |
| VoiceBank.VoiceBank.RenderVoice | lib/AudioEngine/AudioEngine.cpp:745-794 | n samples of one voice |
| VoiceBank.VoiceBank.RenderVoices | lib/AudioEngine/AudioEngine.cpp:796-799 | n samples of all voices are added to the buffer |
| VoiceBank.VoiceBank.Pick | lib/AudioEngine/AudioEngine.cpp:439-451 | the voice the policy picks |
| VoiceBank.VoiceBank.TakeVoice | lib/AudioEngine/AudioEngine.cpp:465-484 | a note taking a given voice |
| VoiceBank.VoiceBank.PlayNote | lib/AudioEngine/AudioEngine.cpp:453-485 | a note for a given or any voice |
| VoiceBank.VoiceBank.EndNoteId | lib/AudioEngine/AudioEngine.cpp:552-556 | all voices with that note id released |
| VoiceBank.VoiceBank.EndNotes | lib/AudioEngine/AudioEngine.cpp:391-392 | all tagged notes released |
| VoiceBank.VoiceBank.SilenceAll | lib/AudioEngine/AudioEngine.cpp:558-569 | every voice fading, the sequence off |
| VoiceBank.VoiceBank.PlaySequence | lib/AudioEngine/AudioEngine.cpp:575-586 | a taken list starts at its first step |
| VoiceBank.VoiceBank.EndSequence | lib/AudioEngine/AudioEngine.cpp:588-592 | the sequence stops under its tag |
| VoiceBank.VoiceBank.AdvanceStep | lib/AudioEngine/AudioEngine.cpp:602-606 | clock bookkeeping of a step |
| VoiceBank.VoiceBank.FireSequence | lib/AudioEngine/AudioEngine.cpp:596-612 | one boundary |
| VoiceBank.VoiceBank.FireDue | lib/AudioEngine/AudioEngine.cpp:914 | all boundaries due |
| VoiceBank.VoiceBank.RenderSegment | lib/AudioEngine/AudioEngine.cpp:915-920 | one segment: up to the next boundary |
| VoiceBank.VoiceBank.Clear | lib/AudioEngine/AudioEngine.cpp:911 | the mix buffer zeroed |
| VoiceBank.VoiceBank.RenderFront | lib/AudioEngine/AudioEngine.cpp:911-921 | the front end over a chunk: samples and state those of the one-sample machine |
| AudioEngine.AudioEngine.RequestStop | lib/AudioEngine/AudioEngine.cpp:337-340 | one counter moves by one, modulo 2^32 |
| AudioEngine.AudioEngine.PostNoteRelease | lib/AudioEngine/AudioEngine.cpp:328-335 | the id is in the first free slot, or the answer is no |
| AudioEngine.AudioEngine.DrainSlots | lib/AudioEngine/AudioEngine.cpp:363-370 | every posted release applied in slot order and remembered |
| AudioEngine.AudioEngine.ApplyPendingStops | lib/AudioEngine/AudioEngine.cpp:362-393 | all pending stops applied in the fixed order, to the effect Effects.VoicesAfterStops and Effects.SequenceAfterStops state |
| AudioEngine.AudioEngine.EndTone | lib/AudioEngine/AudioEngine.cpp:382-385 | the tone voice released |
| AudioEngine.AudioEngine.CountSounding | lib/AudioEngine/AudioEngine.cpp:670-674 | the number of voices sounding |
| AudioEngine.AudioEngine.StartTagged | lib/AudioEngine/AudioEngine.cpp:575-586 | a list is started only under its own tag |
| AudioEngine.AudioEngine.ApplyCommand | lib/AudioEngine/AudioEngine.cpp:420-437 | pending stops first, stale starts dropped, then the command |
| LineSpec.QuarantineLastsUntilResync | lib/CloudSync/UsbWifi.cpp:322-364 | over every byte and time trace: the quarantine is still on after n bytes if and only if no line so far was exactly the resync word begun after 50 ms of silence (line ends before it allowed) |
| LineSpec.LetsGoExactlyAtResync | lib/CloudSync/UsbWifi.cpp:334-352 | the per-byte bookkeeping lets go at a byte if and only if the whole trace resyncs there |
| LineSpec.OneByte | lib/CloudSync/UsbWifi.cpp:327-364 | one byte keeps the bookkeeping's meaning in terms of the whole trace |
| LineSpec.QuietLeadMeans | lib/CloudSync/UsbWifi.cpp:335-346 | the silence flag means silence before some line end of the run of line ends just before |
| LineSpec.TokensAppend | lib/CloudSync/UsbWifi.cpp:366-398 | the tokens of a stream do not depend on how it is split |
| LineSpec.LinesAreTheRuns | lib/CloudSync/UsbWifi.cpp:366-398 | the lines of a stream are its maximal runs of bytes other than 10 and 13: one of 160 bytes or more is too long, one with a zero byte invalid, an empty one nothing, any other handed on as it is |
| LineSpec.EveryStreamIsRuns | lib/CloudSync/UsbWifi.cpp:366-398 | every stream is such runs |
| LineSpec.PairedLfIsNothing | lib/CloudSync/UsbWifi.cpp:383-387 | a LF after a CR makes no difference to the tokens |
| LineInput.LineInput.Next | lib/CloudSync/UsbWifi.cpp:322-399 | outside quarantine exactly the next token of the stream, or none while nothing more waits; in quarantine none, with the buffer untouched, until the first resync of all that was heard, which is handed on as "version" with the rest of the buffer zero |
| LineInput.LineInput.Poll | lib/SerialCli/SerialCli.cpp:674-690 | one pass of the command loop hands on exactly the tokens of all bytes taken, and stops only where nothing waits |
| LineInput.LineInput.NextInQuarantine | lib/CloudSync/UsbWifi.cpp:323-365 | at most 1024 bytes a call; what was heard accumulates over calls; ends at the first resync and nowhere else, with nothing in the buffer but the resync word |
| LineInput.LineInput.NextLine | lib/CloudSync/UsbWifi.cpp:366-398 | the next token, CR and its paired LF taken together |
| LineInput.LineInput.HearNext | lib/CloudSync/UsbWifi.cpp:327-364 | the quarantine goes on through every byte but the first resync; the buffer stays blank |
| LineInput.Port.Read | lib/CloudSync/UsbWifi.h:134-142 | the next byte with the time it was read at, or none |
| LineInput.Port.Peek | lib/CloudSync/UsbWifi.h:134-142 | the waiting byte without taking it |
| LineInput.LineInput.Hear | lib/CloudSync/UsbWifi.cpp:330-363 | one quarantined byte |
| LineInput.LineInput.Keep | lib/CloudSync/UsbWifi.cpp:390-397 | a byte is kept while there is room; a line too long is wiped at once |
| LineInput.LineInput.Finish | lib/CloudSync/UsbWifi.cpp:370-389 | a line end: too long before invalid before line, empty lines nothing; a dropped line leaves only zeros |
| LineInput.LineInput.Resume | lib/CloudSync/UsbWifi.cpp:348-352 | the resync word is placed in the buffer, everything past it is zero, and reading resumes |
| LineInput.LineInput.SpellResync | lib/CloudSync/UsbWifi.cpp:348-352 | a blank buffer holds the resync word and zeros |
| LineInput.LineInput.Quarantine | lib/CloudSync/UsbWifi.cpp:299-311 | buffer zeroed, everything forgotten, quarantine from now |
| LineInput.LineInput.Wipe | lib/CloudSync/UsbWifi.cpp:313-316 | the whole buffer is zero |
| LineInput.TakePairedLf | lib/CloudSync/UsbWifi.cpp:286-297 | at most one LF is taken, within 4 ms, and no other byte |
| ScanList.ScanList.Consider | lib/CloudSync/UsbWifi.cpp:119-155 | after any records at all: the list holds min(20, number of names) distinct names, each with its strongest level ever and the security of the first record that reached it, and no name left out was ever stronger, evicted and re-admitted names included |
| ScanList.ScanList.Sort | lib/CloudSync/UsbWifi.cpp:157-168 | in place: the same entries, strictly in the order shown, and still the answer for the whole history |
| ScanList.ScanList.Settle | lib/CloudSync/UsbWifi.cpp:160-166 | one insertion: the entry moves down past exactly the entries it comes before |
| ScanList.ScanList.Begin | lib/CloudSync/UsbWifi.cpp:114-117 | every entry blank, an empty list for an empty history |
| ScanList.ScanList.Find | lib/CloudSync/UsbWifi.cpp:128-137 | the entry with the name, or none |
| ScanList.ScanList.Weakest | lib/CloudSync/UsbWifi.cpp:141-143 | an entry with the lowest level |
| ScanList.FullList | lib/CloudSync/UsbWifi.cpp:139-154 | a full list stays right when a stronger new name replaces a weakest entry and a weaker one is passed over |
| ScanList.ListedAgain | lib/CloudSync/UsbWifi.cpp:128-137 | a listed name takes a strictly stronger record, and only that |
| ScanList.AddedAtTheEnd | lib/CloudSync/UsbWifi.cpp:138-154 | with room left every name is listed and a new one is added |
| ScanList.Rearranged | lib/CloudSync/UsbWifi.cpp:157-168 | the list's meaning does not depend on its arrangement |
| ScanList.Inserted | lib/CloudSync/UsbWifi.cpp:162-166 | insertion keeps the order |
| ScanList.LessIsTransitive | lib/CloudSync/UsbWifi.cpp:38-44 | the name order is transitive |
| ScanList.ShownMeans | lib/CloudSync/UsbWifi.cpp:37-44 | the order shown: the entry further up is stronger, or as strong and of the earlier name |
| ScanList.LessMeans | lib/CloudSync/UsbWifi.cpp:40-43 | the earlier name has the smaller byte where the two first differ, or is a proper beginning of the other |
| ScanList.LessIsLinear | lib/CloudSync/UsbWifi.cpp:38-44 | the name order is total and strict |
| ScanList.UpToNul | lib/CloudSync/UsbWifi.cpp:122-124 | the name's bytes up to the first NUL |
| AddFrame.SavedExactlyWhen | lib/CloudSync/UsbWifi.cpp:404-471 | a network is saved if and only if no reason to refuse stands and the next looks at the stream bring exactly name, NUL, password of allowed lengths, as many bytes as announced with the announced checksum, every look within 2000 ms of the start and 1000 ms of the byte before, and no look in the 50 ms after finds a byte |
| AddFrame.ArrivesExactlyWhen | lib/CloudSync/UsbWifi.cpp:407-420 | a payload is read whole if and only if its bytes are found with every look until then within 2000 ms of the start and 1000 ms of the byte before |
| AddFrame.FoundWhole | lib/CloudSync/UsbWifi.cpp:407-420 | looks that bring the bytes in time are read whole: exactly their bytes, and nothing past them |
| AddFrame.WholeIsFound | lib/CloudSync/UsbWifi.cpp:407-420 | a payload read whole was brought by looks that were all in time |
| AddFrame.ParsesExactly | lib/CloudSync/UsbWifi.cpp:55-72 | a payload is read as a name and password if and only if it is what a client would send for them |
| AddFrame.HandleAdd | lib/CloudSync/UsbWifi.cpp:432-471 | the saved network or none; none exactly when the input is now quarantined from this moment with a blank buffer; a saved add leaves the input as it was |
| AddFrame.ReadFrame | lib/CloudSync/UsbWifi.cpp:407-420 | the payload bytes in order, none read past a gap or the whole limit |
| AddFrame.WaitsQuietly | lib/CloudSync/UsbWifi.cpp:423-429 | whether nothing arrived in the quiet time |
| AddFrame.ArrivesInOrder | lib/CloudSync/UsbWifi.cpp:407-420 | what is read is exactly the next bytes of the stream, as many as asked when whole |
| AddFrame.QuietMeans | lib/CloudSync/UsbWifi.cpp:423-429 | the input is judged quiet if and only if no look younger than 50 ms, all before it being so too, found a byte |
| Calendar.FormulaCountsDays | lib/CloudSync/CloudProtocol.cpp:144-149 | the days-from-civil formula equals counting days year by year and month by month, for every real date from year 1 on |
| Calendar.YearsInClosedForm | lib/CloudSync/CloudProtocol.cpp:145-148 | the days before a year, counted, in closed form |
| Calendar.OneDateADay | lib/CloudSync/CloudProtocol.cpp:144-149 | two dates with the same day number are the same date |
| Calendar.DateOf | lib/CloudSync/CloudProtocol.cpp:144-149 | every day since 1970 has a date, and that date has that day number |
| CalendarText.HttpDateEpoch | lib/CloudSync/CloudProtocol.cpp:112-152 | accepts exactly the IMF-fixdate texts (section 7.1.1.1 of RFC 7231) of the instants of 2020-2099, right weekday included, and returns that instant; so it inverts the printer |
| CalendarText.EpochOf | lib/CloudSync/CloudProtocol.cpp:136-151 | range, month length and weekday checks, and the instant the fields name |
| CalendarText.Digits | lib/CloudSync/CloudProtocol.cpp:119-127 | the number the digits spell, -1 if one is not a digit |
| CalendarText.FindName | lib/CloudSync/CloudProtocol.cpp:129-132 | the name found, -1 exactly when none matches |
| CalendarText.ImfDateShows | lib/CloudSync/CloudProtocol.cpp:112-135 | the printed date shows every field where the reader looks |
| CalendarText.DateIsPrinted | lib/CloudSync/CloudProtocol.cpp:112-135 | the printed text of an instant is the day's name counted from a Thursday, and day, month name, year and time of the real date with its day number |
| CalendarText.FirstText | lib/CloudSync/CloudProtocol.cpp:112-135 | the first instant accepted, letter for letter |
| CalendarText.ShowsIsImfDate | lib/CloudSync/CloudProtocol.cpp:112-135 | a text that shows an instant's fields is its printed date |
| Crc16.NeighboursShow | lib/BatteryDiary/BatteryDiary.h:58-68 | for messages of any length, damage to one byte or to two neighbours always changes the CRC |
| Crc16.CrcIsInjective | lib/BatteryDiary/BatteryDiary.h:58-68 | the same bytes never bring two different registers together |
| Crc16.ShiftIsInjective | lib/BatteryDiary/BatteryDiary.h:62-65 | the one-bit step is injective |
| Crc16.KnownValues | lib/BatteryDiary/BatteryDiary.h:58-68 | the CRC of the empty message and of the digit 1 |
| Crc16.TwoBytesFed | lib/BatteryDiary/BatteryDiary.h:60-66 | two bytes are taken in as one 16-bit word |
| Crc16.ChangeShows | lib/BatteryDiary/BatteryDiary.h:60-66 | a change of the last byte shows in the register's high byte unless it is 0x89, which changes the low byte by 0xA1 |
| DiaryRecord.DecodeOfEncode | lib/BatteryDiary/BatteryDiary.h:91-117 | what is written is read back, checksum filled in |
| DiaryRecord.FieldsArePlaced | lib/BatteryDiary/BatteryDiary.h:42-52 | where each field is in the sixteen bytes |
| DiaryRecord.LowByteFirst | lib/BatteryDiary/BatteryDiary.h:70-89 | numbers are stored low byte first |
| DiaryRecord.EncodeOfDecode | lib/BatteryDiary/BatteryDiary.h:91-117 | only what encode writes is accepted |
| DiaryRecord.DamageIsRefused | lib/BatteryDiary/BatteryDiary.h:102-117 | a stored record damaged in one byte or in two neighbouring bytes is refused, if and only if the damage is not one single pattern (0x89, 0xA1) on the last body byte and the checksum's low byte |
| DiaryRecord.OneDamagedByteIsRefused | lib/BatteryDiary/BatteryDiary.h:102-117 | every record with exactly one damaged byte is refused |
| DiaryRecord.SomeDamageIsMissed | lib/BatteryDiary/BatteryDiary.h:98-117 | every record has a form with two damaged neighbouring bytes that reads back as another record |
| DiaryRecord.Checksum | lib/BatteryDiary/BatteryDiary.h:58-68 | the byte and bit loops compute the CRC |
| DiaryRecord.PutLe32 | lib/BatteryDiary/BatteryDiary.h:75-80 | four bytes, low first, nothing else changed |
| DiaryRecord.PutLe16 | lib/BatteryDiary/BatteryDiary.h:70-73 | two bytes, low first, nothing else changed |
| DiaryRecord.EncodeInto | lib/BatteryDiary/BatteryDiary.h:91-100 | the buffer holds the stored form |
| DiaryRecord.DecodeFrom | lib/BatteryDiary/BatteryDiary.h:106-117 | the record, or none when the checksum does not fit |
| ChargeCycle.Detector.Feed | lib/BatteryDiary/BatteryDiary.h:165-199 | a cycle is counted exactly when a stretch of at least 600 s of discharge ends the samples since the last cycle and some stretch of at least 600 s of charge came before (or was granted at boot); counting then starts anew |
| ChargeCycle.Detector.Reset | lib/BatteryDiary/BatteryDiary.h:157-163 | everything forgotten; a boot while charging grants the charge |
| ChargeCycle.ChargedMore | lib/BatteryDiary/BatteryDiary.h:170-178 | charge counts as sustained from the first 600 s stretch on |
| ChargeCycle.ChargeComesFirst | lib/BatteryDiary/BatteryDiary.h:180-195 | the charge behind a cycle was over before its discharge began |
| UploadWindow.NoRecordIsSkipped | lib/CloudSync/CloudSync.cpp:1446-1525 | however the ring grows and whatever the site acknowledges between the old number and the newest sent, a record still in the ring is acknowledged only after it was sent |
| UploadWindow.UploadsSendEachOnce | lib/CloudSync/CloudSync.cpp:1446-1525 | for an ordered ring, n uploads each acknowledged at their newest record send exactly the oldest n * max unsent records, each once, in order |
| UploadWindow.CompleteLeavesNothingOut | lib/BatteryDiary/UsageUpload.h:51-66 | a window said to be complete is everything above the acknowledged record, without a gap, also right after it |
| UploadWindow.SelectWindow | lib/BatteryDiary/UsageUpload.h:41-72 | in place: the oldest unsent records, compacted; complete exactly when nothing is left out; no record outside the window is touched |
| UploadWindow.Compact | lib/BatteryDiary/UsageUpload.h:61-69 | in place: exactly the records above every earlier one, and whether all were kept and follow each other |
| UploadWindow.FirstUnsent | lib/BatteryDiary/UsageUpload.h:47 | the first record not acknowledged |
| UploadWindow.FreshIsIncreasing | lib/BatteryDiary/UsageUpload.h:61-69 | what is kept is a subsequence of the input, strictly increasing above the acknowledged number |
| UploadWindow.FreshKeepsIncreasing | lib/BatteryDiary/UsageUpload.h:61-69 | nothing is dropped from records already in order |

## Left out

- The block hook: block-size independence is for renders without one.
- The peak voice count: `peakVoices_` is sampled at chunk ends and so depends on block sizes; it is a field of the engine object but not of the compared state.
- Floating point: `hzToInc`, the EQ designs and the volume curve. Increments and coefficients are any values the integer checks accept.
- Wave codes above the last wave: the firmware plays them as a sine; the model's waves are the six that exist.
- The sine table is a parameter with proved bounds; that the firmware's table meets them is a lemma, its shape is not.
- A voice's stale pending fields: a waiting note is an optional value, so the values left behind after it started are not compared.
- ToneControl's command sending and handles, `voiceInfo`, `resetCounters`, and the queue between threads: commands arrive in any order the lemmas quantify over.
- Memory ordering of the atomics: each atomic operation is one step of an interleaving.
- Releases posted while the engine is looking at its slots: a post comes before a look or after it.
- Stop counters in the engine object move one at a time; the interleaved protocol is a separate model over the same stamping and staleness functions.
- The fingerprint half of `checkStored` and the wipes after it (`wipeMismatchedLink`, `forgetServerUnlinkedLink`), `replaceTestToken`, and the app-clearing mark of `completeConfirmedLink`: they give up credentials on purpose.
- Removing an absent key: modelled as a write that may fail; the device skips it.
- Revoke retry times: only their presence in a slot is followed, not the waiting.
- A pairing reply's status text: modelled as its kind.
- Join order and failure reasons (`joinFailure`, `pickFromScan`, the fallback predicates): small branch tables.
- The reply formats, `knownVerb` and the add header's text: short formatting and scanning. The payload's 32-bit checksum is a parameter, and the store's answer to a save is not followed.
- SerialCli's dispatch: `Poll` hands its lines on; a command that starts a quarantine or defers ends the pass in the firmware.
- A port that never falls silent: the port is a finite script of looks, after which nothing more waits.
- `serverEpoch`: it accepts days up to 31 in every month and what `sscanf` allows in place of digits; its day formula is the one proved in `Calendar.FormulaCountsDays`.
- The rest of `CloudProtocol.cpp`: JSON and wait tables.
- The diary's file rotation, RTC ring, sampling clamps and upload timing.
- Signed diary fields are bit patterns: the conversion to int16 and int8 is the identity on them.
- WiFi store keys that hold a value of another type read as missing, as the device's typed getters do.
