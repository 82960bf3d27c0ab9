# cswap, modelled and proved in Dafny

cswap keeps several Claude logins in numbered slots and moves credentials between a backup store
and the one live login. This project models the parts of it that must not lose or mix up a
credential when a write fails, a process dies, or another cswap runs at the same time, and proves
what those parts promise. `dafny verify dfyconfig.toml` checks all of it.

## The models and how they hang together

| modules | what they are about |
|---|---|
| `Rosters`, `Spans`, `Interleaving` | the roster file, the rosters that each locked command commits, and every interleaving of such commands with questions asked outside the lock |
| `SlotStore`, `StoreSteps` | the backup store with staging files, a script of failures, and the history of every state the disk has been in; what one write can do, and what survives a run of writes |
| `MoveSwap`, `SwapSafety`, `SwapRuns`, `SwapTheorems`, `SwapRetries`, `ConfigRisk`, `MoveTheorems`, `MoveSwapCommands` | move and swap: staging, commit point, rollback, crashes and retries |
| `Retiring`, `SwapCleanup`, `SwapUndo` | what a move or a swap leaves behind, when it succeeds and when it fails |
| `AddRemove`, `AddRemoveCommands` | add, add-token and remove on the same store |
| `CredStore`, `KeychainStore`, `StoreRefinement` | the Keychain and `.enc` backends with the usability cache, and the proof that they provide what `SlotStore` assumes of a credential write |
| `ActiveStore`, `Switching`, `SwitchTheorems`, `SwitchRoundTrip`, `OwnershipOracle`, `SwitchCommands` | the live login, the ownership oracle, the switch, its ledger, its reverse rollback, what it files, and switching back |
| `UsageWindows`, `Ranking`, `AutoSwitch`, `AutoSwitchTheorems`, `AutoSwitchProgress`, `UnreadableStreaks`, `AutoSwitchEngine`, `SharedState` | the automatic switcher: headroom, order of targets, one tick, runs of ticks, when it must move, and several engines over one state file |
| `DirLock` | the timed directory lock shared with Claude Code |
| `Relocation`, `KeyringMigration` | moving backups out of a legacy keyring |
| `HistoryMerge`, `HistoryFiles` | merging a profile's history tree into the shared one |
| `Rotation`, `ShellQuote`, `Basics` | plain rotation; the `cswap env` export lines; text and ordering facts |

Code that works by changing things in place is a class whose methods are proved equal to a function
of the old state (`Store`, `Switcher`, `FileKeychainStore`, `Engine`, `Stores`, `Trees`). The
guarantees are lemmas about those functions. Wherever something can fail, the failures are an input
(a script of fates), and a guarantee holds for every script. "In every state" means every state the
disk passes through, so a crash is covered by any of them.

## What the proofs assume

- Reads of backups, of the state file, and existence checks are reliable.
- The roster is already migrated to organizations, and slot keys are canonical positive decimals.
- The live config does not change during one add.
- Renames stay on one file system and replace a file in one step; a permission change after a
  rename does not fail.
- Percentages and times are reals. Fingerprints are an arbitrary function of the credential.
- Lower-casing and trimming are ASCII.
- The directory lock has one clock, and its exclusion is claimed only while no holder dies.

## Where the code does less than its words

- A refused or failed staging says that nothing was changed (`internal/lifecycle/moveswap.go:343`),
  but the caller still runs the rollback, which rewrites the originals in place (lines 277-280).
  Credentials are replaced by a rename and survive that. Configs are truncated and rewritten, so a
  swap can lose a config even when it had written nothing. `ConfigRisk.ConfigSafeExactly` says
  exactly when: unless the account has none or a staging copy from an earlier attempt holds it.
- `internal/credstore/backup.go:165-167` promises never to serve a stale generation. That holds for
  every non-empty credential. `CredStore.NeverStaleExactly` gives the one exception: an empty
  credential that falls back to a file over a non-empty Keychain item.
- The replaced credential is kept as `.prev` (`internal/credstore/backup.go:230-233`), in the Keychain
  or in a file, and a file is read first (lines 250-251), but only the backup itself is reconciled
  after a Keychain write. A `.prev` file from a time without the Keychain hides every later one.
  `CredStore.PreviousExactly` gives the condition and `CredStore.PreviousCanBeOlder` a run.
- A rollback puts the live credential back by writing it again. An API key is trimmed on the way,
  and is not read back while a file that could not be removed shadows it.
  `SwitchTheorems.RollbackRestoresExactly` gives the exact condition and
  `SwitchTheorems.RollbackCanAlterAKey` a run; a non-blank OAuth login always comes back.
- The Windows keyring migration runs over every account each time until it is recorded. A failed
  deletion of the shared account-None entry does not count as a failure. If the run is then not
  recorded, because it died or because another account failed, the next run takes that entry for
  the slot's credential and overwrites the migrated copy. `Relocation.WindowsConservesExactly` and
  `Relocation.WholeRunsConserveExactly` say exactly when. The macOS migration checks what it already
  has and is safe under any number of runs.
- A collision in the history merge is taken for an identical session
  (`internal/session/history.go:69-70`), but any existing path counts: a profile file whose path is a
  directory in the shared tree is dropped. `HistoryMerge.MergeKeepsViewExactly` says exactly when
  that is reached.

## Model

| member | source | states |
|---|---|---|
| `Rosters.FindSlotFinds` | `internal/store/identity.go:156-167` | the composite lookup returns a slot exactly when some slot holds that email and organization, and then one that does |
| `Rosters.FindAliasFinds` | `internal/store/identity.go:249-260` | the alias lookup finds a slot exactly when one carries the alias, ignoring case |
| `Rosters.ResolveExactly` | `internal/store/identity.go:207-244` | a number names its own slot if that is in use; a name the first slot with that alias, or else the only one with that email; it is ambiguous exactly when no slot has the alias and two or more have the email, and unknown exactly when nobody has either |
| `Rosters.LargestSlot` | `internal/store/sequence.go:294-305` | an upper bound of the slots in use that is itself in use unless there are none, so the next number is free |
| `Rosters.RenumberKeepsInv` | `internal/lifecycle/moveswap.go:154-163` | renumbering into a free slot keeps the sequence equal to the sorted slots, and identities and aliases distinct |
| `Rosters.ExchangeKeepsInv` | `internal/lifecycle/moveswap.go:261-274` | so does exchanging two slots, and the sequence comes out unchanged |
| `Rosters.PutRecordKeepsInv` | `internal/lifecycle/lifecycle.go:481-488` | so does writing a record that clashes with no other slot |
| `Rosters.DropSlotKeepsInv` | `internal/lifecycle/remove.go:174-184` | so does dropping a slot from the records and the sequence |
| `Spans.RevalidateDecides` | `internal/lifecycle/add.go:298-317` | under the lock a displacement goes ahead only for the occupant that was confirmed or when no question was needed; anybody else refuses; nobody needs none |
| `Spans.LandDrops` | `internal/lifecycle/add.go:93-115` | an add drops at most the confirmed occupant of its slot and the same identity standing elsewhere |
| `Spans.AddInstalls` | `internal/lifecycle/add.go:117-224` | a completed add is active, stands in the slot asked for or else the next number, is the only one with its identity, carries the login's uuid and organization, and the alias given or else the one the identity had |
| `Spans.AddRefreshes` | `internal/lifecycle/add.go:348-400` | a login that is managed already becomes active, under the alias given if one was, and no other record changes |
| `Spans.AddRefusedExactly` | `internal/lifecycle/add.go:93-140` | an add is refused exactly over an occupant nobody confirmed or an alias that another slot has; without a slot it refreshes exactly a managed login |
| `Spans.TokenInstalls` | `internal/lifecycle/addtoken.go:117-234` | a completed add-token holds exactly the token's record, in one slot only, the one asked for or else the next, and leaves the active slot alone |
| `Spans.TokenRefusedExactly` | `internal/lifecycle/addtoken.go:90-160` | an add-token is refused exactly over an occupant nobody confirmed, or an account of the other kind under its name |
| `Spans.PlaceholdersDiffer` | `internal/lifecycle/addtoken.go:88-125` | tokens without an email get a different name in every slot and for every kind |
| `Spans.AddSparesOthers` | `internal/lifecycle/add.go:156-224` | slots an add neither fills nor migrates keep their records |
| `Spans.SpanKeepsInv` | `internal/lifecycle/add.go:94-224` | every roster that add, add-token, remove, move, swap, alias or switch commits, also on the way to a failure, keeps the roster invariant |
| `Spans.AddTokenKeepsInv` | `internal/lifecycle/addtoken.go:117-234` | the add-token span keeps it |
| `Spans.SetAliasKeepsInv` | `internal/lifecycle/alias.go:54-73` | setting an alias that passed the conflict check keeps aliases distinct |
| `Spans.AliasLands` | `internal/lifecycle/alias.go:54-73` | a set alias is found on the slot that was named, and nothing else in the roster changes |
| `Spans.AliasRefusedExactly` | `internal/lifecycle/alias.go:54-73` | setting one is refused exactly when the identifier names no one slot or another slot has the alias |
| `Spans.AliasCleared` | `internal/lifecycle/alias.go:82-111` | clearing one takes it from the slot that was named and changes nothing else |
| `Spans.MoveLands` | `internal/lifecycle/moveswap.go:55-94` | a move is refused exactly when its target is beyond both 99 and every slot in use; otherwise the account stands at its target, an occupant takes its old slot, nobody else moves, the active account stays the same one, and the next free number stays at most 100 or what it was |
| `Spans.VanishedIsJustified` | `internal/lifecycle/remove.go:127-191` | an account missing after any commit was re-checked under the lock to be the one shown, or the question was waived, or it is the added identity moving slots |
| `Interleaving.Serializable` | `internal/store/rosterlock.go:33-41` | in every interleaving the roster on disk is what the locked spans give when run one after another in lock order, and it keeps the invariant; each process has one span |
| `Interleaving.NothingVanishesUnseen` | `internal/lifecycle/add.go:255-282` | whatever vanished was re-checked against what its user had been shown, and that had really been on disk |
| `Interleaving.AloneItCompletes` | `internal/store/rosterlock.go:33-41` | with the lock free, a process that has asked can commit its whole span and let the lock go |
| `SlotStore.Store.WriteConfig` | `internal/store/credproxy.go:51-65` | a config is truncated and then written, so a failure can leave it torn |
| `SlotStore.Store.WriteCreds` | `internal/store/credproxy.go:82-88` | a credential write leaves the old text or the new one |
| `SlotStore.Store.CreateStage` | `internal/lifecycle/moveswap.go:342-353` | a staging file is created under a free name and can be left half-written |
| `SlotStore.Store.PutOrClearCreds` | `internal/lifecycle/moveswap.go:483-488` | material that exists is written, and a clear that is required reports its failure |
| `SlotStore.Store.PutOrClearConfig` | `internal/lifecycle/moveswap.go:490-495` | the same for configs |
| `SlotStore.Store.WriteSequence` | `internal/store/sequence.go:260-270` | the roster is replaced whole or not at all |
| `StoreSteps.ExecHolds` | `internal/lifecycle/moveswap.go:221-276` | what every step of a run keeps holds in every state the run passes through, wherever it stops |
| `StoreSteps.ExecLands` | `internal/lifecycle/moveswap.go:221-276` | a run that reports success has had exactly its intended effect |
| `SwapSafety.LeftoverStays` | `internal/lifecycle/moveswap.go:334-340` | a staging file that was there before is neither overwritten nor discarded |
| `SwapSafety.StagingParks` | `internal/lifecycle/moveswap.go:324-358` | when staging succeeds every non-empty item has its copy |
| `SwapSafety.CopiesLand` | `internal/lifecycle/moveswap.go:248-259` | once all four writes succeeded each account reads its own material under its new key, and every other key is as before |
| `SwapSafety.RestoresLand` | `internal/lifecycle/moveswap.go:412-447` | once all restores succeeded each account reads its original under its old key, and every other key is as before |
| `SwapTheorems.SwapNeverLosesCreds` | `internal/lifecycle/moveswap.go:195-299` | in every state of a swap, whatever fails, each of the two credentials is under its old key, its new key or in its own staging file |
| `SwapTheorems.SwapServesThroughout` | `internal/lifecycle/moveswap.go:248-276` | with two emails every state serves every account: whichever roster is on disk, each account it names reads the credential it had |
| `SwapTheorems.SuccessfulSwapKeepsConfigs` | `internal/lifecycle/moveswap.go:221-299` | a swap that reports success kept both configs under the old key, the new key or parked in every state |
| `SwapTheorems.SwapRenumbers` | `internal/lifecycle/moveswap.go:248-299` | success is a pure renumbering: every account keeps record, credential and config, the active number follows, nobody else is touched |
| `SwapTheorems.SwapFailureRestores` | `internal/lifecycle/moveswap.go:277-280` | an error leaves the roster unchanged, and with no failed rollback step every account reads its original credential and config |
| `SwapCleanup.SwapClearsItsStaging` | `internal/lifecycle/moveswap.go:282-296` | after a swap that succeeded, whatever failed on the way, a staging file is there exactly if it was before or is a copy whose own removal failed |
| `SwapCleanup.SwapRetiresOldKeys` | `internal/lifecycle/moveswap.go:283-290` | with two emails it has retired both old keys: nothing is left there but what its own removal failed to remove |
| `SwapCleanup.UndisturbedSwapIsClean` | `internal/lifecycle/moveswap.go:195-299` | when nothing fails, a swap succeeds exactly if no leftover is in its way; then staging is as found, and with two emails both old keys are empty |
| `SwapCleanup.SwapTwiceRestores` | `internal/lifecycle/moveswap.go:195-299` | when nothing fails, two swaps in a row succeed and give every account back its record, number, credential and config |
| `SwapUndo.FailedSwapIsUndone` | `internal/lifecycle/moveswap.go:412-479` | a swap with one failure is undone completely: everybody reads what they had, no copy is left but the torn file of a staging write, and with two emails the new keys are empty |
| `SwapUndo.RefusalChangesNothing` | `internal/lifecycle/moveswap.go:333-340` | a swap refused over a leftover, when nothing fails, changes neither staging nor what anybody reads |
| `SwapRetries.SwapSparesLeftover` | `internal/lifecycle/moveswap.go:324-369` | no swap overwrites or removes a staging file that an earlier one left |
| `SwapRetries.SwapRosterIsEither` | `internal/lifecycle/moveswap.go:261-276` | the roster is the old one or the exchanged one in every state |
| `SwapRetries.RetriesKeepACopy` | `internal/lifecycle/moveswap.go:324-358` | two accounts with one email, any number of attempts each dying anywhere: each credential is still under one of the two keys or parked |
| `SwapRetries.RetriesServeEveryone` | `internal/lifecycle/moveswap.go:195-299` | two emails, any such history: every account is still in the roster and reads its credential |
| `ConfigRisk.ConfigSafeExactly` | `internal/lifecycle/moveswap.go:248-280` | a config survives every pattern of failures exactly when there is none, or a staging copy from an earlier attempt holds it |
| `ConfigRisk.OverlapLoses` | `internal/lifecycle/moveswap.go:235-245` | with one email: the guards pass, nothing can be staged, and then every write tears; the rollback rewrites configs that were never touched, and the config is lost |
| `ConfigRisk.ApartLoses` | `internal/lifecycle/moveswap.go:412-436` | with two emails: everything passes up to the write of an account's config under its new key, which tears, and so does every write after it; the config is lost |
| `MoveTheorems.MoveServesThroughout` | `internal/lifecycle/moveswap.go:118-190` | every state of a move serves every credential and config; success is a pure renumbering; an error leaves every account as it was |
| `SwapCleanup.MoveRetiresOldKey` | `internal/lifecycle/moveswap.go:180-185` | a move that succeeded has retired the old key |
| `SwapUndo.FailedMoveIsUndone` | `internal/lifecycle/moveswap.go:164-178` | a move with one failure leaves nothing under the new key and every account as it was |
| `MoveTheorems.SwapCommitsItsSpan` | `internal/lifecycle/moveswap.go:98-113` | the swap command commits exactly the roster its span gives, or none |
| `MoveTheorems.MoveCommitsItsSpan` | `internal/lifecycle/moveswap.go:31-94` | so does the move command, into an empty slot, an occupied one, or its own |
| `SwapCleanup.SwapCommandSucceeds` | `internal/lifecycle/moveswap.go:98-113` | when nothing fails, the swap command succeeds exactly if it names two different accounts and no leftover is in the way |
| `SwapCleanup.MoveCommandSucceeds` | `internal/lifecycle/moveswap.go:31-94` | and the move command exactly if its target is in range and no leftover is in the way of a swap with the occupant |
| `MoveSwapCommands.StageOverlapMaterial` | `internal/lifecycle/moveswap.go:324-358` | parks every non-empty item, or undoes what it parked and fails |
| `MoveSwapCommands.DiscardStaging` | `internal/lifecycle/moveswap.go:362-369` | tries to remove every staged copy |
| `MoveSwapCommands.RollbackSwap` | `internal/lifecycle/moveswap.go:412-479` | restores, clears strays, counts failures, and keeps the staged copies unless there were none |
| `MoveSwapCommands.SwapBody` | `internal/lifecycle/moveswap.go:220-299` | the swap from staging to clean-up, step by step |
| `MoveSwapCommands.SwapAccountsLocked` | `internal/lifecycle/moveswap.go:195-218` | the guards and reads of a swap, then its body |
| `MoveSwapCommands.RelocateLocked` | `internal/lifecycle/moveswap.go:118-190` | the move into an empty slot, step by step |
| `MoveSwapCommands.SwapCommand` | `internal/lifecycle/moveswap.go:98-113` | the whole swap command, and the roster it commits |
| `MoveSwapCommands.MoveCommand` | `internal/lifecycle/moveswap.go:31-94` | the whole move command, and the roster it commits |
| `AddRemove.AddSparesEverybodyElse` | `internal/lifecycle/add.go:94-193` | in every state of an add, however it fails, every account keeps record, credential and config, except where the added identity stands and in the slot asked for, once its occupant was confirmed or the question waived |
| `AddRemove.TokenSparesEverybodyElse` | `internal/lifecycle/addtoken.go:117-234` | the same for add-token, under the name the token is given |
| `AddRemove.AddCommitsItsSpan` | `internal/lifecycle/add.go:156-224` | every roster seen during an add is the one it found or one its span commits, wherever it stops; a success ends with the last of them |
| `AddRemove.AddLands` | `internal/lifecycle/add.go:186-224` | a successful add holds exactly the new material under the roster its span commits |
| `AddRemove.RefreshLands` | `internal/lifecycle/add.go:348-400` | a refresh that succeeded holds exactly the new material under the key that was there |
| `AddRemove.AddDeletesWhatItDrops` | `internal/lifecycle/add.go:156-186` | an add that succeeded has deleted the config of the account it displaced and of the slot the identity came from, and the credential unless the sweep of it failed |
| `AddRemove.TokenDeletesWhatItDrops` | `internal/lifecycle/addtoken.go:117-234` | so has an add-token |
| `AddRemove.UndisturbedAdd` | `internal/lifecycle/add.go:94-224` | when nothing fails, an add succeeds exactly if it was not refused and has a credential, and otherwise changes nothing |
| `AddRemove.RemoveSparesEverybodyElse` | `internal/lifecycle/remove.go:127-191` | in every state of a removal everybody but the account shown is as before; success removed exactly that account |
| `AddRemove.RemoveDeletesFiles` | `internal/lifecycle/remove.go:169-184` | a removal that succeeded has deleted the config, and the credential unless the sweep of it failed; the record is gone and the active number is as it was |
| `AddRemove.UndisturbedRemove` | `internal/lifecycle/remove.go:133-168` | when nothing fails, a removal is refused exactly if the slot holds somebody else, or is empty while the account stands elsewhere |
| `AddRemoveCommands.PlaceAccount` | `internal/lifecycle/add.go:156-224` | the displacement, the migration and the installation, each with its own commit, in order |
| `AddRemoveCommands.AddAccount` | `internal/lifecycle/add.go:44-240` | add, from its plan to its last write |
| `AddRemoveCommands.AddAccountFromToken` | `internal/lifecycle/addtoken.go:42-250` | add-token, the same |
| `AddRemoveCommands.RunPlan` | `internal/lifecycle/add.go:348-400` | a refresh in place rewrites the material of an account that is already there |
| `AddRemoveCommands.RemoveAccount` | `internal/lifecycle/remove.go:127-191` | remove, re-checked under the lock |
| `CredStore.WriteIsAtomic` | `internal/credstore/backup.go:142-163` | for every pattern of Keychain and file failures, success puts exactly the new credential in front, and a failure leaves the old one or the new one |
| `CredStore.WriteTouchesItsKeyOnly` | `internal/credstore/backup.go:142-163` | a write touches no key but its own and that key's previous generation |
| `CredStore.ReadYourWrite` | `internal/credstore/backup.go:119-135` | after a successful write of a non-empty credential every read until the key's next write or delete returns it or nothing, never an older generation |
| `CredStore.NeverStaleExactly` | `internal/credstore/backup.go:168-179` | no older generation is served after any successful write, exactly unless the credential is empty and the Keychain holds a non-empty item |
| `CredStore.StrictDeleteEmptiesBoth` | `internal/credstore/backup.go:209-226` | a strict delete that reports success has emptied both backends for the key |
| `CredStore.StrictDeleteTouchesRelatedOnly` | `internal/credstore/backup.go:184-226` | and it touches no other slot |
| `CredStore.UndisturbedDeleteEmpties` | `internal/credstore/backup.go:184-202` | a best-effort delete in which nothing fails empties the key and the legacy alias in both backends, previous generations included |
| `CredStore.UndisturbedSucceeds` | `internal/credstore/backup.go:142-226` | when nothing fails, a write succeeds and leaves the key in one backend only, and a strict delete succeeds |
| `CredStore.PreviousIsEither` | `internal/credstore/backup.go:230-248` | however a write goes, the previous generation is the one just replaced or the one before, and a Keychain in use grows no file for it |
| `CredStore.PreviousExactly` | `internal/credstore/backup.go:230-268` | when nothing fails, a replaced credential is read back as the previous generation, exactly unless it is kept in the Keychain behind a file with an older one; a write that changes nothing leaves that generation alone |
| `CredStore.PreviousCanBeOlder` | `internal/credstore/backup.go:230-268` | a run in which that file hides the generation just replaced |
| `CredStore.ReadsWhatIsServed` | `internal/credstore/backup.go:119-135` | a read returns what is in front, or nothing if the Keychain fails, and changes no backend |
| `CredStore.FailureShutsTheKeychain` | `internal/credstore/store.go:145-179` | after a call that found the Keychain unusable, no history of operations writes to it or tries it for a write for a minute, whatever fails; later failures only move the end of the minute later |
| `CredStore.ElapsedDeadlineHeals` | `internal/credstore/store.go:141-157` | once the minute is over and the Keychain works, the next write lands in it and it counts as usable |
| `KeychainStore.FileKeychainStore.Read` | `internal/credstore/backup.go:119-135` | the file wins, then the Keychain |
| `KeychainStore.FileKeychainStore.Retain` | `internal/credstore/backup.go:234-248` | the previous generation, kept best-effort |
| `KeychainStore.FileKeychainStore.Write` | `internal/credstore/backup.go:142-179` | the write in place; success reads back, failure leaves the old or the new credential |
| `KeychainStore.FileKeychainStore.Delete` | `internal/credstore/backup.go:184-202` | the best-effort sweep, legacy alias included |
| `KeychainStore.FileKeychainStore.DeleteStrict` | `internal/credstore/backup.go:209-226` | the fail-closed delete; success empties both backends |
| `StoreRefinement.WriteRefines` | `internal/credstore/backup.go:142-163` | a backend write is one of the outcomes that the slot store allows for a credential write |
| `StoreRefinement.StrictDeleteRefines` | `internal/credstore/backup.go:209-226` | so is a strict delete |
| `StoreRefinement.SweepRefines` | `internal/credstore/backup.go:184-202` | so is a best-effort one |
| `ActiveStore.WriteReadsBackExactly` | `internal/credstore/active.go:117-126` | a written login reads back exactly when it is not blank and, for an API key, has no surrounding space and no file was left to shadow it |
| `ActiveStore.OneAxis` | `internal/credstore/active.go:117-126` | after a write whose clearing worked at most one axis carries a login |
| `ActiveStore.WriteKeepsAccount` | `internal/credstore/active.go:172-252` | writing a login keeps the account section of the config and every other key of it |
| `ActiveStore.KeysAreApproved` | `internal/credstore/active.go:186-213` | activating a key approves the last twenty characters of it and nothing else, and withdraws no earlier approval |
| `SwitchTheorems.SwitchNeverLosesTheOutgoing` | `internal/switching/perform.go:105-153` | in every outcome the live login was untouched, or the outgoing bytes are in their slot's backup or the stash, or their lineage is in the backup of the slot whose recorded uuid the endpoint named for exactly these bytes |
| `SwitchTheorems.ActivationNeverLosesAnUnmanagedLogin` | `internal/switching/perform.go:219-242` | an unforced activation overwrites an unmanaged login only once it is stashed or is the target itself |
| `SwitchTheorems.SwitchNeverLosesALogin` | `internal/switching/perform.go:28-176` | both paths together: unless forced, a live login is untouched or a copy of it survives in one of these places |
| `SwitchTheorems.RollbackRestoresExactly` | `internal/switching/transaction.go:30-65` | for every script of failures, a rolled-back switch has the account section and the roster back, and the credential exactly when writing it back reads back: not blank and, for an API key, without surrounding space and without a file left to shadow it |
| `SwitchTheorems.RollbackCanAlterAKey` | `internal/switching/transaction.go:30-65` | a switch that reports a successful rollback and has changed the live credential: an API key with a trailing space |
| `SwitchTheorems.SwitchActivatesTheTarget` | `internal/switching/perform.go:366-422` | for every script of failures, a reported switch shows the target's account, records it as active, and reads its stored credential exactly when that reads back |
| `SwitchTheorems.SwitchCommitsItsSpan` | `internal/switching/perform.go:409-413` | and commits the roster that the roster model gives for a switch |
| `SwitchRoundTrip.SwitchFilesTheOutgoing` | `internal/switching/perform.go:303-364` | a switch that succeeds has filed the outgoing credential with the config it was live with, or, when the bytes are proved not to be the slot's, neither; in every outcome every other key keeps both backups, and the slot's own config is the old, the new or a torn one |
| `SwitchRoundTrip.OurBytesAreFiled` | `internal/switching/classify.go:25-110` | bytes of the stored lineage, or named as the slot's own by uuid or by email and organization, are filed there with the live config |
| `OwnershipOracle.AttributedExactly` | `internal/switching/classify.go:58-85` | an identity is attributed to exactly one slot: the one with its email and organization unless the uuids contradict, or else the first in the rotation with its uuid and organization |
| `OwnershipOracle.OracleExactly` | `internal/switching/classify.go:25-111` | the oracle gives a verdict exactly when that verdict is what the records, the backups and the answer mean, for each of the seven; the meanings exclude each other |
| `OwnershipOracle.FiledExactly` | `internal/switching/perform.go:303-364` | a switch files the outgoing login under the outgoing slot exactly when it is not provably somebody else's; otherwise that slot is untouched and the credential is stashed, unless its owner's backup has the lineage |
| `OwnershipOracle.LiveLoginIsHandedOver` | `internal/switching/perform.go:80-97` | unless forced, this is done for the slot the live login really stands in, whatever slot is on record as active |
| `OwnershipOracle.DirectStashesExactly` | `internal/switching/perform.go:221-238` | a direct activation stashes the live login exactly when it would overwrite it, and goes on after a failed stash only when forced |
| `OwnershipOracle.ForcedSwitchReinstalls` | `internal/switching/perform.go:86-97` | a forced switch installs what is stored, even over the slot's own login or after a failed stash, and files nothing |
| `SwitchRoundTrip.SwitchBackfills` | `internal/switching/perform.go:356-360` | a resolved uuid fills a blank one on the outgoing record of a login found rotated, and no other record changes |
| `SwitchRoundTrip.SwitchAndBack` | `internal/switching/perform.go:64-153` | when nothing fails, switching away and back shows the first account again, records its slot, and reads its credential exactly if that is restorable |
| `SwitchTheorems.ForeignBytesEnterNoSlot` | `internal/switching/classify.go:25-110` | bytes resolved to a complete identity with another uuid and lineage are written into no slot, however the switch ends |
| `SwitchTheorems.ForeignNamesTheOwner` | `internal/switching/classify.go:87-109` | a cross-slot verdict names another managed slot that carries the resolved uuid |
| `SwitchTheorems.OracleFailsOpen` | `internal/switching/classify.go:38-45` | without a trustworthy resolution the outgoing slot always gets its backup |
| `SwitchTheorems.OwnIsNeverContradicted` | `internal/switching/classify.go:51-86` | a rotated credential is called the slot's own only when no recorded uuid says otherwise |
| `SwitchTheorems.DirectSwitchActivates` | `internal/switching/perform.go:244-267` | a successful activation shows the target's account and records it, and reads its credential exactly when that reads back, or when it is blank and equals the key left in the config |
| `SwitchTheorems.DirectRollbackRestores` | `internal/switching/perform.go:268-280` | one that failed and was undone has the account and the roster back, and the credential exactly when writing it back reads back |
| `SwitchRoundTrip.DirectKeepsBackups` | `internal/switching/perform.go:182-296` | a direct activation touches no backup |
| `SwitchRoundTrip.UndisturbedDirectSwitch` | `internal/switching/perform.go:182-267` | when nothing fails, it succeeds exactly if the slot has a credential and a config with an account section |
| `SwitchTheorems.OAuthLoginsComeBack` | `internal/switching/perform.go:64-153` | on either path, whatever else fails, a switch that was undone has a non-blank OAuth login back, with its account and the roster |
| `SwitchCommands.Switcher.WriteActiveLogin` | `internal/credstore/active.go:117-126` | the write of either axis, in place |
| `SwitchCommands.Switcher.WriteOAuthCredentials` | `internal/credstore/active.go:133-156` | the file, then the key dropped if it can be |
| `SwitchCommands.Switcher.WriteManagedCredentials` | `internal/credstore/active.go:172-234` | the approved form and the key, then the file removed if it can be |
| `SwitchCommands.Switcher.StashLiveCredential` | `internal/credstore/unclaimed.go:44-69` | the bytes are written before the manifest, so a failure may still leave them |
| `SwitchCommands.Switcher.BackUpOutgoing` | `internal/switching/perform.go:303-364` | step 1, by verdict |
| `SwitchCommands.Switcher.ActivateTarget` | `internal/switching/perform.go:366-422` | steps 2 to 5, with the ledger |
| `SwitchCommands.Switcher.NormalSwitchBody` | `internal/switching/perform.go:301-423` | steps 1 to 5 |
| `SwitchCommands.Switcher.RollbackAll` | `internal/switching/transaction.go:30-46` | every completed step undone in reverse; an error does not stop the rest |
| `SwitchCommands.Switcher.PerformNormalSwitch` | `internal/switching/perform.go:126-153` | the body, and the rollback when something completed |
| `SwitchCommands.Switcher.DirectActivate` | `internal/switching/perform.go:182-296` | the direct path with its stash and its own rollback |
| `SwitchCommands.Switcher.Switch` | `internal/switching/perform.go:64-153` | the choice of path under the locks |
| `UsageWindows.RelevantWindows` | `internal/oauth/windows.go:154-182` | five-hour, seven-day, then the wanted scoped windows in their order and as often as they occur; a window is among them exactly when it gates the account |
| `UsageWindows.AccountHeadroom` | `internal/oauth/windows.go:187-200` | what the tightest gating window leaves, or nothing when there is none |
| `UsageWindows.RenewalTime` | `internal/oauth/windows.go:208-220` | the latest reset of a weekly window, the five-hour one never counting |
| `Ranking.StrictWeakOrder` | `internal/autoswitch/tick.go:322-345` | both comparators are irreflexive and transitive, and so are their ties |
| `Ranking.ArrangeIsStableSort` | `internal/autoswitch/tick.go:322-345` | both strategies give a sorted permutation with ties in their original order |
| `Ranking.StableSortIsUnique` | `internal/autoswitch/tick.go:322-345` | and any sorted permutation that keeps ties in order is that one |
| `Ranking.BelowThresholdFirst` | `internal/autoswitch/tick.go:310-321` | every target below the threshold precedes every other, under both strategies |
| `Ranking.SoonestResetFirst` | `internal/autoswitch/tick.go:335-341` | below the threshold an earlier known renewal goes first |
| `Ranking.SortQualifying` | `internal/autoswitch/tick.go:322-345` | the slice is sorted in place, stably |
| `AutoSwitchTheorems.OrderedAre` | `internal/autoswitch/tick.go:248-296` | whoever is tried is switchable, not active, not in quarantine, and an OAuth account passed every gate |
| `AutoSwitchTheorems.TickPicksFirstReady` | `internal/autoswitch/tick.go:199-226` | the account switched to is the first in the order that freshens; all before it were tried and failed |
| `AutoSwitchTheorems.MoveLowersRank` | `internal/autoswitch/tick.go:105-163` | a real switch goes to a strictly better-off account, and only a proactive one starts above the threshold with quota left |
| `AutoSwitchTheorems.NoFlapping` | `internal/autoswitch/tick.go:105-163` | with readings fixed and API-key rotation off, any run of ticks switches at most twice, the second time proactively |
| `AutoSwitchTheorems.QuarantineStartsLocked` | `internal/autoswitch/freshen.go:48-58` | a quarantine written by a tick matches what is stored when it ends, also when the token was rotated first or a stale entry of the slot was released in the same tick |
| `AutoSwitchTheorems.QuarantineHolds` | `internal/autoswitch/state.go:131-215` | a quarantined account is never switched to until its email or stored credential changes |
| `AutoSwitchTheorems.FailoverIsPatient` | `internal/autoswitch/tick.go:119-160` | a failover happens only after as many unreadable ticks in a row as the settings ask for |
| `AutoSwitchTheorems.IdleHoldIsPatient` | `internal/autoswitch/tick.go:120-137` | in any run of ticks within half an hour, while the active token is expired in an idle session, no tick switches or counts towards a failover |
| `AutoSwitchTheorems.ProactiveIsOutOfCooldown` | `internal/autoswitch/tick.go:158-161` | a proactive switch is outside the cooldown when decided and when made |
| `AutoSwitchTheorems.FreshenKeepsIdentity` | `internal/autoswitch/freshen.go:66-90` | freshening stores a rotated credential, fills a blank uuid with the owner's unless the organizations differ, and changes nothing else |
| `AutoSwitchProgress.DueSwitchIsMade` | `internal/autoswitch/tick.go:92-234` | a switch that the readings call for, with a target whose token works and no write refused, is made in that tick, to such a target, and its time recorded |
| `AutoSwitchProgress.TickMovesExactly` | `internal/autoswitch/tick.go:40-234` | with nothing refused, a tick switches at the limit, proactively, or over to another account exactly when that is due by the readings and somebody better off has a working token; API-key accounts exactly when they are included and no OAuth account is better off |
| `AutoSwitchProgress.BlindRunFailsOver` | `internal/autoswitch/tick.go:119-156` | after as many unreadable ticks in a row as the settings ask for, the last one fails over |
| `AutoSwitchProgress.RejectedTargetsAreLocked` | `internal/autoswitch/freshen.go:42-58` | in a due tick that finds nobody, every target whose token is dead or somebody else's ends in quarantine |
| `AutoSwitchProgress.StuckTick` | `internal/autoswitch/tick.go:163-234` | a tick that is due and finds nobody reports an error exactly when some target could not be examined for now, and is blocked otherwise |
| `AutoSwitchProgress.QuietTick` | `internal/autoswitch/tick.go:52-161` | a tick with nothing due does nothing and says so |
| `UnreadableStreaks.SinceExactly` | `internal/autoswitch/tick.go:105-148` | over any run, what the engine remembers as the start of an idle session is the first of the ticks in a row that found the token expired, and nothing otherwise |
| `UnreadableStreaks.CountExactly` | `internal/autoswitch/tick.go:105-153` | over any run, its count is the number of ticks in a row that could not read the account and did not find an idle session of up to half an hour |
| `UnreadableStreaks.FailoverExactly` | `internal/autoswitch/tick.go:119-156` | when nothing is refused, a tick fails over exactly if that many are at least what the settings ask for and somebody can take over |
| `AutoSwitchEngine.Engine.ReleaseRecoveredQuarantines` | `internal/autoswitch/state.go:173-215` | drops exactly the entries whose account or credential was replaced |
| `AutoSwitchEngine.Engine.Quarantine` | `internal/autoswitch/state.go:131-167` | records the email and the fingerprint of what is stored now |
| `AutoSwitchEngine.Engine.ChooseTrigger` | `internal/autoswitch/tick.go:100-163` | whether to switch and why, with the cooldown |
| `AutoSwitchEngine.Engine.CountUnhealthy` | `internal/autoswitch/tick.go:120-160` | the idle hold and the count of unhealthy ticks |
| `AutoSwitchEngine.Engine.SelectCandidates` | `internal/autoswitch/tick.go:244-306` | the ordered targets, API-key accounts last and only when included |
| `AutoSwitchEngine.Engine.FreshenTarget` | `internal/autoswitch/freshen.go:22-64` | one candidate freshened; a rotated credential is stored first |
| `AutoSwitchEngine.Engine.NoteTokenIdentity` | `internal/autoswitch/freshen.go:70-90` | the owner conflict and the backfill of a blank uuid |
| `AutoSwitchEngine.Engine.PerformSwitch` | `internal/autoswitch/tick.go:348-408` | the re-check, the switch and its record |
| `AutoSwitchEngine.Engine.TryInOrder` | `internal/autoswitch/tick.go:199-233` | the loop over the targets |
| `AutoSwitchEngine.Engine.TickInner` | `internal/autoswitch/tick.go:40-234` | the whole tick |
| `SharedState.CooldownIsRespected` | `internal/autoswitch/tick.go:358-395` | in every interleaving of engines a proactive switch begins at least its engine's cooldown after the last recorded switch |
| `SharedState.RecordedSwitchIsNeverErased` | `internal/autoswitch/state.go:89-103` | no quarantine write of any engine erases the time of the last recorded switch |
| `SharedState.EngineCanSwitch` | `internal/autoswitch/tick.go:358-395` | with the lock free and outside the cooldown, an idle engine can switch and record it |
| `DirLock.MutualExclusion` | `internal/cclock/cclock.go:75-125` | if nobody dies and the delays add up to no more than the staleness limit, at most one process holds the lock and no waiter reaches the takeover |
| `DirLock.HeldIsFresh` | `internal/cclock/cclock.go:129-160` | a live holder's directory is never older than the touch interval, the delays and the release tail |
| `DirLock.DeadHolderBreaksExclusion` | `internal/cclock/cclock.go:107-114` | with a dead holder two waiters can both take the lock |
| `DirLock.LockIsHandedOver` | `internal/cclock/cclock.go:75-160` | a live holder can always let go, and a waiter can take the lock then |
| `Relocation.BodyConserves` | `internal/migrations/relocate.go:76-136` | in every state of one account's relocation its credential resolves in the old store or is byte-equal in the new one |
| `Relocation.RunConserves` | `internal/migrations/relocate.go:66-139` | so in every state of a run, for every slot |
| `Relocation.MacRetriesConserve` | `internal/migrations/macos.go:48-137` | on macOS across any number of failed, interrupted and repeated runs |
| `Relocation.UndisturbedWindowsRun` | `internal/migrations/relocate.go:66-139` | a Windows run in which nothing fails is recorded and has moved every credential the old store had |
| `Relocation.UndisturbedMacRun` | `internal/migrations/macos.go:48-137` | so has a macOS run, for every slot the new store lacked |
| `Relocation.WindowsLeavesNoBadCopy` | `internal/migrations/relocate.go:106-124` | however a Windows run that completes fails, an account's item in the new store is what it was, the credential it resolved to, or gone, unless removing a bad copy failed |
| `Relocation.MacLeavesNoBadCopy` | `internal/migrations/relocate.go:106-124` | so it is after a macOS run |
| `Relocation.DeferredRunIsMadeUp` | `internal/migrations/macos.go:62-75` | a macOS run that could not read the Keychain changes nothing that the next run does not make up for |
| `Relocation.SecondRunOverwrites` | `internal/migrations/windows.go:62-81` | on Windows two runs, the first dead before it is recorded, can replace a migrated credential by the shared entry |
| `Relocation.WindowsConservesExactly` | `internal/migrations/windows.go:28-90` | every sequence of runs, each dying anywhere, conserves a slot's credential exactly unless the slot has its own entry and a different one under the alias its email selects, and the migration is not yet recorded |
| `Relocation.WholeRunsConserveExactly` | `internal/migrations/runner.go:65-92` | when no run dies and every complete one is recorded, a slot with two such entries is safe exactly when it is the only account: another account's failure keeps the run from being recorded |
| `KeyringMigration.CountIsOne` | `internal/migrations/relocate.go:67-70` | an email counted once belongs to exactly one account |
| `KeyringMigration.Stores.PickSource` | `internal/migrations/relocate.go:76-103` | the slot's own entry, or the shared one when the email is unique |
| `KeyringMigration.Stores.WriteVerifyDelete` | `internal/migrations/relocate.go:105-131` | the source goes only after a verified write; a bad copy is discarded and the old store untouched |
| `KeyringMigration.Stores.RelocateAll` | `internal/migrations/relocate.go:66-139` | the loop over the pending accounts |
| `KeyringMigration.Stores.MigrateWindows` | `internal/migrations/windows.go:28-90` | every account, every time; complete exactly when nothing counted as failed |
| `KeyringMigration.Stores.MigrateMacOS` | `internal/migrations/macos.go:48-137` | only what the new store lacks; complete exactly when nothing counted as failed |
| `KeyringMigration.Stores.RunWindows` | `internal/migrations/runner.go:65-92` | an applied migration is skipped, and one that completed is recorded if that works |
| `KeyringMigration.Stores.RunMacOS` | `internal/migrations/runner.go:65-92` | the same on macOS |
| `HistoryMerge.InsideSortsAfter` | `internal/session/history.go:104-106` | whatever is inside a directory sorts after it |
| `HistoryMerge.MergeKeepsViewExactly` | `internal/session/history.go:107-135` | every state of every merge, however disturbed, shows a reader the files that were there, with their text, exactly when each profile file that the shared tree has a directory for comes after one that cannot be moved |
| `HistoryMerge.MergeCompletesExactly` | `internal/session/history.go:84-135` | when nothing fails, the profile's tree is gone exactly when no file has a shared file for one of its directories; every file that was not dropped is then in the shared tree |
| `HistoryMerge.ParentFirstFails` | `internal/session/history.go:104-106` | parents first, a tree with one unblocked file cannot be merged |
| `HistoryFiles.Trees.MakePrivate` | `internal/session/history.go:184-201` | the missing levels, collected upwards and created downwards |
| `HistoryFiles.Trees.MergeOne` | `internal/session/history.go:107-133` | one node: an emptied directory removed, a duplicate dropped, any other file moved |
| `HistoryFiles.Trees.MergeHistoryDir` | `internal/session/history.go:84-135` | the merge in place; without a file that the shared tree has a directory for, a reader finds the same before and after; undisturbed, it completes exactly when no file is blocked |
| `Rotation.SeqIndex` | `internal/switching/switch.go:417-424` | the first index of a slot, or -1 |
| `Rotation.NextAccount` | `internal/switching/switch.go:178-222` | the first eligible slot in cyclic order after the current one, and exactly what was skipped before it |
| `Rotation.NextIsAnother` | `internal/switching/switch.go:178-222` | with two eligible slots there is always another one to go to |
| `Rotation.RotationIsASingleCycle` | `internal/switching/switch.go:146-223` | as many switches as there are eligible slots visit each once and end where they began |
| `ShellQuote.TwoPassesEscape` | `internal/cli/envcmd.go:241-245` | the two replacements of fish quoting are one escape per character |
| `ShellQuote.OrderOfPassesMatters` | `internal/cli/envcmd.go:241-245` | in the other order they are not |
| `ShellQuote.QuoteRoundTrips` | `internal/cli/envcmd.go:235-245` | a quoted value lexes to itself, whatever it contains |
| `ShellQuote.ExportRoundTrips` | `internal/cli/envcmd.go:209-218` | the export line is read back as exactly its assignment, and the lexer stops at the end of the line |

## Left out

- SwitchTheorems.ActivationNeverLosesAnUnmanagedLogin: excludes `--force`, which by design goes on after a failed stash.
- DirLock.MutualExclusion: assumes that no holder dies and that the delays are bounded; `DirLock.DeadHolderBreaksExclusion` shows that it cannot be dropped.
- AutoSwitchTheorems.NoFlapping: assumes that API-key rotation is off and that nobody else moves the live login.
- Session-profile directories in move and swap: shuffled best-effort under names that are not injective; nothing atomic is claimed of them.
- "File mode stays pinned for the process": a later Keychain failure re-arms the re-probe deadline, so it is not claimed.
- The Keychain axis of the live login: the switch is modelled on a platform where the login is files.
- A switch with `--force` or with no live identity may overwrite the live store without a surviving copy; the loss theorems exclude it.
- Partial failures inside one write of the live login: the first write of either axis fails whole, and the clearing of the other axis may silently fail.
- Failures of a permission change after a rename, and copies across file systems: not atomic in the source, not modelled.
- API-key failover rotation in the no-flap theorem: unknown headroom keeps triggering failover there.
- Dry runs of the switcher, its events, polling schedule and model-name check.
- The order in which staged copies are discarded: the source walks a map; the model uses the order of staging.
- Slots that the sequence does not list: the source scans them in text order for a uuid, the model in numeric order; reachable rosters have none.
- The account-None alias in the slot store: it is in `CredStore`, where a delete sweeps it, and in `Relocation`.
- The org backfill that runs ahead of a locked read, and a corrupt or missing roster file.
- Usage-aware strategies of the manual switch (`best`, `next-available`) and the fresh-machine path.
- `history.jsonl` merging, PowerShell quoting, and shells other than POSIX sh and fish.
- Directory mappings, dead-token quarantine of the add command, purge, disable and enable, transfer, TUI, network clients, JSON codecs, prompts, logging and process detection.
- SHA-256 and base64: an arbitrary function and an inverse pair.
