# Verification of LemonSSH's stateful cores

LemonSSH is a desktop SSH client. Most of its front end is user interface, but
underneath sit a number of small protocols over shared browser storage and a few
data-structure algorithms whose correctness is easy to get wrong and hard to see:
credentials that several windows and asynchronous loads read and clean up, a vault
that is overwritten by a non-atomic apply, plugin data that has to survive a host
that comes and goes, a tree that is flattened into rows and navigated by depth
alone. This project models those cores in Dafny 4.11 and proves what they are for.
`dafny verify dfyconfig.toml` checks everything.

## How the models are built

Nearly every protocol is written three times, and the three are tied together by
proof; `RestoreNesting`, whose single holder is `RestoreBarrier`'s method, has no class
of its own.

* A **specification**: a state datatype and a `Step` function over events, so that a
  lemma over all runs covers every interleaving and, because every prefix of a run is
  a run, every crash point.
* A **class or method** in the shape of the source, with the same fields, branches
  and loops, whose postcondition says that the new state is exactly the one the
  specification gives.
* **Lemmas** about the specification: invariants kept by every step, properties of
  all runs, exact conditions, and concrete counterexamples where the code does not
  do what one would expect.

What one event is differs. In the `Passphrase*` files, the `Model*` files, `SkillsCache`
and `MigrationPrepare` it is a stretch of code between two awaits; in `ProtectedApply`
also a single durable write; in `SidecarBridge` a whole call, since its calls are
serialised; in `ExpandedPaths` a rendering or a click; in `VersionStamp` a launch; in
`RestoreNesting` an entry, a timer tick or a release. The algorithms have no events:
`HostTree*`, `SecretRollback`, the `Settings*` files and `TransferIndex` are functions with
the source's loops proved against them, `RestoreBarrier` is arithmetic over ticks, and
`ManualOrder` and `CacheKey` are functions and lemmas, as their sources are
expressions.

Encryption, the clock, string lower-casing, sorting, payload equality and the
convergent library are parameters. Laws that a proof needs of them are stated in
its `requires` (a decryption undoes the encryption, payload equality is an
equivalence, a sort is a permutation).

| file | what it models |
|---|---|
| `PassphraseStore`, `PassphraseProtocol`, `PassphraseSafety`, `PassphraseClasses`, `PassphraseRetries`, `PassphraseSession`, `PassphraseAliases`, `PassphraseWindows`, `PassphraseImport`, `PassphraseVerdicts` | the record of remembered key passphrases: queued mutations, unqueued loads that clean up, alias classes of paths, imports that must not overwrite another passphrase |
| `ProtectedApply`, `RestoreBarrier`, `RestoreNesting`, `VersionStamp` | applying a vault under a barrier, a protective backup and a sentinel; the heartbeat arithmetic; a restore's barrier around an apply's; the version-change backup |
| `SidecarBridge` | the two durable slots in front of the plugin host |
| `MigrationPrepare`, `MigrationCrash` | preparing and initialising the convergent migration, and restoring a backup into an initialised replica |
| `HostTree`, `HostTreeKeys`, `HostTreeSplice`, `ExpandedPaths`, `ManualOrder` | the visible host tree, its arrow keys, expanding and collapsing, the expansion during a filter, and the manual group order |
| `ModelCache`, `ModelAnswers`, `CacheKey` | the model catalog cache, what it answers, and its key |
| `SecretRollback` | storing sync secrets, connecting, rolling back, against the host's own secret store |
| `SkillsCache` | the versioned single-flight cache of the user-skills status |
| `SettingsApply`, `SettingsResults` | applying and collecting synced settings, and what each setting is afterwards |
| `TransferIndex` | the transfer centre's children index, buckets, badge and background split |
| `Prelude` | `Option` and map lookup |

## Where the code does less than its comments or its neighbours suggest

Each of these is proved: by a lemma with a concrete input, by a lemma with the
exact condition under which the expectation holds, or by both.

* Alias resolution tolerates a failing home lookup and then knows one spelling only. A
  save made then leaves the other spelling stored, and a later load that does know the
  home reads that one, returns it and deletes the newer, readable save
  (`PassphraseSafety.ReadableSaveIsLost`). Exactly which entries a load deletes is
  `LoadDeletesIff` and `ReadableEntryDeletedIff`; a readable save is safe as long as no
  load finishes over a class with another entry in it (`LoneSaveSurvives`), which
  aliases that resolve consistently guarantee (`PassphraseClasses.ReadableSaveSurvives`).
* A load compares ciphertexts, so one that could read nothing deletes an entry that
  was saved again with the very text its snapshot had
  (`PassphraseProtocol.RepeatedSaveIsDeleted`). With consistent aliases it is the only
  way a load deletes a save (`PassphraseClasses.SavedEntryDeletedIff`).
* An import resolves aliases anew for its read, its scan of the keys and its write; a
  write that covers more than the read or the scan did drops another passphrase
  (`PassphraseImport.PartialReadDropsPassphrase`, `PartialScanReplacesPassphrase`), and
  only then (`ImportOverwritesIff`).
* A load that took its snapshot before anything was saved for its key answers null when
  its aliases arrive, although a readable save may be stored by then: it compares only
  when it has found an entry (`PassphraseRetries.LoadUnderWayReturnsSaveIff`,
  `EmptyAnswerIff`).
* Under a Windows home sharing a spelling is no equivalence: drive paths are compared in
  lower case, tilde paths as written, so a passphrase saved as `~/K` is not found for
  `C:\Users\u\k` (`PassphraseWindows.DriveClassesIff`, `TildeSaveIsFoundIff`).
* An empty model load can answer with a catalog that has expired meanwhile, though
  only if it was begun by force or across an expiry (`ModelCache.FallbackMayBeExpired`,
  `ExpiredAnswerIff`, `PlainRunsAnswerFresh`).
* The restore barrier tolerates one missed heartbeat, but at the default hold time
  not two: then the deadline is reached at the instant of the next tick
  (`RestoreBarrier.MissedTicks`). Hold times above ten minutes are not believed by the
  readers at all (`ReadersHeldIff`).
* A restore holds the barrier around a protected apply that holds it again; the inner
  release zeroes the outer holder's deadline until its next heartbeat
  (`RestoreNesting.NestedHoldLapses`, `GapIsBounded`, `NoLapseIff`).
* A host call that rejects as "unavailable" during an apply leaves the downloaded
  sidecars neither applied nor queued, while the sync goes on
  (`SidecarBridge.CompletedApplyIsNotLost`); one that fails after taking effect lets
  an older queued bundle overtake it (`OvertakingBreaksOrder`, `OvertakingRun`).
* A version-change backup whose stamp write is rejected, or cut off by a crash, is taken
  again by the next launch, and a version launched without a backup is passed over
  (`VersionStamp.UnstampedBackupRepeats`, `UnbackedVersionIsSkipped`,
  `BackupsFormAChainIff`).
* The host reports an overwritten secret that is empty or can no longer be opened as
  created, so a rollback deletes it, and two secrets under one key resurrect the first
  (`SecretRollback.DistinctKeysRollBackIff`, `UnreadableRowIsDeleted`,
  `RepeatedKeyResurrects`).
* Applying a payload twice is not applying it once when two incoming providers share
  an id, or when the payload names a model for an agent whose local binding it orphans
  (`SettingsApply.RepeatedIdIsUnstable`, `DroppedModelReturns`, `AiApplyIdempotentIff`).
* Groups configured with one manual order are each put before the other
  (`ManualOrder.EqualOrdersCannotBeSorted`, `ConsistentIffDistinct`).
* Finished background transfers that share an id with an unfinished one hide it
  (`TransferIndex.SplitIsPartitionIff`).
* Nothing keeps the separator out of the cache key's fields. Without one the key is
  certain to identify its agent (`CacheKey.KeyIdentifiesSource`); with one, two agents
  can share an entry (`NulFieldsCollide`).

## Model

| member | source | states |
|---|---|---|
| `PassphraseStore.PassphraseRecord.WriteUnlocked` | application/defaultKeyPassphrases.ts:54-68 | a save leaves one entry of the alias class, at the given path, with the new ciphertext; every path outside the class keeps its entry |
| `PassphraseStore.PassphraseRecord.RemoveUnlocked` | application/defaultKeyPassphrases.ts:314-328 | a removal empties the class and touches nothing else; a missing record stays missing |
| `PassphraseStore.PassphraseRecord.MatchingStoreEntriesChanged` | application/defaultKeyPassphrases.ts:80-96 | the comparison is true exactly when some spelling of the class was added, removed or given another ciphertext |
| `PassphraseStore.PassphraseRecord.FinishReadable` | application/defaultKeyPassphrases.ts:117-134 | after a usable decryption: retry exactly when the class changed, otherwise only the other scanned spellings go |
| `PassphraseStore.PassphraseRecord.FinishInvalid` | application/defaultKeyPassphrases.ts:138-156 | after nothing was usable: retry exactly when the class changed, otherwise only entries still holding the unreadable text go |
| `PassphraseProtocol.PathsToTry` | application/defaultKeyPassphrases.ts:106-112 | the spellings tried are the stored ones of the class, and the spelling asked for comes first when it is stored |
| `PassphraseProtocol.StepKeepsQueue` | application/defaultKeyPassphrases.ts:46-52 | every event keeps each mutation waiting for the one submitted before it, and the write order equal to the submission order |
| `PassphraseProtocol.MutationsRunInOrder` | application/defaultKeyPassphrases.ts:46-52 | in every interleaving at most one mutation is in progress and mutations write in submission order |
| `PassphraseProtocol.StepKeepsStoreInv` | application/defaultKeyPassphrases.ts:98-165 | every event keeps what unfinished loads rely on: bounded attempts, snapshots older than the clock, scanned paths being the snapshot's spellings |
| `PassphraseProtocol.OnlyWritesAndCleanupsChange` | application/defaultKeyPassphrases.ts:54-157 | an entry changes only through a mutation covering its path, or a clean-up of its own class that found it unchanged since the snapshot |
| `PassphraseProtocol.RunsKeepStoreInv` | application/defaultKeyPassphrases.ts:46-165 | the same after every run |
| `PassphraseSafety.LoadDeletesIff` | application/defaultKeyPassphrases.ts:98-157 | over every run and whatever its alias sets, a load deletes a stored entry exactly when its comparison passes, the entry is of the class it resolved, and it is not the one it decrypted |
| `PassphraseSafety.ReadableEntryDeletedIff` | application/defaultKeyPassphrases.ts:114-157 | over every run, an entry that can be read is deleted by a load exactly when the load's comparison passes and it has decrypted another spelling of the class |
| `PassphraseSafety.LoneSaveSurvives` | application/defaultKeyPassphrases.ts:46-157 | over every run, a save that reads back outlives every load until a mutation covers its path, unless a load finishes over a class in which another entry is stored |
| `PassphraseSafety.ReturnedSecretIsStored` | application/defaultKeyPassphrases.ts:114-137 | over every run, a secret a load returns is the decryption of an entry of its class stored at that moment, and all the class then holds |
| `PassphraseSafety.LoadAfterLoneSaveReturnsIt` | application/defaultKeyPassphrases.ts:54-165 | over every run, a load begun after a save that stays stored, readable and alone in its class returns that secret unless it throws |
| `PassphraseSafety.HomeDecidesTheClass` | application/defaultKeyPassphrases.ts:19-43 | with the home known `/home/u/k` and `~/k` resolve to both spellings, with the lookup failed `~/k` resolves to itself alone |
| `PassphraseSafety.ReadableSaveIsLost` | application/defaultKeyPassphrases.ts:19-157 | a run in which a save made while the home lookup failed is readable and is deleted by a load that knows the home and returns the older spelling |
| `PassphraseClasses.PosixEventsRespect` | application/defaultKeyPassphrases.ts:8-43 | when every home lookup reports one POSIX home, saves and loads resolve to the class of a given path or to keys outside it: consistent aliases |
| `PassphraseClasses.SavedEntryDeletedIff` | application/defaultKeyPassphrases.ts:98-157 | with consistent aliases, over every run, a load deletes a saved entry exactly when it is of its class, nothing was usable, and the snapshot held just that entry with the same text; repeated ciphertexts included |
| `PassphraseClasses.SavedEntrySurvives` | application/defaultKeyPassphrases.ts:46-157 | with consistent aliases a save is all its class holds until a mutation covers its path or such an unreadable clean-up happens, whatever decryptions answer |
| `PassphraseClasses.SaveStaysAlone` | application/defaultKeyPassphrases.ts:46-157 | with consistent aliases a save is alone in its class for as long as it is stored |
| `PassphraseClasses.ReadableSaveSurvives` | application/defaultKeyPassphrases.ts:46-157 | with consistent aliases, over every run, a save that reads back outlives every load until a mutation covers its path |
| `PassphraseClasses.LoadAfterSaveReturnsIt` | application/defaultKeyPassphrases.ts:54-165 | with consistent aliases, over every run, a load begun after such a save returns its secret, unless it throws or a mutation covers the path in between |
| `PassphraseProtocol.RepeatedSaveIsDeleted` | application/defaultKeyPassphrases.ts:80-157 | a run in which a load deletes a save made while it was reading: the very text its snapshot held, unreadable, saved again |
| `PassphraseRetries.AttemptsAreCounted` | application/defaultKeyPassphrases.ts:159-165 | over every run, an unfinished load is on the attempt that the number of its attempts ended over a changed class says, at most the third |
| `PassphraseRetries.EmptyAnswerIff` | application/defaultKeyPassphrases.ts:98-165 | over every run, an event makes a load answer null exactly when it shows nothing stored under the class, or is a clean-up after which nothing was usable, or is the third of its attempts to end over a changed class; after the first and second the load starts over |
| `PassphraseRetries.EmptyAnswerMeans` | application/defaultKeyPassphrases.ts:98-165 | over every run, a null answer goes back to a last snapshot without an entry of the class, or to a class still as it was then and wholly unreadable, or to three changed attempts |
| `PassphraseRetries.SnapshotWasStored` | application/defaultKeyPassphrases.ts:102 | over every run, what an unfinished attempt reads is the whole record as it was when the load last looked |
| `PassphraseRetries.LoadUnderWayReturnsSaveIff` | application/defaultKeyPassphrases.ts:98-165 | over every run, a load under way when a secret is saved, its class changing during fewer than three of its attempts, returns the lone readable save if it returns, exactly when it had not already seen a record without an entry of the class |
| `PassphraseRetries.LoadsTryTheirPathFirst` | application/defaultKeyPassphrases.ts:109-112 | over every run, each load tries the spelling it was started for before any other stored one |
| `PassphraseRetries.TriedInRecordOrder` | application/defaultKeyPassphrases.ts:106-112 | the other spellings are tried in the order of the record |
| `PassphraseSession.RunSession` | application/defaultKeyPassphrases.ts:46-165 | an object with the module's variables, driven through any events for as long as the next can happen, goes through a run of the protocol from its start and keeps its invariants |
| `PassphraseSession.Session.MutationSaves` | application/defaultKeyPassphrases.ts:70-78 | the save's one synchronous write is the protocol's save event |
| `PassphraseSession.Session.MutationRemoves` | application/defaultKeyPassphrases.ts:330-344 | the removal's one synchronous write is the protocol's remove event |
| `PassphraseSession.Session.SelectPaths` | application/defaultKeyPassphrases.ts:106-112 | the filtering loop and the move to the front select the stored spellings of the class, the exact one first |
| `PassphraseSession.Session.LoadDecrypts` | application/defaultKeyPassphrases.ts:115-164 | one decryption is the protocol's event: next spelling, retry, third-retry give-up, or compare and clean up in one go |
| `PassphraseAliases.PosixAliases` | application/defaultKeyPassphrases.ts:8-43 | under a POSIX home the comparison keys of a path's aliases are exactly its one or two spellings |
| `PassphraseAliases.OtherSpellingInvolutive` | application/defaultKeyPassphrases.ts:28-39 | the home spelling and the tilde spelling lead back to each other |
| `PassphraseAliases.AliasClasses` | application/defaultKeyPassphrases.ts:8-43 | sharing an alias is an equivalence whose classes have at most two members |
| `PassphraseWindows.DriveAliases` | application/defaultKeyPassphrases.ts:19-43 | under a Windows home the class of a drive path is its lower-case slashed form and the tilde path spelled alike |
| `PassphraseWindows.TildeAliases` | application/defaultKeyPassphrases.ts:33-39 | the class of a tilde path under a Windows home is itself as written and its drive path in lower case |
| `PassphraseWindows.DriveClassesIff` | application/defaultKeyPassphrases.ts:8-43 | drive paths that differ in case only always share a spelling, and have the same class exactly when spelled alike after the home |
| `PassphraseWindows.TildeSaveIsFoundIff` | application/defaultKeyPassphrases.ts:8-68 | a passphrase saved under a tilde path is found under the drive path exactly when the two are spelled alike after the home |
| `PassphraseAliases.FirstUsable` | application/defaultKeyPassphrases.ts:115-137 | the entry a scan settles on is the first usable one |
| `PassphraseAliases.SaveThenLoad` | application/defaultKeyPassphrases.ts:54-78 | a secret saved under one spelling is the only entry of its class, and loading any spelling gives it back |
| `PassphraseAliases.LoadOnce` | application/defaultKeyPassphrases.ts:98-157 | an undisturbed load returns the first usable entry and leaves one entry of the class, or none if nothing was usable |
| `PassphraseAliases.ScanUsable` | application/defaultKeyPassphrases.ts:114-137 | the decryption loop stops at the first usable spelling |
| `PassphraseImport.StepKeepsInv` | application/defaultKeyPassphrases.ts:490-528 | an import about to write has seen nothing but its own passphrase, however keys are edited or entries cleaned up meanwhile |
| `PassphraseImport.FingerprintGuards` | application/defaultKeyPassphrases.ts:474-488 | equal fingerprints mean the vault's keys still agree with what was judged |
| `PassphraseImport.ImportOverwritesIff` | application/defaultKeyPassphrases.ts:490-528 | over every run, with aliases resolved anew for each read, for the scan and for the write, an import that saves overwrites another stored passphrase exactly at a spelling its last read did not cover, and a vault key's exactly at a key its scan did not cover |
| `PassphraseImport.CoveredImportOverwritesNoOther` | application/defaultKeyPassphrases.ts:490-528 | where read and scan cover what is written, no other passphrase is overwritten, stored or in a vault key |
| `PassphraseImport.PartialReadDropsPassphrase` | application/defaultKeyPassphrases.ts:178-181 | a run that loses another passphrase, for every spelling the write covers and the read did not |
| `PassphraseImport.PartialScanReplacesPassphrase` | application/defaultKeyPassphrases.ts:245-273 | a run that replaces a vault key's passphrase, for every key path the write covers and the scan did not |
| `PassphraseImport.RefusedImportWritesNothing` | application/defaultKeyPassphrases.ts:504-510 | an import that answers conflict or unreadable has written nothing |
| `PassphraseImport.SavedImportIsRemembered` | application/defaultKeyPassphrases.ts:490-528 | after a save the class holds one entry, importing the same passphrase is accepted and any other is a conflict |
| `PassphraseImport.DeleteForgetsIff` | application/defaultKeyPassphrases.ts:367-391 | deleting a key forgets its passphrase under every spelling exactly when no remaining reference key shares a spelling with it |
| `PassphraseVerdicts.VerdictIff` | application/defaultKeyPassphrases.ts:490-528 | over every run, exactly when an event decides an import and how: unreadable, conflict or saved; the first and second change found start the read over, the third is unreadable, and agreement goes on to the write |
| `PassphraseVerdicts.ReadSawTheRecord` | application/defaultKeyPassphrases.ts:178-197 | over every run, an unfinished read holds the whole record as it was at its snapshot, with the aliases resolved for it |
| `PassphraseVerdicts.ImportRemembersItsStart` | application/defaultKeyPassphrases.ts:499-504 | over every run, an import judges the keys it began with and counts the changes its reads found, at most two before the last |
| `PassphraseImport.VaultKeys.Judge` | application/defaultKeyPassphrases.ts:245-273 | the two scans find something unreadable, something different, or agreement, in that order of precedence |
| `PassphraseImport.VaultKeys.Snapshot` | application/defaultKeyPassphrases.ts:178-197 | a verification read snapshots the record, and judges at once when the class is empty |
| `PassphraseImport.VaultKeys.CompareEntries` | application/defaultKeyPassphrases.ts:214-235 | a changed class retries up to three times and then counts as unreadable |
| `PassphraseImport.VaultKeys.SaveIfUnchanged` | application/defaultKeyPassphrases.ts:506-526 | the write happens only if the fingerprint still matches, and then nothing else was remembered |
| `ProtectedApply.StepKeepsInv` | application/localVaultBackups.ts:410-450 | every event keeps the disk equal to a prefix of the apply and the sentinel equal to what was marked and not cleared |
| `ProtectedApply.RunsKeepInv` | application/localVaultBackups.ts:410-450 | the same at every crash point of every run |
| `ProtectedApply.PartialVaultIsFlagged` | application/localVaultBackups.ts:434-449 | a half-applied vault always has a sentinel naming a backup of exactly the vault before, or none when there was nothing to back up or the bridge gave none; only a failed sentinel write breaks this |
| `ProtectedApply.NothingReadMeansWhole` | application/localVaultBackups.ts:321-335 | a session that reads no interrupted apply finds the wholly old or the wholly new vault |
| `ProtectedApply.EarlyFailureTouchesNothing` | application/localVaultBackups.ts:414-432 | a failure before the sentinel step leaves vault and earlier sentinel as they were |
| `ProtectedApply.ReleasedApplyIsSettled` | application/localVaultBackups.ts:443-449 | an apply that returned has landed completely; one that failed after the sentinel step keeps its flag |
| `ProtectedApply.SuccessClearsSentinelIff` | application/localVaultBackups.ts:443-449 | over every run, a successfully released apply has removed the sentinel exactly when its one removal was accepted, and otherwise leaves the flag it set or found |
| `ProtectedApply.OutcomeOfFaults` | application/localVaultBackups.ts:410-450 | for each combination of faults: whether the call succeeds, how many writes land, whether a backup is taken and what the flag then is |
| `ProtectedApply.NoApplyWithoutBackup` | application/localVaultBackups.ts:200-227 | a meaningful vault is never changed before its backup was written, unless the bridge answers without one |
| `ProtectedApply.VaultStorage.ApplyProtectedSyncPayload` | application/localVaultBackups.ts:410-450 | for every combination of faults: exactly when the call succeeds, and what vault, backups, sentinel and deadline then are |
| `ProtectedApply.VaultStorage.ApplyUnderBarrier` | application/localVaultBackups.ts:414-449 | the same for the body under the barrier, which follows the machine from holding to leaving |
| `ProtectedApply.VaultStorage.ApplyMarked` | application/localVaultBackups.ts:434-448 | from the sentinel on: the writes that land, and a sentinel that goes only after the callback returned |
| `ProtectedApply.VaultStorage.TakeBackup` | application/localVaultBackups.ts:415-432 | prepare, snapshot and backup change neither vault nor sentinel, and a failed one aborts |
| `ProtectedApply.VaultStorage.MarkInProgress` | application/localVaultBackups.ts:352-364 | the sentinel write records start time and backup, and its failure is tolerated |
| `ProtectedApply.VaultStorage.RunCallback` | application/localVaultBackups.ts:447 | the callback lands a prefix of its writes |
| `ProtectedApply.VaultStorage.ClearInterruptedVaultApply` | application/localVaultBackups.ts:344-350 | clearing removes the sentinel, or leaves it when the removal fails |
| `RestoreBarrier.ToleratesIff` | application/localVaultBackups.ts:264-299 | a hold time survives n lost ticks in a row exactly when it exceeds n+1 heartbeats, for every task length |
| `RestoreBarrier.MissedTicks` | application/localVaultBackups.ts:238-287 | no loss, one and two lost ticks are survived exactly above one second, two seconds and the default hold time |
| `RestoreBarrier.ReadersHeldIff` | application/state/useAutoSync.ts:124-146 | other windows really wait exactly when the deadline stays ahead and the hold time is at most the ten minutes they believe |
| `RestoreBarrier.BarrierKey.WithRestoreBarrier` | application/localVaultBackups.ts:264-299 | whichever writes are rejected, the deadline in force at each tick is the last one accepted, release zeroes it after return and throw alike, and with one miss in a row it stays ahead for holds of three seconds or more |
| `RestoreNesting.StepKeepsInv` | application/localVaultBackups.ts:264-299 | every entry, tick and release of two nested holders keeps the stored deadline tied to its writer's last write, and the outer holder's next tick near any moment it lost its writer |
| `RestoreNesting.WrittenDeadlineIsAheadIff` | application/localVaultBackups.ts:264-299 | over every interleaving, a deadline with a writer is ahead of the clock until that holder's next tick exactly when its hold time exceeds its missed heartbeats and one |
| `RestoreNesting.OneMissIsTolerated` | application/localVaultBackups.ts:240-246 | a hold time of three seconds or more exceeds it with one heartbeat missed |
| `RestoreNesting.GapStartedAt` | application/localVaultBackups.ts:289-298 | a deadline without a writer goes back to an inner release or a failed entry, with no write since |
| `RestoreNesting.GapIsBounded` | application/localVaultBackups.ts:283-298 | after such a moment the outer holder's next tick is at most one outer heartbeat away, and one more per tick missed |
| `RestoreNesting.OuterTickEndsGap` | application/localVaultBackups.ts:268-287 | that tick, if it fires, makes the outer holder the writer again at that moment |
| `RestoreNesting.NoLapseIff` | application/localVaultBackups.ts:264-299 | the key is ahead at every instant of an outer hold exactly when each inner release is met at that instant by another write or the end of the hold |
| `RestoreNesting.NestedHoldLapses` | components/CloudSyncSettings.tsx:753-765 | a run at the default hold time whose key is zero for eighteen seconds under the outer holder |
| `VersionStamp.BackupsFormAChainIff` | application/localVaultBackups.ts:452-513 | over every sequence of launches, crashes and rejected stamp writes included, the backups form one unbroken chain exactly when the stamp write landed after each but the last; after one where it did not, the next starts from the same version again |
| `VersionStamp.StampFollowsBackups` | application/localVaultBackups.ts:483-507 | over every sequence of launches the stamp is the last backup's target if its stamp write landed, else still its source |
| `VersionStamp.FirstStampIsFirstVersion` | application/localVaultBackups.ts:465-471 | until there is a stamp nothing is backed up; the first launch that reports a version and gets its stamp written sets the stamp to it |
| `VersionStamp.UnstampedBackupRepeats` | application/localVaultBackups.ts:475-507 | launches that back the same version change up twice because the stamp write did not land |
| `VersionStamp.UnbackedVersionIsSkipped` | application/localVaultBackups.ts:483-507 | launches whose chain passes over a version that was only launched without a backup |
| `VersionStamp.StampMovesOnlyWithABackup` | application/localVaultBackups.ts:483-507 | after every sequence of launches, a launch backs up exactly a change away from the stamped version that it can back up, and moves the stamp exactly when it did and the write lands |
| `VersionStamp.StampStore.EnsureVersionChangeBackup` | application/localVaultBackups.ts:452-513 | one launch does what the chain's step says and reports whether a backup was added |
| `SidecarBridge.StepKeepsSlots` | application/pluginSyncSidecarBridge.ts:162-338 | every call keeps the pending slot equal to the newest bundle queued and not applied since |
| `SidecarBridge.StepKeepsOrderIff` | application/pluginSyncSidecarBridge.ts:276-304 | a call keeps download order exactly when it is not a failing apply that took effect over a queued bundle |
| `SidecarBridge.RunsDeliverInOrder` | application/pluginSyncSidecarBridge.ts:162-338 | over every serialised run without such a call, bundles reach the host in download order |
| `SidecarBridge.OvertakingBreaksOrder` | application/pluginSyncSidecarBridge.ts:177-187 | after such a call the next replay hands the host the older bundle last |
| `SidecarBridge.OvertakingRun` | application/pluginSyncSidecarBridge.ts:162-338 | a run from the empty slots that hands the host an older bundle last: queued with the host away, overtaken by a failing apply that took effect, replayed by a collect |
| `SidecarBridge.LiveMeansNothingPending` | application/pluginSyncSidecarBridge.ts:178-220 | collect hands out a live bundle only when nothing is pending any more, and the pending one otherwise |
| `SidecarBridge.CollectReplaysIff` | application/pluginSyncSidecarBridge.ts:178-200 | a collect empties the queue exactly when the host accepts the replay, and leaves it alone otherwise |
| `SidecarBridge.LiveBundleIsHandedOut` | application/pluginSyncSidecarBridge.ts:200-221 | with a clear queue a collect answers the host's own bundle, for uploads and live collects alike, and last-known becomes it unless it would lose its entries; a passive host yields last-known to an upload; it fails exactly when the host or the write does |
| `SidecarBridge.CollectWithoutHost` | application/pluginSyncSidecarBridge.ts:173-198 | without the host or past a stuck queue an upload gets last-known or the queued bundle, a live collect nothing, and a replay that fails otherwise fails the collect |
| `SidecarBridge.ApplyRemembers` | application/pluginSyncSidecarBridge.ts:276-338 | what last-known, the queue and the outcome are after every apply: the host's fresh bundle, the confirmed one, the queued one, or as before |
| `SidecarBridge.CollectKeepsLastKnown` | application/pluginSyncSidecarBridge.ts:210-219 | no collect replaces a non-empty last-known bundle by an empty one |
| `SidecarBridge.EmptyUploadIsAuthoritative` | application/pluginSyncSidecarBridge.ts:153-220 | an upload sees an empty bundle only from the live host, a queued reset, or an empty last-known |
| `SidecarBridge.CompletedApplyIsNotLost` | application/syncPayload.ts:1015-1033 | when applying completes without error the bundle was applied or is queued, with one exact exception |
| `SidecarBridge.StepKeepsKept` | application/pluginSyncSidecarBridge.ts:162-338 | no call loses a download that is accounted for: it or a newer one stays delivered or queued |
| `SidecarBridge.CompletedDownloadsStayKept` | application/syncPayload.ts:1015-1033 | over every serialised run, a download whose apply completed, or a newer one, has reached the host or is queued ever after |
| `SidecarBridge.RejectedQueueWriteSurfaces` | application/pluginSyncSidecarBridge.ts:111-123 | a rejected storage write is never mistaken for an unavailable host |
| `SidecarBridge.Bridge.ApplyPluginSyncSidecarsFromHost` | application/pluginSyncSidecarBridge.ts:276-338 | one apply is the specification's step, for every host and storage behaviour |
| `SidecarBridge.Bridge.CollectPluginSyncSidecarsFromHost` | application/pluginSyncSidecarBridge.ts:162-221 | one collect is the specification's step and keeps a non-empty last-known |
| `SidecarBridge.Bridge.CommitPluginSidecarsAfterSuccessfulSync` | application/pluginSyncSidecarBridge.ts:242-274 | a sync round commits the first merged sidecars, else the uploaded ones, else nothing, and nothing without a success |
| `MigrationPrepare.StepKeepsProgress` | application/convergentSyncMigration.ts:56-102 | each callback stretch keeps answers and trusted baselines equal to what the provider's awaits said |
| `MigrationPrepare.StepKeepsRecords` | application/convergentSyncMigration.ts:68-87 | the shared lists hold exactly one record per ready provider answered so far |
| `MigrationPrepare.SelectionIgnoresOrder` | application/convergentSyncMigration.ts:35-41 | the same baselines in another order select the same trusted baseline up to payload equality |
| `MigrationPrepare.SortedUnique` | application/convergentSyncMigration.ts:130 | sorting by provider leaves no choice |
| `MigrationPrepare.PreparationIsConfluent` | application/convergentSyncMigration.ts:56-134 | every completion order of the fetches gives the same inputs and baselines, and the same plan up to payload equality |
| `MigrationPrepare.TrustedBaselineIff` | application/convergentSyncMigration.ts:35-116 | over every completion order there is a trusted baseline exactly when some baseline read gave a payload and all payloads so read are the same; it is one of them, and the plan is the planner's answer to it and the inputs |
| `MigrationPrepare.InputsReportFetches` | application/convergentSyncMigration.ts:56-103 | over every completion order the planner is told of each provider what its own awaits gave: the first error, an empty remote, or the remote with its baseline |
| `MigrationPrepare.RecordsReportDownloads` | application/convergentSyncMigration.ts:68-134 | over every completion order the baselines to store are exactly those of the downloaded remotes, with their own state or, if the plan has one, the plan's |
| `MigrationPrepare.BaselinesMatchReadiness` | application/convergentSyncMigration.ts:117-134 | once the plan has a state a provider has a baseline record exactly when it is ready |
| `MigrationPrepare.PrepareConvergentSyncMigration` | application/convergentSyncMigration.ts:43-134 | the object driven through any completion order answers the specified result of a complete run, refuses only orders no complete run has, agrees with every other completed run, and has a trusted baseline exactly when the baselines read agree |
| `MigrationPrepare.Preparation.Conclude` | application/convergentSyncMigration.ts:104-134 | the code after all fetches computes the specified result from whatever the shared lists hold |
| `MigrationCrash.DiskIsAPrefix` | application/convergentSyncMigration.ts:156-180 | every crash point has a prefix of the callback's writes on disk |
| `MigrationCrash.InitializedMeansComplete` | application/convergentSyncMigration.ts:167-178 | at every crash point "initialized" implies the local apply, all baselines and the replica are stored, and a stored new replica implies all baselines |
| `MigrationCrash.RestoreRecordedAfterImport` | application/syncPayload.ts:1207-1226 | the replica records a restore only when the whole local import has landed |
| `MigrationCrash.FirstRefusalIff` | application/convergentSyncMigration.ts:136-180 | exactly when each test is the one that refuses, and when initialising succeeds |
| `MigrationCrash.InitializeMigration` | application/convergentSyncMigration.ts:136-180 | which test refuses first and when the apply goes through; refused calls write nothing, success has everything on disk |
| `MigrationCrash.RestoreBackup` | application/convergentSyncReplica.ts:19-46 | a missing replica rejects before any write; otherwise exactly when the restore succeeds, and that success stores the merged replica after the import |
| `HostTree.SortedChildren` | components/HostTreeView.tsx:64-87 | sorting a group's children keeps them, each once |
| `HostTree.TreeBuilder.VisitGroup` | components/HostTreeView.tsx:168-196 | a visit appends the group's row and, if it is expanded, its visible subtree |
| `HostTree.TreeBuilder.VisitBelow` | components/HostTreeView.tsx:129-148 | below an expanded group come the nested groups and then the group's own hosts |
| `HostTree.TreeBuilder.VisitChildGroups` | components/HostTreeView.tsx:163-197 | the nested visitor appends the blocks of the sorted groups in order |
| `HostTree.TreeBuilder.PushHosts` | components/HostTreeView.tsx:139-148 | hosts are appended with sibling numbers continuing after the groups |
| `HostTree.BuildVisibleHostTreeItems` | components/HostTreeView.tsx:100-200 | the pushed list is the recursive flattening |
| `HostTreeKeys.OwnerIsParent` | components/HostTreeView.tsx:100-200 | every row's nearest earlier row of smaller depth is its true parent, one level up; roots have none |
| `HostTreeKeys.SiblingsNumbered` | components/HostTreeView.tsx:115-160 | siblings are numbered from 1 to the family's size without gap or repeat |
| `HostTreeKeys.RowsFollowTheSort` | components/HostTreeView.tsx:64-160 | every row shows just the child that its sibling number names in the sorted order of its parent, groups before hosts, with the parent's number of children as its set size |
| `HostTreeKeys.ScanForParent` | components/HostTreeView.tsx:1148-1154 | the backward scan finds the nearest earlier group of smaller depth |
| `HostTreeKeys.ArrowLeft` | components/HostTreeView.tsx:1143-1154 | on any row the key collapses an open group or focuses the true parent |
| `HostTreeKeys.ArrowRight` | components/HostTreeView.tsx:1129-1141 | on an expanded non-empty group the key focuses its first child, on a closed one it opens it |
| `HostTreeSplice.PathsBelowPermuted` | components/HostTreeView.tsx:64-98 | sorting siblings does not change which paths a forest contains |
| `HostTreeSplice.ExpandSplices` | components/HostTreeView.tsx:100-200 | expanding a visible group inserts exactly its visible subtree behind its row and leaves all other rows as they were |
| `HostTreeSplice.CollapseUndoes` | components/HostTreeView.tsx:100-200 | collapsing deletes exactly the block that expanding inserts |
| `HostTreeSplice.ShownIffReachable` | components/HostTreeView.tsx:128-138 | a group is shown exactly when all its ancestors are expanded |
| `HostTreeSplice.HiddenToggleChangesNothing` | components/HostTreeView.tsx:128-138 | toggling a group under a collapsed ancestor changes no row |
| `HostTreeSplice.OnlyOneShows` | components/HostTreeView.tsx:100-200 | with distinct paths each path is shown by at most one row |
| `ExpandedPaths.FilterRestoresExpansion` | components/HostTreeView.tsx:217-268 | whatever is toggled while a filter is active, its end restores the expansion from before it |
| `ExpandedPaths.CollapsedStaysCollapsed` | components/HostTreeView.tsx:235-257 | a group collapsed during a filter stays collapsed while it stays in the tree |
| `ExpandedPaths.ClosedGroupStaysClosed` | components/HostTreeView.tsx:221-257 | a group of the last rendering toggled shut during a filter stays shut through any renderings until it is toggled or expanded again or leaves |
| `ExpandedPaths.UnclickedFilterOpensAll` | components/HostTreeView.tsx:221-244 | from a new filter on, while nothing is clicked, a group is expanded exactly when one of the renderings since had it in the tree |
| `ExpandedPaths.HostTreeExpansion.OnRendered` | components/HostTreeView.tsx:221-244 | the effect is the specification's step |
| `ExpandedPaths.HostTreeExpansion.TogglePath` | components/HostTreeView.tsx:246-257 | toggling flips the path in what is shown |
| `ExpandedPaths.HostTreeExpansion.ExpandAllPaths` | components/HostTreeView.tsx:258-261 | afterwards exactly the given paths are expanded |
| `ExpandedPaths.HostTreeExpansion.CollapseAllPaths` | components/HostTreeView.tsx:262-265 | afterwards nothing is expanded |
| `ManualOrder.OriginalIndex` | components/HostTreeView.tsx:69 | the index map keeps the last position of a path |
| `ManualOrder.ConsistentIffDistinct` | components/HostTreeView.tsx:77-84 | the manual comparator is antisymmetric exactly when configured orders are pairwise distinct |
| `ManualOrder.Transitive` | components/HostTreeView.tsx:77-84 | with distinct orders it is transitive |
| `ManualOrder.ConfiguredFirst` | components/HostTreeView.tsx:75-86 | configured groups come first in ascending order, the others follow as they stood |
| `ManualOrder.SortIsDetermined` | components/HostTreeView.tsx:75-86 | distinct orders leave the sort no choice |
| `ManualOrder.EqualOrdersCannotBeSorted` | components/HostTreeView.tsx:80-81 | two groups with one order admit no sorted list |
| `ModelCache.StepKeepsInv` | components/AIChatSidePanelHelpers.ts:109-181 | every event keeps recency order, capacity and one in-flight slot per unfinished load |
| `ModelCache.RunsStayRecencyOrdered` | components/AIChatSidePanelHelpers.ts:109-181 | over every run map order is order of last touch, size stays within the limit, and each key has at most one unfinished load |
| `ModelCache.FinaliseFreesItsSlot` | components/AIChatSidePanelHelpers.ts:171-175 | the identity test always succeeds, freeing the key's slot |
| `ModelCache.EvictsLeastRecent` | components/AIChatSidePanelHelpers.ts:123-127 | a capacity eviction takes only less recently touched keys than those kept |
| `ModelCache.NothingExpiredIsServed` | components/AIChatSidePanelHelpers.ts:136-156 | nothing of age ttl or more is read or served at once |
| `ModelCache.StoredSurvivesIff` | components/AIChatSidePanelHelpers.ts:167-168 | a just-stored entry survives its own prune exactly when the clock moved by less than the ttl |
| `ModelCache.LoadWasBegun` | components/AIChatSidePanelHelpers.ts:151-178 | over every run, each load goes back to the refresh that began it and holds what that refresh found |
| `ModelCache.ExpiredAnswerIff` | components/AIChatSidePanelHelpers.ts:151-170 | over every run, a load answers with an expired entry exactly when its refresh found an entry, it came back empty, and the entry had expired by then; such a refresh was forced or straddled the expiry |
| `ModelCache.PlainRunsAnswerFresh` | components/AIChatSidePanelHelpers.ts:151-170 | in runs of unforced refreshes with one clock reading each, every load answers what it loaded itself |
| `ModelCache.FallbackMayBeExpired` | components/AIChatSidePanelHelpers.ts:164-166 | a run from the empty cache that answers with an expired entry |
| `ModelAnswers.SlotWasLoaded` | components/AIChatSidePanelHelpers.ts:162-170 | over every run, what is stored under a key is the normalised catalog of the last load of that key that came back with something |
| `ModelAnswers.ServedWasLoaded` | components/AIChatSidePanelHelpers.ts:136-156 | over every run, what a read or refresh answers at once is the normalised catalog of the last such load of its key, stored less than the ttl ago |
| `ModelAnswers.LoadAnswers` | components/AIChatSidePanelHelpers.ts:151-170 | over every run, a load answers its own normalised catalog, or what its refresh found if it came back empty, or a rejection only when rejected |
| `ModelAnswers.OrderedByLastUse` | components/AIChatSidePanelHelpers.ts:130-156 | over every run the map is in the order in which its keys were last answered or stored |
| `ModelAnswers.NormalizedKeepsNamed` | components/AIChatSidePanelHelpers.ts:56-63 | normalising drops the models without an id and nothing else |
| `ModelCache.RuntimeModelCache.PruneEntries` | components/AIChatSidePanelHelpers.ts:116-128 | the two loops drop the expired entries and then the oldest beyond the limit |
| `ModelCache.RuntimeModelCache.Read` | components/AIChatSidePanelHelpers.ts:136-141 | a read hits exactly when the key's entry is live, answers that entry, and makes it the most recent |
| `ModelCache.ServesIff` | components/AIChatSidePanelHelpers.ts:151-156 | a refresh is answered at once, with the stored entry, exactly when it is not forced and the key's entry is live at both looks at the clock |
| `ModelCache.RuntimeModelCache.Refresh` | components/AIChatSidePanelHelpers.ts:146-179 | a refresh answers the key's own stored catalog exactly when that is live and it is not forced, joins the key's unfinished load, or starts the only one |
| `ModelCache.RuntimeModelCache.OnSettled` | components/AIChatSidePanelHelpers.ts:162-170 | a non-empty load is stored and answered; an empty one answers the entry it began with |
| `ModelCache.RuntimeModelCache.OnFinally` | components/AIChatSidePanelHelpers.ts:171-175 | exactly the load's own slot is freed |
| `CacheKey.JoinedInjective` | components/AIChatSidePanelHelpers.ts:106 | joining separator-free fields loses nothing |
| `CacheKey.PlainFieldsAreKnown` | components/AIChatSidePanelHelpers.ts:106 | a key built from separator-free fields comes from no other list of that length |
| `CacheKey.KeyDeterminesFieldsIff` | components/AIChatSidePanelHelpers.ts:106 | among all field lists of that length, a key determines its fields exactly when none of them contains the separator |
| `CacheKey.KeyIdentifiesSource` | components/AIChatSidePanelHelpers.ts:86-107 | if one of two agents has no separator in its fields, they share a cache entry exactly when every setting that selects their models agrees |
| `CacheKey.NulFieldsCollide` | components/AIChatSidePanelHelpers.ts:106 | with a separator inside a field two different agents share an entry |
| `SecretRollback.PutsAreTracked` | application/pluginSyncConnectWithSecrets.ts:53-70 | every key put is listed as created or overwritten, and an overwritten one has its last text stashed |
| `SecretRollback.PutAllTexts` | application/pluginSyncConnectWithSecrets.ts:56-70 | after all puts each key holds the text put at it last |
| `SecretRollback.SuccessPerKey` | application/pluginSyncConnectWithSecrets.ts:56-82 | after a successful call each key put holds the text put there last and every other key its old row; with a working discard no overwritten text stays in the stash |
| `SecretRollback.CaughtPerKey` | application/pluginSyncConnectWithSecrets.ts:84-107 | after a failed call, whichever clean-up calls work: an overwritten key has its text back if restoring works, a created one is gone if deleting works, and otherwise the last text put stays |
| `SecretRollback.RollbackPerKey` | application/pluginSyncConnectWithSecrets.ts:84-107 | rolled back, a key holds the last text a put replaced, or nothing, whatever row it held before |
| `SecretRollback.RollbackIsExactIff` | application/pluginSyncConnectWithSecrets.ts:84-107 | a failed call restores the store exactly if and only if each key's last replaced text is the one held before |
| `SecretRollback.DistinctKeysRollBackIff` | application/pluginSyncConnectWithSecrets.ts:46-107 | for pairwise distinct keys that is the case exactly when no key put was stored empty or unreadable |
| `SecretRollback.UnreadableRowIsDeleted` | cmd/lemonssh/pluginExtensionService.go:720-742 | a stored secret that cannot be opened is gone after a rollback |
| `SecretRollback.RepeatedKeyResurrects` | application/pluginSyncConnectWithSecrets.ts:56-70 | of two puts at one key the rollback brings back the first |
| `SecretRollback.SecretHost.PutSecret` | cmd/lemonssh/pluginExtensionService.go:702-744 | a put overwrites, stashes a previous text that could be opened and is not empty, and reports created exactly when there was none |
| `SecretRollback.PutSecrets` | application/pluginSyncConnectWithSecrets.ts:53-70 | the loop puts in order up to the first that throws, lists the keys it created and those it overwrote, and remembers the first secret's reference |
| `SecretRollback.StorePluginSyncSecretsThenConnect` | application/pluginSyncConnectWithSecrets.ts:46-107 | connect gets the first secret's reference or the existing credential; failure at any put or at connect runs the specified rollback; success leaves every key put with its last text, the others as they were, and clears the stash |
| `SkillsCache.StepKeepsInv` | components/AIChatSidePanel.tsx:112-171 | every event keeps the cached result current and the slot owned by the one current fetch |
| `SkillsCache.FetchWasStartedAt` | components/AIChatSidePanel.tsx:149-168 | every fetch was started by a load that found nothing fresh and nothing to join |
| `SkillsCache.LoadsIgnoreWhatWasInvalidated` | components/AIChatSidePanel.tsx:123-171 | in every interleaving a load after an invalidation answers only from what was started after it |
| `SkillsCache.CacheIsLatest` | components/AIChatSidePanel.tsx:133-166 | over every run the cache holds the latest status obtained since the last invalidation, null after a failure or without a bridge, and is empty if there is none |
| `SkillsCache.LoadAnswersIff` | components/AIChatSidePanel.tsx:133-147 | over every run a load with a bridge answers at once exactly when a status was obtained since the last invalidation less than a minute ago, and then with the latest |
| `SkillsCache.OneFetchPerVersion` | components/AIChatSidePanel.tsx:149-168 | at most one fetch per version is outstanding, and only a current one holds the slot |
| `SkillsCache.SupersededFetchIsInert` | components/AIChatSidePanel.tsx:151-166 | an overtaken fetch resolves to undefined and disturbs neither cache nor slot |
| `SkillsCache.FinaliseFreesItsOwnSlot` | components/AIChatSidePanel.tsx:162-166 | comparing versions is enough to free only one's own slot |
| `SkillsCache.SkillsStatusCache.InvalidateUserSkillsStatusCache` | components/AIChatSidePanel.tsx:123-127 | afterwards nothing is cached and no unfinished fetch is current |
| `SkillsCache.SkillsStatusCache.LoadUserSkillsStatus` | components/AIChatSidePanel.tsx:133-171 | a load answers, joins, or starts a fetch, and starts one only when no current one is unfinished |
| `SkillsCache.SkillsStatusCache.OnSettled` | components/AIChatSidePanel.tsx:151-161 | a settled fetch answers exactly when it is current: what the bridge gave, or null after a failure |
| `SkillsCache.SkillsStatusCache.OnFinally` | components/AIChatSidePanel.tsx:162-166 | only the fetch's own slot is freed |
| `SettingsApply.LocalTerminalKeysSurvive` | application/syncPayload.ts:711-741 | terminal settings outside the syncable list survive every apply |
| `SettingsApply.CollectedSettingsArrive` | application/syncPayload.ts:474-485 | what one device collects another takes over, key by key, except a middle-click setting that contradicts its sibling |
| `SettingsApply.OwnTerminalSettingsComeBackIff` | application/syncPayload.ts:711-741 | collecting and applying on one device changes nothing exactly when its middle-click pair agrees |
| `SettingsApply.TerminalIsIdempotent` | application/syncPayload.ts:711-741 | merging terminal settings twice is merging them once |
| `SettingsResults.TerminalSettingAfterMerge` | application/syncPayload.ts:711-730 | every other terminal setting comes from the payload if it is there and syncable, else from this device |
| `SettingsResults.MiddleClickAfterMerge` | application/syncPayload.ts:718-741 | after a merge the middle-click pair agrees with whichever of the two came in |
| `SettingsApply.CloudCarriesKeys` | application/syncPayload.ts:359-376 | a key uploaded by one device reads the same on the device that stores it |
| `SettingsResults.UploadStopsIff` | application/syncPayload.ts:359-368 | an upload is stopped exactly when a stored placeholder does not read as another non-empty text, and carries that text otherwise, never a placeholder |
| `SettingsResults.CollectCarriesNoPlaceholder` | application/syncPayload.ts:345-350 | a plain collect carries no placeholder of this device and every other key as it is |
| `SettingsResults.AppliedKeysAreSealed` | application/syncPayload.ts:370-402 | every provider key an apply stores is sealed, unless sealing fails |
| `SettingsApply.LastWith` | application/syncPayload.ts:388-392 | the last local entry with an id is the one whose key counts |
| `SettingsApply.AppliedKeysComeFromTheSameId` | application/syncPayload.ts:370-402 | applying changes nothing of an entry but its key; a keyless entry gets a key exactly when the last local entry of its id has one, and then that very key; an entry that brings a key keeps its secret |
| `SettingsApply.ProvidersIdempotentIff` | application/syncPayload.ts:385-402 | applying providers twice is applying them once, up to re-encryption, exactly when every keyless entry's key is stable |
| `SettingsApply.DistinctIdsAreStable` | application/syncPayload.ts:385-402 | with distinct ids they all are |
| `SettingsApply.RepeatedIdIsUnstable` | application/syncPayload.ts:385-402 | an input with a repeated id on which a second apply changes a key |
| `SettingsApply.StrippedKeysComeBack` | application/syncPayload.ts:378-402 | every key stripped by collecting is re-attached by applying |
| `SettingsApply.WebSearchKeepsItsKey` | application/syncPayload.ts:404-417 | a web-search key never moves to another provider, and re-applying changes no secret |
| `SettingsResults.AppliedSearchKeyIsSealed` | application/syncPayload.ts:370-417 | the web-search key an apply stores is sealed too, unless sealing fails |
| `SettingsResults.SearchKeyAfterApply` | application/syncPayload.ts:404-417 | a keyless web-search setting takes over the local key exactly when one is stored for the same provider; nothing else of it changes |
| `SettingsApply.BindingsPointAtProviders` | application/syncPayload.ts:848-855 | after every apply each agent's binding names an existing provider |
| `SettingsApply.ModelsGoWithTheirBinding` | application/syncPayload.ts:907-940 | a model is dropped only together with its agent's binding |
| `SettingsResults.AgentAfterApply` | application/syncPayload.ts:834-855 | an agent bound to a provider that does not exist after the apply loses binding and model, and otherwise has both as the payload says, or as before where it is silent |
| `SettingsResults.AiFieldsAfterApply` | application/syncPayload.ts:810-855 | providers and web search follow the payload and stay as they were where it is silent |
| `SettingsApply.BindingsIdempotentIff` | application/syncPayload.ts:834-855 | a second apply keeps the bindings, and keeps the models exactly when the payload names none for an agent it orphans |
| `SettingsApply.AiApplyIdempotentIff` | application/syncPayload.ts:810-855 | applying the AI part twice is applying it once, up to re-encryption, under exactly those two conditions |
| `SettingsApply.DroppedModelReturns` | application/syncPayload.ts:834-855 | an input on which a dropped model comes back with the second apply |
| `SettingsApply.SettingsStorage.MergeTerminalSettings` | application/syncPayload.ts:711-741 | the loop and the middle-click rule compute the specified merge |
| `SettingsApply.SettingsStorage.MergeAiProvidersPreservingLocalApiKeys` | application/syncPayload.ts:385-402 | the two passes compute the specified merge |
| `SettingsApply.SettingsStorage.PruneOrphanPerAgentBindings` | application/syncPayload.ts:907-940 | the loop drops exactly the orphaned bindings and their models, and writes only what changed |
| `SettingsApply.SettingsStorage.ApplyAi` | application/syncPayload.ts:810-855 | the AI part of an apply is the specified write followed by the reconciling |
| `TransferIndex.StableSortIsUnique` | components/GlobalSftpTransferCenter.tsx:147-154 | a list has only one stable sort |
| `TransferIndex.AnyStableSortAgrees` | components/GlobalSftpTransferCenter.tsx:153 | whatever stable sort the runtime has, it returns this list |
| `TransferIndex.BuildChildrenIndex` | components/GlobalSftpTransferCenter.tsx:775-787 | the one-pass index equals filtering and sorting per parent for every non-empty parent id, and has no empty lists |
| `TransferIndex.ChildrenListed` | components/GlobalSftpTransferCenter.tsx:147-154 | a parent's list holds its children that are not cancelled, each as often as it is there, by start time |
| `TransferIndex.BucketsPartition` | components/GlobalSftpTransferCenter.tsx:78-86 | each top-level task is shown by exactly one specific bucket, as often as it occurs |
| `TransferIndex.BucketShows` | components/GlobalSftpTransferCenter.tsx:78-86 | each bucket shows exactly the top-level tasks in the statuses it is for, each as often as it is listed |
| `TransferIndex.CountsAddUp` | components/GlobalSftpTransferCenter.tsx:788-791 | the five counts add up to the "all" count |
| `TransferIndex.BadgeCountsBuckets` | components/GlobalSftpTransferCenter.tsx:88-94 | the badge counts three buckets and the restartable part of the fourth |
| `TransferIndex.BadgeAttentionIff` | components/GlobalSftpTransferCenter.tsx:95-101 | the badge asks for attention exactly when the attention bucket has a task or another one must reconnect |
| `TransferIndex.SplitIsPartitionIff` | components/GlobalSftpTransferCenter.tsx:104-111 | the background split loses no task exactly when no unfinished task shares its id with a collapsed one |
| `TransferIndex.SplitShows` | components/GlobalSftpTransferCenter.tsx:104-111 | collapsed are the background tasks that completed, visible every task whose id none of those has |

## Left out

- The user interface: rendering, focus handling, virtualisation, dialogs, translations.
- PassphraseWindows.DriveAliases: lower-casing is taken to go character by character; UNC paths and homes that end in a separator have no lemma of their own. The lemmas about saving, loading and deleting under two spellings are stated for POSIX homes.
- PassphraseAliases.SaveThenLoad: for a POSIX home spelled without a trailing slash or backslash, and a secret that is neither empty nor shaped like an encrypted placeholder, since the code treats those two as unusable.
- PassphraseClasses.SavedEntryDeletedIff: like its neighbours in `PassphraseClasses` for aliases that resolve to the class or outside it, as they do under a POSIX home whose lookup works (`PosixEventsRespect`); `PassphraseSafety` states what holds without that.
- PassphraseSafety.ReadableEntryDeletedIff: what a ciphertext decrypts to does not change during the run; a keychain that is locked for a while is covered by `LoadDeletesIff`, and by `LoneSaveSurvives` as long as the save itself can be read when it is tried.
- Other windows' mutation queues on the same passphrase record: each window chains only its own mutations, so the queue lemmas are per window.
- Reading passphrases for export and verification outside an import: it writes nothing.
- PassphraseImport.ImportOverwritesIff: only loads touch the record during an import; its scan of the keys resolves once, its reads each time.
- Vault edits that land between the pre-apply snapshot and the first write of a protected apply: the disk changes only through the apply.
- ProtectedApply.PartialVaultIsFlagged: a failed sentinel write and a bridge that answers without a backup are modelled and excepted, as the code tolerates both.
- Reads of a foreign or malformed sentinel record: the record is a start time and an optional backup.
- Timer jitter: ticks come exactly one heartbeat apart or count as missed. Times are real numbers.
- RestoreNesting.NoLapseIff: entry and release writes are accepted; the other lemmas about nested holders allow them to fail.
- More than two nested holders, and a reader's clearing of a deadline it does not believe.
- Overlapping calls of the sidecar bridge: clearing the pending slot is unconditional, so its properties are stated for serialised calls. Removing the slot is taken to work.
- The convergent library (merge, planner, validation, materialisation) and the cloud manager: functions and answers, no behaviour of their own.
- Publishing after a migration was initialised (application/convergentSyncMigration.ts:182-211): it repeats the protected apply with a merge that is not part of this model.
- MigrationPrepare.PreparationIsConfluent: provider comparison is a strict total order and the planner maps equal payloads to equal plans.
- The order in which JavaScript enumerates children before sorting, and locale comparison: any permutation is allowed for both sorts of the tree.
- HostTreeSplice.ExpandSplices: group paths are pairwise distinct, which their construction from path segments guarantees.
- Home, End, ArrowUp and ArrowDown: index arithmetic.
- ExpandedPaths: renderings, effects and clicks are atomic, so a click that uses a stale closure is not covered.
- ManualOrder.SortIsDetermined: what a runtime's sort returns for an inconsistent comparator is its own business.
- A model load that throws before it returns a promise, one that calls the cache again from inside, and the cache's `size`.
- Failing secret puts that still take effect at the host, and single keys at which the host's own delete or restore fails to store or seal: each of the two calls works for all its keys or for none.
- SecretRollback.DistinctKeysRollBackIff: the delete and restore calls work; `StorePluginSyncSecretsThenConnect` states the outcome for each of them failing.
- The roughly seventy settings that are written one by one, version counters, thinking maps and quick messages: independent key-by-key writes.
- SettingsApply.AiApplyIdempotentIff: up to re-encryption, with encryption that decrypts to the text it was given.
- Malformed provider entries and settings of the wrong JSON shape beyond non-string ids and keys.
- Start times that are not numbers, the transfer centre's priority order, progress figures and actions.
