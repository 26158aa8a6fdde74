# Cloudx operator transactions, modelled and proved in Dafny

Cloudx keeps credentials, keys, timers and unit files in order with operator scripts. Behind
their subprocess calls are transaction protocols over files: something is moved or written,
any step may fail or the process may die, and a recovery has to put the baseline back. This
project models those protocols and proves what they promise.

Files are finite maps from name to content, a digest is compared by comparing what it is the
digest of, services and timers are small records, and every call to the operating system is a
step whose outcome is an input. Where the scripts change state step by step, a class or a
method with loops does the same and is proved equal to a specification function; the laws are
then lemmas about that function, over all inputs and whole runs. `dafny verify dfyconfig.toml`
checks everything.

| files | what they model |
|---|---|
| `QuarantineLedger`, `LedgerAnswers`, `LedgerLaws`, `ArchiveNames`, `JsonSizes`, `ManifestText` | the credential quarantine ledger: every answer, conservation, the manifest invariant and its size, round trips |
| `AuthScan`, `ScanLaws`, `RefreshSweep` | scanning and de-duplication, and the refresh sweep that converges |
| `LiveTransaction`, `LiveRuns`, `LiveRecovery` | the live acceptance transaction, recoverable from every point |
| `Promotion`, `PromotionRuns`, `PromotionLaws` | the batch promotion and its rollback |
| `Undisturbed` | both transactions when nothing goes wrong |
| `ArchivedBatch`, `PoolFiles` | what both transactions share: files archived under a baseline, with every cut a quarantine or restore can suffer |
| `Refusals` | what ends a recovery or a rollback in any state |
| `OlderEntries` | archive entries that are older than a transaction and get in its way |
| `TextLines`, `Scalars`, `ScalarLaws`, `GatewayConfig`, `ReaderLaws`, `GatewayConfigLaws`, `RemovalLaws` | the line-based key list editor against its reader |
| `KeyProtocol`, `KeyProtocolLaws` | rotation and revocation of the gateway key over whole runs |
| `ActivationSchedule`, `ActivationSafety` | the activation worker and its follower: timing and interleavings |
| `PublisherCutover` | the cutover between two publishers without a gap |
| `TreeInventory`, `TreeLaws` | the bounded tree inventory |
| `MoveTransactions`, `QuietLoops` | all-or-nothing moves and unit writes, sustained-quiet loops |
| `ReleaseGates`, `Capacity` | the compatibility gates and the capacity classifier |
| `Examples`, `Witnesses` | small states from which the transactions can start, and inputs on which each promise fails |
| `Wrappers`, `Ranks`, `Grouping`, `Maps`, `PathTexts` | options, stable sorting, first-of-group, multisets of map values, path texts |

## Where the promise fails

These promises hold only under a condition. For the operations that have one, the condition is
proved exact over all inputs of the model, and `Witnesses`, or for the last one the law
itself, has an input on which it fails.

- The quarantine writes the manifest whatever its size, and nothing reads one of more than
  1 MiB. A ledger operation that writes more makes every later quarantine and restore fail for
  good (`LedgerLaws.StepKeepsSound`, `LedgerLaws.OversizedForever`): files can be brought back
  if and only if the manifest with all their entries fits (`LedgerLaws.RoundTripInAnyOrder`), a
  sweep completes and comes to rest if and only if there is room for its entries
  (`RefreshSweep.RunLaw`, `RefreshSweep.BlockedNeverRests`), and a live recovery over archived
  canaries is refused from then on (`LiveRecovery.OversizedForever`).
- The promotion reads an archive manifest of at most 64 KiB. When the watcher's quarantines
  lift it over that, every later rollback is refused before it restores or removes an import
  (`PromotionLaws.OversizedForever`).
- A ledger operation that fails after its move with the entry listed and the file outside the
  archive breaks the ledger: a quarantine that is undone after the manifest was replaced, or a
  restore that is not undone before it was (`LedgerLaws.StepKeepsSound`). In a live
  transaction or a promotion every later recovery is then refused, whatever happens, unless a
  later cut leaves a file in the archive unlisted (`LiveRecovery.TornStepIff`,
  `LiveRecovery.BrokenForever`, `PromotionLaws.TornStepIff`, `PromotionLaws.BrokenForever`).
- An operation that fails the other way round, with the file in the archive and no entry for
  it, is not noticed: recovery is accepted and the file stays in the archive as an orphan. The
  baseline ledger is back if and only if there is none (`LiveRecovery.LosslessRecovery`,
  `PromotionLaws.LosslessRollback`).
- A live recovery is refused while a baseline-named watcher file is empty or too large, when
  the active credential was rewritten or taken away, and when the archive lists it
  (`LiveRecovery.RecoveryRestores`, `LiveRecovery.ForeignRefused`). A credential that is
  rewritten after its check is accepted as it is (`LiveRecovery.AcceptedAnywhere`).
- A baseline watcher file that is rewritten or removed between the activation's check and its
  hold, or after it was put back, keeps every later recovery from being accepted until
  something else writes its old content (`LiveRecovery.LostForever`).
- An archive entry that is older than the transaction and came from the name of a canary or of
  a recorded import is restored along with theirs, and the archive is then too short for any
  recovery to be accepted; one that answers to the archive name of a canary or a promoted
  import keeps that from being restored (`OlderEntries.OlderForever`,
  `OlderEntries.ClaimedForever`, `OlderEntries.RecordedForever`).
- A rollback is refused after a death inside the writing of a private copy: the file exists but
  does not belong to the gateway's user (`PromotionLaws.HalfMadeBlocks`).
- A baseline credential that is rewritten before it is held is never put back, because the held
  file is compared with the old digest and preferred to the copy (`PromotionLaws.StaleForever`).
  One that is rewritten in the pool is accepted with its new content
  (`PromotionLaws.CrashRollback`).
- A rollback is refused while the archive lists a baseline credential: the credential is put
  back from its copy, so its archived file finds its place occupied, or, when the imports are
  recorded, the archive stays too long (`PromotionLaws.ForeignRefused`).
- A rollback is never accepted when the baseline archive was empty, since the expected length
  then reads as minus one, nor when a receipt names a credential that this rollback no longer
  takes for promoted (`PromotionLaws.RollbackRestores`, `PromotionLaws.StrandedForever`).
- The refresh sweep never completes while the tree holds a JSON file that is not regular, or
  more than 4096 of them (`RefreshSweep.RunLaw`, `RefreshSweep.BlockedNeverRests`).
- A quarantined file can be restored by its archive name only if no older entry answers to
  that name (`LedgerLaws.RestoreAfterQuarantineIff`).
- Appending a key to a list whose last line is unterminated and not blank does not add it
  (`GatewayConfigLaws.AppendAddsIff`).
- A rotation rollback cut off between config and credential leaves a credential that the
  config lacks (`KeyProtocolLaws.UndoServesIff`). A revocation whose cleanup fails leaves its
  receipt beside the restored config, and then never removes the replaced key
  (`KeyProtocolLaws.CleanupIff`, `KeyProtocolLaws.LeftReceiptForever`).
- A receipt write that raises after storing an accepted receipt lets the watcher be activated
  while the worker recovers the baseline (`ActivationSchedule.AcceptedIff`,
  `ActivationSafety.LateFailureUnsafe`).

## Model

| member | source | states |
|---|---|---|
| `ArchiveNames.UniqueArchivePath` | cloud/cloudx_cloud/cpa_auth.py:535-545 | the search loop ends and returns the name that `ArchiveName` specifies |
| `ArchiveNames.ArchiveNameLeast` | cloud/cloudx_cloud/cpa_auth.py:535-545 | the name is free and not reserved, is the file's own name when that is free, and otherwise carries the least free number from 2 on, at most the number of names in the way plus 2 |
| `ArchiveNames.ArchiveNamePlain` | cloud/cloudx_cloud/cpa_auth.py:535-545 | a plain file name gets a plain archive name |
| `ArchiveNames.CandidateInjective` | cloud/cloudx_cloud/cpa_auth.py:540-544 | different numbers give different names, so the search must find a free one |
| `ArchiveNames.CandidateParts` | cloud/cloudx_cloud/cpa_auth.py:542-542 | a numbered name is the file's name with a dot and the number before its suffix, which starts at the last dot inside the name; without one they come last |
| `ArchiveNames.DecimalReads` | cloud/cloudx_cloud/cpa_auth.py:542-542 | the number is written in decimal, without a zero in front |
| `QuarantineLedger.QuarantineStore.Quarantine` | cloud/cloudx_cloud/cpa_auth.py:548-586 | the whole new state and answer for every input and fault: files that are not regular and manifests that are unreadable or larger than 1 MiB are refused, the manifest is written whatever its size, and a failure after the move has the state given by whether the manifest had been replaced and whether the file was moved back |
| `QuarantineLedger.QuarantineStore.Restore` | cloud/cloudx_cloud/cpa_auth.py:680-726 | the same for every selector and fault, including unreadable and too large manifests and selectors that name no or several entries |
| `QuarantineLedger.FindMatches` | cloud/cloudx_cloud/cpa_auth.py:686-700 | the manifest pass accepts exactly the readable manifests and finds one match exactly when one entry answers to the selector |
| `QuarantineLedger.ArchiveNameIsNew` | cloud/cloudx_cloud/cpa_auth.py:535-545 | the chosen archive name is not a file of the archive |
| `QuarantineLedger.ManifestGrows` | cloud/cloudx_cloud/cpa_auth.py:452-469 | a manifest grows by exactly the bytes of its new entries |
| `QuarantineLedger.ManifestShrinks` | cloud/cloudx_cloud/cpa_auth.py:713-717 | removing an entry never makes it larger |
| `ManifestText.EntryLaw` | cloud/cloudx_cloud/cpa_auth.py:569-575 | the size of a new entry is the number of octets that its indented JSON text with sorted keys takes up in UTF-8, with its comma |
| `ManifestText.ManifestLaw` | cloud/cloudx_cloud/cpa_auth.py:452-469 | the size of a manifest is the number of octets in its file |
| `LedgerAnswers.QuarantineLaw` | cloud/cloudx_cloud/cpa_auth.py:548-593 | in terms of the files and entries alone: every answer of a quarantine if and only if its condition holds, in the order of the checks; the file with its content is then in the archive under a name that was free, and the list has one more entry, at its end, which tells where it came from, its name, reason and time; a fault leaves exactly the part that it did not prevent |
| `LedgerAnswers.RestoreLaw` | cloud/cloudx_cloud/cpa_auth.py:680-726 | the same for a restore: a selector is an archive name or an account of exactly one entry; the file goes back with its content where it came from, its entry leaves the list and the others stay in order |
| `LedgerLaws.StepConserves` | cloud/cloudx_cloud/cpa_auth.py:548-726 | no quarantine or restore loses, duplicates or changes a credential, whatever fails |
| `LedgerLaws.RunConserves` | cloud/cloudx_cloud/cpa_auth.py:548-726 | over any sequence of quarantines and restores with any faults, auth and archive together hold the same multiset of contents |
| `LedgerLaws.StepKeepsSound` | cloud/cloudx_cloud/cpa_auth.py:548-726 | each listed entry keeps naming its own archived file and the manifest stays readable, if and only if the step does not write more than 1 MiB and does not fail after its move with the entry listed and the file outside the archive |
| `LedgerLaws.RunKeepsSound` | cloud/cloudx_cloud/cpa_auth.py:548-726 | over any run without such a step the manifest is readable and names pairwise different existing archive files |
| `LedgerLaws.OversizedForever` | cloud/cloudx_cloud/cpa_auth.py:472-500 | once the manifest is larger than 1 MiB every later quarantine and restore is refused and changes nothing, over any run |
| `LedgerLaws.TakeOutstanding` | cloud/cloudx_cloud/cpa_auth.py:548-586 | under a readable manifest one more quarantine adds exactly one outstanding move, listed last |
| `LedgerLaws.TakeAllOutstanding` | cloud/cloudx_cloud/cpa_auth.py:548-586 | quarantining different files one after another succeeds if and only if they are regular and each entry but the last leaves the manifest readable; in any case exactly a first part of the planned entries is outstanding |
| `LedgerLaws.ReturnOutstanding` | cloud/cloudx_cloud/cpa_auth.py:680-726 | restoring any outstanding move by its archive name succeeds if and only if the manifest is at most 1 MiB, and leaves exactly the others |
| `LedgerLaws.RoundTripInAnyOrder` | cloud/cloudx_cloud/cpa_auth.py:535-726 | quarantining any different files, colliding names included, and restoring them by archive name in any order gives back the same auth tree, archive and manifest entries, if and only if the old manifest and the new entries together are at most 1 MiB |
| `LedgerLaws.RestoreAfterQuarantineIff` | cloud/cloudx_cloud/cpa_auth.py:680-700 | restoring a quarantined file by its archive name works if and only if no older entry answers to that name and its own entry leaves the manifest within 1 MiB |
| `AuthScan.Deduplicate` | cloud/cloudx_cloud/cpa_auth.py:397-411 | the grouping loop keeps, of records already in rank order, exactly the first of each group |
| `AuthScan.ScanAuthRecords` | cloud/cloudx_cloud/cpa_auth.py:334-411 | the scan returns what `Scan` specifies and refuses more than 4096 files |
| `ScanLaws.ScanLaw` | cloud/cloudx_cloud/cpa_auth.py:397-411 | the scan is path-sorted, repeats no path and no account, and holds exactly the records that are least by depth and path in their group |
| `ScanLaws.ScanCovers` | cloud/cloudx_cloud/cpa_auth.py:404-411 | the group of every raw record is represented |
| `ScanLaws.WalkOrderIrrelevant` | cloud/cloudx_cloud/cpa_auth.py:334-411 | any two walks of the same tree give the same scan |
| `ScanLaws.FileLaw` | cloud/cloudx_cloud/cpa_auth.py:198-332 | what the scan takes from a file, fact by fact: one invalid record if it is unreadable or its agent identity is invalid, one record for each listed account with a token, else the document's own tokens with the expiry it gives, and nothing from a file that is no codex credential |
| `AuthScan.JsonNameIff` | cloud/cloudx_cloud/cpa_auth.py:86-86 | a file is scanned if and only if its name ends with the suffix in whatever case |
| `AuthScan.FailsIff` | cloud/cloudx_cloud/cpa_auth.py:429-441 | a record fails, and then for good, if and only if it is invalid, or it is not disabled, has no agent identity and no refresh token, and has no access token or an expiry at or before now; the reason by the same cases |
| `AuthScan.FailsOn` | cloud/cloudx_cloud/cpa_auth.py:429-441 | a record that fails keeps failing at every later time |
| `Ranks.StringLeIff` | cloud/cloudx_cloud/cpa_auth.py:397-411 | paths are compared code point by code point: one is a prefix of the other, or smaller at the first difference |
| `RefreshSweep.RefreshAuthAccounts` | cloud/cloudx_cloud/cpa_auth.py:596-650 | the sweep loop over the live store has exactly the ledger, memory, active list and actions of the specified run, its refusals included |
| `RefreshSweep.RunSplitsScan` | cloud/cloudx_cloud/cpa_auth.py:610-645 | active records are exactly those with no failure by their facts (`AuthScan.Healthy`), actions are one per failing record with its reason, none of them pending |
| `RefreshSweep.SplitIsExact` | cloud/cloudx_cloud/cpa_auth.py:610-645 | every scanned record is in exactly one of the two lists |
| `RefreshSweep.RunLaw` | cloud/cloudx_cloud/cpa_auth.py:596-650 | an applying run completes if and only if there are at most 4096 JSON files, all of them are regular and every new entry but the last leaves the manifest readable; it then takes out exactly the files whose records fail by the facts in `AuthScan.FailsIff`; complete or not it keeps the manifest exact and takes nothing else |
| `RefreshSweep.RunRemembers` | cloud/cloudx_cloud/cpa_auth.py:613-641 | a completed run has wiped the failure count of every healthy record, confirmed the failure of every other one at this time, and left what it remembers of other files |
| `RefreshSweep.ReasonsDiffer` | cloud/cloudx_cloud/cpa_auth.py:429-441 | each kind of failure has a text of its own |
| `RefreshSweep.DryRunMovesNothing` | cloud/cloudx_cloud/cpa_auth.py:627-640 | a run that does not apply its actions completes and moves nothing |
| `RefreshSweep.RefreshableStays` | cloud/cloudx_cloud/cpa_auth.py:429-441 | a file all of whose credentials have a refresh token or are disabled is still in the auth tree after any run, complete or not, with any clock and any ledger |
| `RefreshSweep.SweepIsTakeAll` | cloud/cloudx_cloud/cpa_auth.py:610-645 | an applying run is the quarantining of its failing files one after another |
| `RefreshSweep.ActiveStaysActive` | cloud/cloudx_cloud/cpa_auth.py:596-650 | a record active in one run, complete or not, is in the next scan |
| `RefreshSweep.SweepConverges` | cloud/cloudx_cloud/cpa_auth.py:596-650 | at a fixed clock, on such a tree and with room in the manifest for the entries of all runs, some run among the first (number of auth files) + 1 completes without an action |
| `RefreshSweep.BlockedNeverRests` | cloud/cloudx_cloud/cpa_auth.py:472-521 | on any other tree, or without that room, no run of any series completes without an action |
| `RefreshSweep.StalledForever` | cloud/cloudx_cloud/cpa_auth.py:472-500 | a run that the manifest's size stops is followed by no run that comes to rest |
| `RefreshSweep.RestIsFinal` | cloud/cloudx_cloud/cpa_auth.py:596-650 | after a completed run without actions every later run completes without one, in whatever order it walks |
| `ArchivedBatch.TakeTracks` | cloud/cloudx_cloud/cpa_auth.py:548-586 | a quarantine of a file of the batch, cut anywhere, keeps the ledger grown from its baseline; it loses its file, leaves it astray or does neither, and keeps what can be restored unless it loses it |
| `ArchivedBatch.RestoreTracks` | cloud/cloudx_cloud/cpa_auth.py:680-726 | the same for a restore by an archive name of the batch |
| `ArchivedBatch.RestoreAllIff` | cloud/cloudx_cloud/cpa_auth.py:680-726 | restoring every listed entry in order succeeds if and only if each names a file of its own, has a free place to go to and the manifest is within 1 MiB, and then every archived content is back at its place; a refusal leaves a ledger of which this is still not true |
| `ArchivedBatch.RestoreAllCount` | cloud/cloudx_cloud/cpa_auth.py:686-726 | a series of restores that succeeds removes exactly one entry each |
| `ArchivedBatch.OccupiedBlocks` | cloud/cloudx_cloud/cpa_auth.py:705-706 | a series that includes the archive name of an entry whose place is occupied fails |
| `ArchivedBatch.GrownSelects` | scripts/cloud_cpa_failure_policy_transaction.py:583-592 | the entries selected by source are exactly the archived files of the batch, by the names they are archived under |
| `ArchivedBatch.SettledIsBaseline` | scripts/cloud_cpa_failure_policy_transaction.py:600-676 | what an accepted recovery leaves is the baseline ledger itself if and only if no file is left in the archive unlisted |
| `LiveTransaction.Transaction.ActivateLimited` | scripts/cloud_cpa_failure_policy_transaction.py:502-524 | a changed or unreadable baseline is refused without a move; otherwise the state after any number of operations is the one that `LiveRecovery.ActivationIsRun` relates to runs |
| `LiveTransaction.Transaction.RecoverBaseline` | scripts/cloud_cpa_failure_policy_transaction.py:600-676 | a whole recovery, finished or refused, has the specified state and verdict; a recovered transaction is only compared again |
| `LiveRuns.ActivateKeeps` | scripts/cloud_cpa_failure_policy_transaction.py:510-523 | the next operation of the activation keeps the transaction recoverable |
| `LiveRuns.EventKeeps` | scripts/cloud_cpa_failure_policy_transaction.py:502-676 | so does everything else that can happen at any point: quarantines of canaries or of the active credential and restores, cut anywhere, rewritten credentials, watcher input of any name and content, receipts, single operations of recoveries |
| `LiveRuns.RunKeeps` | scripts/cloud_cpa_failure_policy_transaction.py:502-676 | over any run without a lost file that leaves the active credential and the watcher files to the transaction everything listed can be restored, they are safe, and there is one orphan for each file left astray; a broken ledger stays broken unless a file is left astray |
| `LiveRecovery.PartlyKeeps` | scripts/cloud_cpa_failure_policy_transaction.py:600-665 | a recovery that dies after any number of operations is such a run |
| `LiveRecovery.ActivationIsRun` | scripts/cloud_cpa_failure_policy_transaction.py:502-524 | an activation cut off after any number of operations is a run of that many single ones |
| `LiveRecovery.RefusedKeeps` | scripts/cloud_cpa_failure_policy_transaction.py:600-676 | a recovery that is refused, wherever, keeps the transaction recoverable |
| `LiveRecovery.ForeignRefused` | scripts/cloud_cpa_failure_policy_transaction.py:583-598 | under an entry of the active credential no recovery is accepted |
| `LiveRecovery.RecoveryRestores` | scripts/cloud_cpa_failure_policy_transaction.py:600-676 | a recovery run to its end is accepted if and only if no entry is that of the active credential, every listed canary can be restored, the manifest is within the restore command's limit, every baseline-named watcher file can be read, each baseline watcher file and the active credential is in its place or held with its content, the gateway answers, the service is the baseline's and every receipt names a canary; every watcher file that is not the baseline's is then set aside with its content beside those set aside earlier; what is left and the verdict are stated for each refusal, and every refusal keeps the transaction recoverable |
| `LiveRecovery.CrashRecovery` | scripts/cloud_cpa_failure_policy_transaction.py:502-676 | the same after any run of events; the auth tree, manifest, watcher input and active credential are then the baseline's, foreign watcher input is set aside with its content, and the archive has exactly its files and the orphans |
| `LiveRecovery.LosslessRecovery` | scripts/cloud_cpa_failure_policy_transaction.py:502-676 | after any run in which no cut loses a file and that leaves the active credential and the watcher files to the transaction, the size of the manifest is the only condition left on the archive; the number of orphans is the number of files left astray, and the ledger is the baseline's if and only if there was none |
| `LiveRecovery.RecoveryKeepsInput` | scripts/cloud_cpa_failure_policy_transaction.py:629-643 | a recovery that is accepted, refused or dies after any of its operations loses no watcher file: each is in its place, held or set aside with its content, unless a newer file of its name has taken that place |
| `LiveRecovery.AcceptedAnywhere` | scripts/cloud_cpa_failure_policy_transaction.py:658-676 | with anything happening between its operations, a recovery whose last checks pass leaves the baseline's auth tree but for the content of the active credential, its manifest and no receipt, and has lost no baseline file of the archive, nor a watcher file that was left to it |
| `LiveRecovery.RecoverAgain` | scripts/cloud_cpa_failure_policy_transaction.py:602-612 | recovering a recovered transaction changes nothing and is accepted again |
| `LiveRecovery.ConfirmedIff` | scripts/cloud_cpa_failure_policy_transaction.py:602-612 | a recovered transaction is accepted again if and only if the pool, the service and the length of the archive are the baseline's, and nothing is written |
| `Refusals.LiveChecks` | scripts/cloud_cpa_failure_policy_transaction.py:657-676 | the last checks of a recovery in any state: each verdict if and only if its condition holds and none before it |
| `Refusals.DirectoryRefusesRecovery` | scripts/cloud_cpa_failure_policy_transaction.py:613-620 | in any state, a canary whose place is a directory keeps a recovery from being accepted |
| `Refusals.SelectedIff` | scripts/cloud_cpa_failure_policy_transaction.py:583-592 | a recovery restores exactly the archive names of the entries that came from a named file at the top of the tree |
| `LiveRecovery.ActivationAllowedIff` | scripts/cloud_cpa_failure_policy_transaction.py:502-509 | an activation is refused, before any move, exactly when the active credential or the watcher input is not as the manifest says, with the exact reason |
| `Undisturbed.ActivationSucceeds` | scripts/cloud_cpa_failure_policy_transaction.py:510-523 | undisturbed, all of its operations are done: the active credential and the input are held, exactly the canaries are in the pool with their contents, and nothing else has changed |
| `LiveRecovery.TornStepIff` | scripts/cloud_cpa_failure_policy_transaction.py:583-598 | when one quarantine of a canary or one restore of a dying recovery is cut, a later recovery is accepted if and only if the cut does not leave the entry listed and the file outside the archive and the manifest it leaves can be read |
| `LiveRecovery.BrokenForever` | scripts/cloud_cpa_failure_policy_transaction.py:583-598 | after that every later recovery is refused, whatever happens, as long as no file is left astray |
| `LiveRecovery.OversizedForever` | scripts/cloud_cpa_failure_policy_transaction.py:583-598 | once a manifest with new entries has outgrown the restore command every later recovery is refused, whatever happens |
| `LiveRecovery.LostForever` | scripts/cloud_cpa_failure_policy_transaction.py:635-643 | a baseline watcher file that is neither in its place nor held with its content keeps every later recovery from being accepted, whatever happens, until something else writes its old content |
| `LiveRuns.InitialRecoverable` | scripts/cloud_cpa_failure_policy_transaction.py:502-509 | a transaction that has moved nothing is recoverable |
| `Promotion.Transaction.HoldBaseline` | scripts/promote_cloud_agent_identity_batch.py:411-422 | the hold loop stops at the first credential that is missing or already held, with the state that `PromotionLaws.HoldIsRun` relates to runs |
| `Promotion.Transaction.RollBack` | scripts/promote_cloud_agent_identity_batch.py:521-570 | a whole rollback has the specified state and verdict |
| `PromotionRuns.CreatedAreImports` | scripts/promote_cloud_agent_identity_batch.py:603-610 | what is new in the pool is exactly the imports that are there |
| `PromotionRuns.PutBackShape` | scripts/promote_cloud_agent_identity_batch.py:425-449 | putting a baseline credential back leaves it in the pool, with the baseline's content if it was missing, and is refused exactly when its private copy is half made or it was held with another content |
| `PromotionRuns.PromotedCovers` | scripts/promote_cloud_agent_identity_batch.py:523-533 | a rollback works on all imports when they are recorded, else on exactly the imports still in the pool and whatever is newly listed as archived, baseline credentials included |
| `Refusals.PromotedIff` | scripts/promote_cloud_agent_identity_batch.py:523-533 | in any state: what the manifest records, or every JSON file of the pool that is no baseline credential and every new entry from the top of the tree |
| `PromotionRuns.PromoteKeeps` | scripts/promote_cloud_agent_identity_batch.py:596-667 | the next operation of the promotion keeps it recoverable |
| `PromotionRuns.EventKeeps` | scripts/promote_cloud_agent_identity_batch.py:573-688 | so does everything else that can happen at any point: quarantines of imports and baseline credentials, restores and private copies cut anywhere, credentials rewritten or lost, receipts, a trigger, single operations of rollbacks, deaths |
| `PromotionRuns.RunKeeps` | scripts/promote_cloud_agent_identity_batch.py:521-688 | over any run without a lost file that leaves the baseline credentials alone everything listed can be restored and there is one orphan for each file left astray; a broken ledger stays broken unless a file is left astray |
| `PromotionLaws.PartlyKeeps` | scripts/promote_cloud_agent_identity_batch.py:521-541 | a rollback that dies after any number of operations is such a run |
| `PromotionLaws.HoldIsRun` | scripts/promote_cloud_agent_identity_batch.py:411-422 | the hold loop is a run of as many single operations, all of them if and only if it succeeds |
| `PromotionLaws.RefusedKeeps` | scripts/promote_cloud_agent_identity_batch.py:521-570 | a rollback that is refused, wherever, keeps the promotion recoverable |
| `PromotionLaws.ForeignRefused` | scripts/promote_cloud_agent_identity_batch.py:527-547 | under an entry of a baseline credential no rollback is accepted; it puts the baseline credentials back all the same and the entry stays listed |
| `PromotionLaws.RollbackRestores` | scripts/promote_cloud_agent_identity_batch.py:521-570 | a rollback run to its end is accepted if and only if the archive manifest is within 64 KiB, every baseline credential can be put back, no entry is that of one, every listed import can be restored, no removed import is back, the outside world answers as before, the baseline archive was not empty and every receipt is explained; every promoted credential of the pool or the archive is then in the rollback directory with exactly its content, beside the earlier ones; what is left and the verdict are stated for each refusal, and every refusal keeps the promotion recoverable |
| `PromotionLaws.CrashRollback` | scripts/promote_cloud_agent_identity_batch.py:521-688 | the same after any run of events; the auth tree but for credentials rewritten in the pool and the manifest are then the baseline's, the promoted credentials are contained with their contents, and the archive has exactly its files and the orphans |
| `PromotionLaws.LosslessRollback` | scripts/promote_cloud_agent_identity_batch.py:521-688 | after any run in which no cut loses a file, no copy is half made and the baseline credentials are left alone, the size of the archive manifest is the only condition left on the ledger, the promoted credentials are contained with their contents, and the ledger is the baseline's if and only if no file was left astray |
| `PromotionLaws.ExecConserves` | scripts/promote_cloud_agent_identity_batch.py:501-570 | any operations of rollbacks, accepted, refused or cut off, lose no content and duplicate none: pool, hold, archive and rollback directory together hold the same multiset, and private copies of baseline credentials that were missing |
| `Refusals.RollbackChecks` | scripts/promote_cloud_agent_identity_batch.py:547-570 | the last checks of a rollback in any state: each verdict if and only if its condition holds and none before it |
| `Refusals.DirectoryRefusesRollback` | scripts/promote_cloud_agent_identity_batch.py:501-510 | in any state, a promoted name whose place is a directory keeps a rollback from being accepted |
| `Undisturbed.PromotionSucceeds` | scripts/promote_cloud_agent_identity_batch.py:596-660 | an undisturbed promotion does all of its operations and is accepted: the imports are in the pool with their contents, the baseline credentials are back, and nothing else has changed |
| `Undisturbed.AcceptsIff` | scripts/promote_cloud_agent_identity_batch.py:621-660 | the promotion is accepted if and only if every baseline credential and import is in the pool, nothing new is archived, the archive manifest is within 64 KiB and no receipt has changed |
| `Undisturbed.HoldLaw` | scripts/promote_cloud_agent_identity_batch.py:411-422 | the hold loop moves credentials with their contents, one after another, up to the first that is missing or already held |
| `PromotionLaws.AcceptedAnywhere` | scripts/promote_cloud_agent_identity_batch.py:542-557 | with anything happening between its operations, a rollback whose last checks pass leaves the baseline's auth tree but for the contents of baseline credentials, its manifest and its receipts |
| `PromotionLaws.TornStepIff` | scripts/promote_cloud_agent_identity_batch.py:462-484 | when one quarantine of an import or one restore of a dying rollback is cut, a later rollback is accepted if and only if the cut does not leave the entry listed and the file outside the archive, the manifest is within 64 KiB and the receipts are explained |
| `PromotionLaws.BrokenForever` | scripts/promote_cloud_agent_identity_batch.py:462-484 | after that every later rollback is refused, whatever happens, as long as no file is left astray |
| `PromotionLaws.OversizedForever` | scripts/promote_cloud_agent_identity_batch.py:42-42 | once the archive manifest is larger than 64 KiB and no rollback that had read it is running, every later rollback is refused before it restores or removes an import, whatever happens |
| `PromotionLaws.StaleForever` | scripts/promote_cloud_agent_identity_batch.py:432-438 | a baseline credential that was rewritten before it was held is never put back: every later rollback is refused before it restores or removes an import, whatever happens |
| `PromotionLaws.HalfMadeBlocks` | scripts/promote_cloud_agent_identity_batch.py:432-448 | after a death inside the writing of a private copy every later rollback is refused before it restores or removes an import, whatever happens, until that file is taken away |
| `PromotionLaws.RecordedExplains` | scripts/promote_cloud_agent_identity_batch.py:487-498 | once the manifest records the promoted names, receipts that name imports are always explained |
| `PromotionLaws.StrandedReceipt` | scripts/promote_cloud_agent_identity_batch.py:523-541 | before that, a rollback that would be accepted but dies after removing the promoted files strands their receipts |
| `PromotionLaws.StrandedForever` | scripts/promote_cloud_agent_identity_batch.py:523-557 | every rollback after any run from such a state that leaves the baseline credentials alone is rejected |
| `OlderEntries.RecoveryCounts` | scripts/cloud_cpa_failure_policy_transaction.py:583-667 | whatever the state, a live recovery is accepted only if exactly as many archive entries came from other names than the canaries' as the baseline had in all |
| `OlderEntries.OlderForever` | scripts/cloud_cpa_failure_policy_transaction.py:583-667 | when an entry of the baseline archive came from a canary's name no recovery is ever accepted, over any run that archives canaries only |
| `OlderEntries.ClaimedForever` | scripts/cloud_cpa_failure_policy_transaction.py:583-598 | a canary archived under a name to which an entry from elsewhere answers stays archived, and no recovery is ever accepted, over any such run |
| `OlderEntries.DyingIsOwn` | scripts/cloud_cpa_failure_policy_transaction.py:583-598 | the restores and later operations of recoveries that die or are refused are such runs |
| `OlderEntries.RollbackCounts` | scripts/promote_cloud_agent_identity_batch.py:455-547 | whatever the state, a rollback is accepted only if exactly as many archive entries came from names it does not take for promoted as the baseline had in all |
| `OlderEntries.OlderRefused` | scripts/promote_cloud_agent_identity_batch.py:523-547 | a rollback is refused while an entry of the baseline archive came from a name that it takes for promoted |
| `OlderEntries.ClaimedRefused` | scripts/promote_cloud_agent_identity_batch.py:462-484 | a rollback is refused while another entry answers to the archive name of a promoted one |
| `OlderEntries.RecordedForever` | scripts/promote_cloud_agent_identity_batch.py:455-547 | once the imports are recorded, either keeps every rollback from being accepted, over any run that archives imports only |
| `TextLines.SplitJoin` | scripts/install_scoped_gateway_key.py:113-130 | lines that are tidy come back unchanged from joining and splitting |
| `TextLines.JoinSplit` | scripts/install_scoped_gateway_key.py:115-130 | joining the lines of a text gives the text |
| `TextLines.StripUnique` | scripts/install_scoped_gateway_key.py:120-126 | trimming removes exactly the blank ends |
| `Scalars.ParseApiKeyScalar` | scripts/install_scoped_gateway_key.py:156-184 | the parser with its index loop returns what `ParseScalar` specifies, errors included |
| `Scalars.ParsePrinted` | scripts/install_scoped_gateway_key.py:129-184 | parsing inverts JSON printing for every key of 1 to 512 characters, whatever JSON white space follows |
| `Scalars.ParseDoubled` | scripts/install_scoped_gateway_key.py:163-178 | parsing inverts quote doubling for every such key |
| `Scalars.SingleQuotedIff` | scripts/install_scoped_gateway_key.py:163-184 | a single-quoted text is accepted if and only if its inside is the doubling of a valid key, and an unpaired quote is what refuses it otherwise |
| `Scalars.QuotePrintable` | scripts/install_scoped_gateway_key.py:129-129 | the printed form is printable ASCII, so it holds no line break |
| `ScalarLaws.DoubleQuotedIff` | scripts/install_scoped_gateway_key.py:156-162 | a double-quoted text is accepted if and only if it spells a valid key by the grammar of section 7 of RFC 8259, with only JSON white space after its closing quote; each refusal if and only if its reason holds |
| `ScalarLaws.PlainIff` | scripts/install_scoped_gateway_key.py:179-184 | an unquoted text is accepted if and only if it is 1 to 512 of the plain characters, and is then the key |
| `GatewayConfig.ListApiKeys` | scripts/install_scoped_gateway_key.py:133-153 | reading chomped lines lists exactly the keys of the config |
| `ReaderLaws.LineKind` | scripts/install_scoped_gateway_key.py:142-150 | what a line is to the list: a comment, the end of it, a key or something to pass over, by its margin and first character |
| `ReaderLaws.HeaderIff` | scripts/install_scoped_gateway_key.py:133-141 | the header is the only line that starts with the header text, with only blanks after it |
| `ReaderLaws.KeysLaw` | scripts/install_scoped_gateway_key.py:142-153 | the keys are those of the key lines before the end of the list, each in its place; they are refused if and only if one of these lines holds no key, for the first one's reason |
| `ReaderLaws.ListsIff` | scripts/install_scoped_gateway_key.py:133-153 | a config lists keys if and only if it has one header, every key line holds a key and there is one; each refusal has its reason |
| `GatewayConfig.AppendApiKey` | scripts/install_scoped_gateway_key.py:113-130 | the new text has the new line at the end of the list; the count is the number of key lines before it |
| `GatewayConfig.RemoveApiKeyByDigest` | scripts/revoke_scoped_gateway_key.py:117-149 | the removal loop has the specified result, with its refusals |
| `GatewayConfig.ChompedSame` | scripts/install_scoped_gateway_key.py:133-150 | line terminators do not matter to the listing |
| `GatewayConfigLaws.AppendedLines` | scripts/install_scoped_gateway_key.py:113-130 | all other lines are byte-identical |
| `GatewayConfigLaws.AppendAdds` | scripts/install_scoped_gateway_key.py:113-153 | at a terminated list the keys become the old ones and the new one, and the count is the number of old keys |
| `GatewayConfigLaws.AppendAddsIff` | scripts/install_scoped_gateway_key.py:127-129 | the key is added if and only if the insertion point follows a terminator or the unterminated last line is blank |
| `RemovalLaws.RemoveUndoesAppend` | scripts/revoke_scoped_gateway_key.py:117-149 | removing an appended new key by its digest gives back exactly the config before |
| `RemovalLaws.RemoveSound` | scripts/revoke_scoped_gateway_key.py:117-149 | a successful removal takes out one key, keeps the others in order and counts them |
| `RemovalLaws.RemovedLine` | scripts/revoke_scoped_gateway_key.py:117-149 | it takes out one line of the list, that of the key, and every other line stays as it was |
| `RemovalLaws.RemoveSucceedsIff` | scripts/revoke_scoped_gateway_key.py:117-149 | it succeeds if and only if exactly one key has the digest and it is not the only key; each refusal has its exact condition |
| `RemovalLaws.LooseRead` | scripts/revoke_scoped_gateway_key.py:122-148 | the text made of the remaining lines is read as those lines, even where a carriage return now meets a line feed |
| `KeyProtocol.Host.InstallKey` | scripts/install_scoped_gateway_key.py:429-577 | a rotation with any fault, partial rollback and partial cleanup has the specified disk and outcome |
| `KeyProtocol.Host.RevokeKey` | scripts/revoke_scoped_gateway_key.py:237-345 | a revocation with any fault, partial rollback and partial cleanup has the specified disk and outcome |
| `KeyProtocolLaws.RotationResult` | scripts/install_scoped_gateway_key.py:429-577 | a completed rotation appends its key, makes it the credential, writes the environment and records itself; a refused one changes nothing, and a rolled-back one leaves at most its own manifest, if its removal failed unnoticed |
| `KeyProtocolLaws.RotationAllowedIff` | scripts/install_scoped_gateway_key.py:429-493 | a rotation is allowed if and only if its transaction is new, the credential's key is in the config exactly once and the list can be appended to |
| `KeyProtocolLaws.RotationFails` | scripts/install_scoped_gateway_key.py:494-577 | a rotation that fails leaves config, credential and environment new each if and only if it had been written and was not restored, and its manifest unless that was never written or its removal went through |
| `KeyProtocolLaws.RotationServes` | scripts/install_scoped_gateway_key.py:494-537 | after every write of a rotation the credential's key is in the config exactly once |
| `KeyProtocolLaws.UndoServesIff` | scripts/install_scoped_gateway_key.py:547-549 | of a rollback cut off early, exactly the one between restoring config and credential leaves a credential the config lacks |
| `KeyProtocolLaws.RevocationResult` | scripts/revoke_scoped_gateway_key.py:237-345 | a completed revocation removes the replaced key and nothing else, and keeps credential and environment; a rolled-back or refused one changes nothing |
| `KeyProtocolLaws.RevocationAllowedIff` | scripts/revoke_scoped_gateway_key.py:237-272 | a revocation is allowed if and only if the transaction is a completed rotation that was not revoked, its config and credential are in force and the key it replaced is another one and in the config exactly once |
| `KeyProtocolLaws.RevocationFails` | scripts/revoke_scoped_gateway_key.py:273-345 | a revocation that fails, in the same terms |
| `KeyProtocolLaws.RevocationServes` | scripts/revoke_scoped_gateway_key.py:273-324 | after every write of a revocation the credential's key is in the config exactly once |
| `KeyProtocolLaws.CleanupIff` | scripts/revoke_scoped_gateway_key.py:337-342 | a failed revocation that restored the config leaves the disk as it was if and only if its cleanup got as far as what had been written |
| `KeyProtocolLaws.LeftReceiptForever` | scripts/revoke_scoped_gateway_key.py:270-271 | a transaction whose receipt is left is never revoked, whatever rotations and revocations follow |
| `KeyProtocolLaws.RunLaw` | scripts/revoke_scoped_gateway_key.py:237-345 | over whole runs the key count is initial plus rotations minus revocations, uninvolved keys keep value and order, and the credential stays served |
| `KeyProtocolLaws.EnvironmentLaw` | scripts/install_scoped_gateway_key.py:511-517 | over whole runs the environment is that of the last completed rotation, or the first one |
| `KeyProtocolLaws.RevokedOnce` | scripts/revoke_scoped_gateway_key.py:76-114 | no transaction is revoked twice |
| `KeyProtocolLaws.SupersededStays` | scripts/revoke_scoped_gateway_key.py:250-256 | a rotation that a later one supersedes is never revoked |
| `KeyProtocolLaws.RotateThenRevoke` | scripts/revoke_scoped_gateway_key.py:237-320 | a completed rotation can be revoked at once, which replaces the old key by the new one |
| `ActivationSchedule.WaitForQuiescence` | scripts/schedule_local_cpa_policy_activation.py:392-421 | the polling loop terminates and ends as specified |
| `ActivationSchedule.PollExact` | scripts/schedule_local_cpa_policy_activation.py:400-421 | it is quiet exactly when its last check was quiescent and all earlier ones busy, and it makes at most one check per poll interval left |
| `ActivationSchedule.PollEnds` | scripts/schedule_local_cpa_policy_activation.py:397-421 | it ends at most one check timeout after the deadline, and gives up only at or after it |
| `ActivationSchedule.PollPaces` | scripts/schedule_local_cpa_policy_activation.py:400-421 | a poll interval lies between two checks, except that the last starts no later than the deadline |
| `ActivationSchedule.Worker` | scripts/schedule_local_cpa_policy_activation.py:424-579 | the worker with its flags and exception handler writes the specified receipts at the specified times |
| `ActivationSchedule.WorkerRecovers` | scripts/schedule_local_cpa_policy_activation.py:455-579 | no recovery runs before the installer's turn; after that none runs if and only if the installer accepted and its receipt was stored, two if and only if the installer turned the activation down and then the recovery hung or the write raised, and one otherwise |
| `ActivationSchedule.WorkerReceipts` | scripts/schedule_local_cpa_policy_activation.py:486-579 | which receipts appear and what each says about acceptance, recovery, service and communication, in terms of the exits of the calls that ran |
| `ActivationSchedule.WorkerTakes` | scripts/schedule_local_cpa_policy_activation.py:455-579 | the worker takes the time of the wait and of the calls it made, and nothing is written before the execution time |
| `ActivationSchedule.WorkerEnds` | scripts/schedule_local_cpa_policy_activation.py:362-579 | its last write comes within 30 + 600 + 360 + 360 seconds after the quiescence deadline |
| `ActivationSchedule.ReceiptAppears` | scripts/schedule_local_cpa_policy_activation.py:516-579 | a receipt appears unless the handler's write raises before storing it |
| `ActivationSchedule.AcceptedIff` | scripts/schedule_local_cpa_policy_activation.py:498-579 | an accepted receipt appears exactly when the activation was accepted and its write stored it; a recovery runs as well exactly when that write raised after storing |
| `ActivationSchedule.AwaitReceipt` | scripts/schedule_local_cpa_failure_watcher.py:210-218 | the follower's loop terminates and ends as specified |
| `ActivationSchedule.FollowFinds` | scripts/schedule_local_cpa_failure_watcher.py:210-218 | a receipt that appears before the follower's deadline is found within a poll interval |
| `ActivationSchedule.FollowGivesUpIff` | scripts/schedule_local_cpa_failure_watcher.py:210-218 | a timeout is reported if and only if the receipt is missing at the first poll at or past the deadline, and then at that poll |
| `ActivationSchedule.FollowerNeverTimesOut` | scripts/schedule_local_cpa_failure_watcher.py:130-130 | a prompt worker is never reported as timed out, even with any further lag below the rest of the 3600 s grace |
| `ActivationSafety.StepSafe` | scripts/schedule_local_cpa_policy_activation.py:516-579 | every step of either process keeps the invariant when writes are atomic |
| `ActivationSafety.WorkIsRun` | scripts/schedule_local_cpa_policy_activation.py:424-579 | whatever the worker meets, its steps are a run of the interleaving model with the same receipts and recoveries |
| `ActivationSafety.AllRunsSafe` | scripts/schedule_local_cpa_failure_watcher.py:219-261 | in every interleaving with atomic writes the watcher is activated only after an accepted receipt for the same job, version and digest, and then no recovery ran |
| `ActivationSafety.LateFailureUnsafe` | scripts/schedule_local_cpa_policy_activation.py:516-560 | a write of the accepted receipt that raises after storing it breaks this |
| `PublisherCutover.Publishers.Recover` | scripts/rehearse_legacy_health_bridge_cutover.py:323-350 | the recovery of the old path has the specified state and number of errors |
| `PublisherCutover.Publishers.Rehearse` | scripts/rehearse_legacy_health_bridge_cutover.py:445-507 | the rehearsal with its recovery has the specified state, outcome and history |
| `PublisherCutover.GuardedPublishes` | scripts/rehearse_legacy_health_bridge_cutover.py:445-484 | a script that disables a timer only when the other is known to be up never leaves both off, wherever it fails |
| `PublisherCutover.RehearsalGuarded` | scripts/rehearse_legacy_health_bridge_cutover.py:445-484 | the rehearsal is such a script, from only the old timer to only the new one |
| `PublisherCutover.RecoveryPublishes` | scripts/rehearse_legacy_health_bridge_cutover.py:323-350 | neither does its recovery, and without errors it ends with only the old timer |
| `PublisherCutover.NoPublisherGap` | scripts/rehearse_legacy_health_bridge_cutover.py:445-507 | in every state of the rehearsal and its recovery one timer is enabled and active; acceptance ends with only the new timer, a restored old path with only the old one |
| `PublisherCutover.AcceptedIff` | scripts/rehearse_legacy_health_bridge_cutover.py:445-484 | whatever the timers are before, the rehearsal is accepted if and only if the old timer is up, every action does what it is asked for, every check answers and each of the six outputs is accepted; both timers are then up after each overlap and one after each hand-over, the outputs were in turn those of the new, the old and the new publisher, and the four phases are recorded in order |
| `PublisherCutover.RecoveryLaw` | scripts/rehearse_legacy_health_bridge_cutover.py:323-350 | the recovery answer by answer: the new timer is touched only once the old one is up and there is output to read, from the old publisher or put back by hand, and every fault is one error |
| `PublisherCutover.FailureLaw` | scripts/rehearse_legacy_health_bridge_cutover.py:485-507 | a rehearsal that stops anywhere restores the old path if and only if the old timer is found up, its output is accepted, the new timer is found down and nothing else changed |
| `TreeInventory.Walk` | scripts/quarantine_cloud_legacy_runtime.py:143-181 | the walk with a stack terminates, records the same multiset as recursion over the tree, refuses a safe tree exactly when a bound is exceeded, and any other with a problem that one of its nodes has |
| `TreeInventory.TreeSnapshot` | scripts/quarantine_cloud_legacy_runtime.py:132-194 | a snapshot is taken exactly of a safe, non-empty tree within the bounds, and is the ordered recursive inventory; each refusal names what is wrong |
| `TreeInventory.RecoveredTree` | scripts/quarantine_cloud_legacy_runtime.py:579-592 | the recovery script's inventory is the same, without the bounds |
| `TreeInventory.PathsDistinct` | scripts/quarantine_cloud_legacy_runtime.py:143-181 | no path is recorded twice |
| `TreeInventory.OrderIrrelevant` | scripts/quarantine_cloud_legacy_runtime.py:183-183 | records sort into one list whatever order they were made in |
| `TreeInventory.ListingOrder` | scripts/quarantine_cloud_legacy_runtime.py:145-147 | the order in which a directory is listed does not change what is recorded |
| `TreeInventory.RecoveryAgrees` | scripts/quarantine_cloud_legacy_runtime.py:579-600 | recovery script and snapshot agree on count, bytes and records of the same tree |
| `TreeLaws.SnapshotLaw` | scripts/quarantine_cloud_legacy_runtime.py:143-194 | a snapshot in terms of the tree alone: a record for every node that a path reaches and for nothing else, each once, with its own identity and content, in the order of the path texts, with the number of files and of their bytes |
| `TreeLaws.SafeLaw` | scripts/quarantine_cloud_legacy_runtime.py:152-168 | a tree may be recorded if and only if no path reaches a link, an entry that others may write, a special file or, in the bounded walk, a file over 32 MiB |
| `TreeLaws.CulpritLaw` | scripts/quarantine_cloud_legacy_runtime.py:152-168 | the problem that a refusal names is one that some reachable node has |
| `TreeLaws.PermissionDigits` | scripts/quarantine_cloud_legacy_runtime.py:154-155 | others may write exactly when the group's or the others' octal digit of the mode is 2, 3, 6 or 7 |
| `MoveTransactions.Store.MoveTargets` | scripts/remove_legacy_local_package.py:535-551 | all targets move unless a rename fails or a source is missing; then the files are exactly as before, or exactly a first part is moved, up to the last move that cannot be taken back |
| `MoveTransactions.Store.RestoreTargets` | scripts/remove_legacy_local_package.py:554-562 | exactly the targets whose rename fails stay moved, and are reported, last first |
| `MoveTransactions.Store.RecoverQuarantined` | scripts/remove_legacy_local_package.py:477-501 | the recovery script is refused unless every live place is free and every target there, and moves all or nothing, or exactly a first part when moving back fails too |
| `MoveTransactions.RecoveryInverts` | scripts/remove_legacy_local_package.py:477-551 | after a completed move it gives back exactly the files before |
| `MoveTransactions.UnitDirectory.InstallUnits` | scripts/install_legacy_health_bridge_units.py:414-493 | units are installed if and only if some differ, every write succeeds and the checks pass; a failure is undone exactly if and only if every path can be restored and the checks after it pass; a path that cannot be restored is as far as the writing got; nothing is written when none differs |
| `MoveTransactions.UnitDirectory.RestoreAll` | scripts/install_legacy_health_bridge_units.py:329-333 | restoring every path brings back each that can be restored, absent files included |
| `MoveTransactions.InstalledTwice` | scripts/install_legacy_health_bridge_units.py:336-479 | installing again leaves exactly the same files and finds no unit that differs |
| `QuietLoops.SustainedQuiet` | scripts/install_cpa_agent_identity_candidate.py:290-310 | k consecutive quiet samples among n: accepted at the first such run, never without one |
| `QuietLoops.ZeroEstablishedConnections` | scripts/install_cpa_agent_identity_candidate.py:290-310 | returns if and only if some 5 consecutive samples among the first 30 are empty before an audit fails |
| `QuietLoops.CheckQuiescent` | scripts/recover_local_cpa_policy.py:321-342 | quiescent if and only if every sample shows no socket; otherwise the first sample that does decides |
| `QuietLoops.WaitUnloaded` | scripts/recover_local_cpa_policy.py:345-354 | success exactly after three consecutive absent samples, all started before the deadline |
| `QuietLoops.SamplesApart` | scripts/recover_local_cpa_policy.py:345-354 | a quarter of a second lies between two samples |
| `ReleaseGates.OverlapIff` | scripts/check_phi_cloudx_release_ordering.py:157-158 | ranges overlap if and only if some protocol version is in both |
| `ReleaseGates.NoReasonsIff` | scripts/check_phi_cloudx_release_ordering.py:187-215 | a combination has no blockers if and only if its releases can work together |
| `ReleaseGates.ReasonsLaw` | scripts/check_phi_cloudx_release_ordering.py:187-215 | each reason if and only if its condition holds: no common protocol version, different health contracts without a bridge between them, or with one that is not accepted |
| `ReleaseGates.EvaluateOrdering` | scripts/check_phi_cloudx_release_ordering.py:176-243 | compatible if and only if there are no blockers, if and only if all four combinations work together; the blockers are exactly the reasons, each once |
| `ReleaseGates.OrdersCover` | scripts/check_phi_cloudx_release_ordering.py:28-41 | the upgrade and rollback orders pass through every combination |
| `ReleaseGates.SurfaceBlockers` | scripts/check_phi_cloudx_privileged_boundary.py:239-267 | a surface has a blocker for exactly the capabilities the agent can exercise through it |
| `ReleaseGates.ExercisesIff` | scripts/check_phi_cloudx_privileged_boundary.py:239-267 | the agent can exercise what an available surface that it controls offers directly, and everything elevated if that runs arbitrary commands without a privilege barrier |
| `ReleaseGates.EvaluateBoundary` | scripts/check_phi_cloudx_privileged_boundary.py:227-277 | secure if and only if the credential is scoped and no surface lets the agent exercise a capability; the blockers are exactly those reasons |
| `ReleaseGates.SecureHasNoRoot` | scripts/check_phi_cloudx_privileged_boundary.py:74-93 | a secure boundary has no unrestricted identity behind an open surface |
| `ReleaseGates.EvaluateFailureSemantics` | scripts/check_phi_cloudx_failure_semantics.py:579-617 | accepted if and only if both gates pass, the roadmap is informational or complete and the fixtures are accepted; hence no available agent-controlled surface has an effective capability |
| `Capacity.ReadCounts` | cloud/cloudx_cloud/capacity.py:35-48 | counts are valid if and only if all are there, none is negative and they fit the total; then the rest is the unobserved number |
| `Capacity.ValidCountsIff` | cloud/cloudx_cloud/capacity.py:35-48 | valid counts are exactly those that split a total into three known parts and a rest, none of them negative |
| `Capacity.AdaptIff` | cloud/cloudx_cloud/account_state.py:70-91 | a summary is refused if and only if its four numbers do not make up its total |
| `Capacity.AdaptedValidates` | cloud/cloudx_cloud/account_state.py:70-91 | adapted counts always validate, with ready and warning accounts as available and the failed ones as unobserved |
| `Capacity.ClassifyCapacity` | cloud/cloudx_cloud/capacity.py:64-105 | every state if and only if its condition holds, with the counts that add up: exhausted means fresh valid counts, none available and a total that is limited plus unavailable; an invalid range is refused |
| `Witnesses.ClaimedName` | cloud/cloudx_cloud/cpa_auth.py:686-700 | a file whose archive name an older entry claims is quarantined and cannot be restored by that name |
| `Witnesses.LateManifest` | cloud/cloudx_cloud/cpa_auth.py:572-582 | a quarantine undone after its manifest was replaced leaves an unsound ledger |
| `Witnesses.TornManifest` | cloud/cloudx_cloud/cpa_auth.py:714-722 | so does a restore that is not undone before its manifest was replaced |
| `Witnesses.IrregularTree` | cloud/cloudx_cloud/cpa_auth.py:518-521 | a tree that no sweep ever completes |
| `Witnesses.FullManifest` | cloud/cloudx_cloud/cpa_auth.py:472-480 | a sound ledger with a full manifest: one more quarantine succeeds and everything after it is refused |
| `Witnesses.StalledTree` | cloud/cloudx_cloud/cpa_auth.py:472-480 | a sweepable tree over such a manifest that no sweep completes |
| `Witnesses.TornRestore` | scripts/cloud_cpa_failure_policy_transaction.py:583-598 | a reachable live transaction with an archived canary whose restore can lose it |
| `Witnesses.TornQuarantines` | cloud/cloudx_cloud/cpa_auth.py:565-582 | a reachable live transaction whose next quarantine can lose its file or leave it astray |
| `Witnesses.UnreadableInput` | scripts/cloud_cpa_failure_policy_transaction.py:629-634 | a held watcher file can come back unreadable |
| `Witnesses.FullArchive` | scripts/cloud_cpa_failure_policy_transaction.py:583-598 | a reachable live transaction over a full manifest whose one archived canary blocks every later recovery |
| `Witnesses.WatcherRewritten` | scripts/cloud_cpa_failure_policy_transaction.py:514-519 | a baseline watcher file rewritten before it is held, and then lost |
| `Witnesses.OlderCanary` | scripts/cloud_cpa_failure_policy_transaction.py:583-592 | a transaction over an archive that still lists a canary: no run ends in an accepted recovery |
| `Witnesses.ClaimedCanary` | cloud/cloudx_cloud/cpa_auth.py:686-700 | a canary archived under a name that an older entry's account claims |
| `Witnesses.ActiveRewritten` | scripts/cloud_cpa_failure_policy_transaction.py:644-656 | an active credential that is rewritten and then not safe |
| `Witnesses.EmptyArchive` | scripts/promote_cloud_agent_identity_batch.py:547-547 | an untouched promotion over an empty archive that no rollback accepts |
| `Witnesses.ReceiptStranded` | scripts/promote_cloud_agent_identity_batch.py:523-541 | a promotion whose accepted rollback, dying in the wrong place, strands a receipt |
| `Witnesses.CopyMayBeCut` | scripts/promote_cloud_agent_identity_batch.py:440-448 | a promotion whose next private copy can be cut |
| `Witnesses.LargeArchive` | scripts/promote_cloud_agent_identity_batch.py:42-42 | a promotion whose next quarantine makes the archive manifest too large for its rollbacks |
| `Witnesses.OlderImport` | scripts/promote_cloud_agent_identity_batch.py:455-484 | a recorded promotion over an archive that already lists a file of the import's name: no run ends in an accepted rollback |
| `Witnesses.BaselineArchived` | scripts/promote_cloud_agent_identity_batch.py:527-547 | a promotion one of whose baseline credentials is archived |
| `Witnesses.StaleHeld` | scripts/promote_cloud_agent_identity_batch.py:411-438 | a reachable promotion that holds a rewritten credential |
| `Witnesses.UnterminatedList` | scripts/install_scoped_gateway_key.py:127-130 | a config with an unterminated list to which a key cannot be appended |
| `Witnesses.CutRollback` | scripts/install_scoped_gateway_key.py:547-549 | a rotation whose rollback, cut after the config, leaves a credential the config lacks |
| `Witnesses.LeftReceipt` | scripts/revoke_scoped_gateway_key.py:337-342 | a revocation whose cleanup fails: the replaced key stays and its transaction can never be revoked |

## Left out

- File modes, ownership, symbolic links, temporary names and fsync, except where a decision reads them; a rename or an atomic write is one step.
- The error text of a chmod or fsync fault between the move and the manifest write of the ledger: its state is that of any failure there.
- Undecodable bytes in the gateway config and in file names, and keys with lone surrogates: texts are sequences of Unicode scalar values.
- Limits of the file system: names and numbered archive names are taken to fit, and the auth tree and the archive lie apart from each other on one file system.
- White space and top-level fields of an archive manifest that its writer does not produce: its size is that of its entries as they are written.
- Sizes of the transaction manifests, which their own scripts read up to 4 MiB and 16 MiB: they grow with tens of thousands of file names.
- A top-level JSON file of the auth tree that is not regular, during a live transaction or a promotion: the pool is modelled without one.
- The normalisation of quarantine reasons to trimmed lower case: a reason is given as normalised.
- A new archive entry that came from a subdirectory or is absolute, which a rollback without recorded imports would take for promoted: nothing in the model makes one during a promotion.
- A credential file named exactly `.json`: the live transaction counts it among the JSON files and the promotion does not; here both do.
- A legacy manifest entry whose path is a tree itself is kept as an empty relative path, which no restore accepts.
- The text of `source_relative` beyond its path parts: a text such as `name/` reads as the part it denotes.
- Preparing a transaction directory, plan documents, confirmation strings, locks and receipts beyond the fields that a decision reads.
- `recover` and `bootstrap_baseline` of `scripts/recover_local_cpa_policy.py`, which rewrite one launcher and restart one service; their waiting loops are modelled.
- The move of the runtime directory in `main` of `scripts/quarantine_cloud_legacy_runtime.py`, a single rename with its inverse.
- The isolated sweeps, live canaries, HTTP requests, signatures and SHA-256 itself.
- QuarantineLedger.QuarantineStore.Quarantine: does not model the mode changes of the moved file, because only existence and content matter to the ledger.
- RefreshSweep.RunLaw: the quarantines of a run meet no fault, because a failed move or write ends the run as any refusal does.
- LiveRuns.EventKeeps: the watcher archives canaries and the active credential only, and files elsewhere in the auth tree stay as they are during a transaction; names that an older entry claims are the subject of `OlderEntries`.
- PromotionRuns.EventKeeps: the same for imports and baseline credentials.
- PromotionLaws.RollbackRestores: is stated for archives without an older entry from an import's name; with one, `OlderEntries.RollbackCounts` gives a necessary condition, which excludes acceptance once that import is taken for promoted.
- LiveRecovery.RecoveryRestores: the same for older entries from canaries, with which `OlderEntries.OlderForever` excludes acceptance as long as only canaries are archived.
- LiveRecovery.RecoveryRestores: an active credential that was made empty or too large is refused as unreadable rather than as not restored.
- KeyProtocol.Host.InstallKey: the host and port entries of the config, the service restart and the probes are inputs, because the protocol only uses their success.
- ActivationSchedule.FollowerNeverTimesOut: assumes that the worker does not die and that its handler's write stores the receipt; without a receipt the follower does time out.
- PublisherCutover.NoPublisherGap: assumes that nothing else changes the two timers during the rehearsal and that enabling a timer never takes it down.
- TreeInventory.RecoveryAgrees: the held tree is given as having the same records; that a rename keeps a tree is not part of this model.
