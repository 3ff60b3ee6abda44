# SFTPGo: quota ledgers and their neighbours

A Dafny model of the parts of SFTPGo that keep numbers and tables in agreement with each other.
The centre is the quota ledger: uploads, removes, renames and truncations adjust a counter per user
and a counter per shared folder by small amounts, spread over the opening, truncating and closing of
files, and those counters are meant to equal what a full scan of the storage would find. Around it
are the path rules that pick the ledger, the limits that guard it, the background updater that
delays it, and the other stateful tables of the server: the defender, the rate limiter, the user
caches, the memory provider and the secrets.

Run `dafny verify dfyconfig.toml` to check everything.

## How it is organised

| modules | what they hold |
|---|---|
| `Options`, `Paths`, `Accounts` | virtual paths, nearest-ancestor searches for folders and permissions, where an item is stored |
| `Store`, `Usages` | storage as a map from (area, path) to size, directory moves, sums over storage areas |
| `Ledger`, `Limits` | the ledgers and every rule that charges them; space checks, the cap of an upload, the check of a rename |
| `Uploads` | one upload from open to close: writes, handle truncations, errors, upload modes |
| `Server`, `Validity`, `Conservation`, `Runs`, `Caps`, `Outcomes`, `FailingRuns` | the server as a state machine, its invariant, the ledger error of each step, whole runs, limits over runs, what each step does to storage, runs that go wrong |
| `Connection`, `Scans` | the same operations as objects updated in place, and the scans, proved to take the steps of the machine |
| `QuotaUpdater` | delayed updates, in every interleaving with the flusher |
| `RenameWalk` | the recursive permission check with its early stop |
| `Eviction`, `Defender`, `RateLimiter`, `CachedUsers` | bounded tables and the sliding window |
| `Names`, `MemoryProvider`, `Paging` | referential integrity, sorted indexes, paged listings |
| `PasswordCache`, `Kms` | cached password checks, layered secrets |

A ledger's *error* is its distance from the storage it covers, open uploads counted as they were
charged (`Conservation.Error`). Every step of the state machine is shown to leave the error of every
tracked ledger alone, apart from two named drifts; whole-run conservation follows by induction. The
classes in `Connection` carry the source's own step-by-step code and are proved to produce exactly
the successor state of the machine, so the run theorems are about them.

## Where the code does not keep what one would expect

Each of these is a property that fails in general. The model follows the code. For each, the first
member gives the exact condition and the second a concrete failing case.

- Two uploads open at once are admitted to the same free space, so both can close without error and
  leave the ledger over its limit: `Caps.CapOverRun`, `FailingRuns.TwoUploadsExceedQuota`.
- A truncation is charged without a space check, so it can take the ledger over its limit; no other
  step but a close can: `Caps.StepExceedsIff`, `FailingRuns.PathTruncationExceedsQuota`.
- Closing a new upload whose file is deleted leaves the ledger too high if its handle was truncated
  to a positive size before, and a file left under its temporary name is charged for the bytes
  counted rather than the bytes stored: `Uploads.CloseSettlesIff`,
  `FailingRuns.TruncatedThenDeletedDrifts` and `FailingRuns.LeftUnderTemporaryNameDrifts`.
  `Runs.RunBalancedIff` sums these drifts over a run.
- Renaming a file to itself takes it out of the ledger: `Conservation.RenameDriftsIff`,
  `FailingRuns.RenamedToItselfDrifts`.
- Truncating an open handle to `InitialSize + MaxWriteSize` or more disarms the cap:
  `Uploads.TruncationKeepsCapIff`, `Uploads.TruncationDisarmsCap`.
- A write past the end of the file escapes the cap, because only received bytes are counted:
  `Uploads.WriteKeepsCapIff`, `Uploads.HoleEscapesCap`.
- The early stop of the recursive rename check ends the whole walk, so an item that comes later is not
  checked. That its permissions are missed: `RenameWalk.StopIsWrongIff`, `RenameWalk.StopSkipsSibling`.
  That anything is missed, file patterns and the other clauses included, which needs no permission
  entry below source or target: `RenameWalk.StopOverlooksIff`, `RenameWalk.StopSkipsPattern`.
- A quota reset that meets a delayed update loses what is in flight: `QuotaUpdater.NothingLostOrDoubled`
  with `QuotaUpdater.SplitReset`, `QuotaUpdater.ResetInWindowLoses`.
- The used quota counts what is in flight twice: `QuotaUpdater.DelayedRefinesImmediate`,
  `QuotaUpdater.InFlightCountedTwice`. Its two reads can also miss a flush that falls between them:
  `QuotaUpdater.SplitRead`, `QuotaUpdater.FlushBetweenReads`.
- A new ban can be evicted by the cleanup that follows it, when bans that were extended are due
  later: `Defender.NewBanStays`, `Defender.NewBanLost`.
- Cutting an over-full table of bans keeps more than the soft limit when some had expired:
  `Defender.CutReachesSoftLimitIff`, `Defender.CutMissesSoftLimit`.
- The rate limiter refreshes the activity time on a copy, so buckets are evicted by the time they
  were added and not by their last use: `Eviction.EvictsByUseIff`, `RateLimiter.ActiveBucketEvicted`.
- The loop that collects all pages does not end for a limit of 0: `Paging.LoopEndsIff`,
  `Paging.ZeroLimitNeverEnds`.

## What the model takes as given

- Storage is local, or SFTP without buffering, and holds regular files and directories. A filesystem
  call succeeds or has no effect; which of the two is a parameter (`ioOk`, `moveOk`, `createOk`).
- Permission outcomes, file patterns, pre-action hooks and host lists are parameters. Provider calls
  made for a charge succeed.
- An item with an open upload is not uploaded again, removed or renamed meanwhile, and is truncated
  through the connection that has it open. Temporary names are fresh names in the directory of the
  requested file. These are the conditions of `Server.Admissible`.
- The folders of a user have distinct names, and their mapped paths are disjoint. A folder that is
  part of a user's quota is written by that user only.
- What the source does under one lock is one step. In the updater, resets and reads of the used quota
  are the two steps they are in the source; a public call of the defender, the caches or the provider
  is taken as a whole. A defender call sees one time, and time does not go backwards.
- Counters are mathematical integers: 64-bit overflow of a ledger is not modelled.
- Ciphers, hashes, key derivation and text encodings are parameters with inverse laws; random keys
  and nonces are arguments.

## Model

| member | source | states |
|---|---|---|
| `Runs.PlainRunConserves` | common/connection.go:258-1025 | for every run of uploads, writes, closes, removes, renames, path truncations and directory changes, each tracked ledger equals the scan of what it covers, up to a term per open upload, and exactly once none is open |
| `Runs.RunBalancedIff` | common/transfer.go:129-283 | with handle truncations and self-renames allowed as well: the ledger agrees with storage after a run if and only if the drifts of the run cancel out |
| `Runs.RunError` | common/connection.go:258-1025 | over any run the error of a ledger grows by exactly the drifts in the areas it covers, and the state stays valid |
| `Runs.DiskIsBookedPlusPending` | common/transfer.go:263-283 | storage is what the ledgers should count plus, per open upload, current size minus `InitialSize` and one for a new file |
| `Runs.PlainRunDoesNotDrift` | common/transfer.go:199-283 | runs whose writes append, whose handles are not truncated and that rename nothing to itself never drift |
| `Conservation.StepError` | common/connection.go:258-1025 | one step of the server changes the error of a tracked ledger by its drift and by nothing else |
| `Conservation.UploadedError` | ftpd/handler.go:317-448 | opening an upload, of any kind and in any mode, admitted or refused, leaves every ledger as far from storage as it was |
| `Conservation.CloseError` | common/transfer.go:199-283 | closing changes the error by the drift of the close, whatever becomes of the file |
| `Conservation.RenameError` | common/connection.go:352-413 | a rename of a file or a directory, in any placement, leaves the error alone unless a file is renamed to itself |
| `Conservation.RenameDriftsIff` | common/connection.go:977-996 | a rename moves a covering ledger away from storage if and only if a file is renamed to itself |
| `Conservation.TruncateError` | common/connection.go:586-615 | a truncation, through a handle or by path, leaves the error alone |
| `Conservation.RemoveError` | common/connection.go:258-292 | removing a file takes exactly that file out of the ledgers that cover it |
| `Outcomes.ClosedFiles` | common/transfer.go:199-233 | after a quota error the written file is gone; a failed atomic upload leaves neither temporary nor requested file, unless the mode resumes; otherwise the requested place holds exactly what was written; a failing final call moves nothing; no other file is touched |
| `Outcomes.UploadOpensIff` | ftpd/handler.go:317-448 | an upload is opened if and only if it is permitted, the place is no directory and can be created, the ledger has room, by number of files only for a new file, and a resumed file is below the largest upload |
| `Outcomes.OpenedFiles` | ftpd/handler.go:354-448 | it starts empty, or from what was there when resumed, at the requested or the temporary place, and nothing else changes |
| `Outcomes.RefusedUpload` | ftpd/handler.go:354-448 | an upload that is not opened changes nothing, except that an existing file moved aside stays under the temporary name if it cannot be opened there |
| `Outcomes.RemovedFiles` | common/connection.go:258-292 | a permitted remove takes that file away and nothing else |
| `Outcomes.TruncatedFiles` | common/connection.go:586-615 | a permitted truncation by path sets the size of that file alone |
| `Outcomes.ChangedDirs` | common/connection.go:223-349 | a directory is created where there is nothing and an empty one is removed, exactly when permitted |
| `Outcomes.RenameHappensIff` | common/connection.go:352-413 | a rename happens if and only if it is permitted and fits, neither side is the root or a virtual folder, the areas are the same or both local, the target is no directory, and a directory has no mount below and goes to a free place outside itself |
| `Outcomes.DirectoryRenamed` | common/connection.go:385-403 | a directory is at the target afterwards with everything in it, gone from the source, and nothing else changed |
| `Outcomes.FileRenamed` | common/connection.go:352-403 | the same for a file, onto a free place or over another file |
| `Outcomes.RenameRefused` | common/connection.go:366-399 | nothing changes for the root, a virtual folder on either side, a directory with a mount below, a directory as target, areas that are not both local, or a move that does not fit |
| `Outcomes.RenameInPlaceFits` | common/connection.go:707-722 | renames within one area need no room |
| `Outcomes.CrossRenameFitsIff` | common/connection.go:707-787 | a rename into another area fits if and only if the limiting ledger can take what is moved less what it replaces; a full one takes only a replacement; moves from home into the user own quota are not looked at |
| `Outcomes.UntrackedLedgers` | dataprovider/dataprovider.go:797-833 | without tracking no step changes a ledger, and under tracking mode 2 none changes that of an unrestricted user |
| `Validity.NextValid` | common/connection.go:191-413 | every step keeps storage well-formed and every open upload on an existing file next to its target, charged for no more than the file holds, with no two for the same target |
| `Validity.CloseValid` | common/transfer.go:199-261 | closing removes the upload and leaves the others valid |
| `Store.MoveDirSound` | common/connection.go:400-403 | moving a directory to a free place keeps every entry below an existing directory |
| `Usages.TotalMoveMap` | common/connection.go:996-1013 | moving a subtree takes its weight out of one area and adds it to the other |
| `Usages.SubtreeAfterMove` | common/connection.go:996-1006 | a directory weighs at its new place what it weighed at its old one |
| `Ledger.ChargeBalance` | dataprovider/dataprovider.go:797-833 | a charge for an item reaches exactly the ledgers that cover the area it is stored in: the folder's, and the user's if the folder is part of the user's quota |
| `Ledger.TrackedIff` | dataprovider/dataprovider.go:797-833 | the ledgers the results speak of are exactly those an update reaches |
| `Ledger.CoveredMeaning` | dataprovider/user.go:554-578 | the user ledger covers the home directory and the folders with both limits at -1, a folder ledger its folder |
| `Ledger.RenameBalance` | common/connection.go:977-1025 | in all placements of source and target, included in the user's quota or not, each ledger loses what left it, gains what arrived and loses the overwritten file |
| `Ledger.BetweenFoldersBalance` | common/connection.go:915-944 | the same between two folders, or inside one |
| `Ledger.FromFolderBalance` | common/connection.go:946-958 | the same from a folder to the home directory |
| `Ledger.ToFolderBalance` | common/connection.go:960-975 | the same from the home directory to a folder |
| `Uploads.SessionConserves` | common/transfer.go:199-283 | new, overwriting or resumed, in every upload mode, ending in success, quota error or another error, with the final remove or rename working or failing: opening plus closing charge the change in files and bytes on disk |
| `Uploads.SessionTelescopes` | common/transfer.go:129-159 | any mix of writes and handle truncations of an upload that keeps its file is charged, from open to close, final size minus size at open |
| `Uploads.PerformAllAccounted` | common/transfer.go:129-159 | at every moment `InitialSize` is what the ledger counts for the file and is at most its size |
| `Uploads.FirstErrorStays` | common/transfer.go:163-177 | an upload that has failed stays failed in the way it failed first |
| `Uploads.HowWritesFail` | ftpd/transfer.go:61-76 | a write fails by its own error, and only without one by exceeding the cap |
| `Uploads.CloseSettlesIff` | common/transfer.go:199-283 | closing leaves the ledger exact if and only if neither of the two drifting cases holds; the number of files is always exact |
| `Uploads.UploadWithinLimits` | ftpd/handler.go:378-448 | the upload on its own: admitted, keeping its cap and ending without error, it adds no more bytes than were free at admission, one file where one was free, and ends within the largest upload |
| `Uploads.PerformAllCapped` | ftpd/transfer.go:61-76 | any mix of actions that keep the cap leaves an upload that has not failed within it |
| `Uploads.WriteKeepsCapIff` | ftpd/transfer.go:61-76 | a write leaves a limited upload within its cap or failed if and only if it adds nothing, ends within the cap, or exceeds it by the bytes received |
| `Uploads.NoHolesKeepCap` | ftpd/transfer.go:61-76 | writes that leave no hole and truncations below the cap always keep it |
| `Uploads.CapStopsExactly` | common/transfer.go:129-159 | with appending writes and truncations below the cap in any order, the upload ends without error if and only if the file never grows beyond what the cap allows |
| `Uploads.TruncationKeepsCapIff` | common/transfer.go:129-159 | after a handle truncation the cap can still stop the upload if and only if the new size is below `InitialSize` plus the cap |
| `Uploads.HoleEscapesCap` | ftpd/transfer.go:61-76 | a write that breaks the condition and exceeds the cap without an error |
| `Uploads.TruncationDisarmsCap` | common/transfer.go:129-159 | after a truncation to the cap any amount can be written without an error |
| `Limits.WriteCapIsExact` | common/connection.go:791-817 | the cap is positive and is the largest amount that keeps the file within the quota and the largest upload |
| `Limits.GetMaxWriteSize` | common/connection.go:791-817 | refuses exactly the resumes that cannot be allowed and otherwise gives that cap |
| `Limits.HasSpace` | common/connection.go:820-867 | says yes exactly when the ledger that limits the item is below each checked limit, and reports that ledger's limits and use |
| `Limits.AdmitUpload` | ftpd/handler.go:378-448 | an upload is admitted exactly when both checks pass, and then carries the cap |
| `Limits.HasSpaceForCrossRename` | common/connection.go:734-787 | accepts exactly when the limits hold after the move, and when already full only a replacement that fits |
| `Limits.HasSpaceForRename` | common/connection.go:707-731 | the whole check, early accepts included |
| `Limits.AcceptedRenameRespectsLimits` | common/connection.go:707-787 | on every accepting branch the ledger that limits the target ends within its limit or is not increased, for files and for bytes |
| `Caps.RenameStepRespectsLimits` | common/connection.go:352-413 | the same for every rename step the server carries out |
| `Caps.OpenedUploadWasAdmitted` | ftpd/handler.go:317-448 | a step opens an upload only after both checks let it in; it starts as an admitted session and is charged as one |
| `Caps.ActionStep` | common/connection.go:586-615 | a write or truncation step on an open upload is the action of its session, charged by the change of `InitialSize` |
| `Caps.OtherStep` | common/connection.go:258-413 | every other step leaves the upload and its file alone |
| `Caps.RunIsSession` | common/transfer.go:129-283 | over any run that does not close it an open upload is a session, and the ledger moves by that session and by what all other steps charge |
| `Caps.UploadIsAdmittedSession` | ftpd/handler.go:317-448 | from the step that opens it on, an upload in a run is the session it was admitted as |
| `Caps.UploadOverRun` | ftpd/handler.go:317-448 | from open to close over any steps in between, the checked ledger ends as it was at admission plus what the others charged it plus the change in size, and one for a new file |
| `Caps.CapOverRun` | common/connection.go:791-867 | the file ends within the largest upload whatever the others do, and the ledger is within its limit if and only if what the others charged fits in what the upload left free |
| `Caps.StepExceedsIff` | common/connection.go:258-615 | a step raises a ledger over its limit, for files or bytes, if and only if it is a truncation or a close that charges that much; every other step leaves every ledger within its limits or does not raise it |
| `FailingRuns.TwoUploadsExceedQuota` | ftpd/handler.go:354-376 | an admissible run of two uploads, both closed without error, that ends at twice the limit |
| `FailingRuns.PathTruncationExceedsQuota` | common/connection.go:586-615 | an admissible run in which a truncation by path takes the ledger to ten times its limit |
| `FailingRuns.TruncatedThenDeletedDrifts` | common/transfer.go:199-283 | an admissible run that ends with five bytes in the ledger and nothing stored |
| `FailingRuns.LeftUnderTemporaryNameDrifts` | common/transfer.go:199-283 | an admissible atomic run whose file is left under its temporary name and charged three bytes short |
| `FailingRuns.RenamedToItselfDrifts` | common/connection.go:977-996 | an admissible run after which a stored file is no longer in the ledger |
| `Connection.BaseConnection.UploadFile` | ftpd/handler.go:317-352 | the object takes the upload step of the state machine |
| `Connection.BaseConnection.HandleUploadToNewFile` | ftpd/handler.go:354-376 | the new-file part of that step |
| `Connection.BaseConnection.HandleUploadToExistingFile` | ftpd/handler.go:378-448 | the existing-file part, with the file moved aside in atomic mode even when it then cannot be opened |
| `Connection.BaseConnection.RemoveFile` | common/connection.go:258-292 | takes the remove step |
| `Connection.BaseConnection.TruncateFile` | common/connection.go:586-615 | truncates the one open upload of the path if there is one, else the file, and charges the change |
| `Connection.BaseConnection.TruncateOpenHandle` | common/connection.go:191-203 | asking the transfers in any order finds the upload of the path or shows that there is none |
| `Connection.TruncatedByHandle` | common/connection.go:191-203 | the upload that is found is the only one, so this is the truncation step |
| `Connection.BaseConnection.Rename` | common/connection.go:352-413 | takes the rename step, with the moved data measured before the move for the check and after it for the ledgers |
| `Connection.MeasuredAtTarget` | common/connection.go:996-1010 | both measurements agree |
| `Connection.BaseConnection.UpdateQuotaAfterRename` | common/connection.go:977-1025 | charges the move as measured at the target |
| `Connection.BaseConnection.WriteUpload` | ftpd/transfer.go:61-76 | takes the write step |
| `Connection.BaseConnection.CloseUpload` | common/transfer.go:199-261 | takes the close step and forgets the transfer |
| `Connection.BaseTransfer.constructor` | common/transfer.go:44-67 | a transfer starts with nothing received and no error |
| `Connection.BaseTransfer.TransferError` | common/transfer.go:163-177 | only the first error is kept |
| `Connection.BaseTransfer.Write` | ftpd/transfer.go:61-76 | the bytes reach the file before the cap is checked |
| `Connection.BaseTransfer.Truncate` | common/transfer.go:129-159 | only the transfer of that path is truncated, its cap moves with `InitialSize`, and a failure changes nothing |
| `Connection.BaseTransfer.UpdateQuota` | common/transfer.go:263-283 | an unchanged number of files is charged only for growth |
| `Connection.BaseTransfer.Close` | common/transfer.go:199-261 | what becomes of the file, what is charged and which error is returned, in every mode |
| `Connection.BaseTransfer.FinishFile` | common/transfer.go:199-233 | the file is removed, renamed or left, the number of files follows, and a removed file counts no bytes |
| `Connection.BaseTransfer.CloseTransfer` | ftpd/transfer.go:96-134 | the first close stores, charges and forgets as closing does, a second is refused and changes nothing |
| `Scans.ScanQuota` | dataprovider/user.go:554-578 | a full scan counts every area the user's ledger covers exactly once |
| `Scans.GetDirSize` | vfs/osfs.go:281-298 | counts the files and bytes of a subtree |
| `Scans.ScanRootDirContents` | vfs/osfs.go:210-212 | counts everything in one area |
| `QuotaUpdater.NothingLostOrDoubled` | dataprovider/quotaupdater.go:73-183 | in every interleaving of updates, both halves of resets and flusher steps, with failures anywhere, stored plus pending minus in-flight is the sum of all updates since the last stored total, up to a skew that only the halves of resets change |
| `QuotaUpdater.DelayedRefinesImmediate` | dataprovider/dataprovider.go:797-859 | with undisturbed resets the used quota is that of immediate mode, and inside the window of an entry too high by what is in flight |
| `QuotaUpdater.CleanResetsNoSkew` | dataprovider/dataprovider.go:806-811 | resets whose halves meet no update and no flush of the entry lose nothing |
| `QuotaUpdater.ResetInWindowLoses` | dataprovider/quotaupdater.go:157-183 | a run in which a reset inside the window leaves the used quota short |
| `QuotaUpdater.InFlightCountedTwice` | dataprovider/quotaupdater.go:157-169 | a run inside whose window the used quota is twice the amount |
| `QuotaUpdater.SplitRead` | dataprovider/dataprovider.go:836-846 | read in two steps, the used quota misses what is stored between the reads and counts what is in flight at the end, and is right if and only if the two are equal |
| `QuotaUpdater.FlushBetweenReads` | dataprovider/dataprovider.go:836-846 | a reader overtaken by the whole flush of an entry reports another amount of files or bytes than there is |
| `QuotaUpdater.OvertakenReader` | dataprovider/dataprovider.go:836-846 | what that reader reports is short by exactly the flushed entry |
| `QuotaUpdater.SplitReset` | dataprovider/dataprovider.go:806-811 | after a reset in two steps the used quota is the total plus the updates between its halves, less what flushes subtracted between them |
| `QuotaUpdater.PendingNeverEmpty` | dataprovider/quotaupdater.go:80-92 | no run leaves a pending entry of (0, 0) |
| `QuotaUpdater.AddPendingGet` | dataprovider/quotaupdater.go:80-92 | an update changes the pending amount of its own entry and of no other |
| `QuotaUpdater.Updater.UpdateQuota` | dataprovider/quotaupdater.go:80-92 | the pending table changes as in the interleaving model |
| `QuotaUpdater.Updater.UpdateUsed` | dataprovider/dataprovider.go:797-833 | in immediate and delayed mode alike the used quota grows by the given amounts or is reset to them, and no other entry changes |
| `QuotaUpdater.Updater.GetNames` | dataprovider/quotaupdater.go:133-155 | the snapshot names every pending entry of its kind |
| `QuotaUpdater.Updater.StoreQuota` | dataprovider/quotaupdater.go:157-183 | a flush without new updates keeps every used quota and leaves only refused entries pending |
| `RenameWalk.CheckRecursiveRenameDirPermissions` | common/connection.go:617-655 | accepts exactly when every item passes or the walk stops at an item before which every item passes |
| `RenameWalk.OneItemNeeds` | common/connection.go:657-673 | a single item is accepted if and only if rename is granted on both parents, or delete on the one and create_dirs, create_symlinks or upload, by its kind, on the other |
| `RenameWalk.OneSetNeeds` | common/connection.go:657-673 | the same for an account with one set of permissions |
| `RenameWalk.StopNeeds` | common/connection.go:633-643 | the walk stops exactly where no entry lies at or below the parents and these grant all that any item may need |
| `RenameWalk.EarlyStopEqualsFullCheck` | common/connection.go:617-673 | with no permission entry strictly below source or target the stopping walk accepts exactly the trees in which every item may be renamed |
| `RenameWalk.StopIsWrongIff` | common/connection.go:617-673 | about permissions alone: some tree whose other clauses all hold is accepted although an item may not be renamed, if and only if the walk can get to a place where it stops and an item that can come later fails, for trees walked in any order and for trees walked by name |
| `RenameWalk.WrongMeansHidden` | common/connection.go:633-643 | every wrongly accepted tree shows such a place and such an item |
| `RenameWalk.HiddenMeansWrong` | common/connection.go:633-643 | for every such place and item there is a tree with distinct names that is wrongly accepted |
| `RenameWalk.StopOverlooksIff` | common/connection.go:617-705 | about all clauses: some tree is accepted although an item does not pass, for its permissions, its pattern or otherwise, if and only if the walk can get to a place where it stops |
| `RenameWalk.StopOverlooks` | common/connection.go:633-647 | below every place where the walk can stop, a file that another clause refuses goes unseen |
| `RenameWalk.StopCoversRest` | common/connection.go:633-643 | where the walk stops, every remaining item has the permissions it needs |
| `RenameWalk.StopSkipsSibling` | common/connection.go:633-643 | a tree with an entry below the source that the stop accepts although a sibling may not be renamed |
| `RenameWalk.StopSkipsPattern` | common/connection.go:633-647 | without any entry below source or target, a tree whose one file is refused by another clause is accepted |
| `RenameWalk.WalkIsRootFirst` | common/connection.go:617-624 | the walk visits the renamed directory first and only what is below it afterwards |
| `Accounts.GetVirtualFolderForPath` | dataprovider/user.go:535-550 | finds the longest mounted ancestor, nested folders included, and nothing exactly when no folder is mounted above |
| `Accounts.FolderForMeaning` | dataprovider/user.go:535-550 | the nearest-ancestor search means the longest mounted prefix |
| `Accounts.StorageAndLedgerAgree` | dataprovider/user.go:500-550 | searching from an item and from its parent gives the same folder if and only if the item is not itself a virtual folder |
| `Accounts.ResolveMeaning` | dataprovider/user.go:500-531 | an item is stored below its longest mounted prefix at the rest of its path, else in the home directory |
| `Accounts.ResolveInjective` | dataprovider/user.go:500-531 | different virtual paths are different places in storage |
| `Accounts.FoldersInsideIsDescent` | dataprovider/user.go:650-663 | the string-prefix test finds a folder exactly when one is a strict descendant, component by component |
| `Accounts.PermissionsInsideIsDescent` | dataprovider/user.go:667-678 | the same for permission entries, the directory itself included |
| `Accounts.GetPermissionsForPath` | dataprovider/user.go:450-472 | gives the permissions of the nearest ancestor with an entry, by the shortcut too |
| `Accounts.PermissionsInherited` | dataprovider/user.go:450-472 | without an entry in between, a directory has the permissions of its ancestor |
| `Accounts.PermissionsMeaning` | dataprovider/user.go:450-472 | the entry of the longest prefix decides, and without one nothing is granted |
| `Paths.GetDirsForVirtualPath` | utils/utils.go:320-337 | lists every ancestor from the path up to the root, each once |
| `Paths.PrefixIsStrictDescent` | dataprovider/user.go:650-663 | on clean paths a string prefix that ends in a slash is the strict-descendant relation |
| `Defender.MemoryDefender.GetScore` | common/defender.go:325-340 | the score is the sum over the host's whole record, since its last ban or eviction, of what is still in the window |
| `Defender.MemoryDefender.AddEvent` | common/defender.go:244-296 | a host leaves the record and gets a ban exactly when its full record, the new event included, reaches the threshold; the ban stays exactly when there is room; otherwise the event joins the record, and a new host stays unless as many others as the soft limit were seen at that very time |
| `Defender.ScoreOfFirst` | common/defender.go:252-261 | one event on a fresh defender scores what is configured for its kind |
| `Defender.RepeatEvent` | common/defender.go:244-296 | equal events in one window ban at the first one whose number times the configured score reaches the threshold, and not before |
| `Defender.NewBanStays` | common/defender.go:282-285 | in terms of the table before the call: a new ban outlives its own cleanup if and only if fewer bans are due later than the soft limit plus the expired ones, ties apart |
| `Defender.NewBanLost` | common/defender.go:282-285 | a run of failed logins and new attempts that fills the table with extended bans, after which a host that reaches the threshold is not banned |
| `Defender.NoRoomForBan` | common/defender.go:282-285 | in that table no choice of the cleanup keeps the new ban |
| `Defender.NewHostStays` | common/defender.go:289-294 | a host that is new to a full table stays unless as many others as the soft limit are as recent |
| `Defender.StandsForAppended` | common/defender.go:269-282 | dropping events that left the window changes no later score |
| `Defender.WindowMeaning` | common/defender.go:272-279 | the window holds what happened less than the observation time ago |
| `Defender.Compact` | common/defender.go:269-282 | compacting the slice in place keeps exactly the window and sums it |
| `Defender.FirstEventBelowThreshold` | common/defender.go:119-149 | a validated configuration never bans on a first event, whatever the event |
| `Defender.MemoryDefender.CleanupHosts` | common/defender.go:376-403 | leaves exactly the soft limit and no survivor seen before a victim |
| `Defender.MemoryDefender.CleanupBanned` | common/defender.go:342-374 | removes expired bans, then the earliest due, and leaves the smaller of the live bans and soft limit plus expired |
| `Defender.CutReachesSoftLimitIff` | common/defender.go:342-374 | a cut gets down to the soft limit if and only if nothing had expired or no more are live |
| `Defender.CutMissesSoftLimit` | common/defender.go:342-374 | three bans, one expired, of which two stay under a soft limit of one |
| `Defender.LiveVictims` | common/defender.go:342-374 | live bans are cut only after every expired one |
| `Defender.MemoryDefender.IsBanned` | common/defender.go:195-227 | true exactly for a running ban or a blocked host, and a running ban is extended |
| `Eviction.Oldest` | common/defender.go:388-402 | the front of the sorted list holds the given number of oldest entries |
| `Eviction.EvictsByUseIff` | common/ratelimiter.go:206-229 | however equal stamps are sorted, eviction by stamp is eviction by last use if and only if no pair the cut can separate was used in the opposite order |
| `RateLimiter.SourceBuckets.AddAndReserve` | common/ratelimiter.go:192-204 | the table never exceeds the hard limit and survivors are no older than victims |
| `RateLimiter.SourceBuckets.Cleanup` | common/ratelimiter.go:206-229 | a full table is cut to exactly the soft limit, oldest additions first, and in order of last use whenever that follows the additions |
| `RateLimiter.ActiveBucketEvicted` | common/ratelimiter.go:180-229 | a run in which the bucket used last is evicted |
| `RateLimiter.SourceBuckets.Reserve` | common/ratelimiter.go:180-190 | a use of a bucket that leaves its stored stamp at the time of its last addition, in every reachable state |
| `CachedUsers.UsersCache.Add` | dataprovider/cacheduser.go:85-112 | the cache stays within its size, gives up at most one entry, and never one that expires after another expiring entry |
| `CachedUsers.UsersCache.FindVictim` | dataprovider/cacheduser.go:89-103 | the scan ends on an entry that never expires or on the first to expire, in any order of iteration |
| `CachedUsers.UsersCache.Swap` | dataprovider/cacheduser.go:64-83 | an updated user stays cached only with the same password and filesystem |
| `MemoryProvider.Provider.AddUser` | dataprovider/memory.go:194-222 | integrity is kept; the user is stored as given, unused and with a new identifier; its folders exist and list it |
| `MemoryProvider.Provider.UpdateUser` | dataprovider/memory.go:224-254 | integrity is kept; identifier and used quota survive; folders no longer referred to stop listing the user |
| `MemoryProvider.Provider.DeleteUser` | dataprovider/memory.go:256-277 | integrity is kept, exactly that user goes, and no folder changes but for its list of users |
| `MemoryProvider.Provider.UpdateQuota` | dataprovider/memory.go:155-178 | only the used quota of that user changes |
| `MemoryProvider.Provider.AddFolder` | dataprovider/memory.go:675-697 | integrity is kept; a new folder has no users and a new identifier |
| `MemoryProvider.Provider.UpdateFolder` | dataprovider/memory.go:699-737 | the new fields reach the folder and, entry by entry, every user that refers to it, and change nothing else |
| `MemoryProvider.Provider.DeleteFolder` | dataprovider/memory.go:739-771 | the folder goes; of every user the other entries stay, unchanged and in order |
| `MemoryProvider.Provider.UpdateFolderQuota` | dataprovider/memory.go:511-532 | only the used quota of that folder changes |
| `MemoryProvider.Provider.AddOrUpdateFolder` | dataprovider/memory.go:583-608 | the folder lists the user once; an existing folder keeps its identifier and use |
| `MemoryProvider.Provider.JoinVirtualFoldersFields` | dataprovider/memory.go:548-559 | every folder the user names exists and lists the user, with the last fields named for it |
| `MemoryProvider.Provider.RemoveUserFromFolderMapping` | dataprovider/memory.go:561-573 | the folder stops listing the user, nothing else changes |
| `MemoryProvider.Provider.Clear` | dataprovider/memory.go:803-812 | an empty, consistent provider |
| `MemoryProvider.Provider.Restore` | dataprovider/memory.go:814-861 | whatever names a dump repeats and folders it leaves out, the result is consistent, holds each dumped user as last recorded and no other, and each dumped folder with its used quota |
| `MemoryProvider.Provider.RestoreFolders` | dataprovider/memory.go:885-906 | exactly the dumped folders, with the used quota of the first record and the fields of the last |
| `MemoryProvider.Provider.RestoreUsers` | dataprovider/memory.go:908-928 | exactly the dumped users, as last recorded, with identifiers and used quota of the folders untouched |
| `MemoryProvider.NextUserId` | dataprovider/memory.go:773-781 | larger than every identifier in use |
| `MemoryProvider.NextFolderId` | dataprovider/memory.go:783-791 | larger than every identifier in use |
| `MemoryProvider.RefreshKeeps` | dataprovider/memory.go:720-735 | updating the listed users alone misses no reference |
| `MemoryProvider.DropKeeps` | dataprovider/memory.go:750-764 | dropping a folder from the listed users alone leaves no reference behind |
| `Names.EnumerationUnique` | dataprovider/memory.go:270-276 | the sorted duplicate-free index of a set of names is unique, so rebuilding it and inserting into it agree |
| `Names.LessMeaning` | dataprovider/memory.go:270-275 | names are sorted by their first difference, a prefix first |
| `Paging.CollectAll` | httpd/webadmin.go:1183-1203 | for every positive limit the loop ends with every entry exactly once, in order, and in reverse order for descending pages |
| `Paging.GetPage` | dataprovider/memory.go:312-355 | the two counters cut out exactly the requested page, in either order |
| `Paging.LoopEndsIff` | httpd/webadmin.go:1183-1203 | for the limits of at least 0 that the server gets to the loop with: it ends after some number of rounds if and only if the limit is positive, and then has everything |
| `Paging.ZeroLimitNeverEnds` | httpd/webadmin.go:1183-1203 | with a limit of 0 no number of rounds ends the loop |
| `PasswordCache.CachingChangesNoAnswer` | dataprovider/dataprovider.go:1625-1662 | every run of checks and user changes gives the same answers with the cache as without |
| `PasswordCache.CacheAgreesWithVerifier` | dataprovider/dataprovider.go:1625-1662 | after every run the cached answer is that of the slow verification |
| `PasswordCache.RunCoherent` | dataprovider/dataprovider.go:891-924 | every cached password is accepted by its user's current hash |
| `PasswordCache.UpdatedHashDecides` | dataprovider/dataprovider.go:900-908 | after an update the new hash decides and nothing of the old one is remembered |
| `PasswordCache.AcceptedIsRemembered` | dataprovider/dataprovider.go:1625-1662 | an accepted password is answered from the cache the next time |
| `PasswordCache.PasswordsCache.CheckUserPassword` | dataprovider/dataprovider.go:1625-1662 | the object answers and caches as the machine does |
| `PasswordCache.PasswordsCache.ChangeUser` | dataprovider/dataprovider.go:900-908 | a changed user is forgotten by the cache |
| `PasswordCache.PasswordsCache.RemoveUser` | dataprovider/dataprovider.go:911-924 | a deleted user is forgotten by the cache |
| `Kms.SecretRoundTrip` | kms/kms.go:153-255 | encrypt, marshal, unmarshal under a later configuration, clone and decrypt give back the payload, plain and with nothing else in it, for every provider |
| `Kms.LoadFindsProvider` | kms/kms.go:169-198 | loading a stored secret picks the provider that encrypted it, whatever is configured now |
| `Kms.MarshalRoundTrip` | kms/kms.go:153-198 | omitting empty fields loses nothing |
| `Kms.LoadsForCurrentProvider` | kms/kms.go:169-198 | a plain or redacted secret is loaded for the provider configured now |
| `Kms.LoadsIff` | kms/kms.go:169-198 | loading fails exactly for an unknown status and for fields without a status |
| `Kms.StoredStatus` | kms/kms.go:133-144 | the location of the keys decides which status a new secret is stored with |
| `Kms.EncryptsIff` | kms/local.go:34-40 | exactly plain secrets with a payload are encrypted |
| `Kms.SealedLocally` | kms/local.go:34-118 | the payload is sealed under a key derived from the master key, or from the secret itself when there is none, and the mode tells which |
| `Kms.SealedInCloud` | kms/basegocloud.go:17-55 | the payload is sealed by the key service, and with a master key locally before that |
| `Kms.SealedBuiltin` | kms/builtin.go:41-75 | the payload is sealed together with the additional data |
| `Kms.LocalRoundTrip` | kms/local.go:34-118 | decrypting undoes encrypting, also when a master key was added in between |
| `Kms.CloudRoundTrip` | kms/basegocloud.go:17-98 | the same through the local layer under the cloud layer |
| `Kms.BuiltinRoundTrip` | kms/builtin.go:30-117 | the same with authenticated additional data |
| `Kms.SecretProvider.EncryptLocally` | kms/local.go:34-61 | the fields after the call, and none changed on an error |
| `Kms.SecretProvider.DecryptLocally` | kms/local.go:63-91 | the fields after the call, and none changed on an error |
| `Kms.SecretProvider.EncryptInCloud` | kms/basegocloud.go:17-55 | the inner secret's payload is sealed again and its key and mode are kept |
| `Kms.SecretProvider.DecryptInCloud` | kms/basegocloud.go:57-98 | both layers are undone, or nothing changes |

## Left out

- SQL and bolt providers, migrations and query text: the memory provider carries the same contract.
- Hooks, external authentication, notifications: subprocesses and network calls; where one decides an outcome it is a parameter.
- TLS, tokens, web pages, routing, configuration loading, logging, metrics: no state of interest to these properties.
- Symbolic links, encrypted storage and cloud storage in the ledger model: they are charged by other rules; an overwrite there does not subtract a shrink.
- The SFTP, SCP and WebDAV handlers: they open and close transfers as the FTP handler does, which stands for them.
- The contents of a rate-limit bucket and the matching of addresses and patterns: libraries.
- Several connections of one user at once: the model has one store, one set of ledgers and one table of transfers.
- User and folder validation inside the memory provider: only records that pass it are stored, and a dump that fails it stops early in a consistent state.
- Administrators in the memory provider: a table of their own with the same shape as the users'.
- Reloading a dump while passwords are cached: the password cache is modelled for checks and for adding, updating and deleting users.
- Lock-level races inside `IsBanned` and between checking and caching a password: each is one step.
- Interleavings inside reloading a dump and inside deleting a folder, which take several locks: each is one call here.
- The order of entries with equal stamps: it is left open, so the survival of a ban or host tied with others is stated only as far as every order agrees.
- Conservation.StepError: states tracked ledgers only; an account without restrictions under tracking mode 2 is not charged at all.
- Kms.BuiltinRoundTrip: modelled on values, not as an object.
- Server.DirChanged: creating and removing directories have a step of the state machine but no method on the connection object.
