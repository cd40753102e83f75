# Verified model of the media consolidation engine and its companion passes

The repository's `media/` engine copies files from several sources into one destination and lets a
person purge the source copies afterwards. Its design rests on one promise: no file is deleted
unless its bytes survive elsewhere. This project models that engine as a state machine over a file
map, a commit table, staged-deletes files and registered runs, proves the promise over every
history of merges, resumed merges, purges and hand edits of `deletes.json` whose roots lie apart on a
disk without leftover staging files, and gives the exact condition under which it holds when they do
not, or when leftovers are about. Around it stand the
parts the promise leans on (the duplicate index, the namer, the staged copy, the path gate, the
byte accounting) and nine smaller protocols of the same repository: pass locks, the resumable
publish job, tag runs with undo, the album fill, fair sampling, the two-file model selection, the
catalog layout, the ordered-windows figure and the memory-fit searches.

Run `dafny verify dfyconfig.toml` to check everything.

## How it is built

| files | what they hold |
|---|---|
| `Basics`, `Paths` | options, stable sorting, buckets in insertion order; absolute paths and Python's order on them |
| `Names`, `Fsx`, `Ledger`, `Duplicates` | the namer, the file map with `copy_file`, the commit table, the duplicate index |
| `Planning`, `PlanProofs` | what one merge decides, as functions of the disk, and what those decisions mean |
| `Worlds`, `Histories`, `PurgeProofs` | merges and purges as steps, interrupted at any row; the theorems over all histories with roots kept apart |
| `Listings`, `Landings`, `Records`, `Deeds`, `Removals` | the same steps told again without the functions they are built from: what is scanned and planned, when copies land, which rows a merge writes, what its summary counts, what a purge takes |
| `Losses`, `Traps` | any roots: which purges lose content, exactly, and a history from an empty table that does |
| `Leftovers` | leftover staging files: which merges lose content, exactly, and a history with roots kept apart that does |
| `Reclaims`, `Replays`, `Observations` | what a purge after a clean merge removes, and what a replayed merge copies and records |
| `Report`, `Gate` | the byte accounting, and the roots a run may have |
| `Twins`, `Scenarios` | merges of files of one content, and the smallest merges worked out, so that the hypotheses are seen to be met |
| `Engines`, `Purges` | the engine's classes and loops, each proved to take exactly the step `Worlds` defines |
| `Publish`, `Fetches`, `Workers`, `Jobs` | the publish job as interleaved task steps, `fetch` as code, the steps of one worker as a run of `fetch`, and which whole jobs may call themselves done |
| `AlbumFills`, `Fills`, `AlbumGrowth` | the album fill's decisions, what they come to when read off the records, and what one run adds to an album |
| `TagRuns`, `Undos` | tag runs with undo, and what each failure does to a file |
| `Catalogs`, `Layouts` | the catalog layout, and what ends up in it |
| `PassLocks`, `Sampling`, `Selection`, `Coverage`, `Budgets` | the smaller protocols |

The link between the imperative code and the theorems is `Engine.RunMerge` and `Purger.CmdPurge`:
each ensures that the whole state it leaves equals `Merge` or `Purge` of the state it found, and the
history theorems are about `Merge` and `Purge`. `Merge` and `Purge` are tied in turn to statements that
do without their parts: `Records.MergeTable`, `Listings.PlanSpelledOut` and
`Removals.PurgeTakesExactly` name only walks, bytes and rows.

Automatic induction is off on every lemma: each proof is written out.

## Hypotheses of the engine's theorems

* Digests do not collide and the digest cache is truthful (`Duplicates.Truthful`).
* For the promise itself, every run's sources lie apart from the destination and from the library
  (`Histories.Lawful`). The path gate enforces the destination half only (`Gate.AcceptedAreApart`);
  `Losses` does without this hypothesis.
* No source's name sanitises into a staging name (`Histories.CleanSources`), and, for the promise
  itself, no file carries the staging prefix (`Histories.NoStaging`). `Leftovers` does without the
  second; it asks that no source can be a staging file of the run, which roots kept apart ensure
  (`Histories.Roomy`). What a merge call does to disk and table (`Engines.Engine.RunMerge`) asks for
  neither.
* Inside the engine a copy may fail at any phase, but cleanup works and no power cut happens; power
  cuts and failed cleanups are modelled in `Fsx.Disk.CopyFile`. That copies land is not assumed: what
  lets one land is `Fsx.LandsIff`, and a machine that works lands every one of them
  (`Landings.WorkingMachineLands`).
* Nobody else writes to the trees between steps, except that anyone may rewrite `deletes.json`.
* What `os.walk` and its filters list, name folding and sanitising are inputs.

## What the proofs found in the code

* Purge's own checks are not enough when a library is also a source. From an empty table, a run that
  stages a file against the library, its purge, and a second run with the library among its sources
  leave two purges of which every check passes and the last copy goes (`Traps.TrapLosesTheLastCopy`,
  `Traps.SmallestTrap`). With any roots, a history loses nothing exactly when each of its purges
  spares a holder of every file it takes whose newest proof row names no other file with its bytes
  (`Losses.HistoryLosesNothingIff`); refusing a file that is its own newest proof would be check enough
  (`Losses.GuardIsEnough`).
* A leftover staging file passes `is_media`, so `overlap` counts it as a copy on the destination,
  while `_claimed_names` skips it and `copy_file` overwrites it. From an empty table, with every root
  apart from every other: the power fails while the first file is copied; the same merge again stages
  the file against the leftover; its purge takes the file, every check passing; and the next file of
  that name is copied over the leftover, which held the content alone
  (`Leftovers.CutLosesTheContent`, `Leftovers.SmallestCutLoses`). In general a merge loses nothing
  exactly when each leftover it drops has a holder of its bytes that it does not drop
  (`Leftovers.MergeLosesNothingIff`), and a history loses nothing exactly when each of its purges
  spares what only it holds and each of its merges does the same for the leftovers
  (`Leftovers.GentleIffNothingLost`).
* A source file that sorts before every other holder of its bytes, the destination's copy included,
  is staged as its own proof: the merge requests its delete, and the purge of that run removes it only
  if an earlier run had proven its bytes elsewhere (`Reclaims.PurgeReclaimsExactly` says exactly which
  sources a purge removes, `Scenarios.TwinIsReclaimedIff` shows both cases). The ledger calls a delete
  row without a copy elsewhere a bug or a half-finished run; a finished merge writes such rows for
  exactly these sources (`Reclaims.UnclaimedAreSelf`).
* The documentation calls a replayed run a no-op. A replay copies nothing, but it adds an observation
  and a delete request for every file it scans, so the table stays as it is exactly when there was
  nothing to scan (`Observations.ReplayIsNoOpIff`).
* Any `--src` given twice is accepted, and the files below it that are to be copied are copied twice.
  Each content is copied once if and only if no repeated root has below it the least path of an
  absent content (`Gate.RepeatedSourceIsAccepted`, `Gate.AcceptedCopiesOnceIff`).
* `unique` counts the room for a suffix in UTF-16 units but cuts the stem in code points, so a name
  of emoji is numbered past the 255-unit limit it is meant to respect (`Names.EmojiStemOverflows`).
* The resume skip of `apply_plan` never fires while nobody else deletes: a fresh plan never targets
  a name that the run recorded (`Replays.ResumeSkipNeverFires`).
* A copy whose size cannot be measured after the rename is on the destination and is counted as
  failed (`Deeds.MergeDeeds`): the summary can name more failures than there are missing files.
* A lock object acquired twice leaks its pass lock until its process dies (`PassLocks.ExactIffDisciplined`,
  `PassLocks.LeakIsForever`).
* A failure between the swap and the journal line leaves a retagged file that no undo restores
  (`TagRuns.UndoRestores`).
* A catalog entry without a size has no size test: whatever a transfer that reported success left is
  published (`Publish.NoSizePublishesAnything`).
* The layout keeps two sizes under one path exactly when both entries are the first of their name and
  size and no stray copies (`Catalogs.PathsDistinctIff`, `Catalogs.TwoSizesAreKept`). Then the publish
  job writes both to one destination and can call itself done with one of them at the wrong size. In
  a new library, a job is whole whenever it ends done if and only if no destination of its entries
  repeats or is another one's partial file (`Jobs.NewLibraryIff`); on any disk, partial files aside, if
  and only if none repeats (`Jobs.DoneIsWholeIff`); for a job over the whole catalog, if and only if no two laid-out files clash
  (`Jobs.CatalogJobIff`).
* The folder route's guard, "an album does not grow by more than itself", holds of each folder by
  itself and not of a run: two folders add eight files to an album of four
  (`AlbumGrowth.AlbumOutgrowsItself`). What a run adds is read off the records beforehand
  (`AlbumGrowth.GrowthIsExpected`), and one answering folder keeps it within the bound
  (`AlbumGrowth.OutgrowsIff`).
* A crash between the two writes of `save_selection` can select a pair nobody chose when the JSON
  record is missing (`Selection.MissingRecordMixes`), and an idle check that fails after the drain
  leaves admission drained (`Selection.Controller.Switch`).
* `max_slots` never stops for Qwen at context 0, `max_context` never stops with 0 slots, and it answers
  one step even where one step does not fit (`Budgets.FreeCacheNeverFills`, `Budgets.NoSlotsNeverFill`,
  `Budgets.MaxContext`).

## Model

| member | source | states |
|---|---|---|
| Histories.NoContentIsLost | media/run.py:14-20 | over any history from a safe state, every content some file held is still held by some file, and safety is kept |
| Histories.AuthorityMeansKept | media/core/ledger.py:213-231 | in every reachable state, a path with delete authority lies outside the destination and library, and a file inside holds the row's bytes |
| Histories.NothingIsOverwritten | media/core/fsx.py:91-131 | over any history no protected file goes, no file's bytes change while it stays, and every new file lies in a protected tree |
| Histories.FreshIsSafe | media/core/ledger.py:65-81 | an empty table over a disk without staging files is a safe start |
| Histories.MergeHasEffect | media/run.py:383-431 | one merge only adds files, inside protected trees, and only rows whose deletes are covered by a protected copy |
| Histories.MergeIsSafe | media/run.py:383-431 | a merge keeps every delete row covered and every file in place |
| Histories.CandidateIsKept | media/run.py:290-322 | a staged candidate whose proof checks out lies outside the protected trees while a protected file holds its bytes |
| Histories.PurgeHasEffect | media/run.py:493-567 | a purge removes only files with a pending row naming their present bytes, changes no other file, and rewrites rows only from pending to done |
| Histories.RemovedIsCovered | media/core/fsx.py:143-173 | whatever a purge removes was unprotected and its bytes are held inside a protected tree |
| Histories.PurgeIsSafe | media/run.py:493-567 | a purge keeps every delete row covered |
| Losses.HistoryLosesNothingIff | media/run.py:14-20 | with any roots and from any table, a history loses nothing if and only if each purge of it spares a holder of every file it takes whose newest proof is not another file with the same bytes |
| Losses.PurgeLosesNothingIff | media/run.py:519-567 | the same of one purge, on any table and disk, wherever it stops |
| Losses.GuardIsEnough | media/run.py:519-535 | with true staged hashes, a purge that takes no file which is the newest proof of its own bytes loses nothing, on any table and disk |
| Losses.OnlySelfIsDoubtful | media/run.py:519-535 | with true hashes, of the files a purge takes exactly those that are their own newest proof are not vouched for by another file on disk |
| Losses.MergeAddsCopies | media/run.py:383-431 | whatever its roots and wherever it stops, a merge changes no file, and the files it adds are copies of contents that were there |
| Losses.ApartIsCautious | media/run.py:14-20 | roots kept apart make every purge of every history meet the exact condition |
| Losses.PurgeTakes | media/run.py:545-567 | wherever a purge stops, between a removal and its row included, the files gone are exactly the removable ones it reached |
| Losses.PurgeActsIff | media/run.py:493-567 | a purge changes disk or table exactly when it is confirmed for a registered and staged run and reaches a file that re-verifies and is removable |
| Traps.TrapLosesTheLastCopy | media/run.py:519-550 | from an empty table, two merges of which the second has the library among its sources, each followed by its purge, leave no file of the content |
| Traps.TrapIsTidy | media/run.py:14-20 | that history meets every hypothesis except the one on the roots, and one of its purges fails the exact condition |
| Traps.SmallestTrap | media/run.py:519-550 | the smallest such history: three files, three roots and a library, for any content and naming |
| Traps.SmallestIsAccepted | media/core/gate.py:262-288 | the path gate accepts the roots of both its runs |
| Leftovers.GentleIffNothingLost | media/run.py:14-20 | from any table and disk, leftover staging files included, a history loses nothing if and only if each purge of it spares a holder of every doubtful file it takes and each merge of it spares a holder of every leftover it drops |
| Leftovers.MergeLosesNothingIff | media/core/fsx.py:91-131 | a merge, wherever it stops, loses nothing exactly when each leftover under the staging name of a copy it reaches has a holder of its bytes that is not dropped with it |
| Leftovers.MergeContents | media/run.py:325-359 | the contents a merge leaves are exactly those of the files it does not drop |
| Leftovers.WithoutLeftovers | media/run.py:14-20 | from a disk without leftovers a history's merges drop nothing, so only its purges matter |
| Leftovers.CutLosesTheContent | media/run.py:236-250 | from an empty table and the disk that a power cut during the first copy leaves, a merge, its purge and one more merge leave the first file's content nowhere |
| Leftovers.CutIsLawful | media/core/gate.py:262-288 | every merge of that history meets every hypothesis of the promise, roots apart included; only the disk has a leftover |
| Leftovers.CutIsNotGentle | media/core/gate.py:322-332 | each purge of it is cautious, and still it is not gentle: the merge drops the last holder |
| Leftovers.SmallestCutLoses | media/core/fsx.py:91-131 | the smallest such history: two sources with a file of one name, for any two contents and any naming |
| Leftovers.SmallestCutIsAccepted | media/core/gate.py:262-288 | the path gate accepts the roots of both its runs |
| Histories.PlanIsNew | media/run.py:216-250 | with clean source names, on a disk without leftovers or with sources off the destination, planned targets are new, clean and apart, and no copy stages over a planned source |
| Histories.ApplyCarries | media/run.py:325-359 | of the files that were there exactly the freed staging names go, the rest are unchanged, new files are copy targets, and new rows record new files |
| Landings.WorkingMachineLands | media/run.py:325-359 | after any lawful history, a machine on which nothing fails and every write arrives as sent, reflink or not, lands every copy of the next plan: no copy is assumed to land |
| Landings.WorkingMerge | media/run.py:325-359 | then a merge that reaches every row leaves each target with its source's bytes and every other file as it was |
| Landings.EveryContentArrives | media/run.py:383-431 | then the bytes of every file that a source's walk lists are held by a file below the destination or in the library |
| Records.ApplyRecords | media/run.py:325-359 | the copies leave, in plan order, one done row for each target not finished before whose call goes well, with the source's hash and size, and no other row |
| Records.MergeTable | media/run.py:290-322 | wherever an applied merge stops: the rows it adds are those of the copies it reached, then of each candidate whose survivor holds its bytes the observation and the request, of the last perhaps the first only; the stage has its hashes exactly when all were reached |
| Records.LawfulReaches | media/run.py:383-431 | what these ask of a merge holds on every disk that a lawful history reaches |
| Records.MergeWithoutApply | media/run.py:398-406 | a refused plan, a dry run and a full disk leave files and table alone; only the stage is written |
| Records.MergeRegisters | media/core/ledger.py:87-104 | a merge leaves its run registered, under the medium it was first given, and every other run as it was |
| Records.OtherRowsRecord | media/run.py:329-337 | a row that is not a copy changes no file, and leaves a row only if it is on the destination and carries a hash |
| PurgeProofs.PurgeRemovesExactly | media/run.py:510-567 | a confirmed, uninterrupted purge removes exactly the staged files that pass re-verification and whose row names their present bytes |
| Removals.PurgeTakesExactly | media/run.py:510-567 | on any table and stage, hashes recorded or not, a full purge takes exactly the staged files whose newest pending request names their present bytes, of which a proof row names another path, and of whose claimed hash, or present one where none is recorded, the newest proof row's path is on disk with those bytes |
| Removals.AllowedIff | media/run.py:510-545 | the files the re-verification leaves are exactly those that are there, of which a staged claim stands and whose newest request names bytes a proof row has at another path |
| Removals.PurgeOfTrueHashes | media/run.py:510-535 | with absent or true staged hashes the claim drops out: request, proof elsewhere and newest proof all speak of the present bytes |
| Removals.PurgeMarksExactly | media/core/fsx.py:143-173 | the rows it marks done are exactly the newest pending requests of the files it took, and no other row changes |
| Removals.PurgeRefuses | media/run.py:493-509 | an unknown run, another medium, no stage or no confirmation: nothing happens at all |
| Removals.InterruptedThenPurged | media/run.py:515-519 | a merge that ends before its stage is rewritten, and then its purge: the unhashed candidates are hashed now, and exactly those it got to whose checks hold are taken |
| Removals.ReachedAreWitnessed | media/run.py:290-322 | among those are all whose survivor is another path |
| PurgeProofs.PurgeOrderIrrelevant | media/run.py:510-567 | the order of the staged list does not change what a purge removes |
| PurgeProofs.PurgeTwiceRemovesNothing | media/run.py:493-567 | purging a second time removes nothing |
| PurgeProofs.PlansNeverRemove | media/run.py:398-406 | a history without an applied merge leaves every file and every row alone, whatever is purged |
| PurgeProofs.RemoveAllClosed | media/core/fsx.py:143-173 | after any list of removals exactly the removable ones are gone and the rest are as removable as before |
| PurgeProofs.DoneKeepsAuthority | media/core/ledger.py:213-235 | marking one delete done leaves every other path's authority as it was |
| Reclaims.PurgeReclaimsExactly | media/run.py:253-322 | after a merge that goes through, on any table, a confirmed purge removes exactly the uncopied sources that are not the least path of their own content or were proven elsewhere before |
| Reclaims.RowIsRemovable | media/core/ledger.py:213-231 | then a staged source has delete authority exactly when its survivor is another path or an earlier row proves its bytes elsewhere |
| Reclaims.UnclaimedAreSelf | media/core/ledger.py:237-249 | then, of the deletes the merge requested, those listed as having no copy elsewhere are exactly those of sources that are their own survivor and were not proven before |
| Reclaims.SettledPurge | media/run.py:510-567 | on a table whose newest rows are a checked-out stage, a purge removes exactly the staged files with a proof at another path |
| Reclaims.SurvivorIsLeast | media/run.py:148-159 | a row's survivor holds its bytes and is the least of all holders in sources, destination and library |
| Reclaims.PeerIsSurvivor | media/run.py:209-215 | the peer a duplicate row names is its survivor |
| Reclaims.SurvivorChecksOut | media/run.py:519-535 | then the purge finds, for every staged source, a recorded copy that is on disk with the right hash, whatever the table held before |
| Reclaims.CopiesProve | media/run.py:325-359 | every row the copies leave names a file that holds the recorded hash, and is about a copied source |
| Scenarios.OneFileIsCopied | media/run.py:187-250 | one source file, with no copy on the destination and no name but staging names at its top, gives one copy row, under the sanitised name |
| Scenarios.TwinIsReclaimedIff | media/run.py:253-288 | one source and its twin on the destination: the purge removes the source exactly when the twin sorts first, else both stay |
| Scenarios.SelfProofStaysUnclaimed | media/core/ledger.py:237-249 | and when the source sorts first, the delete the merge requested is one the table calls unclaimed |
| Twins.OneContentPurge | media/run.py:253-322 | among files of one content, with any roots and for a new or a resumed run, where a least file that is a source has another holder on the destination or in the library: merge and purge take every source but the least, and the least too exactly when an earlier row proves it elsewhere |
| Replays.ReplayCopiesNothing | media/core/ledger.py:13-15 | after a merge that failed nowhere, merging the same sources again has a plan, and it copies nothing |
| Observations.ReplayIsNoOpIff | media/core/ledger.py:13-15 | a replay that gets through leaves every file and adds two rows for each scanned file, so the table is left alone exactly when nothing was scanned |
| Observations.CopyFreeMerge | media/run.py:290-322 | any merge that copies nothing, on any table and with any roots, leaves the disk alone and writes an observation and a delete request for every row |
| Replays.MergeTargetsHold | media/run.py:325-359 | after a merge whose copies all land, whatever leftovers the destination has, every copy target holds its source's bytes |
| Replays.RecordedStays | media/core/ledger.py:155-159 | a protected destination once recorded as finished stays on disk through every history |
| Replays.ResumeSkipNeverFires | media/run.py:338-340 | no fresh plan targets a destination its run already recorded |
| PlanProofs.PlanMeans | media/run.py:187-234 | each row's action is equivalent to who holds its bytes: destination, library, nobody and least path, nobody and not least |
| Listings.PlanSpelledOut | media/run.py:187-234 | with sources apart, each row's action by the walks alone: on the destination if the walk of its root lists the bytes outside what the library's walk lists, in the library if its walk lists them, a duplicate if a source's walk lists them at an earlier path, else a copy |
| Listings.TargetKeepsFolder | media/run.py:216-216 | a copy of the file at source, folders, name lands in the same folders below the destination, or below its subtree when the library is not the destination |
| Listings.TargetName | media/run.py:216-224 | its name is what `unique` gives the sanitised one where exactly these keys are claimed: those of the names in that folder, staging names aside, and of the targets earlier rows have there |
| Listings.ScanIff | media/run.py:57-106 | exactly the existing files that the walk of a source lists below it are scanned |
| Listings.FoundCounts | media/run.py:57-106 | each as often as the walk lists it |
| Listings.DestIff | media/run.py:122-138 | on the destination counts exactly what the walk of its layout root lists there |
| Listings.LibraryIff | media/run.py:122-138 | in the library exactly what its walk lists, unless it is the destination |
| PlanProofs.CopiedOnceIff | media/run.py:196-224 | a content class is copied exactly once, or is there already and not copied, if and only if it is there already or its least path is scanned once |
| PlanProofs.OneCopyPerClass | media/run.py:196-224 | without a path scanned twice, a content class absent from destination and library gets exactly one copy row, its least path, and a present class none |
| PlanProofs.SurvivorIsCopied | media/run.py:142-159 | every duplicate row's survivor is copied by the same plan and holds the same bytes |
| PlanProofs.PlanTargetsAreFresh | media/run.py:216-250 | planned targets exist nowhere, and within a directory share a folded name neither with a file nor with each other |
| PlanProofs.RowForFound | media/run.py:187-234 | every scanned file has a row |
| PlanProofs.GroupMembers | media/run.py:142-159 | a file's group is all indexed files with its bytes, least path first |
| PlanProofs.SeeMeans | media/run.py:148-159 | scopes are the labels of the other holders of the bytes; the survivor is the least of all holders |
| PlanProofs.PeersHold | media/run.py:148-159 | peers are the other sources that hold them |
| PlanProofs.UniqueNameIsFree | media/core/names.py:145-170 | a planned name's key is unclaimed and is no staging name |
| Engines.Engine.ListUnder | media/run.py:122-138 | one walk gives the listed files below a root with their present sizes |
| Engines.Engine.Scan | media/run.py:57-106 | the scan lists every source's files with present size and relative path, as specified |
| Engines.Engine.GroupPaths | media/run.py:142-146 | the path index built from the duplicate groups answers, for every indexed file, its whole class |
| Engines.Engine.Overlap | media/run.py:109-159 | the overlap loop yields the specified rows for any truthful cache |
| Engines.Engine.SeeOne | media/run.py:148-159 | one overlap row is the specified group, scopes, peers and survivor |
| Engines.Engine.ClaimedNames | media/run.py:236-250 | the claimed keys are those of every non-staging name in the directory |
| Engines.Engine.CopyName | media/run.py:216-224 | the copy branch takes the specified free name in the file's own folder below the layout root (Listings.TargetKeepsFolder, Listings.TargetName), and claims it |
| Engines.Engine.PlanOne | media/run.py:196-224 | one row of the plan is the specified decision (Listings.PlanSpelledOut), and its bucket is counted |
| Engines.Engine.Plan | media/run.py:187-234 | the loop yields the specified plan, whose actions and targets Listings spells out, and adds every row to its overlap bucket |
| Engines.Engine.StageDeletes | media/run.py:253-288 | the staged list is the specified candidates with their proofs |
| Engines.Engine.CopyOne | media/run.py:340-359 | one copy moves disk and table exactly as specified and tells what it did |
| Engines.Engine.ApplyPlan | media/run.py:325-359 | disk, table and hashed rows after the reached rows are as specified, and the summary counts what was done |
| Engines.Engine.AuthoriseStaged | media/run.py:290-322 | each proven candidate gets its observation and its delete row, in order, and the stage is rewritten only at the end |
| Engines.Engine.Verify | media/run.py:362-380 | true exactly when every planned destination exists with its size and hash; the verify line of the summary counts the good ones, and no other line changes |
| Engines.Engine.Execute | media/run.py:383-431 | the plan and the world left are the specified ones, on any disk; the predicted growth is the bytes to copy, every line of the summary but verification's is what the reached rows did, and verification, when reached, passes on a clear disk exactly when every planned destination is there |
| Engines.Engine.RunMerge | media/run.py:570-633 | a merge call takes the world, on any disk, exactly to `Merge` of it; the four buckets sum to the scanned files and bytes; and on a disk where no source can be a staging file, once every row is reached copied, reflinked, skipped and failed sum to the predicted growth, and the answer is whether every planned destination is on disk |
| Purges.Purger.Remove | media/core/fsx.py:143-173 | a file goes, and its row is marked, exactly when the row is authorised and names its present bytes |
| Purges.Purger.Reverify | media/run.py:510-545 | the allowed paths are those whose claim, the recorded hash or the present one, holds on disk and table now (Removals.PurgeTakesExactly) |
| Purges.Purger.CmdPurge | media/run.py:493-567 | a purge call takes the world exactly to `Purge` of it, which Removals spells out, and counts the files gone |
| Ledger.FindCopy | media/core/ledger.py:198-211 | the destination of the newest done copy or move row with this hash; none exactly when there is no such row |
| Ledger.PendingDelete | media/core/ledger.py:213-222 | the newest pending delete row of this path and run; none exactly when there is none |
| Ledger.AuthorisedDelete | media/core/ledger.py:213-231 | authority means an applying run, a pending row with a hash, and a proof row at another path |
| Ledger.Ledger.StartRun | media/core/ledger.py:87-104 | a run is registered once |
| Ledger.Ledger.Record | media/core/ledger.py:121-131 | the table grows by the row, whose id is its position |
| Ledger.Ledger.VerifyCopy | media/core/ledger.py:186-196 | the table grows by one done copy row |
| Ledger.Ledger.RequestDelete | media/core/ledger.py:162-184 | the table grows by one pending delete row with a hash |
| Ledger.Ledger.MarkDeleteDone | media/core/ledger.py:233-235 | only the named row becomes done |
| Ledger.Ledger.ClaimPending | media/core/ledger.py:139-148 | succeeds exactly on a pending row, which it makes unclaimable |
| Fsx.Disk.Stage | media/core/fsx.py:91-120 | up to the rename nothing but the staging file changes, and success means it holds verified bytes: the source's for a reflink, what reached the disk for a write |
| Fsx.Disk.Replace | media/core/fsx.py:120-131 | the rename and what follows it: state and result after every failure and power cut |
| Fsx.Disk.CopyFile | media/core/fsx.py:91-131 | the call answers `copied` exactly when the source is there and is not the staging name, nothing fails, and reflink or write brings the wanted bytes; then the destination holds them, the staging name is free and nothing else changed; exact state on every clean failure and power cut; over a leftover staging file, that file's content is lost exactly when the copy brings another one and no other file held it |
| Fsx.LandsIff | media/core/fsx.py:105-131 | a copy replaces the destination exactly when the source is there, is not the staging name, nothing fails up to the rename, and what a reflink or a write staged matches; it succeeds exactly when measuring works too |
| Fsx.DiesIff | media/core/fsx.py:91-131 | a power cut stops the call in its phase exactly when the call comes to that phase |
| Fsx.CutLeaves | media/core/fsx.py:91-131 | and then leaves the disk as it was, a torn or whole staging file, or the destination replaced, if the rename outlived it |
| Fsx.LeftoverIsLost | media/core/fsx.py:91-120 | the same equivalence of the file map alone |
| Names.Unique | media/core/names.py:145-170 | the loop returns the first numbered name with an unclaimed key and claims it, or gives up |
| Names.UniqueKeepsExtension | media/core/names.py:145-166 | of `stem.ext` with a stem and no dot in `ext`, every other name it returns is some of the stem, ` (n).` and `ext`, with n at least 2, and all of the stem when that fits the limit |
| Names.UniqueNumbersAtEnd | media/core/names.py:145-166 | of a name without a dot, or with only a leading one, the number comes at the end |
| Names.UniqueOtherwise | media/core/names.py:145-166 | the candidate itself is returned if its key is unclaimed, and giving up means that it and all its numbered names are taken |
| Names.DecimalReads | media/core/names.py:156-166 | the digits written for a number read back as that number |
| Names.FirstFreeIsFree | media/core/names.py:145-170 | the name returned is unclaimed and every earlier attempt was claimed; giving up means all were |
| Names.GivesUpOnlyWhenCrowded | media/core/names.py:145-170 | giving up needs at least 9 998 claimed keys (pigeonhole) |
| Names.AsciiFoldKeepsSuffix | media/core/names.py:135-142 | ASCII case folding keeps different numbers apart, so the hypothesis on keys can be met |
| Names.NumberedFits | media/core/names.py:156-166 | a numbered name fits the limit exactly when its kept stem needs no more units than its room |
| Names.BasicPlaneNumberedFits | media/core/names.py:156-166 | without astral characters it fits exactly when the room is not exhausted |
| Names.EmojiStemOverflows | media/core/names.py:71-73 | a name that fits is numbered past the limit |
| Duplicates.Duplicates.DigestOf | media/core/digest.py:130-139 | the answer is the digest of the present bytes, none for a missing file, and the cache stays truthful |
| Duplicates.Duplicates.BySize | media/core/digest.py:149-152 | the added paths split by size, in order |
| Duplicates.Duplicates.ByDigest | media/core/digest.py:155-165 | a list of paths split by digest, missing files left out |
| Duplicates.Duplicates.GroupsOfHead | media/core/digest.py:159-170 | among paths of one head hash, exactly the classes of two or more |
| Duplicates.Duplicates.GroupsOfSize | media/core/digest.py:153-170 | among paths of one size, exactly the classes of two or more |
| Duplicates.Duplicates.Groups | media/core/digest.py:142-173 | exactly the classes of two or more added paths of one size with equal bytes, each once, largest saving first |
| Duplicates.EscalationIsExact | media/core/digest.py:153-170 | head hash, then full hash, finds the same class as comparing bytes |
| Duplicates.GroupedIffEqual | media/core/digest.py:142-173 | two added files share a group exactly when their bytes are equal |
| Duplicates.CacheDoesNotMatter | media/core/digest.py:130-139 | any two truthful caches, full or empty, give the same groups |
| Duplicates.RewrittenIsRead | media/core/digest.py:106-139 | a file written again with another time or size than any cached is hashed again: a truthful cache stays truthful |
| Report.BucketsPartitionScan | media/core/report.py:50-67 | the four buckets' files and bytes sum to the files and bytes scanned |
| Report.PlanCountsScan | media/run.py:187-234 | a plan has one row for every scanned file, and its bytes are the scanned bytes |
| Report.GrowthIsAccounted | media/run.py:325-359 | rows with new targets and stable sizes are booked exactly once as copied, reflinked, skipped or failed |
| Deeds.DeedsAreFared | media/run.py:338-359 | each line counts exactly the rows that fared so: recorded before; absent afterwards or stopped while measured; there by reflink; there by copy |
| Deeds.MergeDeeds | media/run.py:325-359 | the same of a whole merge, with files and bytes |
| Deeds.BucketRows | media/core/report.py:50-67 | a bucket of the overlap report holds as many rows as the plan has of its action, and their bytes |
| Deeds.CheckedRows | media/run.py:362-380 | the verification passes exactly when every copy of the plan is there, as long as scanned and with the recorded bytes; its line counts the good ones and their bytes |
| Report.VerifiedIffLanded | media/run.py:362-380 | after the copies of a plan, whatever failed, the verification of sizes and hashes passes exactly when every planned destination is on disk |
| Report.Summary.Classify | media/core/report.py:50-67 | exactly one bucket grows, by the precedence destination, library, duplicate, new |
| Report.Summary.Bump | media/core/report.py:97-106 | one action's tally grows and no other |
| Gate.CheckPaths | media/core/gate.py:245-288 | the roots are accepted exactly when they exist, differ from the destination, and nest only under a stated reason |
| Gate.AcceptedIff | media/core/gate.py:245-288 | in terms of files: the roots are directories, the destination is writable and no source, and without a reason no two different roots have a path in common |
| Gate.AcceptedAreApart | media/core/gate.py:262-288 | accepted sources share no file with the destination, and two share files only when equal |
| Gate.AcceptedCopiesOnceIff | media/run.py:196-224 | accepted roots apart from the library: every scanned content is copied once if absent and not at all if present, if and only if no root that is given twice has below it the least path of an absent content |
| Gate.AcceptedCopiesOnce | media/run.py:196-224 | accepted, pairwise distinct roots apart from the library copy every absent content exactly once, by its least path, and no present one |
| Gate.ScannedOnce | media/run.py:57-106 | roots that neither repeat nor nest, walked without repetition, list no path twice |
| Gate.RepeatedSourceIsAccepted | media/core/gate.py:262-288 | giving an accepted root once more is accepted |
| Gate.RepeatedSourceCopiesTwice | media/run.py:57-106 | wherever a root is repeated, a file below it that is to be copied gets two copy rows |
| PassLocks.PassLock.Acquire | media/core/lock.py:68-102 | counts up inside the owning process, takes a free kernel lock, or refuses and changes nothing |
| PassLocks.PassLock.Release | media/core/lock.py:104-119 | counts down, and the kernel lock goes with the last count |
| PassLocks.HoldersShareAProcess | media/core/lock.py:46-56 | in every interleaving, two objects holding one lock file are in one process, which owns it |
| PassLocks.AcquireIff | media/core/lock.py:68-102 | in every reachable state an object that holds nothing gets the lock exactly when no other process has it; refused, it changes nothing |
| PassLocks.TwoProcesses | media/core/lock.py:68-119 | a second process is refused while the first holds the lock, and served once it lets go |
| PassLocks.RunIsSafe | media/core/lock.py:68-119 | in every interleaving counts are backed by the kernel lock and no holder is uncounted |
| PassLocks.DisciplineIsExact | media/core/lock.py:68-119 | if no object is acquired while it holds, every count is the number of holders |
| PassLocks.OwnedWhileHeld | media/core/lock.py:104-119 | then the kernel lock is owned exactly while some object of the process holds |
| PassLocks.ExactIffDisciplined | media/core/lock.py:68-119 | without deaths, counts stay exact if and only if no object was acquired while it held |
| PassLocks.LeakIsForever | media/core/lock.py:68-119 | a leaked count keeps the lock through every later call until the process dies |
| Fetches.Library.Fetch | media/audiolib/runner.py:99-130 | skipped exactly when already there at size; else published by the first verified attempt, stopped or failed, with exactly the sizes on disk that the attempts leave |
| Fetches.Library.Attempt | media/audiolib/runner.py:111-121 | one attempt trims an overlong partial file, resumes or restarts it, and tells whether a transfer landed |
| Fetches.Library.Transfer | media/audiolib/pcloud.py:47-66 | the partial file is resumed, or started over when the resume is refused |
| Workers.WorkerIsFetch | media/audiolib/runner.py:99-130 | whatever the transfers meet, the task steps of one worker end like `fetch` on the same disk: same outcome, same sizes |
| Jobs.DoneIsWholeIff | media/audiolib/runner.py:157-207 | on any disk, for any entries of positive size without a repetition and none at another one's partial file: every run of the job that ends `done` leaves every entry on disk at its size if and only if no destination repeats |
| Jobs.NewLibraryIff | media/audiolib/runner.py:99-207 | in a new library the same holds if and only if no destination repeats or is another one's partial file |
| Jobs.RepeatedNameBreaks | media/audiolib/runner.py:157-207 | a destination at two sizes, in any job on any disk: some run ends `done` with an entry not on disk at its size |
| Jobs.LastNameWins | media/audiolib/runner.py:99-207 | on any disk there is a run that ends `done` with every destination at the size of the last entry that names it |
| Jobs.LastTakesPart | media/audiolib/runner.py:103-129 | from an empty disk there is a run that ends `done` after the rename of a chosen entry has taken its partial file's name away |
| Jobs.KeysMakeDistinctPicks | media/audiolib/catalog.py:194-208 | entries of distinct names and sizes never give a destination twice at one size, and their destinations are distinct exactly when their paths are |
| Jobs.PickWants | media/audiolib/runner.py:101-101 | an entry has no size test exactly when it has no size or size 0 |
| Jobs.CatalogJobIff | media/audiolib/catalog.py:162-229 | for a job over everything the layout keeps, each entry with a size and none at another one's partial file: every run that ends `done` is whole if and only if no two laid-out files clash |
| Jobs.TwoSizesOneName | media/audiolib/runner.py:99-207 | the smallest such job, two entries of one destination: it can end `done` with the destination at the second size |
| Publish.OnlyHolderWrites | media/audiolib/runner.py:46-72 | every step that changes a file belongs to the holder of the writer lock |
| Publish.OneRunner | media/audiolib/runner.py:46-72 | two running jobs are one job |
| Publish.StartsIff | media/audiolib/runner.py:46-72 | a job starts exactly when nobody holds the lock, which it then holds, with every entry pending |
| Publish.KillFrees | media/audiolib/runner.py:46-72 | a killed process frees the lock it held and no other, and leaves the disk as it is |
| Publish.StepKeepsInv | media/audiolib/runner.py:99-207 | every step of every job, kill and partial transfer keeps the invariant |
| Publish.NamesAreWhole | media/audiolib/runner.py:99-130 | in every interleaving a destination name never shows a size other than the expected one |
| Publish.StepPublishesWhole | media/audiolib/runner.py:126-129 | a step that creates or changes a destination leaves it at its expected size |
| Publish.PublishedStays | media/audiolib/runner.py:9-17 | a published file keeps its expected size through every later run |
| Publish.DoneIsDone | media/audiolib/runner.py:157-207 | a job that ended `done` has every selected entry on disk at its expected size, from then on |
| Publish.FinishSays | media/audiolib/runner.py:157-207 | a job ends when every entry has, and what it says of itself is fixed by how they ended |
| Publish.SixAttempts | media/audiolib/runner.py:108-130 | a task whose attempts all fail is on its way after five and given up after six |
| Publish.AttemptPublishes | media/audiolib/runner.py:106-129 | whatever partial file it finds, none, a short one, a whole one or one too long, an attempt in which what is missing arrives publishes the file at its size and leaves no partial file |
| Publish.CancelledIff | media/audiolib/runner.py:183-199 | only an entry not begun is cancelled, and only after a stop, and none begins twice; exceptions end an entry outside the guarded part only |
| Publish.NoSizePublishesAnything | media/audiolib/runner.py:101-129 | with no expected size, whatever a transfer that reported success left is published |
| Publish.WithoutTheLock | media/audiolib/runner.py:46-56 | from a state that the lock rules out: two jobs with one partial file open spoil a published file |
| Publish.CollidingNames | media/audiolib/runner.py:103-129 | from a given state: a destination named like another's partial file is moved away |
| TagRuns.Library.CommitOne | media/music/identify_albums.py:666-718 | the file, the staged copy, the journal and the result after every possible failure point |
| TagRuns.Library.RestoreOne | media/music/identify_albums.py:721-752 | the file and the staged copy after every possible failure point of a restore, and whether it is counted as restored |
| TagRuns.Library.Apply | media/music/identify_albums.py:999-1046 | the loop leaves library and journal as specified and counts the files written, already correct and failed |
| TagRuns.TalliesAddUp | media/music/identify_albums.py:1025-1046 | the three counts are all files; each file counted as written has its journal row, and there are no other rows unless a ledger entry failed |
| TagRuns.Library.Undo | media/music/identify_albums.py:1070-1127 | the loop restores the selected rows last first, without a route the whole journal; restored and failed are all of them, and restored those that came back and synced |
| TagRuns.RestoreInvertsApply | media/music/fix_grouping.py:578-615 | for both passes, restoring what was seen takes back what was written, absent values included |
| TagRuns.UndoRestores | media/music/identify_albums.py:666-752 | after a run and its undo a file is as first read, exactly unless it was swapped and its journal line lost |
| TagRuns.WholeRunUndone | media/music/identify_albums.py:1082-1127 | the whole library comes back if and only if every swapped file was journaled |
| Undos.CommitByFault | media/music/identify_albums.py:666-718 | failure by failure: whether the file is rewritten, a copy left beside it, a journal row written, and how it is counted |
| Undos.UndoByRow | media/music/identify_albums.py:721-752 | with one row per path, exactly the files that come back have the values of their rows, and every other file is as it was |
| Undos.UndoWithoutRoute | media/music/identify_albums.py:1070-1127 | an undo that names no route and meets no failure gives every journaled file that is there, with no leftover copy, the values of its row, and counts them all |
| Undos.RunThenUndo | media/music/identify_albums.py:1070-1127 | a run and an undo without a route give back the library if and only if no file was swapped and its journal line lost |
| Undos.RouteSelects | media/music/identify_albums.py:1070-1079 | with a route exactly the rows of that route are taken, each as often as the journal has it |
| Undos.RestoresCounts | media/music/identify_albums.py:1105-1127 | the restored count is the number of rows whose file is there, has no leftover copy and meets no failure |
| TagRuns.OtherFilesUntouched | media/music/identify_albums.py:666-752 | a file no action names is never touched |
| TagRuns.NarrowUndoIsNarrow | media/music/identify_albums.py:1070-1079 | undoing one route leaves files of other routes, and unstamped ones, alone |
| TagRuns.RoutesTogetherAreTheWhole | media/music/identify_albums.py:1070-1127 | undoing every route, one after another in any order, equals undoing the run |
| TagRuns.FirstRowWins | media/music/fix_grouping.py:841-850 | even where a journal names a path twice, undoing backwards ends with its first values |
| AlbumFills.Winner | media/music/identify_albums.py:463-469 | a spelling is chosen exactly when all candidates share one identity |
| AlbumFills.MostCommonLeads | media/music/identify_albums.py:463-469 | the chosen spelling is the most common one, and of several the one that comes first |
| AlbumFills.BuildTwins | media/music/identify_albums.py:440-460 | the index lists, for every title, the tagged files that carry it |
| AlbumFills.BuildAlbumSizes | media/music/identify_albums.py:506-513 | each count is the number of files tagged onto that identity |
| AlbumFills.Decide | media/music/identify_albums.py:755-849 | one decision per candidate, in order, resting on all offline answers or else on MusicBrainz, asked exactly while the budget lasts |
| Fills.WantingAreDecided | media/music/identify_albums.py:772-796 | exactly the readable files without a real album, below a trusted artist's directory, with a title and a length, get a decision |
| Fills.TwinIff | media/music/identify_albums.py:472-494 | the twin route answers exactly when some file with the same title key, a real album, a length within the tolerance, bounds included, and an agreeing artist exists and all such carry one identity; the answer is the first of their most common spellings |
| Fills.VerdictByRoute | media/music/identify_albums.py:798-846 | the verdict as a table of the routes' answers: twins, else folder, unless both came and differ; else MusicBrainz within the budget |
| Fills.SpentCounts | media/music/identify_albums.py:808-822 | the requests sent are as many as there are files that cost one, up to the budget; without a budget, all |
| AlbumFills.TwinsAreWitnesses | media/music/identify_albums.py:472-494 | every twin spelling is that of a tagged file with the same title key, a close length and an agreeing artist |
| AlbumFills.FolderNeedsTwo | media/music/identify_albums.py:537-550 | a folder answer has two different tagged siblings of its album identity |
| AlbumFills.EvidenceIsOneIdentity | media/music/identify_albums.py:800-830 | everything any answering route saw names the album that is filled in |
| AlbumFills.FolderNeverOutgrows | media/music/identify_albums.py:519-556 | the folder route adds no more files from one folder to an album than the library tags on it |
| AlbumGrowth.FolderAnswerIff | media/music/identify_albums.py:519-556 | an untagged file is answered for an identity exactly when its folder has two tagged files or more, all of that identity, and no more untagged ones than the library tags on it: all untagged files of a folder are answered alike |
| AlbumGrowth.GrowthIsExpected | media/music/identify_albums.py:755-849 | what one run of the folder route adds to an identity over all folders is exactly the candidates without a twin answer in the folders that answer for it |
| AlbumGrowth.AlbumGrowsAtMost | media/music/identify_albums.py:519-556 | that is at most the album's size for each answering folder, and the size is at least twice the number of those |
| AlbumGrowth.OutgrowsIff | media/music/identify_albums.py:519-556 | the album grows by no more than itself exactly when those candidates are no more than its files, as they are with one answering folder |
| AlbumGrowth.AlbumOutgrowsItself | media/music/identify_albums.py:519-556 | two folders with two tagged and four untagged files each: an album of four grows by eight |
| AlbumFills.FillsAreUntagged | media/music/identify_albums.py:774-780 | folder fills are on files without an album or with a placeholder |
| AlbumFills.OfflineFillsAreNames | media/music/identify_albums.py:440-556 | twin and folder answers are never placeholders |
| Sampling.Stratify | media/music/identify_albums.py:852-870 | min(count, total) items, none more often than planned, a prefix of every bucket, fair between buckets, bigger ones first |
| Sampling.Round | media/music/identify_albums.py:864-869 | one round takes one item from every bucket that has one while there is room, so the loop ends |
| Sampling.EveryBucketIsTouched | media/music/fix_grouping.py:563-575 | a sample with room for every bucket has picked from every bucket |
| Selection.CrashWhileSaving | shared/modelctl.py:125-141 | a crash while saving gives the old pair, the new pair or an error exactly when the record was there or the half-written pair is one of them |
| Selection.ChosenIff | shared/modelctl.py:125-134 | a pair is chosen exactly when record and plain file agree on it, or the record is missing and the preset is the default |
| Selection.MissingRecordMixes | shared/modelctl.py:125-141 | without the record a crash selects a pair nobody chose |
| Selection.NoThirdPair | shared/modelctl.py:125-141 | old and new writes in any mixture never read as a third pair |
| Selection.Controller.SaveSelection | shared/modelctl.py:137-141 | the files after both writes, and the only states in between |
| Selection.Controller.Switch | shared/modelctl.py:385-418 | switched, or rolled back to the previous config, selection and service, or not tried and unchanged, in which case admission is left drained exactly when the idle check or the drain's answer failed; at no crash point a third pair |
| Catalogs.Dedupe | media/audiolib/catalog.py:198-208 | the first entry of each name and size is kept, in order; every entry is kept or dropped once |
| Catalogs.DropExtensionless | media/audiolib/catalog.py:211-229 | exactly the entries without an extension beside the same name with one are dropped |
| Catalogs.Layout | media/audiolib/catalog.py:162-229 | what is kept is exactly the two passes' result over the laid-out files in path order; every file is kept or dropped once, kept keys are distinct, no stray copy is left, and every drop has a kept stand-in or is junk |
| Layouts.LaidIff | media/audiolib/catalog.py:162-189 | laid out are exactly the files of every collection, below its root's place, and of those item links that no collection has, below theirs |
| Layouts.KeptStands | media/audiolib/catalog.py:162-229 | nothing made up and no junk is kept, and every properly named file has a kept one of its name and size, or one with an extension beside a stray copy of it |
| Catalogs.OwnKeyIsKept | media/audiolib/catalog.py:194-229 | a file with an extension and its own name and size is kept, so two sizes of one path both are |
| Catalogs.PathsDistinctIff | media/audiolib/catalog.py:194-229 | the kept paths are pairwise distinct exactly when no two files share folder and name with different sizes, both first of their key and no stray copies |
| Catalogs.TwoSizesAreKept | media/audiolib/catalog.py:198-208 | two sizes of one path, both laid out, are both kept |
| Coverage.LisRun | media/music/mini_cov.py:86-94 | the length of a longest strictly rising selection: one has it and none is longer |
| Coverage.LongestIsAll | media/music/mini_cov.py:131-136 | that length is at most the number of places, and equal exactly when they strictly rise |
| Coverage.MatchedIff | media/music/mini_cov.py:131-131 | a window is matched exactly when some place reaches the threshold |
| Coverage.WindowStarts | media/music/mini_cov.py:66-78 | a window at every step that fits whole, no sample between them missed, and less than a step left over |
| Coverage.Ordered | media/music/mini_cov.py:115-136 | the longest rising run over the undamaged windows, a share between 0 and 1; it is 1 exactly when every undamaged window is matched and they come in order |
| Budgets.MaxSlots | arcB70/budget.py:43-49 | the greatest slot count that fits, every smaller one fitting and no larger; none exactly when one does not fit |
| Budgets.FitsInBytes | arcB70/budget.py:20-40 | the test in bytes: what the weights and the reserve leave, and what a slot takes for each token |
| Budgets.SlotsAtNativeContext | arcB70/budget.py:43-49 | at 128 Ki tokens a slot five slots fit for Qwen, as its saved profile has, and twenty-four for Muse |
| Budgets.FreeCacheNeverFills | arcB70/budget.py:20-49 | every slot count fits exactly for Qwen at context 0, where the search has no end |
| Budgets.NoSlotsNeverFill | arcB70/budget.py:52-56 | every context fits exactly with 0 slots, where the search has no end |
| Budgets.MaxContext | arcB70/budget.py:52-56 | on every call whose search ends, the greatest fitting multiple of the step when one step fits, otherwise one step |

## Left out

- Symlinks, clutter and foreign-file filters of the scan: the listings are inputs.
- Power cuts inside a whole merge: only `copy_file` has them; a merge may stop at any row, or between the two rows of a candidate, by an exception.
- The timestamp of a ledger row: the newest row is the last one inserted.
- Directories that differ only in case on a folding volume: names are compared per directory, directories exactly.
- Unicode normalisation, case folding and exFAT sanitising: an abstract key that keeps number suffixes apart.
- The mtime granularity of the digest cache, which the code itself documents.
- The typed confirmations of a purge: one Boolean before the removals.
- The `collisions` list and duplicate totals of the summary, report text and status printing.
- Histories.NoContentIsLost: is for roots kept apart and a disk without leftover staging files; with a library among the sources or with a leftover the promise is false, and Leftovers.GentleIffNothingLost states exactly when it holds.
- Leftovers.GentleIffNothingLost: asks that no source can be a staging file of the run itself, which a source nested in the destination under a leftover could be.
- Histories.AuthorityMeansKept: is for roots kept apart; with a library among the sources the recorded copy may itself be staged, as in Traps.TrapLosesTheLastCopy.
- Losses.GuardIsEnough: asks for true hashes in the staged list, which a hand edit can break; Losses.PurgeLosesNothingIff does not.
- `status` of the pass locks, whose probe takes the lock for a moment.
- Failures of file operations inside `acquire` other than the lock being taken.
- Publish.DoneIsDone: is about sizes, as the code is; contents of equal size are not compared.
- The number of workers and the progress file of the publish job: any number of tasks may interleave.
- Catalog paths that resolve to one destination through empty or dot components: destinations are taken as given, distinct or not.
- Jobs.DoneIsWholeIff: is for entries with a size; without one there is no size to be at (Publish.NoSizePublishesAnything). Its runs start no other job.
- Tag containers: reading and writing one tag is exact unless a step fails; an empty value reads as absent.
- AlbumFills.Decide: MusicBrainz answers are inputs, and a MusicBrainz fill may name a placeholder, because that route does not filter.
- The rule-based decisions of the grouping pass; its commit, restore, undo and sampling are modelled.
- Envelopes, smoothing and correlation of recordings: the similarity of windows is an input.
- Floating point: budgets are exact in 32nds of a byte, shares and durations are reals.
- Admission that is not enabled: drain and resume then do nothing.
- Catalog scraping and serialisation, serving, probing, installers and everything else of the repository.
