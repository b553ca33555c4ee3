# BLT, verified in Dafny

BLT distributes games over a LAN. This project models the parts of it that carry state and proves
what they promise:

- **Downloads.** A manifest lists files and their chunks; a bitmap says which chunks are on disk. A
  job repeatedly takes the first missing chunks, splits them over the server and untrusted peers,
  fetches a group while the previous group is being written, checks every chunk against its digest
  before a byte reaches the disk, and finally validates the layout. The job is a class whose methods
  follow the loop; fetch results, write faults, pause and cancel, writes left over from earlier runs
  and the pace of background writes are arbitrary functions of a clock, so the theorems hold for
  every schedule. The disk (`map<Path, seq<Byte>>`) and the saved rows are one object that records the
  state after each primitive step: a process stop is a stop at one of those instants.
- **The jukebox.** Fair-rotation and vote order, and the queue state machine over its tables, with
  every SQL statement an atomic step after which the process may stop.
- **Publication.** Change detection in a scan, replacing the stored manifest with stable file ids, and
  loading it back.
- **Paths, collisions, bitmap, scheduler, handle pool and rate cap**, which the above rest on.

The digest is one fixed but unknown function. What it has to tell apart is a hypothesis, and only where
it is needed:

- `Transfer.SizesBind`, content that meets a chunk digest has the chunk's length: for everything about
  writing, since a longer content that met a digest would spill into the next chunk.
- `Transfer.Binding`, no other content meets a chunk digest: for runs in which a failing write may leave
  a prefix of its data behind, and wherever files are said to equal the source. `WritesSafe` in
  `DownloadJob` puts these two together.
- `Layout.FileBinding`, the same of whole files: wherever deep validation is said to mean equality.

## Main results

1. *Soundness at every instant* (`DownloadRuns.RunFor`, `DownloadRuns.AttemptsKeepHeld`,
   `DownloadRuns.Restart`): from a sound start, no saved or in-memory bit ever names a chunk that is not
   on disk with the right digest, whatever peers send, whichever writes fail, and wherever the process
   stops, while a write task that an interrupt has detached goes on writing; starting again from there
   is sound.
2. *Termination and completion* (`DownloadRuns.RunToEnd`, `DownloadRuns.Download`): with a correct
   server and a disk that takes writes the job ends; it completes exactly if no manifest entry of size
   zero is occupied by a non-empty file, after at most one failed validation, and from a sound start
   every file equals the source, only missing chunks were requested, and exactly their bytes were
   received.
3. *Repair* (`Repair.RepairAndResume`): a repair claims exactly the chunks on disk, only bad chunks are
   requested, and unless interrupted, deep validation passes afterwards exactly if no empty entry is
   occupied and either a chunk was bad or every file already had its length.
4. *Scheduler*: balance (`Scheduler.PeersStayBehindServer`, `Scheduler.SourcesBalanced`), and no usable
   peer starves, measured or not (`Scheduler.EveryPeerServes`, and for a whole pass
   `DownloadJob.Job.FetchBatch`).
5. *Jukebox order* (`FairRotation.FairRotation`, `UpNext.TurnsStayClose`, `UpNext.NoHogging`) and *runs*
   (`JukeboxRuns.Run`, `JukeboxRuns.StopAndRestore`): the history of statements, across commands, stops
   and restarts, in which played rows never return (`JukeboxRuns.PlayedForGood`), queued rows leave only
   by promotion or deletion (`JukeboxRuns.LeavesQueue`), and whatever plays was the head of the order
   when it was promoted (`JukeboxRuns.PlayedWasNext`).
6. *Publication* (`LibraryScan.ScanTitle`, `LibraryScan.ScanTwice`, `ManifestStore.LoadAfterReplace`,
   `LoadOrder.LoadedInOrder`, `LibraryScan.PublishedIsUsable`).

## Where the code and its description differ

- Finalising never cuts an existing file to zero bytes, so an empty entry whose location holds a
  non-empty file fails validation for good; this is the exact condition in results 2 and 3.
- A repair finalises the layout only by resuming, and resumes only if a chunk was bad. A file with the
  right chunks and trailing bytes is therefore reported free of bad chunks, is left as it is, and fails
  deep validation however often it is repaired (`Repair.TrailingByteIsNotRepaired`; exact condition in
  `Repair.RepairAndResume`). On the finalised layout an empty plan does mean deep validity
  (`Repair.NothingBadMeansDeepValid`).
- The fair rotation is recomputed from the items still queued on every advance, and its head is always
  the strongest item of all. So with an untouched queue both modes *play* the same sequence, the
  votes order (`JukeboxRuns.PlayOut`); the rotation that is shown is not played, and one contributor can
  play twice in a row while somebody else waits (`JukeboxRuns.ShownIsNotPlayed`, and exactly when:
  `JukeboxRuns.NextTurnIsStrongest`).
- Replacing a manifest skips rows whose size, time and digest match. Their stored chunks are then the
  old ones. While a title stays published that is harmless (`LibraryScan.RepublishNeverStale`); a removed
  title that comes back after the chunk size was changed keeps the old chunk layout
  (`LibraryScan.StaleRescan`; exact condition in `ManifestStore.LoadAfterReplace`).
- The comment at `crates/server/src/library.rs:207` says that sorting the listing gives a stable manifest
  order. What is stable is the order of the surviving files; new files come after them in listing order,
  because a manifest is loaded by file id (`LoadOrder.LoadedInOrder`). So a manifest whose listings are
  all sorted stays sorted exactly if every new path sorts after every surviving one
  (`LoadOrder.SortedIff`; `LoadOrder.OrderExample` is a case where it does not).
- Clearing bits after a failed validation does not reduce the progress byte counter. It is "start plus
  server plus peers" always, and "bytes of the set bits" exactly as long as no non-empty file has failed
  a validation (`DownloadJob.Job.CounterIsHeldBytes`; `DownloadRuns.OvercountAfterFailure` is a state in
  which it is too high).
- Hashing with a configured chunk size of 0 trips the assertion in the entry builder for every
  non-empty file (`FileScan.HashOneFile` states exactly when it fires).
- Publishing does not look at names: a folder whose names do not join safely, or join to one location,
  gives a manifest that no client can download (`LibraryScan.PublishedIsUsable`, exactly when).
- A removed title that comes back starts again at version 1.

## Model

| member | source | states |
|---|---|---|
| `ChunkBitmap.Bitmap.constructor` | crates/core/src/bitmap.rs:21-27 | a new bitmap of any length is valid and empty |
| `ChunkBitmap.Bitmap.FromBytes` | crates/core/src/bitmap.rs:31-37 | any bytes give a valid bitmap holding exactly their bits below the length; bytes taken from a bitmap of that length come back unchanged |
| `ChunkBitmap.Bitmap.Has` | crates/core/src/bitmap.rs:54-61 | the shifted byte test is membership in the set of present chunks, also out of range |
| `ChunkBitmap.Bitmap.Set` | crates/core/src/bitmap.rs:64-71 | inserts the index, or nothing if it is out of range; validity (zero padding) is kept |
| `ChunkBitmap.Bitmap.Clear` | crates/core/src/bitmap.rs:74-81 | removes the index; validity is kept |
| `ChunkBitmap.Bitmap.ClearPadding` | crates/core/src/bitmap.rs:106-115 | keeps exactly the bits below the length |
| `ChunkBitmap.Bitmap.CountSet` | crates/core/src/bitmap.rs:84-86 | the byte-wise population count is the size of the set of present chunks |
| `ChunkBitmap.Bitmap.IsComplete` | crates/core/src/bitmap.rs:89-91 | true exactly if every index below the length is present |
| `ChunkBitmap.Bitmap.Missing` | crates/core/src/bitmap.rs:94-96 | the complement below the length, in increasing order |
| `ChunkBitmap.CompleteIffNothingMissing` | crates/core/src/bitmap.rs:89-96 | the count test and an empty missing list are the same condition |
| `ChunkBitmap.SetDeterminesBuffer` | crates/core/src/bitmap.rs:31-42 | two valid buffers that denote the same set are the same bytes (so save and reload is the identity) |
| `ChunkBitmap.LastByteMasked` | crates/core/src/bitmap.rs:106-115 | masking the last byte drops exactly the padding bits |
| `Manifests.PlanChunks` | crates/core/src/chunking.rs:32-52 | the planned chunks tile the file from offset 0 to its end, numbered, all but the last of full size, as many as the division rounded up |
| `Manifests.PlannedOffset` | crates/core/src/chunking.rs:32-52 | the k-th planned chunk starts at k chunk sizes |
| `Manifests.FullTilesArePlan` | crates/core/src/chunking.rs:32-66 | tiles that reach the end are exactly as many as the rounded-up count |
| `Manifests.ValidateStructure` | crates/core/src/manifest.rs:165-205 | reports a problem that is there and before which nothing is wrong, in file and chunk order, with the values found and expected; reports none exactly for a consistent manifest |
| `Manifests.ChunkLocators` | crates/core/src/manifest.rs:131-150 | the flattened chunk list, files in order and chunks in order |
| `Manifests.LocatorIndex` | crates/core/src/manifest.rs:131-150 | the locator at position i carries global index i |
| `Manifests.LocatorAt` | crates/core/src/manifest.rs:131-150 | chunk j of file k sits at the number of chunks before it |
| `Manifests.LocatorOrigin` | crates/core/src/manifest.rs:131-150 | every locator comes from one chunk of one file |
| `Manifests.LocatorsDisjoint` | crates/core/src/manifest.rs:131-150 | two different locators never cover a common byte of one file |
| `Manifests.SpansDetermineContent` | crates/core/src/manifest.rs:165-205 | contents that agree on every chunk span of a consistent entry are equal |
| `FileScan.BuildFileEntry` | crates/core/src/manifest.rs:210-251 | the assertion fires exactly when hash and plan counts differ; otherwise the entry is consistent and chunk k carries plan k and hash k |
| `FileScan.FillBuffer` | crates/server/src/library.rs:336-345 | for every pattern of short reads the buffer is filled up to its size or the end of the file |
| `FileScan.HashChunks` | crates/server/src/library.rs:323-353 | one hash per planned chunk, each the hash of that planned span, and the whole-file hash, for every pattern of reads |
| `FileScan.HashOneFile` | crates/server/src/library.rs:323-363 | succeeds exactly if the planned and hashed counts agree; for an unchanged file the entry describes the content |
| `Paths.JoinUnderRoot` | crates/core/src/transfer.rs:41-56 | the loop computes the specification of the safe join |
| `Paths.SafeJoinStaysBelow` | crates/core/src/transfer.rs:41-56 | an accepted path is a non-empty list of plain components, so it is strictly below the root |
| `Paths.SafeJoinIff` | crates/core/src/transfer.rs:41-56 | refused exactly if a piece is "..", or has a backslash or colon, or no piece has a name; otherwise the pieces other than "" and "." in order |
| `Paths.SafeJoinPlain` | crates/core/src/transfer.rs:41-56 | every non-empty list of plain components is accepted as itself |
| `Paths.SafeJoinNormalises` | crates/core/src/transfer.rs:41-56 | joining the kept components again gives the same location |
| `PathSafety.SanitizeComponent` | crates/core/src/pathsafe.rs:52-89 | the reassignments compute the specified component |
| `PathSafety.SanitizeRelPath` | crates/core/src/pathsafe.rs:106-137 | computes the specified result; rejects exactly a drive letter in front, otherwise a ".." piece anywhere, otherwise a path without names, otherwise one that is too long |
| `PathSafety.PartsAre` | crates/core/src/pathsafe.rs:107-109 | the pieces have no separator in them and give the path back, for both separators |
| `PathSafety.RejectedPaths` | crates/core/src/pathsafe.rs:106-137 | which raw paths are rejected, and with which error first |
| `PathSafety.AcceptedComponents` | crates/core/src/pathsafe.rs:106-137 | an accepted path has one component for each piece with a name, in order; portable pieces are unchanged |
| `PathSafety.ComponentIs` | crates/core/src/pathsafe.rs:52-86 | a piece loses the dots and spaces at its end, gets an underscore for each forbidden character, and one in front if it names a device |
| `PathSafety.PortableMeans` | crates/core/src/pathsafe.rs:20-86 | portable spelled out: nine printable and the control characters forbidden, no dot or space at the end, no device name up to the first dot in any case |
| `PathSafety.CapKeepsExtension` | crates/core/src/pathsafe.rs:84-102 | a capped component keeps its extension and the beginning of its stem |
| `PathSafety.ByteLenCounts` | crates/core/src/pathsafe.rs:84-134 | the length that is capped is the UTF-8 length: one byte a character and one more from each of three code points on |
| `PathSafety.SanitizedIsPortable` | crates/core/src/pathsafe.rs:52-102 | a component that was not truncated is non-empty, not a dot name, has no illegal or control character, no trailing dot or space and no reserved stem |
| `PathSafety.TruncationStaysLong` | crates/core/src/pathsafe.rs:84-102 | a truncated component is always longer than an accepted path may be |
| `PathSafety.AcceptedPathIsPortable` | crates/core/src/pathsafe.rs:106-137 | every component of an accepted path is portable, and the safe join accepts the path as exactly those components |
| `PathSafety.AcceptedPathIsStable` | crates/core/src/pathsafe.rs:106-137 | an accepted path is a fixed point of sanitising |
| `Collisions.WriteSet.Resolve` | crates/core/src/pathsafe.rs:146-173 | returns a name free under lower-casing, the candidate itself or the least free numbered variant, found within one try more than there are names |
| `Collisions.WriteSet.ResolveAll` | crates/core/src/pathsafe.rs:146-173 | over any sequence of calls a returned name differs under lower-casing from all taken before it exactly unless its candidate and all its numbers are taken; below that all are pairwise distinct |
| `Collisions.NumberedInjective` | crates/core/src/pathsafe.rs:151-170 | different numbers give different lower-cased names |
| `Collisions.CollidesIff` | crates/core/src/pathsafe.rs:146-148 | two ASCII names collide exactly if they differ in nothing but the case of letters |
| `Collisions.NumberBeforeExtension` | crates/core/src/pathsafe.rs:151-166 | the number goes before the last dot of the last component |
| `Collisions.NumberAtEnd` | crates/core/src/pathsafe.rs:151-166 | without an extension, or with only a leading dot, the number goes to the end |
| `Collisions.NumberedPathJoins` | crates/core/src/pathsafe.rs:146-173 | a numbered variant of an accepted path is still accepted by the safe join, below the root |
| `Storage.SpliceReadsBack` | crates/core/src/transfer.rs:61-79 | the bytes just written read back, also past the end of the file |
| `Storage.SpliceKeeps` | crates/core/src/transfer.rs:61-79 | bytes outside the written range are unchanged and still there |
| `Storage.SpliceAt` | crates/core/src/transfer.rs:61-79 | every byte after a write: the new ones in their range, the old ones elsewhere, zeros in a gap past the old end |
| `Transfer.VerifyAndWrite` | crates/core/src/transfer.rs:84-97 | writes exactly if the digest matches and the path is safe; every error case, and what each leaves on disk |
| `Transfer.WriteKeepsHeld` | crates/core/src/transfer.rs:84-97 | a verified write, even one that fails partway, damages no chunk that is on disk |
| `Transfer.AttemptImproves` | crates/core/src/transfer.rs:128-144 | one write attempt loses no chunk, shortens no file and touches no empty entry |
| `Transfer.WrittenIsHeld` | crates/core/src/transfer.rs:84-97 | after a reported success the chunk is on disk |
| `PooledWrites.PooledWriter.Lookup` | crates/core/src/transfer.rs:148-168 | the pool stays equal to the most recently used keys; refused opens leave it unchanged |
| `PooledWrites.PooledWriter.VerifyAndWrite` | crates/core/src/transfer.rs:128-144 | same result and same disk as the stateless guard; a rejected chunk changes neither disk nor pool |
| `PooledWrites.PooledWriter.PoolBounded` | crates/core/src/transfer.rs:148-168 | keys are distinct and never more than the limit |
| `PooledWrites.RecencyOrder` | crates/core/src/transfer.rs:148-168 | the recency list is ordered by last use, so the evicted head is the least recently used |
| `PooledWrites.PromoteHit` | crates/core/src/transfer.rs:149-151 | moving a hit to the back keeps the pool the most recent keys |
| `PooledWrites.PromoteMiss` | crates/core/src/transfer.rs:152-166 | opening and evicting keeps the pool the most recent keys |
| `Layout.FinalizeLayout` | crates/core/src/transfer.rs:185-208 | computes the finalised layout or stops at the first unsafe path or refused file; no held chunk of a usable manifest is ever lost on the way |
| `Layout.FinalizedLookup` | crates/core/src/transfer.rs:185-208 | finalising acts on each manifest file by itself and on nothing else |
| `Layout.QuickAfterFinalize` | crates/core/src/transfer.rs:185-272 | after finalising a file passes quick validation exactly if it was long enough, or is an unoccupied empty entry |
| `Layout.ReportsTrue` | crates/core/src/transfer.rs:248-294 | what either report says of an entry: missing exactly if nothing is at its location, otherwise the length or the digest decides |
| `Layout.HashFile` | crates/core/src/transfer.rs:340-352 | for every pattern of reads the result is the digest of the whole content |
| `Layout.RepairPlan` | crates/core/src/transfer.rs:301-338 | exactly the chunks that are missing, short or wrong, in increasing order |
| `Layout.RepairedIffEqual` | crates/core/src/transfer.rs:252-338 | right lengths and an empty plan are equivalent to equality with the source |
| `Layout.DeepIffEqual` | crates/core/src/transfer.rs:275-296 | deep validation passes on all files exactly if the disk equals the source |
| `Layout.DeepAfterFinalize` | crates/core/src/transfer.rs:185-338 | after finalising, deep validation passes exactly if every chunk is held and no empty entry is occupied |
| `Scheduler.Assign` | crates/core/src/p2p.rs:204-249 | the loop over clocks computes the specified assignment of every missing chunk in order; with more chunks than peers every serviceable peer that holds them all gets one |
| `Scheduler.AssignKeepsOrder` | crates/core/src/p2p.rs:204-249 | the output lists the missing chunks once each, in order |
| `Scheduler.AssignUsesHolders` | crates/core/src/p2p.rs:204-249 | a chunk goes to the server or to an eligible peer that has it |
| `Scheduler.EligibleIff` | crates/core/src/p2p.rs:207-215 | a candidate is exactly what a reachable peer that is not server-only stands for: measured at the floor or above with its rate, or unmeasured with the larger of bootstrap weight and one |
| `Scheduler.EligibleDistinct` | crates/core/src/p2p.rs:207-215 | peers with different ids stay apart, and no more candidates than peers |
| `Scheduler.FirstGoesToServer` | crates/core/src/p2p.rs:223-247 | the first chunk of every batch goes to the server, whatever peers claim |
| `Scheduler.ClocksCountAlways` | crates/core/src/p2p.rs:217-247 | each clock is the number of chunks given times the inverse weight |
| `Scheduler.PeersStayBehindServer` | crates/core/src/p2p.rs:204-249 | at every prefix and for any have-sets, a peer with n > 0 chunks satisfies (n - 1) * server weight < server chunks * peer weight |
| `Scheduler.SourcesBalanced` | crates/core/src/p2p.rs:204-249 | nobody is more than one chunk, weight for weight, and the slack ahead of a source that could take any of the chunks; so two such sources are balanced to that |
| `Scheduler.EveryPeerServes` | crates/core/src/p2p.rs:150-249 | no serviceable peer starves: with more chunks than peers, each that holds all of them, measured or not, is given one |
| `RateCap.TokenBucket.Refill` | crates/core/src/p2p.rs:62-66 | tokens grow by exactly rate times time, up to the burst; no or negative time adds nothing |
| `RateCap.TokenBucket.TryTake` | crates/core/src/p2p.rs:69-76 | takes exactly if enough tokens are there; tokens stay within bounds unless the amount is negative |
| `RateCap.TokenBucket.TimeUntil` | crates/core/src/p2p.rs:82-90 | the exact least wait, in which the rate earns what is missing; infinite exactly if the amount can never be reached |
| `RateCap.WaitIsExact` | crates/core/src/p2p.rs:62-90 | a refill reaches the amount exactly if it lasts at least the wait |
| `RateCap.RunConserves` | crates/core/src/p2p.rs:38-95 | in every run, bytes taken plus tokens left never exceed tokens at the start plus what was earned |
| `RateCap.RunLosesNothing` | crates/core/src/p2p.rs:38-95 | in a run whose refills are never cut off, taken plus left equals start plus earned |
| `RateCap.WindowCapped` | crates/core/src/p2p.rs:38-95 | in every window of every run at most burst plus rate times time is taken |
| `RateCap.TokenBucket.WaitAndTake` | apps/desktop/src-tauri/src/chunk_server.rs:124-144 | the seeder's wait loop with capped sleeps ends; it serves exactly if the amount is reachable |
| `DownloadJob.LoadBitmap` | apps/desktop/src-tauri/src/downloads.rs:381-387 | resumes the saved bitmap exactly if its length fits and the destination exists |
| `DownloadJob.Job.constructor` | apps/desktop/src-tauri/src/downloads.rs:374-439 | the started job is valid; a start from a sound instant is a sound start |
| `DownloadJob.Job.Persist` | apps/desktop/src-tauri/src/downloads.rs:783-801 | the saved row claims exactly the chunks of the bitmap |
| `DownloadJob.SourcesIff` | apps/desktop/src-tauri/src/downloads.rs:506-511 | exactly the peers with fewer than three failures are passed on, each with its id, rate and flags and the whole batch as its have-set |
| `DownloadJob.OnlyUsableSources` | apps/desktop/src-tauri/src/downloads.rs:506-512 | a pass asks only the server and usable peers that have not reached the failure limit |
| `DownloadJob.EveryUsablePeerIsAsked` | apps/desktop/src-tauri/src/downloads.rs:506-512 | if the batch has more chunks than there are peers, a pass asks every usable peer |
| `DownloadJob.GoodFetchesOk` | apps/desktop/src-tauri/src/downloads.rs:560-575 | delivered chunks keep the order of the group and come from it |
| `DownloadJob.GoodFetchesIff` | apps/desktop/src-tauri/src/downloads.rs:560-575 | exactly the answered requests are delivered, each with the bytes its source sent |
| `DownloadJob.FetchFailuresCounted` | apps/desktop/src-tauri/src/downloads.rs:562-574 | a group adds to each source the number of its unanswered requests |
| `DownloadJob.ResultFailuresCounted` | apps/desktop/src-tauri/src/downloads.rs:750-781 | an accepted write clears the count of its source, and each later rejection counts one |
| `DownloadJob.Job.Await` | apps/desktop/src-tauri/src/downloads.rs:330-347 | a wait may be dropped only after pause or cancel; meanwhile only verified writes reach the disk, and every instant keeps what was held |
| `DownloadJob.Job.CollectFetches` | apps/desktop/src-tauri/src/downloads.rs:560-575 | each failed fetch counts against its source, delivered chunks become write jobs in order |
| `DownloadJob.Job.WriteNext` | apps/desktop/src-tauri/src/downloads.rs:726-745 | each job of a write task is verified and written, and its result is true of the disk |
| `DownloadJob.Job.Linger` | apps/desktop/src-tauri/src/downloads.rs:583-621 | what a detached write task still writes keeps every held chunk at every instant |
| `DownloadJob.Job.AccountWrite` | apps/desktop/src-tauri/src/downloads.rs:750-781 | exact effect on bitmap, chunk count, byte counters and failure counts |
| `DownloadJob.Job.AccountAll` | apps/desktop/src-tauri/src/downloads.rs:587-599 | every result is accounted once; the chunk counter stays the bitmap's population, bytes stay start plus server plus peers |
| `DownloadJob.Job.TakeResults` | apps/desktop/src-tauri/src/downloads.rs:583-600 | the writer comes home and exactly held chunks are added, while no write fails every one whose bytes verify |
| `DownloadJob.Job.SpawnWrite` | apps/desktop/src-tauri/src/downloads.rs:603-606 | the writer is present whenever it is taken, so the `expect` never fires |
| `DownloadJob.Job.OneGroup` | apps/desktop/src-tauri/src/downloads.rs:531-607 | at each group boundary exactly one of writer and pending task is there; new bits are true; exactly the chunks of the group are requested, those delivered are in flight, and what was in flight gets its bits |
| `DownloadJob.Job.FetchBatch` | apps/desktop/src-tauri/src/downloads.rs:506-683 | bits are only added, each true; only usable peers are asked and, if the batch is larger than the number of peers, each of them; an uninterrupted pass asks for every chunk of the batch and, while no write fails, gets every one whose source answers correctly; an interrupted pass has saved its bitmap |
| `DownloadJob.Job.Settle` | apps/desktop/src-tauri/src/downloads.rs:662-683 | saves when the counter reaches its limit or nothing was accepted |
| `DownloadJob.Job.Retract` | apps/desktop/src-tauri/src/downloads.rs:474-481 | clears exactly the chunks of the files that failed |
| `DownloadJob.Job.FinishOrRetry` | apps/desktop/src-tauri/src/downloads.rs:461-501 | completes exactly on a passed validation; otherwise retracts and retries until the third failure |
| `DownloadJob.Job.RecordFailure` | apps/desktop/src-tauri/src/downloads.rs:142-158 | rewriting the saved row with an error claims no new chunk |
| `DownloadJob.Job.Iterate` | apps/desktop/src-tauri/src/downloads.rs:441-684 | one turn in any world: when it stops, completes or gives up, that a turn with a correct server and no write fault makes progress, and that no chunk there from a sound start is requested |
| `DownloadJob.Job.CounterIsHeldBytes` | apps/desktop/src-tauri/src/downloads.rs:474-501 | the byte counter is the bytes of the set bits exactly as long as no non-empty file has failed a validation, and never less |
| `DownloadJob.Job.ReceivedIsGained` | apps/desktop/src-tauri/src/downloads.rs:750-781 | from a sound start the bytes received are those of the chunks gained |
| `JobFacts.SoundnessSurvives` | apps/desktop/src-tauri/src/downloads.rs:514-631 | saved bits stay true at every instant while verified writes go on |
| `JobFacts.ClearingSettles` | apps/desktop/src-tauri/src/downloads.rs:474-501 | after clearing the failed files no file can fail for a missing chunk again |
| `JobFacts.SettledValidates` | apps/desktop/src-tauri/src/downloads.rs:461-474 | with all bits set and files settled, validation fails only on an occupied empty entry |
| `DownloadRuns.RunFor` | apps/desktop/src-tauri/src/downloads.rs:441-684 | after any number of turns in any world, also those in which a detached task goes on after the job ended: bitmap and saved row true, at every instant since the start; counters exact |
| `DownloadRuns.AttemptsKeepHeld` | crates/core/src/transfer.rs:84-97 | any sequence of verified writes, complete or cut short, keeps every held chunk |
| `DownloadRuns.Restart` | apps/desktop/src-tauri/src/downloads.rs:381-419 | stopping at any instant, with whatever verified writes reach the disk after it, and starting again is a sound start |
| `DownloadRuns.RunToEnd` | apps/desktop/src-tauri/src/downloads.rs:441-687 | with a correct server and no file system fault the loop ends, completes exactly if no empty entry is occupied, with at most one failed validation and none from a sound start; giving up means validation really fails |
| `DownloadRuns.Download` | apps/desktop/src-tauri/src/downloads.rs:349-687 | a whole download from any saved state; from a sound one, completion means every file equals the source, only missing chunks are requested and their bytes received; it stops only if asked to |
| `DownloadRuns.OvercountAfterFailure` | apps/desktop/src-tauri/src/downloads.rs:474-501 | a job whose byte counter exceeds the bytes of its set bits after a failed validation |
| `Repair.RepairTitle` | apps/desktop/src-tauri/src/commands.rs:570-595 | the rebuilt bitmap claims a chunk exactly if it is on disk, whatever was claimed; the count is the number of bad chunks |
| `Repair.RepairAndResume` | apps/desktop/src-tauri/src/commands.rs:546-602 | only bad chunks are requested and received; the resumed download completes exactly if no empty entry is occupied, and files then equal the source; with no bad chunk nothing changes; deep validation passes afterwards exactly if no empty entry is occupied and a chunk was bad or all lengths were right |
| `Repair.TrailingByteIsNotRepaired` | apps/desktop/src-tauri/src/commands.rs:574-601 | a file with one byte too many has no bad chunk, fails deep validation, and would pass it if the layout were finalised |
| `Repair.NothingBadMeansDeepValid` | crates/core/src/transfer.rs:185-338 | an empty plan on the finalised layout with no occupied empty entry is equivalent to deep validity |
| `UpNext.StrongerTotal` | crates/core/src/jukebox.rs:46-51 | the strength comparison decides between any two items |
| `UpNext.FairTotal` | crates/core/src/jukebox.rs:74-106 | round number, then strongest item of the contributor, decides between any two items |
| `FairRotation.FairRotation` | crates/core/src/jukebox.rs:74-106 | grouping, lane sorting and cursors give the one listing of the items in fair order, whatever the input and hash-map order |
| `FairRotation.VoteRanked` | crates/core/src/jukebox.rs:62-66 | the one listing by strength |
| `FairRotation.OrderUpNext` | crates/core/src/jukebox.rs:54-59 | a permutation of the ids in the order of the mode |
| `UpNext.SiblingsInOrder` | crates/core/src/jukebox.rs:74-106 | each contributor's items come strongest first |
| `UpNext.TurnIsRound` | crates/core/src/jukebox.rs:74-106 | an item is played in the turn given by the number of stronger items of its contributor |
| `UpNext.TurnsStayClose` | crates/core/src/jukebox.rs:74-106 | at every prefix, nobody has had two turns more than a contributor who still has items |
| `UpNext.NoHogging` | crates/core/src/jukebox.rs:68-106 | in one listing nobody is adjacent to themselves while somebody else still has items |
| `QueueStore.UpNextListsQueued` | crates/server/src/jukebox.rs:214-245 | the up-next order lists exactly the queued rows, each once |
| `QueueStore.UpNextFollowsTables` | crates/server/src/jukebox.rs:214-245 | overridden rows first, lowest override first; of two others the one with more rows in the votes table, then added earlier, then with the lower id, comes first: any two in votes mode, and in fair mode two of one client or the best of two clients |
| `QueueStore.SameFirst` | crates/core/src/jukebox.rs:54-106 | both modes put the same item first: the strongest |
| `Jukebox.Machine.Restore` | crates/server/src/jukebox.rs:391-408 | rebuilds a coherent machine from any tables in order |
| `Jukebox.Machine.Add` | crates/server/src/jukebox.rs:31-54 | inserts one queued row under an id no row has |
| `Jukebox.Machine.ToggleVote` | crates/server/src/jukebox.rs:88-126 | flips exactly this client's vote; no vote for an absent item; only this item's number of votes moves, by one |
| `Jukebox.Machine.Remove` | crates/server/src/jukebox.rs:128-138 | deletes the row and its votes and no other row or vote; idle if it was playing |
| `Jukebox.Machine.RemoveShareRefs` | crates/server/src/jukebox.rs:146-162 | deletes exactly the shared-file rows whose reference is the share's number, with their votes and nothing else, and counts them |
| `Jukebox.Machine.UpNextOrder` | crates/server/src/jukebox.rs:214-245 | the order that queue rows and votes table determine, in whatever order rows are read |
| `Jukebox.Machine.Advance` | crates/server/src/jukebox.rs:178-210 | the current row is played for good and the head of the order plays; the state says inside or outside; tables are in order also between the two statements |
| `Jukebox.Machine.RequeueNowPlaying` | crates/server/src/jukebox.rs:252-268 | the playing row goes back to the queue below all overrides |
| `Jukebox.Machine.MoveToTop` | crates/server/src/jukebox.rs:271-282 | the row's override goes below all queued overrides |
| `Jukebox.RepinOk` | crates/server/src/jukebox.rs:252-282 | overrides of queued rows stay negative and pairwise distinct |
| `JukeboxRuns.MovedFirst` | crates/server/src/jukebox.rs:271-282 | a moved row is first and other overridden rows keep their order; in votes mode, or if it was overridden, all others keep theirs |
| `JukeboxRuns.LastMovedFirst` | crates/server/src/jukebox.rs:271-282 | of two moved rows the last moved comes first, right before the other |
| `JukeboxRuns.RequeuedFirst` | crates/server/src/jukebox.rs:252-268 | a requeued row is first and the rest of the order is as it was |
| `QueueStore.HeadIsStrongest` | crates/server/src/jukebox.rs:214-245 | the head of the up-next order does not depend on the mode |
| `JukeboxRuns.PlayOut` | crates/server/src/jukebox.rs:178-210 | repeated advances play the votes order, in either mode |
| `JukeboxRuns.NextTurnIsStrongest` | crates/server/src/jukebox.rs:214-245 | the head of the order is the one row with the lowest override or else the strongest item, so the next turn is a contributor's exactly if that row is theirs |
| `JukeboxRuns.ShownIsNotPlayed` | crates/core/src/jukebox.rs:68-106 | a shown alternation that is not played: after the first item the order computed anew puts the same contributor first again |
| `JukeboxRuns.Execute` | crates/server/src/jukebox.rs:31-282 | every command keeps the machine coherent, issues only its own statements, and does to rows only what it may: rows come by addition and go by a removal that means them; only an advance plays or retires, only a requeue puts back |
| `JukeboxRuns.Run` | crates/server/src/jukebox.rs:31-408 | any sequence of commands and restarts keeps the machine coherent; after every statement the tables are in order and the statement did what it may, and each was issued by one of the commands |
| `JukeboxRuns.StopAndRestore` | crates/server/src/jukebox.rs:391-408 | a stop after any statement, also inside a command, restores to a coherent machine that continues the history up to there |
| `JukeboxRuns.RowMoves` | crates/server/src/jukebox.rs:31-282 | a row is queued, playing, played or gone; each move has exactly one kind of statement, nothing that was added is edited, and an override changes only by a move to the top or a requeue |
| `JukeboxRuns.VoteMoves` | crates/server/src/jukebox.rs:31-282 | a vote changes only by a toggle of it or with its item |
| `JukeboxRuns.PlayedForGood` | crates/server/src/jukebox.rs:178-210 | over any history a played row stays played unless it is deleted |
| `JukeboxRuns.LeavesQueue` | crates/server/src/jukebox.rs:128-210 | over any history a queued row leaves the queue only by its promotion or its deletion |
| `JukeboxRuns.StopsPlaying` | crates/server/src/jukebox.rs:128-268 | over any history a playing row stops only by being retired, put back or deleted |
| `JukeboxRuns.PlayedWasNext` | crates/server/src/jukebox.rs:178-245 | over any history whatever plays was promoted as the head of the order of that moment |
| `LibraryScan.EqualCountsEqualPaths` | crates/server/src/library.rs:212-216 | if every listed path was published before, equal counts are the same as equal path sets |
| `LibraryScan.CompareOne` | crates/server/src/library.rs:217-242 | keeps the published entry exactly if size and time, or size and digest, agree, otherwise a fresh entry; fails exactly if the file has to be hashed and does not have the listed size |
| `LibraryScan.Compare` | crates/server/src/library.rs:209-242 | for any chunk size, the change flag is false exactly if nothing was added, removed, renamed or altered as the scan sees it; fails exactly if some file to be hashed does not have the listed size |
| `LibraryScan.RepublishNeverStale` | crates/server/src/library.rs:217-242 | while a title is published no skipped row has chunks other than the given ones |
| `LibraryScan.LoadedIsConsistent` | crates/server/src/library.rs:282-291 | the manifest loaded after publishing passes structure validation |
| `LibraryScan.ScanTitle` | crates/server/src/library.rs:127-320 | outcome, version and stored state of a scan: plus one exactly on a change while published, 1 otherwise; a sidecar-only change touches nothing but the digest of this title; new files get ids in listing order; after success the title is live and matches the folder |
| `LibraryScan.ScanTwice` | crates/server/src/library.rs:127-320 | a second scan of the same folder right after one that went through is Unchanged and stores nothing |
| `LibraryScan.ScanKeepsManifest` | crates/server/src/library.rs:255-318 | a scan that finds no file changed leaves the loaded manifest, with its version, as it was |
| `LibraryScan.PublishedIsUsable` | crates/server/src/library.rs:127-320 | a published manifest can be downloaded exactly if the names in the folder join safely and to different locations |
| `LibraryScan.StaleRescan` | crates/server/src/db.rs:294-302 | a removed title that comes back unchanged after the chunk size changed is published with chunks other than the scanned ones |
| `ManifestStore.Library.EnsureTitle` | crates/server/src/db.rs:234-244 | the id of the title with this name, inserted unpublished if there was none |
| `ManifestStore.Library.ReplaceManifest` | crates/server/src/db.rs:252-360 | the title has exactly the given paths, surviving paths keep their ids, new ones get ids in list order, vanished ones and their chunks are gone, other titles are untouched |
| `ManifestStore.Library.LoadManifest` | crates/server/src/db.rs:389-462 | the title's rows in id order with their chunks in index order |
| `ManifestStore.LoadUnique` | crates/server/src/db.rs:389-462 | the loaded files are determined by the file and chunk tables |
| `ManifestStore.LoadedByIndex` | crates/server/src/db.rs:389-462 | chunks are loaded in index order whatever their order in the table |
| `ManifestStore.LoadAfterReplace` | crates/server/src/db.rs:252-462 | loading after replacing returns the given files, apart from ids, exactly if no skipped row had other chunks stored |
| `ManifestStore.LoadedTotals` | crates/server/src/db.rs:252-462 | as many files and bytes as were given, whatever the order |
| `LoadOrder.LoadedInOrder` | crates/server/src/db.rs:252-462 | a load lists the surviving paths as the previous load did, then the new paths as they were listed |
| `LoadOrder.SortedIff` | crates/server/src/library.rs:207-207 | from a sorted load and a sorted listing the next load is sorted exactly if each new path sorts after each surviving one |
| `LoadOrder.OrderExample` | crates/server/src/library.rs:207-207 | two sorted listings after which the load is not sorted |
| `Publication.StepStore` | crates/server/src/db.rs:303-334 | updating or inserting one file leaves every other file as it is |
| `Publication.StepPrune` | crates/server/src/db.rs:335-340 | deleting what was not seen completes the replacement |
| `Publication.StoreKeepsOrder` | crates/server/src/db.rs:303-334 | inserting one more file keeps new ids in list order |

## Left out

- HTTP, WebSocket, IPC, user interface, discovery, logging, sessions, passwords: a fetch is an arbitrary answer of the source it was sent to.
- The digest function, hex and serialisation: an unknown function and plain data.
- SQLite failures, corrupt blobs and a cached manifest that differs from the stored one: a statement either happens or the process stops.
- Directory creation, conflicts between a file and a directory of the same name, failing metadata reads, and removal of files by others while handles are open.
- Writes left over from earlier runs that land between finalising and validating: they arrive while the job waits, and that step does not wait.
- Writes left over from a run of an older version of the manifest to the same destination: such a write is checked against the older digests and could damage a chunk that is already held.
- A panic of a write task, and the time and length of backoff waits: a wait is one step in which anything allowed may happen.
- Requests for other peers' progress, speed windows, rate meters and the smoothed peer rates: display and measurement.
- The queue of waiting jobs around the running one: its hand-over windows allow a job to be both queued and running.
- Rounding of floating-point numbers in scheduler and rate cap: they are real numbers, with the comparison slack as an arbitrary non-negative constant.
- Contention between several waiting uploads on one rate cap: the wait loop is shown to end when nothing else takes tokens.
- The context-dependent lower-casing of a final sigma: lower-casing maps each character by itself, to one or more characters.
- Truncation of chunk indices and vote counts to 32 bits, and of row ids to 63 bits: counts are unbounded.
- Walking the title folder, skipping the sidecar folder and sorting the listing: a listing with distinct paths is an input.
- The sidecar payload apart from its digest, launch entries and labels.
- The comparison of two manifest versions, the completeness report and the recomputation of totals: they would only add easy members.
- Display columns of jukebox rows, the cap on the queue length and the check of references when an item is added.
- FairRotation.FairRotation: requires distinct ids, which the primary key gives, so the tie-break by contributor name never decides and is not modelled.
- Scheduler.PeersStayBehindServer: requires peer ids that are distinct and differ from the server's name, since the clocks are keyed by id.
- Scheduler.EveryPeerServes: requires distinct peer ids and a comparison slack below what one chunk adds to a clock; the code's slack of 2.2e-16 is, for every rate below 4e15 bytes a second.
- DownloadRuns.Download: assumes that manifest paths lead to different locations and that no other content meets a chunk's digest; without the latter a failing write of other bytes could damage a held chunk.
- DownloadJob.Job.constructor: assumes a usable manifest, since every write of an entry with an unsafe path is refused and entries that share a location overwrite each other.
