# Downloads, uploads and directory caching of a network-drive client

This project models the parts of the client that carry state: the chunk downloader that survives
crashes, the readers and loops that upload a file in parts, the hashers fed while a file is read, and
the cached directory listings that must agree with the remote tree. Each part is modelled in the
form the code has (a class where methods update fields, a loop where the code loops, a step relation
where goroutines interleave), and properties of it are proved for all inputs, runs and interleavings.

## What is modelled

**The chunk downloader** (`internal/chunk_download.go`).

- `TempNames`: the names of chunk files, decimal printing and 64-bit parsing included.
- `Planner`, `Downloader`: `CalRange` and `addRange`. `Downloader` has the code's loops over the chunk
  directory and the gaps; `Planner` has the list of ranges they compute, as a recursive function,
  and what is true of it. A gap of one byte, or whose length leaves remainder one, loses its last byte;
  the plan is exact everywhere else.
- `Protocol`: one run as a state machine. A state holds every chunk's phase, file and retry count, the
  dispatcher, the merger with the output written so far, the outcome of `Do`, the completion map, the
  pending notifications and the progress counter. Every send, receive, map access, file operation and
  return is a separate step, so all interleavings of the goroutines are runs. `taskCh` and `taskNotifyCh`
  are unbuffered: sending and receiving is one step.
  `ProtocolInvariant` has the invariant every step keeps, `ProtocolSafety` what follows from it,
  `ProtocolLiveness` a measure every step decreases, deadlock freedom, the exact cases that get stuck, and what
  is left when `Do` has returned; `ProtocolRuns` makes runs that end with success and with each of the errors.
- `Resume`: many runs of `BaseDownloadFile` over one output file and one chunk directory, each stopped
  in any reachable state. `ResumeAnyChunk`: the same with a chunk size of its own for each run.

**Uploads.** `Parts` cuts a file into parts and is the common reference. `UploadReader` is the
`ProgressReader`; `QuarkUpload`, `CloudreveUpload` and `AliyunUpload` are the loops that use it or read
sections, against servers that consume any part of a request and then fail. `Floats` proves from the
definition of rounding to the nearest double when a ceiling computed in floating point is the integer one.

**Hashers.** `Gcid` is the block hasher and `BaiduUpload` the pass that hashes slices, the file and its
beginning. Hash functions are parameters; everything holds for any.

**Directories.** `Cache` is the map with expiry, `CacheInterleavings` the same map under any number of
goroutines. `Directory` is the remote tree and what it means for cached listings to show it;
`DirectoryDriver` the operations of a driver that addresses objects by id; `Session` whole runs of them;
`Invalidation` says exactly when each driver's choice of forgotten listings is right. `MakeDirectory` has
`GetPanObj` and the two ways of making a path (recursion and loop), `BatchRename` the recursive renaming
on a drive addressed by path, and `PathCache` what renaming,
making, deleting and moving do to listings held under paths.

## What does not hold

These are properties one might expect that the code does not have. The members named give the exact condition
where there is one, and otherwise a state or an input that shows it.

- `addRange` does not always cover its gap, and with chunk size 1 it loops for ever on a longer gap
  (`Planner.PlanTilesIff`, `Planner.AddRangeTerminatesIff`).
- An empty plan makes the merger wait for chunk 0 for ever (`ProtocolLiveness.DeadlockFreeIff`,
  `Planner.PlanEmptyIff`).
- A run stopped between the first byte of a copy and the removal of the chunk file makes the next run
  copy that chunk again, and so does a removal that failed, which the merger ignores (`Resume.ResumableIff`,
  `Resume.WindowHappens`).
- A call that is to replace an output of full length and cannot remove it gets an empty plan, and waits for ever
  (`Resume.CallPlanEmptyIff`, `Resume.FullOutputHangs`).
- `Do` takes one error, so a goroutine with a second one waits for ever (`ProtocolLiveness.SecondErrorStays`,
  `ProtocolLiveness.AfterReturn`), and it reports an error for a complete output when the chunk directory cannot be
  deleted (`ProtocolRuns.CleaningFails`).
- A shutdown can make `Do` return nil on a partial file; cancelling the client can leave it waiting for
  ever (`ProtocolLiveness.ShutdownReturnsNilEarly`, `ProtocolLiveness.CancelSticks`).
- Chunk-file names are not unique for the parser: names with a plus sign or leading zeros are accepted, too
  (`TempNames.PrintedNameIff`, `TempNames.ForeignNamesParseToo`), and of two usable files that start at the same
  byte one is forgotten (`Downloader.AllKeptIff`).
- `ProgressReader.ResetChunk` leaves `finish` set (`UploadReader.ReadAndReset`).
- The cloudreve loops go on for ever when the upload resumes at the end of the file or behind it
  (`CloudreveUpload.LoopEndsIff`, `CloudreveUpload.StuckAtTotal`, `CloudreveUpload.StuckBehindEnd`); a refused last
  chunk or a failed callback leads there (`CloudreveUpload.EndsAtTotalIff`). An offset returned after a refused
  request can be one chunk ahead of what the server accepted (`CloudreveUpload.OffsetIsAckedIff`), and an offset can
  outlive its session; either way an upload can succeed without the whole file (`CloudreveUpload.FinishedIsWholeIff`,
  `CloudreveUpload.SucceedsWithGap`).
- The aliyundrive_open upload ignores a seek that fails. That does no harm where the cursor is at the part's offset
  anyway; otherwise other bytes than the part's are sent (`AliyunUpload.PartIsRightIff`,
  `AliyunUpload.CursorIsThereIff`, `AliyunUpload.SeekFailsOnce`).
- `gcid.Reset` keeps the offset inside the block (`Gcid.ResetIsFreshIff`).
- A move or deletion in quark forgets the wrong listings, and a renaming through a handle that came from a
  listing by path forgets none (`Invalidation.QuarkMoveKeepsIff`, `Invalidation.QuarkDeleteKeepsIff`,
  `Invalidation.QuarkDeletesOneDir`, `Invalidation.QuarkMovesOneFile`, `Invalidation.RenameKeepsIff`). A move, a deletion or the making of a path in aliyundrive_open that fails half-way
  forgets none either (`Invalidation.PartialMoveKeepsIff`, `Invalidation.PartialDeleteKeepsIff`,
  `Invalidation.PartialMkdirKeepsIff`).
- A driver that holds listings under paths can show the contents of a directory renamed earlier under the name
  it had (`PathCache.RenameKeepsPathsIff`, `PathCache.OldNameShowsThrough`); one moved or made there shows through
  in the same way, and making a directory forgets not even the listing it is in (`PathCache.MoveKeepsPathsIff`,
  `PathCache.MkdirKeepsPathsIff`).
- A batch of renames with distinct new names can still be refused: a new name must also not be the old
  name of an object renamed later (`BatchRename.TakenForNow`, `BatchRename.BatchSucceedsIff`).
- A fresh cache entry can be dropped by a reader that saw the expired one before it
  (`CacheInterleavings.LosesEntryIff`, `CacheInterleavings.FreshEntryMayVanish`).

## Model

| member | source | states |
|---|---|---|
| `TempNames.NameRoundTrip` | internal/chunk_download.go:204-227 | parsing the path printed for a pair of 64-bit bounds gives the pair back exactly when neither bound is negative, in any directory |
| `TempNames.NamesAreInjective` | internal/chunk_download.go:204-206 | two ranges with the same printed file name are the same range, whatever their directories |
| `TempNames.BaseNameParsesBack` | internal/chunk_download.go:208-227 | the bare name, as a directory listing shows it, parses back to its range |
| `TempNames.ChunkNamingRoundTrips` | internal/chunk_download.go:204-227 | the naming scheme handed to the other modules recovers every range from its directory entry, and its paths are those the chunks are written to |
| `TempNames.ParsedBoundsAreNatural` | internal/chunk_download.go:208-227 | no name parses to a negative bound |
| `TempNames.ForeignNamesParseToo` | internal/chunk_download.go:219-220 | every range has a second name that parses to it and that is never printed |
| `TempNames.PrintedNameIff` | internal/chunk_download.go:204-227 | a directory entry that parses to a range is the name printed for that range exactly when neither of its numbers has a sign or a leading zero |
| `TempNames.OnlyTempNames` | internal/chunk_download.go:208-227 | a directory entry that parses to a range is "temp" and two 64-bit numbers with a minus sign before each, and these are its bounds |
| `TempNames.TooLargeIsForeign` | internal/chunk_download.go:219-226 | a name whose numbers do not both fit 64 bits is not taken for a chunk file |
| `Planner.PlanCovers` | internal/chunk_download.go:445-517 | a byte is in the plan exactly when it lies between the output's end and the file's end and is not the last byte of a gap whose length is 1 or leaves remainder 1 |
| `Planner.PlanShape` | internal/chunk_download.go:484-517 | the plan is in file order without overlap, keeps every usable chunk file, and every new range has its own file name and exactly chunkSize bytes, or 2 to chunkSize-1 where a gap ends |
| `Planner.PlanTilesIff` | internal/chunk_download.go:445-517 | the plan tiles what is missing exactly when no gap loses its last byte |
| `Planner.PlanEmptyIff` | internal/chunk_download.go:445-517 | the plan is empty exactly when no chunk file is kept and at most one byte is missing |
| `Planner.AddRangeTerminatesIff` | internal/chunk_download.go:502-517 | the loop of addRange ends exactly when the chunk size is at least 2 or the gap is a single byte |
| `Planner.GapCovers` | internal/chunk_download.go:502-517 | the ranges for one gap hold every byte of it but the last one when the length is 1 or leaves remainder 1 |
| `Downloader.ChunkDownload.constructor` | internal/chunk_download.go:31-56 | a chunk size that is not positive becomes 10 MiB; nothing is counted as downloaded |
| `Downloader.ChunkDownload.AddRange` | internal/chunk_download.go:502-517 | the loop appends exactly the ranges of the gap, and the next start is one byte short when the last byte is lost; it does not come back exactly with chunk size 1 and a gap of more than one byte |
| `Downloader.ChunkDownload.ScanDir` | internal/chunk_download.go:452-474 | deletes exactly the entries that are no usable chunk file and can be deleted, and collects the ranges of the usable ones; fails exactly when the size of a chunk file cannot be read, and then has deleted only unusable files |
| `Downloader.ChunkDownload.FillGaps` | internal/chunk_download.go:484-500 | the loop over the kept ranges hands out the plan as the Planner module defines it; with chunk size 1 it hands out the kept ranges, or does not come back when a gap is wider than one byte |
| `Downloader.ChunkDownload.CalRange` | internal/chunk_download.go:445-500 | whatever order the directory is read in, and for every chunk size: the plan for what the disk holds, the directory cleaned as far as deleting works, the bytes of a partial output counted once; an error exactly when reading the directory or a size fails |
| `Downloader.EveryUsableFileIsListed` | internal/chunk_download.go:452-483 | when no two usable chunk files start at the same byte, each of them is kept in the plan |
| `Downloader.WhatBecomesOf` | internal/chunk_download.go:455-482 | an entry is kept exactly when it is named like a chunk of more than one byte and has that length; others go, unless they cannot be deleted; only an entry named like such a chunk stops the planning when its size cannot be read |
| `Downloader.AllKeptIff` | internal/chunk_download.go:468-483 | all usable chunk files are kept in the plan exactly when no two of them start at the same byte |
| `Downloader.SortIntsSorts` | internal/chunk_download.go:475-477 | the keys used to order the kept ranges are the collected ones, in ascending order |
| `ProtocolInvariant.StepKeepsInv` | internal/chunk_download.go:238-443 | every step of every goroutine keeps the invariant that relates chunk phases, files, the completion map, notifications, merger, output, counters and outcome |
| `ProtocolInvariant.ReachableInv` | internal/chunk_download.go:71-443 | the invariant holds in every state of every run |
| `ProtocolSafety.OutputInOrder` | internal/chunk_download.go:315-355 | at every moment the output is its starting prefix, then whole chunks 0..i-1 in order, then the part of chunk i that is being copied |
| `ProtocolSafety.NilMeansAllMerged` | internal/chunk_download.go:357-410 | without a shutdown Do returns nil only when every planned chunk has been taken and copied exactly once, the plan was not empty, and no chunk file is left, not even one whose removal had failed |
| `ProtocolSafety.NilMeansComplete` | internal/chunk_download.go:315-410 | if the output starts as a prefix of the remote file and the plan tiles the rest, nil means the output is the remote file |
| `ProtocolSafety.MergedFilesAreGone` | internal/chunk_download.go:338-348 | in every run in which each removal worked, the file of every chunk that was copied is gone, but for one that the merger is about to remove |
| `ProtocolSafety.NilMeansQuiet` | internal/chunk_download.go:389-409 | when Do has returned nil, even after a shutdown, no worker is inside handleTask, nor will one be |
| `ProtocolSafety.FailedIsNeverMerged` | internal/chunk_download.go:255-292 | a chunk that ended in an error, or was dropped in a shutdown, is never taken or merged |
| `ProtocolSafety.NoLostWakeup` | internal/chunk_download.go:71-110 | a completed chunk not taken is in the map, and if the merger waits for it a notification is pending or about to be started |
| `ProtocolSafety.StaleEntriesAreMerged` | internal/chunk_download.go:93-104 | entries left in the map below the merger's index belong to completed chunks that are in the output already and that the merger is through with |
| `ProtocolSafety.AttemptsBounded` | internal/chunk_download.go:283-291 | a chunk is requested at most maxRetry+1 times, never if it was found on disk, and gives up only after all of them |
| `ProtocolSafety.ConcurrencyBounded` | internal/chunk_download.go:293-313 | at most min(concurrency, maxThread) requests are under way at once |
| `ProtocolSafety.ErrorHasACause` | internal/chunk_download.go:283-292 | Do fails only if a planning or file operation failed or every attempt at some chunk did |
| `ProtocolSafety.ProgressConserved` | internal/chunk_download.go:566-579 | the counter is the starting offset plus the size of each chunk counted so far, once each despite retries; it never exceeds the file size and reaches it exactly when the last chunk is counted |
| `ProtocolLiveness.StepDecreases` | internal/chunk_download.go:238-443 | every step, retries and stale notifications included, makes a natural-number measure smaller |
| `ProtocolLiveness.RunsAreBounded` | internal/chunk_download.go:238-443 | no run has more steps than the measure of its first state |
| `ProtocolLiveness.SomeoneCanStep` | internal/chunk_download.go:238-443 | with a plan that is not empty, a worker and a thread, and no shutdown or cancel, some goroutine can step until Do returns |
| `ProtocolLiveness.DeadlockFreeIff` | internal/chunk_download.go:315-443 | undisturbed runs never get stuck exactly when the plan is not empty |
| `ProtocolLiveness.CompleteRunsSucceed` | internal/chunk_download.go:357-410 | a complete run that nobody disturbs ends with Do having returned, and with the remote file in the output unless a planning or file operation failed or all attempts at some chunk did |
| `ProtocolLiveness.EmptyPlanSticks` | internal/chunk_download.go:425-425 | with an empty plan a run reaches a state where nothing can happen and Do has not returned |
| `ProtocolLiveness.EmptyPlanNeverSucceeds` | internal/chunk_download.go:325-349 | with an empty plan and no shutdown Do never returns nil |
| `ProtocolLiveness.ShutdownReturnsNilEarly` | internal/chunk_download.go:325-333 | after a shutdown Do can return nil with nothing merged, whatever was planned |
| `ProtocolLiveness.CancelSticks` | internal/chunk_download.go:293-313 | cancelling the client can leave dispatcher, merger and Do waiting for ever |
| `ProtocolLiveness.AfterReturn` | internal/chunk_download.go:293-443 | when nothing more can happen after Do has returned, the merger has ended or waits with an error nobody takes, the dispatcher likewise, no notifier is left, no worker is idle, and every chunk is done, failed, never dispatched, or stuck with an error, without a worker, or behind chunks that hold all slots so |
| `ProtocolLiveness.SecondErrorStays` | internal/chunk_download.go:396-408 | after Do has taken an error, another goroutine that reports one waits for ever |
| `ProtocolLiveness.NothingLeftAfterSuccess` | internal/chunk_download.go:293-410 | after a nil without a shutdown no goroutine stays: merger and notifiers have ended, all workers have left, and every chunk was dispatched and let go of |
| `ProtocolLiveness.AfterShutdown` | internal/chunk_download.go:389-409 | after a shutdown Do always returns in the end, even with an empty plan |
| `ProtocolLiveness.ShutdownEndsAll` | internal/chunk_download.go:300-442 | a shutdown lets the dispatcher, the waiting merger and all workers end before Do has returned |
| `ProtocolRuns.ReachMerged` | internal/chunk_download.go:238-355 | for every plan and every k some run merges just the first k chunks, one after the other, both when every removal works and when none does, which the merger ignores |
| `ProtocolRuns.EveryPlanSucceeds` | internal/chunk_download.go:238-443 | every plan that is not empty has a run that ends with nil and all chunks in the output, whether or not removals work |
| `ProtocolRuns.StaleEntryHappens` | internal/chunk_download.go:91-104 | a chunk that was merged can be put back into the map, by a notification heard later |
| `ProtocolRuns.PlanningFails` | internal/chunk_download.go:420-424 | a failed planning makes Do return its error |
| `ProtocolRuns.OutputFails` | internal/chunk_download.go:317-321 | so does an output file that cannot be opened |
| `ProtocolRuns.CopyFails` | internal/chunk_download.go:334-344 | so does, for any chunk, a file that the merger cannot open, and a copy that fails after any number of its bytes, which are then in the output |
| `ProtocolRuns.CleaningFails` | internal/chunk_download.go:351-354 | so does a chunk directory that cannot be deleted, with the output complete and any of the files left over still there |
| `ProtocolRuns.ChunkFileFails` | internal/chunk_download.go:250-254 | so does a chunk file that the worker cannot open, without a request |
| `ProtocolRuns.ReachAttempt` | internal/chunk_download.go:250-291 | each attempt up to number maxRetry+1 happens, and starts the chunk file over |
| `ProtocolRuns.AttemptsRunOut` | internal/chunk_download.go:283-291 | after maxRetry+1 failed attempts Do returns the error, and what the last attempt received is still on disk |
| `Resume.PlanOnGrid` | internal/chunk_download.go:445-517 | from a multiple of the chunk size, with kept files on the grid and a total that leaves no remainder 1, the plan tiles the rest in ranges on the grid |
| `Resume.PlanIsFreshSuffix` | internal/chunk_download.go:445-500 | on a disk left by earlier runs the plan has exactly the ranges of a fresh plan without the part already merged |
| `Resume.PlanRun` | internal/chunk_download.go:445-500 | CalRange, run on any chunk directory and output with a chunk size of at least 2, answers the plan that a run of the protocol starts with |
| `Resume.PlanFlags` | internal/chunk_download.go:466-474 | a planned range is marked completed exactly when the file of its name is on disk with the range's length, and carries that file's name |
| `Resume.GoodPlanTiles` | internal/chunk_download.go:445-500 | on such a disk the plan is valid, in order, on the grid, and tiles exactly what is missing |
| `Resume.RunLeavesGoodDisk` | internal/chunk_download.go:315-355 | a run stopped in any state outside the copy window, with every removal so far having worked, leaves an output that is a prefix up to a grid point and only chunk files that are in place and right |
| `Resume.StoppedAtOnce` | internal/chunk_download.go:357-410 | a run may be stopped before it did anything, and then the disk is as it was |
| `Resume.OutsideWindowIff` | internal/chunk_download.go:338-348 | in every run in which each removal worked, the window is open exactly from the first byte of a copy to the removal |
| `Resume.NextPlanIsTheRest` | internal/chunk_download.go:315-500 | after a run stopped outside the window the next plan has exactly the ranges that the run had not merged |
| `Resume.StopsAfterAny` | internal/chunk_download.go:315-500 | for every download from scratch and every k there is a run in which every removal worked and which stops when just k chunks are merged, and the next plan is exactly the others |
| `Resume.ResumableIff` | internal/chunk_download.go:339-345 | the next plan assembles the remote file exactly when the run was not stopped between the first byte of a copy and the removal of the chunk file, and no removal had failed |
| `Resume.WindowDisk` | internal/chunk_download.go:339-345 | after a stop inside that window, or after a removal that failed, the next plan assembles more bytes than the file has |
| `Resume.WindowHappens` | internal/chunk_download.go:339-345 | every download from scratch has a run that stops inside that window, and what the next plan then assembles is longer than the file |
| `Resume.CallKeepsGoodDisk` | pan/driver.go:391-424 | one call of BaseDownloadFile keeps the disk good, and a success without a shutdown leaves the remote file |
| `Resume.CallRunsOn` | pan/driver.go:391-424 | a call runs the downloader on the disk as it found it, except that an output of full length that is to be replaced and can be removed is gone first |
| `Resume.FullOutputStays` | pan/driver.go:391-401 | a call that finds an output of full length and is not to replace it succeeds and touches nothing |
| `Resume.CallKeepsOutput` | pan/driver.go:391-424 | what is in the output stays at its beginning, unless the output had full length, was to be replaced and could be removed |
| `Resume.AskedIsMissing` | internal/chunk_download.go:238-281 | on a good disk the server is asked only for bytes that are neither in the output nor in a usable chunk file |
| `Resume.ManyRuns` | pan/driver.go:391-424 | after any number of calls, each stopped anywhere outside the window and with its removals having worked, the disk is good, and every call that reports success without a shutdown leaves the remote file |
| `Resume.OutputGrows` | pan/driver.go:391-424 | over any number of calls the output only grows, except where one of full length is replaced |
| `Resume.CallPlanEmptyIff` | pan/driver.go:391-424 | a call hands the downloader an empty plan exactly when it is to replace an output of full length and cannot remove it, which it ignores |
| `Resume.FullOutputHangs` | pan/driver.go:391-424 | such a call never succeeds without a shutdown and can wait for ever, with the full output in place |
| `ResumeAnyChunk.ManyRunsAnyChunk` | pan/driver.go:391-424 | after any number of calls, each with its own chunk size, where no gap that a run finds loses its last byte, the disk is right, and every call that reports success without a shutdown leaves the remote file |
| `ResumeAnyChunk.OutputGrowsAnyChunk` | pan/driver.go:391-424 | and the output only grows, except where one of full length is replaced |
| `ResumeAnyChunk.LooseCallRunsOn` | pan/driver.go:391-424 | such a call runs on the disk as it found it, except for an output of full length that it replaces |
| `ResumeAnyChunk.LooseAskedIsMissing` | internal/chunk_download.go:238-281 | and asks the server only for bytes that are neither in the output nor in a usable chunk file |
| `ResumeAnyChunk.LoosePlanTiles` | internal/chunk_download.go:445-500 | on such a disk the plan tiles what is missing, in order, and keeps every chunk file |
| `ResumeAnyChunk.RunLeavesLooseDisk` | internal/chunk_download.go:315-355 | a run on any chunk files that do not overlap, where no gap loses its last byte, leaves such files again, behind an output that is a prefix, and success means the remote file |
| `ResumeAnyChunk.FixedChunkNeverLoses` | pan/driver.go:391-424 | with one chunk size for all calls, and a length that leaves no remainder of one byte, no gap that a run finds loses its last byte |
| `Parts.PartsAreTheFile` | pan/driver.go:748-762 | the parts of a file put together are the file |
| `Parts.PartCount` | pan/driver.go:748-762 | there are ceil(size / part size) parts, so the last one is not empty |
| `Parts.PartPosition` | pan/driver.go:748-762 | part k is exactly the bytes from k*size to min((k+1)*size, total) |
| `UploadReader.ProgressReader.constructor` | pan/driver.go:788-828 | a reader begins at the offset given, with that many bytes counted as uploaded |
| `UploadReader.ProgressReader.Read` | pan/driver.go:705-746 | one read delivers the next bytes of the file within the chunk, as many as are wanted, granted and left, and none when cancelled; cursor and counters move by their number; a chunk read to its end is counted as uploaded, and finish is set when all is |
| `UploadReader.ProgressReader.NextChunk` | pan/driver.go:748-762 | announces the bytes up to the next chunk boundary or the end of the file and starts counting anew, without seeking |
| `UploadReader.ProgressReader.ResetChunk` | pan/driver.go:764-769 | puts the counters back to the start of the chunk, and the cursor too unless the seek fails; finish stays as it is |
| `UploadReader.ProgressReader.Consume` | pan/driver.go:705-746 | however a client reads, it gets a prefix of the chunk, and the counters depend only on the length of that prefix |
| `UploadReader.ReadAndReset` | pan/driver.go:705-769 | after a chunk was read, however far, and reset, the reader is back at its start and calls itself finished exactly when the reading had reached the end of the file |
| `QuarkUpload.TryPart` | pan/driver/quark/driver.go:454-514 | a part ends with the tag of its first success among ten attempts, with ten failures, or with a failed seek, and a success has sent exactly the part's bytes whatever the failed attempts consumed |
| `QuarkUpload.UploadFile` | pan/driver/quark/driver.go:444-543 | whatever prefix each failed attempt consumes, the accepted requests carried exactly the file's parts in order, all of them once the commit is sent; left stays total minus uploaded, and the end is told by the attempts, the seeks and the two last requests |
| `QuarkUpload.OneEnd` | pan/driver/quark/driver.go:463-512 | the three ways for a part to end exclude each other |
| `QuarkUpload.CommitsIff` | pan/driver/quark/driver.go:454-543 | the upload succeeds with a commit exactly when every part ends with a tag other than "finish" and the two requests after the last part go through |
| `CloudreveUpload.ChunkLoop` | pan/driver/cloudreve/methods.go:391-466 | both loops: the headers announce consecutive chunks, accepted bytes are exactly those from the start offset on, and the loop ends at the first refused request or the end of the file; behind the end of a file that became shorter the same empty request is made again and again |
| `CloudreveUpload.OffsetsAreExact` | pan/driver/cloudreve/methods.go:429-466 | from a chunk boundary every offset sent, acknowledged or returned is a boundary or the total, so startSize/chunkSize is an exact chunk number |
| `CloudreveUpload.HeaderAt` | pan/driver/cloudreve/methods.go:391-466 | request k starts where request k-1 ended and carries the number of its chunk |
| `CloudreveUpload.OffsetIsAckedIff` | pan/driver/cloudreve/methods.go:391-466 | the returned offset is ahead of what the server accepted by at most one chunk, and is ahead exactly when the refused request had read its chunk to the end |
| `CloudreveUpload.LoopEndsIff` | pan/driver/cloudreve/methods.go:407-424 | when all requests succeed the loop ends exactly when it started before the end of the file, and then the server has all the rest |
| `CloudreveUpload.ResumeCache.UploadErrAfter` | pan/driver/cloudreve/driver.go:354-374 | remembers the offset and counts the error; after more than three errors offset and session are forgotten but the count goes on from where it was |
| `CloudreveUpload.ResumeCache.UploadFile` | pan/driver/cloudreve/driver.go:376-515 | starts at the cached offset of a resumable upload, with the cached session or a new one; success exactly when the loop finished (and a OneDrive callback worked); a failure keeps offset and session, up to the fourth, and an offset that fits the chunk size is followed by one that fits again |
| `CloudreveUpload.ManyCalls` | pan/driver/cloudreve/driver.go:354-515 | over any number of calls, with cache entries expiring in between, on a server that keeps its chunk size: every call starts at a chunk boundary, and one that resumes a session where the last left off |
| `CloudreveUpload.FinishedIsWholeIff` | pan/driver/cloudreve/driver.go:413-499 | over all calls with one session: when a call finishes, what the session has accepted is the file exactly when it began at 0 and no refused request had read its chunk to the end |
| `CloudreveUpload.SucceedsWithGap` | pan/driver/cloudreve/driver.go:413-499 | two calls, the first refused after its chunk was read to the end: the second succeeds and the server never got the first chunk |
| `CloudreveUpload.EndsAtTotalIff` | pan/driver/cloudreve/driver.go:442-499 | a call leaves the end of the file as offset exactly when it finished, or was refused the last chunk after reading it to the end |
| `CloudreveUpload.StuckAtTotal` | pan/driver/cloudreve/methods.go:407-424 | a call that starts at the end of the file never succeeds, and goes on for ever when all its requests do |
| `CloudreveUpload.StuckBehindEnd` | pan/driver/cloudreve/methods.go:407-424 | a call that starts behind the end of the file never succeeds |
| `Floats.FloatCeilIsExact` | pan/driver/aliyundrive_open/methods.go:278-280 | for integers below 2^53 the ceiling of the rounded quotient is the integer ceiling |
| `Floats.OnlyDivisionRounds` | pan/driver/aliyundrive_open/methods.go:278-280 | converting two integers of at most 2^53 to doubles and dividing rounds only once |
| `Floats.CountAtMostIff` | pan/driver/aliyundrive_open/methods.go:278-280 | ceil(a/b) is at most n exactly when a is at most n*b |
| `Floats.RoundingKeepsSide` | internal/gcid.go:10-16 | rounding to a double never moves a number across an integer that is itself a double |
| `AliyunUpload.PartSizeIsMonotone` | pan/driver/aliyundrive_open/methods.go:231-249 | a larger file never gets smaller parts |
| `AliyunUpload.PartSizeIsLeast` | pan/driver/aliyundrive_open/methods.go:234-246 | between 128 and 1024 GiB the part size is the least with which a file at the top of its bracket has at most 10000 parts |
| `AliyunUpload.PartSizeOutside` | pan/driver/aliyundrive_open/methods.go:231-249 | the default size is for exactly the files up to 128 GiB, and 5 GiB for exactly those above 1024 GiB |
| `AliyunUpload.PartCountIs` | pan/driver/aliyundrive_open/methods.go:278-280 | the part count computed in floating point, conversions included, is the integer ceiling for every file below 2^53 bytes, and at most 10000 exactly up to 50000 GiB |
| `AliyunUpload.PartCountIsNumberOfParts` | pan/driver/aliyundrive_open/driver.go:443-458 | the count announced to the server is the number of parts of that size the file has |
| `AliyunUpload.Section.Send` | pan/driver/aliyundrive_open/driver.go:456-467 | however a client reads a limited section, it gets a prefix of what follows the cursor, and the cursor moves by its length |
| `AliyunUpload.SendPart` | pan/driver/aliyundrive_open/driver.go:456-473 | the first attempt that works has sent a section of the part's size from where its cursor was, and leaves the cursor behind it |
| `AliyunUpload.BodyIsPartIff` | pan/driver/aliyundrive_open/driver.go:456-457 | bytes read from elsewhere are not the part for every content of the file |
| `AliyunUpload.ReadsFromOffsetIff` | pan/driver/aliyundrive_open/driver.go:461-467 | an attempt reads from the part's offset exactly when some attempt up to it had the cursor there and none in between read a byte |
| `AliyunUpload.CursorIsThereIff` | pan/driver/aliyundrive_open/driver.go:453-457 | before its first seek the cursor is at a part's offset exactly when the part before was read from its own, or, for the first part, when it began at 0: then a failing seek does no harm |
| `AliyunUpload.PartIsRightIff` | pan/driver/aliyundrive_open/driver.go:456-473 | the body accepted for a part is the part, for every content of the file, exactly when some attempt up to the one that worked had the cursor at the part's offset, by a seek that worked or because it was there, and none in between read a byte |
| `AliyunUpload.SeekFailsOnce` | pan/driver/aliyundrive_open/driver.go:464-467 | one seek that fails, after an attempt that read one byte, makes the server accept bytes from the second one on |
| `AliyunUpload.DoNormalUpload` | pan/driver/aliyundrive_open/driver.go:441-484 | wherever the cursor is and whatever the failed attempts read: the body accepted for each part is that many bytes from where the attempt that worked began to read, the part itself where that is the part's offset, and all parts in order when no seek fails; success exactly when every part has a working attempt among three and its URLs could be refreshed |
| `Gcid.CalcBlockSize` | internal/gcid.go:10-17 | the smallest of the four block sizes with at most 512 blocks, or the largest of them |
| `Gcid.NewGcid` | internal/gcid.go:9-23 | a new hasher is empty and has the block size for the file |
| `Gcid.Hasher.Write` | internal/gcid.go:33-54 | the state after a write is a function of all bytes written, however they were cut; all bytes are taken, and the offset stays below the block size |
| `Gcid.Hasher.Sum` | internal/gcid.go:56-67 | appends the digest of what was written so far and leaves the state as it was |
| `Gcid.Hasher.Reset` | internal/gcid.go:69-72 | forgets the data but not the offset, so the next block is shorter by it |
| `Gcid.Extend` | internal/gcid.go:33-54 | writing a piece that fits the current block extends its tail, and completes the block exactly when it fills it |
| `Gcid.DigestIsGcid` | internal/gcid.go:9-67 | the digest of a fresh hasher is the hash of the concatenated hashes of consecutive blocks, the last one partial |
| `Gcid.HashPieces` | internal/gcid.go:33-67 | any way of cutting the data, with the digest asked for after each piece, gives that digest |
| `Gcid.ResetIsFreshIff` | internal/gcid.go:69-72 | a reset hasher digests like a fresh one, for all hash functions and data, exactly when its offset was 0 |
| `BaiduUpload.SlicesFit` | pan/driver/baidu_netdisk/driver.go:277-290 | full slices and a last one that is neither empty nor too long make up the file, and there are at most 2048 exactly up to that many slice sizes |
| `BaiduUpload.CountIsNumberOfSlices` | pan/driver/baidu_netdisk/driver.go:277-281 | the slice count is the number of slices the file has |
| `BaiduUpload.SliceIs` | pan/driver/baidu_netdisk/driver.go:291-305 | the slice the loop cuts out is the file's slice of that number |
| `BaiduUpload.LimitWriter.Write` | pan/driver/baidu_netdisk/driver.go:473-487 | however writes are cut, exactly the first limit bytes are passed on, and every write is reported as full |
| `BaiduUpload.HashSlice` | pan/driver/baidu_netdisk/driver.go:291-305 | one round gives the hash of that slice alone while the file hash goes on |
| `BaiduUpload.HashFile` | pan/driver/baidu_netdisk/driver.go:277-311 | one pass gives the hash of every slice in order, of the file, and of its first 256 KiB; an empty file is refused |
| `Cache.Cache.Get` | pan/cache.go:37-50 | a hit exactly for an unexpired entry; an expired one is deleted |
| `Cache.Cache.GetOrLoad` | pan/cache.go:52-73 | the loader is asked only on a miss, its value stored, and nothing stored when it fails |
| `Cache.Cache.Sweep` | pan/cache.go:111-129 | the loop over the keys drops every expired entry and leaves every other one as it was |
| `CacheInterleavings.HitIsLatest` | pan/cache.go:37-93 | under any interleaving a hit is the value of the latest store with no deletion since, and unexpired |
| `CacheInterleavings.StoredIsSeen` | pan/cache.go:37-93 | what is stored while no drop of its key is under way is what every load answers until it expires, is stored over or deleted, under any interleaving |
| `CacheInterleavings.NothingReappears` | pan/cache.go:37-129 | a key that is gone stays gone until it is stored again |
| `CacheInterleavings.LosesEntryIff` | pan/cache.go:37-50 | an entry that nobody stores over, deletes or finds expired can be lost exactly when some goroutine that saw an expired entry there is still about to drop the key |
| `CacheInterleavings.FreshEntryMayVanish` | pan/cache.go:37-50 | such a state is reached from the empty cache, and a fresh entry vanishes |
| `DirectoryDriver.Driver.List` | pan/driver/aliyundrive_open/driver.go:118-171 | the answer shows exactly the directory, each object once; it comes from the cache when that has a fresh listing, which then stays as it is, and else from the server, stored with its time of expiry and the handle of the request, which all its objects carry; it fails exactly when the listing is not fresh in the cache and the server refuses |
| `DirectoryDriver.Driver.ObjRename` | pan/driver/aliyundrive_open/driver.go:173-194 | renames the object only; with a true handle the cache agrees afterwards; a refused request changes nothing, and a handle without a parent crashes the driver after the request, with nothing forgotten |
| `DirectoryDriver.Driver.MkdirBelow` | pan/driver/aliyundrive_open/driver.go:229-272 | makes just the directories up to the first refused request, each below the one before, finding the id by a listing where the server does not tell it; on success the cache agrees |
| `DirectoryDriver.Driver.Move` | pan/driver/aliyundrive_open/driver.go:274-318 | for any handles: moves just the items up to the first refused request and forgets, on success, the parents the handles name and the target; only listings of the real parents and the target can be wrong, and none of those forgotten |
| `DirectoryDriver.Driver.Delete` | pan/driver/aliyundrive_open/driver.go:320-355 | for any handles: removes exactly the items up to the first refused one, with all below them, and forgets, on success, the parents the handles name; only listings of the real parents can be wrong, and none of those forgotten |
| `DirectoryDriver.MoveAllParents` | pan/driver/aliyundrive_open/driver.go:274-318 | a sequence of moves changes nothing but the parents of the moved objects, which become the target |
| `DirectoryDriver.ParentIdsAre` | pan/driver/aliyundrive_open/driver.go:300-316 | the listings forgotten for moved or deleted objects are those of the parents their handles name, and no others |
| `Session.Perform` | pan/driver/aliyundrive_open/driver.go:118-355 | any operation on true handles that succeeds changes the tree as it is to and keeps cache and server in agreement |
| `Session.Run` | pan/driver/aliyundrive_open/driver.go:118-355 | after any run of successful operations, with time passing and sweeps in between, the tree is what the operations make of it one after the other, and every cached listing of a live directory shows exactly what is there |
| `Directory.RenameSpoilsParent` | pan/driver/aliyundrive_open/driver.go:192-192 | a renaming can make no listing wrong but the parent's |
| `Directory.CreateSpoilsParent` | pan/driver/aliyundrive_open/driver.go:267-267 | a new directory can make no listing wrong but the parent's |
| `Directory.MoveSpoilsBoth` | pan/driver/aliyundrive_open/driver.go:313-316 | a move can make no listing wrong but those of the old parent and the target |
| `Directory.DeleteSpoilsParent` | pan/driver/aliyundrive_open/driver.go:351-353 | a deletion can make no listing of a live directory wrong but the parent's |
| `Invalidation.RenameKeepsIff` | pan/driver/aliyundrive_open/driver.go:173-194 | for every handle the cache agrees after a renaming, or after the crash that a handle without a parent brings, exactly when the name did not change or the real parent's listing is not cached afterwards |
| `Invalidation.DeleteKeepsIff` | pan/driver/aliyundrive_open/driver.go:320-355 | after deleting any objects and forgetting any listings the cache agrees exactly when the real parent of each object is not cached any more or went too |
| `Invalidation.QuarkDeleteKeepsIff` | pan/driver/quark/driver.go:341-356 | after a deletion of a list of objects in quark the cache agrees exactly when each one's real parent was not cached, goes too, or is named as its parent by some file of the list |
| `Invalidation.ForgottenIff` | pan/driver.go:575-600 | a listing is forgotten exactly when it is that of a directory in the list or, when deleting, of the parent that a file in it names |
| `Invalidation.QuarkDeleteDirsIff` | pan/driver/quark/driver.go:341-356 | after deleting directories only, exactly when each real parent was not cached or goes too |
| `Invalidation.QuarkDeletesOneDir` | pan/driver/quark/driver.go:341-356 | deleting one directory out of a cached one forgets nothing that is cached and leaves it in the listing |
| `Invalidation.PartialDeleteKeepsIff` | pan/driver/aliyundrive_open/driver.go:320-355 | after a deletion that stopped half-way the cache agrees exactly when the real parent of each object deleted is not cached or went too |
| `Invalidation.MoveKeepsIff` | pan/driver/aliyundrive_open/driver.go:274-318 | after moving any objects and forgetting any listings the cache agrees exactly when each object stayed in its directory or neither that nor the target is cached any more |
| `Invalidation.QuarkMoveKeepsIff` | pan/driver/quark/driver.go:316-339 | after a move of a list of objects in quark the cache agrees exactly when each stayed in its directory, or that and the target were each not cached or a directory of the list |
| `Invalidation.QuarkMoveFilesIff` | pan/driver/quark/driver.go:316-339 | moving files only forgets nothing, so the cache agrees exactly when each stayed or neither its directory nor the target was cached |
| `Invalidation.QuarkMovesOneFile` | pan/driver/quark/driver.go:316-339 | moving one file out of a cached directory forgets nothing and leaves it in the listing |
| `Invalidation.PartialMoveKeepsIff` | pan/driver/aliyundrive_open/driver.go:274-318 | the same for a move that stopped half-way, which forgets nothing |
| `Invalidation.PartialMkdirKeepsIff` | pan/driver/aliyundrive_open/driver.go:229-272 | after making a path stopped half-way the cache agrees exactly when nothing was made or the directory above the first one made is not cached |
| `MakeDirectory.WalkIs` | pan/driver.go:625-685 | the objects on a path exist under their names one below the other, and below the last one nothing has the next name |
| `MakeDirectory.GetPanObj` | pan/driver.go:625-685 | the answer is the deepest object that exists on the path, and the one at the full path when it must exist; there is none exactly when it must exist and a name is missing, or a name is to be looked for in a file, or in a directory that is not fresh in the cache before the call and not listed by the server; a path that exists in directories that can be listed is always answered |
| `MakeDirectory.WalkAfterCreate` | pan/driver/cloudreve/driver.go:218-224 | making the first missing directory makes the path exist for one name more and keeps names unique |
| `MakeDirectory.Mkdir` | pan/driver/cloudreve/driver.go:183-226 | exactly the missing directories are made, one at a time, and the answer is the object at the path; it succeeds exactly when the last name has no extension, nothing on the path is barred, every missing directory is granted, and the server lists each directory that one was made in; otherwise a prefix of them is made, up to the first refusal, with the cache in agreement |
| `MakeDirectory.MkdirInLoop` | pan/driver/aliyundrive_open/driver.go:200-272 | the loop makes the directories the recursion makes and answers the last one; it succeeds exactly when nothing on the path is barred, every request is granted, and every id that was not told can be looked up; otherwise it leaves a prefix of them, and the cache disagrees exactly when some were made and the listing above the first one is cached |
| `MakeDirectory.MadeAreWalked` | pan/driver/aliyundrive_open/driver.go:229-272 | directories made one below the other along a path are the path's next objects |
| `BatchRename.BatchSucceedsIff` | pan/driver.go:533-566 | every request of the post-order list finds its path when its turn comes and is accepted exactly when no names collide, and then each object is at its place with its id and kind under the name the function gives for the original object |
| `BatchRename.BaseBatchRename` | pan/driver.go:533-566 | the recursion carries out exactly a prefix of the post-order list of renames, all of it on success, and stops only when the server refuses |
| `BatchRename.BatchRename` | pan/driver/baidu_netdisk/driver.go:146-162 | unless the server refuses for reasons of its own, the batch succeeds exactly when no names collide; then every object below the path, directory or file, is where it was among its siblings with its id and kind, under the name that the function gave for it at its original path |
| `BatchRename.RenamedIsThere` | pan/driver.go:543-564 | place by place: each node of the outcome has the id and kind of the one that was there and the name the function gives for it at its original path, and there are no others |
| `BatchRename.OneOutcome` | pan/driver.go:543-564 | only one tree is so |
| `BatchRename.NoCollisionsIff` | pan/driver.go:543-564 | names collide exactly when, in some directory, a new name is the new or the old name of a later object |
| `BatchRename.DirectoriesKeepTheirKids` | pan/driver.go:543-564 | each directory is afterwards at its path with the new names and holds what it held, renamed |
| `BatchRename.TakenForNow` | pan/driver.go:554-562 | a new name that is still a later object's name is refused although the final names would be distinct |
| `PathCache.RenameKeepsPathsIff` | pan/driver/baidu_netdisk/driver.go:146-158 | with listings held under paths, a renaming keeps them right exactly when each listing still held under the new name is right for what has that name now |
| `PathCache.NothingHeldThere` | pan/driver/baidu_netdisk/driver.go:146-158 | a renaming keeps listings held under paths right when none is held at or below the new name |
| `PathCache.InsertKeepsIff` | pan/driver/baidu_netdisk/driver.go:164-223 | adding an object keeps them right exactly when its directory's listing is not held and each left under its path is right for what is below it |
| `PathCache.MkdirKeepsPathsIff` | pan/driver/baidu_netdisk/driver.go:164-192 | making a directory, which forgets nothing, keeps them right exactly when the listing it is in is not held and none that is not empty is held under its path |
| `PathCache.RemoveKeepsPaths` | pan/driver/baidu_netdisk/driver.go:225-243 | the same for one object |
| `PathCache.RemovedIs` | pan/driver/baidu_netdisk/driver.go:225-243 | taking an object out leaves the others of its directory as they were and in order, and the other directories alike |
| `PathCache.DeleteKeepsPaths` | pan/driver/baidu_netdisk/driver.go:225-243 | deleting a list of objects, and forgetting the directories they are in, always keeps the other listings right |
| `PathCache.MoveKeepsPathsIff` | pan/driver/baidu_netdisk/driver.go:194-223 | moving an object, and forgetting its directory and the target, keeps listings held under paths right exactly when each still held under the new path is right for what is there now |
| `PathCache.MovedIs` | pan/driver/baidu_netdisk/driver.go:194-223 | a moved object is in the target as it was, and no longer where it was |
| `PathCache.FitsAfterRename` | pan/driver/baidu_netdisk/driver.go:101-158 | after a renaming every listing outside the directory and the new name is as right as before |
| `PathCache.OldNameShowsThrough` | pan/driver/baidu_netdisk/driver.go:146-158 | two accepted renamings after which a listing shows the contents of a directory that has another name now |

## Left out

- HTTP, JSON, tokens, signatures and captchas: requests succeed or fail as a parameter says; a successful download request delivers exactly the bytes asked for, and a body cut off is a prefix of them. An error answer's body, which the client writes to the chunk file before the retry truncates it, is not modelled.
- SHA-1, MD5 and the rapid-upload proof code (`calProofCode`): hashes are parameters; the proof code is a single seek and read.
- The file system: a file is its bytes and a directory a map from names. A chunk file of the right length is assumed to hold the right bytes, and an existing output to be a prefix of the remote file, at the start of a history (`Resume.EmptyDiskIsGood` gives one such start).
- Sums in 64 bits: `start + chunkSize - 1` does not wrap in the model. Downloads are limited to file sizes that fit 64 bits where names are printed.
- Resume.ManyRuns: keeps the chunk size fixed between runs and at least 2, wants no remainder of one byte (`ResumeAnyChunk.ManyRunsAnyChunk` does neither, but wants that no gap loses its last byte), and counts a run as one that has ended: goroutines of a failed run that still write while the next call plans are not modelled.
- The HEAD request for an unknown size, the output name taken from the URL, `runningMap` and the per-chunk progress display.
- Speed, percentages, logging and sleeps.
- CloudreveUpload.ManyCalls: the server offers the same chunk size for every session, and the file does not change between the calls; looking for the file and making its directory before the upload are left out.
- ProtocolLiveness.SomeoneCanStep: a worker that sits in a request is taken to get its answer; time-outs are failures.
- AliyunUpload.DoNormalUpload: an answer that the server has the part already (status 409) counts as one that took the whole section, and the final request is left out.
- AliyunUpload.PartCountIs: limited to files below 2^53 bytes, where the conversion to a double is exact.
- Object ids are numbers, and the special ids of a root (`0`, `root`) are one; `List` setting the id of a handle in place is part of that.
- Paths are sequences of names: cleaning, trimming and joining of path strings is not modelled, nor a parent handle in `Mkdir` whose path does not end as the code expects, nor doubled separators.
- DirectoryDriver.Driver.List: paging and objects resolved from a path before the request are not modelled; the handle is given.
- PathCache.MkdirKeepsPathsIff: the server makes one directory at a time, in one that is there.
- PathCache.MoveKeepsPathsIff: one object of a request, which may have several.
- BatchRename.BaseBatchRename: names are taken as they are (a new name with a separator in it is just a name), a failed request has no effect, and the function sees an object's path, name, id and kind.
- A loader that runs while another goroutine deletes the key it loads: directory operations are proved for one goroutine, the cache alone for any number.
- Uploads and downloads of whole directories, shares, off-line tasks, the proxy, the driver registry, and the thunder driver, whose loops repeat those modelled.
