# Homir: model and proofs

A Dafny model of Homir, a caching proxy for package repositories, and proofs about it. It covers the
parts where a mistake would hand a client wrong bytes or a wrong package:

- **Shared downloads** (`internal/cache/cache.go`). One writer per cache key appends an upstream body to a
  part file; any number of readers follow the growing file; the file is then renamed into the artifacts and
  recorded. Several models, tied together by lemmas:
  - `SessionMonitor` is the mutex-protected session, as a class whose methods compute the functions the
    protocols use. `Writer` is `download` itself, from start to end, as methods on that class. `SessionRuns`
    takes every interleaving of its critical sections: reader counts, the idle timer, keep-alive, sleepers on the
    condition and their wakers; `SessionHistory` tells their state from what has happened.
  - `Downloads` is the transition system of writers, requests, inodes and paths, open descriptors, rows,
    cleanup and crashes, one step for each critical section or file operation. `DownloadInvariant` states what
    holds in between, and `DownloadSteps` and `DownloadRuns` prove that every step keeps it; `DownloadHistory` adds
    what the sessions of one key leave to one another, and `DownloadReaders` which files readers have open.
    `DownloadLengths` follows the Content-Length from the headers to the artifact and the responses,
    `DownloadProgress` says that readers get on and what a crash may do, and
    `DownloadAlone` shows that the writer's steps amount to what the method in `Writer` does.
    `DownloadTheorems` draws the conclusions over whole runs,
    restarts included; `DownloadReuse` does for readers of artifacts, `DownloadRows` for the size in the row.
    `DownloadFailures` holds the reachable states in which a reader does not get what it was promised.
  - `Streaming` is `streamGrowingFile` as methods with loops, against every schedule of the writer, the
    context and the client. `DownloadTheorems.ViewIsValid` and `ViewFollows` show that `Downloads` is such a
    schedule.
  - `Ranges` is `parseRange`; `Eviction` is `Cleanup` over the artifact table.
- **Version orders.** `DebianVersion` proves the comparator of `internal/apt/version.go` to be the algorithm
  of section 5.6.12 of the Debian Policy Manual; `ApkVersion` treats `internal/apk/version.go`. Both are total
  preorders on all strings. `Orders`, `Text` and `Sequences` hold what they share.
- **Newest-N selection.** `Selection` (APT and APK) and `Releases` (PyPI), with map iteration and the sort
  (`Sorting`) used only by what they promise, so the results hold for every order of both.
- **Indexes, catalog and links.** `Stanzas` parses index lines, `Catalog` replaces the catalog of an index,
  `Base64Url` and `Links` sign and verify artifact links.

`dafny verify dfyconfig.toml` checks everything.

## What the code does not do

The proofs follow the code where it and its documentation part ways, or where a natural property fails.

- **A reader can be given another download's bytes.** `serveSession` copies the path under the lock
  (`internal/cache/cache.go:374-376`) and opens it later (line 401), when the session may have left and another one
  of the key may have come.
  - It then opens that one's part file. In `DownloadFailures.StaleReaderSendsOtherBytes` it sends its byte, and in
    `StaleReaderSpins` that file is still empty and the copying loop (lines 491-509) goes round without sleeping
    or looking at its context; in neither did a file operation fail. The file opened is the session's own if and
    only if the session is still in the map, or left the file behind and no later session opened it
    (`DownloadTheorems.PartOpensOwnIff`).
  - Or it opens the artifact that one made: `StaleReaderOpensNextArtifact`. It is the session's own file if and
    only if no later session of the key was promoted (`ArtifactOpensOwnIff`).
  - Whatever it opens was made for its key, and only sessions of that key write to it
    (`DownloadReaders.FileIsOfKey`, `OnlyItsKeyWrites`). A reader that opened its session's own file keeps it and is
    served, along every run (`OwnReaderIsServed`), unless the session left the file behind and a later one opened it.
- **A failed removal lets a later session truncate a file in use.** A session loses its file if and only if its own
  remove or rename of it failed and a later session of the key opened the part file (`FilesAreKept`);
  `FailedRemoveLosesBytes` is a run in which that happens.
- **A 304 can announce more bytes than the cached object has.** `setCachedFile` announces the size in the row
  (line 245). After a failed `store.Complete` or a crash the row may be of another file. The cached object is the
  session's own file if and only if its length is the row's size (`DownloadReuse.ReuseOwnIff`); a reader of it can
  get stuck in the copying loop if and only if the object is shorter than what it asked for (`ReusedReaderStallsIff`;
  `PromotedReaderStallsIff` for a reader of any artifact), and then never gets out (`StallIsForever`); a response of the whole object is whole if and only if the lengths
  agree (`ReusedDelivery`). `StaleRowSpins` is such a run, with the session in the map and no failed file
  operation.
- **Row and artifact can disagree on the size.** A rename breaks the agreement if and only if the row has another
  size (`DownloadRows.BrokenIff`), and recording restores it; short of a crash they disagree only while the session
  the artifact is from has not recorded it, or after it failed to (`RowsAgreeUnlessUnrecorded`).
- **A kept-alive session can still be idle-cancelled** by a callback that had fired and was waiting for the
  lock: `SessionRuns.KeptAliveCancelledIff` gives the condition.
- `docs/ARCHITECTURE.md:36-37` promises a check of the body's integrity before promotion; the code has none.
  What is proved is that a promoted file is the whole body of a response.
- `README.md:53-54` promises resume requests. The suffix form `bytes=-n` of section 14.1.2 of RFC 9110, lists of
  ranges and ranges of a body of unknown length are refused (`Ranges.SuffixRangeRefused`).
- The Alpine order puts `_alpha` and `_rc` after the plain version (`ApkVersion.UnderscoreSortsAfter`), unlike
  apk-tools.
- `selectRecords` does not always keep the first compatible record of a version, and without an architecture
  filter a record with an empty architecture takes the place of an independent one; asked for the independent
  architecture itself it keeps the last one. `Selection.FirstIsKeptIff` is the condition over all filters.
- The catalog is not the union of the latest indexes: a path belongs to the index that mentioned it last, and
  goes when that index drops it (`Catalog.RunOwner`). `Catalog.NotTheUnion` has three updates after which a path of
  the latest index of one name is gone.

## Model

| member | source | states |
|---|---|---|
| `DownloadRuns.EveryRun` | internal/cache/cache.go:195-297 | the invariant of files, sessions, map and requests holds in every state any sequence of steps of writers, requests, prefetches, cleanups and restarts can reach |
| `DownloadRuns.StepKeeps` | internal/cache/cache.go:195-570 | one step of anybody, enabled by its guard alone, keeps the invariant |
| `DownloadTheorems.ArtifactsAreWhole` | internal/cache/cache.go:254-297 | in every reachable state, after a crash at any point included, each file of the artifacts is the whole body of a successful response for its key; how long that body is, is `DownloadLengths.LengthIsKept` |
| `DownloadLengths.LengthIsKept` | internal/cache/cache.go:254-287 | from the headers of a response on, along every run short of a crash, the session is ready with exactly its Content-Length; once it is promoted or complete without error its body, and the file it promoted, have that many bytes |
| `DownloadLengths.LengthIsTold` | internal/cache/cache.go:375-411 | every request of such a session is told that length, streams a part below it or the whole, and has been sent as much as it was told when its response ends without error |
| `DownloadLengths.EveryPromoted` | internal/cache/cache.go:281-297 | in every reachable state, the file a session promoted is exactly what it received |
| `DownloadTheorems.PromotedStays` | internal/cache/cache.go:281-283 | no step of anybody changes a file that was ever renamed into the artifacts |
| `DownloadTheorems.HitServesWhole` | internal/cache/cache.go:174-186 | a cache hit that opened its file is served a whole body, and the same bytes along any further steps, cleanup and replacement included |
| `DownloadTheorems.RecordedSize` | internal/cache/cache.go:287-296 | the row a finished download records has the size of the artifact its key leads to |
| `DownloadTheorems.OneDownloadPerKey` | internal/cache/cache.go:195-216 | unfinished downloads and entries of the sessions map are in bijection |
| `DownloadTheorems.JoinShares` | internal/cache/cache.go:195-200 | a request that misses while its key is being downloaded joins that session and starts none |
| `DownloadReaders.JoinedSession` | internal/cache/cache.go:195-208 | a miss joins the session of its key in the map, and only if there is none a new one, started with the row of the stale object |
| `DownloadReaders.KeyIsKept` | internal/cache/cache.go:160-193 | along every run short of a crash a request is for the key it asked for until it is over: its row, its artifact and its session are that key's |
| `DownloadReaders.AskedIsStreamed` | internal/cache/cache.go:393-411 | a request that opens its file for some bytes streams those bytes' range from that file until it is over |
| `DownloadTheorems.FoundIff` | internal/cache/cache.go:170-193 | a request is a hit if and only if its key has a row, the artifact can be opened and is current; a stale one hands on the size in its row |
| `DownloadTheorems.ArtifactChangesIff` | internal/cache/cache.go:281-286 | short of a crash, an artifact appears if and only if a session of its key renames its part file, and goes if and only if it is cleaned up |
| `DownloadTheorems.RowChangesIff` | internal/cache/cache.go:291-296 | short of a crash, a row is written if and only if a session of its key records its object, and goes if and only if it is deleted |
| `DownloadTheorems.FilesAreKept` | internal/cache/cache.go:218-286 | a session's file is truncated by a later one if and only if its own remove or rename of it failed and a later session of the key opened the part file; otherwise the file has everything the session received |
| `DownloadFailures.FailedRemoveLosesBytes` | internal/cache/cache.go:218-233 | after a failed remove, a sequence of steps in which the next session truncates the earlier one's file |
| `DownloadTheorems.ReadsMakeProgress` | internal/cache/cache.go:491-509 | what is announced is in the session's own file, so a read there returns all bytes asked for and the copying loop advances; over any file it does if and only if the file has that much |
| `DownloadProgress.WaitsIff` | internal/cache/cache.go:463-490 | a reader waits if and only if it has been sent all that is announced but not all it asked for, and the download goes on |
| `DownloadProgress.PassAdvances` | internal/cache/cache.go:463-511 | every pass of the streaming loop either lets the copying loop advance, to the end of what is announced or asked for, or ends the response, and with an error if and only if the download failed short of what was asked for |
| `DownloadProgress.ReaderFinishes` | internal/cache/cache.go:450-512 | once its download has ended, a reader of its session's own file can always go on to the end by reading alone, without an error if and only if the download succeeded or had announced all that was asked for |
| `DownloadTheorems.ReaderBytes` | internal/cache/cache.go:462-511 | at every moment a reader of its session's own file has sent exactly the received bytes from its start |
| `DownloadTheorems.AnnouncedLength` | internal/cache/cache.go:393-411 | a response that ends without error has the length its headers announced, 206 or 200; that the session announces the Content-Length of its response is `DownloadLengths.LengthIsKept` |
| `DownloadTheorems.CompleteDelivery` | internal/cache/cache.go:402-411 | a response over its session's own file that ends without error is the part asked for; without a range it is a whole upstream body |
| `DownloadReaders.OwnReaderIsServed` | internal/cache/cache.go:401-411 | along every run, a reader that opened its session's own file has the session's bytes from its start, and if it ends without error the part asked for or a whole upstream body, unless the session left the file behind and a later one opened it |
| `DownloadReaders.FileIsOfKey` | internal/cache/cache.go:374-401 | the file of every request that streams or has streamed was made for the key it asked for |
| `DownloadReaders.OnlyItsKeyWrites` | internal/cache/cache.go:218-286 | short of a crash, only a session of the key a file was made for changes it |
| `DownloadTheorems.PartOpensOwnIff` | internal/cache/cache.go:374-401 | opening the part file of a snapshot finds the session's own file if and only if the session is still in the map, or left the file behind and no later session opened it |
| `DownloadTheorems.PartIsThereIff` | internal/cache/cache.go:281-286 | while the session is in the map, its part file can be opened if and only if the session still holds it, or failed to remove or rename it |
| `DownloadTheorems.ArtifactOpensOwnIff` | internal/cache/cache.go:374-401 | opening the artifact of a snapshot finds the session's own file if and only if no later session of the key was promoted |
| `DownloadFailures.StaleReaderSpins` | internal/cache/cache.go:374-401 | a reachable state in which a reader copies from the empty part file of a later session and no read changes anything |
| `DownloadFailures.StaleReaderSendsOtherBytes` | internal/cache/cache.go:374-401 | a reachable state in which a reader has sent a byte of a later session that its own session never received |
| `DownloadFailures.StaleReaderOpensNextArtifact` | internal/cache/cache.go:374-401 | the same through the artifact path: the reader of a session that succeeded and left has sent a byte of the next one |
| `DownloadFailures.StaleRowSpins` | internal/cache/cache.go:238-252 | a reachable state in which a reader of a 304, its session in the map and no file operation failed, goes round for a byte the cached object does not have |
| `DownloadFailures.StaleRowSpinsForever` | internal/cache/cache.go:491-509 | there is one such state from which, whatever anybody does, the request stays where it is |
| `DownloadReuse.ReuseOwnIff` | internal/cache/cache.go:244-245 | on a 304 the cached object is the session's own file if and only if its length is the row's size, which is announced in any case |
| `DownloadReuse.ReusedBytes` | internal/cache/cache.go:450-512 | whatever the row says, the bytes a reader of a 304 has sent are those of one whole body from its start |
| `DownloadReuse.ReusedDelivery` | internal/cache/cache.go:402-411 | a whole-object response of a 304 is the whole object if and only if the object has the announced length |
| `DownloadReuse.StallsIff` | internal/cache/cache.go:491-509 | a read gives nothing if and only if the offset is at or past the end of the file and below the limit |
| `DownloadReuse.PromotedReaderStallsIff` | internal/cache/cache.go:450-512 | a reader of any file that was ever an artifact can get stuck if and only if the file is shorter than what it wants of what is announced, and it is not through yet |
| `DownloadReuse.ReusedReaderStallsIff` | internal/cache/cache.go:450-512 | a reader of a 304 can get stuck if and only if the object is shorter than what it asked for |
| `DownloadReuse.StallIsForever` | internal/cache/cache.go:491-509 | over a file that was ever an artifact no step of anybody gets it out |
| `DownloadRows.BrokenIff` | internal/cache/cache.go:281-291 | short of a crash, a step breaks the agreement of row and artifact if and only if it promotes a file of another length than the row's |
| `DownloadRows.RowsAgreeUnlessUnrecorded` | internal/cache/cache.go:281-296 | along any steps without a crash, row and artifact agree on the size unless the session the artifact is from has not recorded it or failed to |
| `DownloadRows.RowsOfAFirstProcess` | internal/cache/cache.go:281-296 | in particular from an empty cache on |
| `DownloadTheorems.ViewIsValid` | internal/cache/cache.go:450-512 | every session with a file satisfies what the streaming loop relies on |
| `DownloadTheorems.ViewFollows` | internal/cache/cache.go:450-512 | until a restart, every step of anybody is to a reader of the session no change or one move of the world the streaming loop is proved against |
| `DownloadInvariant.NextIsLocal` | internal/cache/cache.go:210-297 | each step of a writer keeps its session's counters, flags, path and control point consistent |
| `DownloadInvariant.NextGrows` | internal/cache/cache.go:514-570 | a session only grows: bytes and announcements are never taken back, totals and file are fixed once ready, a finished session is frozen |
| `DownloadInvariant.RequestStays` | internal/cache/cache.go:366-410 | what a request relies on survives whatever sessions and files do |
| `DownloadSteps.NotShared` | internal/cache/cache.go:218-286 | a session that once had the file another one now writes has lost it and writes nothing |
| `DownloadSteps.SteadyKeeps` | internal/cache/cache.go:225-296 | steps that touch no file keep the invariant |
| `DownloadSteps.AppendKeeps` | internal/cache/cache.go:257-264 | writing a chunk, wholly or in part, keeps the invariant |
| `DownloadSteps.OpenKeeps` | internal/cache/cache.go:218 | creating or truncating the part file keeps the invariant |
| `DownloadSteps.UnlinkKeeps` | internal/cache/cache.go:231-286 | removing the part file, and failing to remove or rename it, keep the invariant |
| `DownloadSteps.RenameKeeps` | internal/cache/cache.go:281-287 | promoting the part file keeps the invariant |
| `DownloadSteps.ReuseKeeps` | internal/cache/cache.go:238-252 | announcing the cached file on a 304 keeps the invariant, whether or not the file still is what the row says |
| `DownloadSteps.LeaveKeeps` | internal/cache/cache.go:212-216 | leaving the sessions map keeps the invariant |
| `DownloadRuns.CopyOk` | internal/cache/cache.go:491-509 | copying sends the received bytes at the offset, all that were asked for |
| `DownloadRuns.CheckOk` | internal/cache/cache.go:464-490 | a pass of the streaming loop returns only when the response is complete, and never allows more than is announced or asked for |
| `DownloadRuns.SnapshotOk` | internal/cache/cache.go:369-380 | a request that gets past ready without error has the session's total and a path of its file |
| `DownloadRuns.StartedKeeps` | internal/cache/cache.go:195-208 | starting a session for a key without one keeps the invariant |
| `DownloadRuns.CleanupKeeps` | internal/cache/cache.go:753-773 | a removal of an artifact or a row at any moment keeps the invariant |
| `DownloadRuns.CrashKeeps` | internal/cache/cache.go:72-96 | a crash at any moment, lost and undone renames and failed removals at the restart included, keeps the invariant |
| `DownloadProgress.CrashMayLose` | internal/cache/cache.go:72-96 | a crash may scramble all that was not synced, lose part files and rows, and lead artifact paths back to earlier files |
| `DownloadProgress.CrashMayUndo` | internal/cache/cache.go:72-96 | a crash may undo a rename |
| `DownloadHistory.EveryHistory` | internal/cache/cache.go:195-297 | in every reachable state: the sessions of a key follow one another, a part file left behind is there until the next one empties it, and the artifact path leads to a session's file until a later one takes it |
| `DownloadReaders.EveryReader` | internal/cache/cache.go:366-411 | in every reachable state: paths, sessions and readers have files made for their key, and a reader's file is its session's own unless the session has nothing more to announce |
| `DownloadHistory.HolderIsAlone` | internal/cache/cache.go:218-286 | while a session holds the part file, every other session of the key has ended, and has another file or has lost it |
| `DownloadHistory.OpenedOther` | internal/cache/cache.go:218 | opening the part file empties what the last session of the key left behind, and the file of no other session |
| `Writer.Download` | internal/cache/cache.go:210-297 | for every reply and every failing operation, how it ends (`Writer.Outcome`): finished, without an error if and only if the body was promoted and recorded or a 304 revalidated; total, bytes announced, content type and path; a new artifact if and only if a whole body was promoted, and it is that body; the row and the part file accordingly |
| `Writer.Receive` | internal/cache/cache.go:254-279 | the length and type of the response are announced, the body is written and announced up to its end or the first failure, and on a failure the session fails and the part file is removed |
| `Writer.Reuse` | internal/cache/cache.go:238-252 | a 304: the part file goes, the cached object is announced whole, and the session ends |
| `Writer.Promote` | internal/cache/cache.go:281-296 | rename, path, row and end of the session, for every failing operation |
| `DownloadAlone.WriterAlone` | internal/cache/cache.go:210-297 | in the transition system too: from every reachable state, for every reply that keeps its Content-Length and every failing operation, the writer of a new session can go through `download`, and ends exactly as the method does (`Writer.Outcome`), with nothing else changed |
| `DownloadAlone.StepOnFiles` | internal/cache/cache.go:218-296 | what each step of a writer does to the part file, artifact and row of its key |
| `SessionMonitor.Session.constructor` | internal/cache/cache.go:203-204 | a session starts with nothing announced, unknown total and nobody waiting |
| `SessionMonitor.Session.AddReader` | internal/cache/cache.go:412-420 | one reader more and no idle timer |
| `SessionMonitor.Session.RemoveReader` | internal/cache/cache.go:422-438 | one reader fewer; the last one to leave an unfinished session that is not kept alive starts the timer |
| `SessionMonitor.Session.IdleCallback` | internal/cache/cache.go:431-437 | the callback cancels when nobody reads and the session is unfinished, whatever `background` says |
| `SessionMonitor.Session.KeepAlive` | internal/cache/cache.go:440-448 | marks the session and forgets the timer |
| `SessionMonitor.Session.SetHeaders` | internal/cache/cache.go:514-523 | total and type, and ready |
| `SessionMonitor.Session.SetCachedFile` | internal/cache/cache.go:525-535 | the cached object is announced whole, and sleepers are woken |
| `SessionMonitor.Session.SetFilePath` | internal/cache/cache.go:537-541 | the path alone changes |
| `SessionMonitor.Session.AddAvailable` | internal/cache/cache.go:543-548 | more bytes are announced, and sleepers are woken |
| `SessionMonitor.Session.Finish` | internal/cache/cache.go:550-570 | the session is complete, ready and done with no timer, and sleepers are woken |
| `SessionRuns.StepKeeps` | internal/cache/cache.go:366-570 | each critical section keeps the counts, the timer condition and the condition of every sleeper |
| `SessionRuns.EveryRun` | internal/cache/cache.go:366-512 | always: `readers` counts the requests inside serveSession; an idle timer implies no reader, an unfinished session and no keep-alive; a sleeper has nothing to read and its context is live or its waker pending |
| `SessionRuns.IdleCancelIsIdle` | internal/cache/cache.go:431-437 | an idle cancel happens only with nobody inside serveSession and the session unfinished |
| `SessionRuns.KeptAliveStays` | internal/cache/cache.go:440-448 | a session kept alive with no fired callback outstanding is never idle-cancelled |
| `SessionRuns.KeptAliveCancelledIff` | internal/cache/cache.go:431-448 | an unfinished session can be idle-cancelled after a keep-alive if and only if a fired callback was waiting for the lock |
| `SessionRuns.FiredCallbackReachable` | internal/cache/cache.go:422-438 | one reader coming and going leaves such a callback behind |
| `SessionHistory.RequestsAreAsTold` | internal/cache/cache.go:366-512 | over every run, where a request is, how far it has read, whether its context has ended and whether its waker is due follow from what has happened |
| `SessionHistory.SessionIsAsTold` | internal/cache/cache.go:440-570 | over every run, length, path and bytes are those announced last, the session is ready, complete, failed and kept alive exactly when it was told so, and asleep is exactly who went to sleep with no broadcast since |
| `SessionHistory.SleepersAreRight` | internal/cache/cache.go:451-477 | a sleeper has nothing to read in an unfinished session, and if its context has ended its waker is due and wakes it |
| `SessionHistory.TimerIff` | internal/cache/cache.go:412-448 | the idle timer is started if and only if the last request leaves an unfinished session that is not kept alive and has a time to live; it is forgotten when a request enters, on keep-alive and at the end, and no timer is left running unseen |
| `SessionHistory.CallbacksAreFires` | internal/cache/cache.go:431-437 | over every run, the callbacks waiting for the lock are the timers fired and not yet called back, and the session is idle-cancelled if and only if one of them found nobody inside and the session unfinished |
| `SessionHistory.WholeLife` | internal/cache/cache.go:366-570 | one run with every kind of critical section but that of a 304, idle cancel included |
| `Streaming.AwaitBytes` | internal/cache/cache.go:465-477 | the wait ends only with new bytes, an ended download or an ended context; it sleeps on only when nothing else can happen |
| `Streaming.CopyTo` | internal/cache/cache.go:491-509 | sends the file's bytes up to the limit; it stops short only when the client is gone or the disk broken |
| `Streaming.StreamGrowingFile` | internal/cache/cache.go:450-512 | against every schedule: what is sent is the file from `start`; each outcome says what happened (`Truthful`): nil means the whole range, or the whole body of a download that succeeded, and an error that the download, the context, the client or the disk failed; so if in the end none of them has, everything asked for is delivered; it terminates unless asleep with nothing to come |
| `Streaming.Concludes` | internal/cache/cache.go:450-512 | a truthful outcome in a world that ends complete and without trouble is the delivery of the whole range or body |
| `Streaming.MoveFollows` | internal/cache/cache.go:543-570 | moves of others keep announced bytes in the file and never take anything back |
| `Streaming.World.ReadAt` | internal/cache/cache.go:496-508 | ReadAt returns all bytes asked for, or fewer at the end of the file or with an error |
| `Streaming.World.Send` | internal/cache/cache.go:498-500 | a write sends all, unless the client is gone |
| `Ranges.ParseRange` | internal/cache/cache.go:801-826 | computes the range a header asks for, and an accepted part satisfies 0 <= start <= end < total |
| `Ranges.PartIff` | internal/cache/cache.go:801-826 | exactly which headers are answered with a part, and with which; lists, other units, starts that are missing or past the end, and objects of unknown length are refused |
| `Ranges.ParsePrintedRange` | internal/cache/cache.go:801-826 | a printed range `a-b` parses to its existing bytes, and is refused exactly when empty or past the end |
| `Ranges.ParseOpenRange` | internal/cache/cache.go:816-817 | a range without an end runs to the last byte |
| `Ranges.SuffixRangeRefused` | internal/cache/cache.go:809-812 | the suffix form is always refused |
| `DownloadProgress.ParsedRanges` | internal/cache/cache.go:382-390 | whatever parseRange accepts is what the transition system lets a request open its file with |
| `DownloadProgress.EveryRangeParses` | internal/cache/cache.go:382-390 | and a part can be opened there if and only if its printed range parses to itself |
| `Eviction.Manager.Cleanup` | internal/cache/cache.go:721-751 | the new table, files, watches and result are those of the two phases over the two listings, for every failing query; what that means is in the `Cleanup...` lemmas |
| `Eviction.Manager.RemoveCandidate` | internal/cache/cache.go:753-773 | active, stuck file, failing deletes: what each branch removes, counts and returns; what that means for rows, files and watches is `RemoveAllAccounts` and `RemoveAllTouches` |
| `Eviction.Manager.Query` | internal/store/store.go:425-450 | lists exactly the wanted rows, least recently used first, ties in any order |
| `Eviction.Manager.SumSizes` | internal/store/store.go:452-458 | the sum of the sizes |
| `Eviction.RemoveAllAccounts` | internal/cache/cache.go:727-729 | a run of removals removes exactly the evictable rows and counts them |
| `Eviction.RemoveAllTouches` | internal/cache/cache.go:753-773 | a file goes if and only if it can be removed and is that of a candidate without an active session; a watch if and only if that candidate got past its file and the watch can be deleted; candidates with an active session are counted as skipped |
| `Eviction.EvictIsPrefix` | internal/cache/cache.go:742-749 | the capacity phase is the removal of a prefix of its list, to the limit unless the list ends |
| `Eviction.CleanupAccounts` | internal/cache/cache.go:721-773 | ReleasedBytes and RemovedEntries are the drop in stored bytes and rows, also when a query fails |
| `Eviction.CleanupRows` | internal/cache/cache.go:721-773 | which rows stay: only evictable rows go, as inactive or as taken by the capacity phase, and none is changed |
| `Eviction.CleanupKeepsBlocked` | internal/cache/cache.go:754-768 | a row with an active session, or whose file, watch or row cannot be removed, stays as it is |
| `Eviction.CleanupBound` | internal/cache/cache.go:735-750 | a successful cleanup ends within MaxSize or with no removable row left |
| `Eviction.CleanupSparesRecent` | internal/cache/cache.go:722-742 | a row that is untracked or was used since the cutoff goes only if the total after the inactivity phase exceeds MaxSize |
| `Eviction.CleanupRemovesInactive` | internal/cache/cache.go:723-729 | every tracked row last used before the cutoff goes, if its session is not active and nothing fails |
| `Eviction.CleanupEvictsOldest` | internal/cache/cache.go:738-749 | the capacity phase evicts in least-recently-used order |
| `Eviction.CleanupStopsFirst` | internal/cache/cache.go:742-745 | it stops at the first point within the limit |
| `Eviction.CleanupTouches` | internal/cache/cache.go:721-773 | exactly which files and watches a cleanup takes away, and how many candidates it skips |
| `Eviction.CleanupRemovesFile` | internal/cache/cache.go:761-769 | a row that went took its file and its watch along |
| `Eviction.CleanupRemovesOnly` | internal/cache/cache.go:754-765 | a file that went was that of a candidate without an active session, and could be removed |
| `Eviction.CleanupKeepsFiles` | internal/cache/cache.go:721-773 | if no two rows share a file, a row that is no candidate or has an active session keeps its file and its watch |
| `Eviction.CleanupSucceedsIff` | internal/cache/cache.go:723-741 | a cleanup succeeds if and only if it meets no failing query |
| `DebianVersion.CompareTextRuns` | internal/apt/version.go:42-58 | the inner loop decides as the manual's lexical comparison of the initial texts, or stops where both are used up |
| `DebianVersion.CompareDebianPart` | internal/apt/version.go:39-83 | the two-index loop computes the manual's recursive comparison of two parts |
| `DebianVersion.SplitDebianVersion` | internal/apt/version.go:23-37 | epoch, upstream version and revision, the epoch as a wrapping 64-bit number |
| `DebianVersion.DebianVersionCompare` | internal/apt/version.go:8-21 | computes the comparison by epoch, upstream version and revision |
| `DebianVersion.ComparePartIsKeyOrder` | internal/apt/version.go:39-95 | the manual's comparison is lexicographic order on zero-padded keys |
| `DebianVersion.ComparePartTotalPreorder` | internal/apt/version.go:39-83 | the comparison of parts is a total preorder on all strings |
| `DebianVersion.EqualParts` | internal/apt/version.go:39-83 | two parts tie if and only if their normal forms (texts and numbers, without zero tails) are equal |
| `DebianVersion.TildeBeforeEnd` | internal/apt/version.go:87-90 | a tilde sorts before everything, even the end of a part |
| `DebianVersion.CompareTotalPreorder` | internal/apt/version.go:8-21 | the comparison of versions is a total preorder on all strings |
| `DebianVersion.EqualVersions` | internal/apt/version.go:8-37 | two versions tie if and only if epochs and both normal forms are equal |
| `DebianVersion.TildeSuffixSortsFirst` | internal/apt/version.go:8-95 | appending a tilde suffix always makes an earlier version |
| `DebianVersion.TextOrder` | internal/apt/version.go:42-58 | behind any common prefix, a tilde sorts before the letters and these before all other text, each by code, whatever follows |
| `DebianVersion.EndOrder` | internal/apt/version.go:42-58 | a part that goes on with text is greater, unless the text is a tilde |
| `DebianVersion.NumberOrder` | internal/apt/version.go:59-80 | behind any common prefix, the smaller number sorts first, whatever follows |
| `DebianVersion.EpochDecides` | internal/apt/version.go:11-15 | the smaller epoch sorts first, whatever the rest |
| `DebianVersion.NoEpoch` | internal/apt/version.go:23-33 | without a colon the epoch is zero |
| `DebianVersion.UpstreamDecides` | internal/apt/version.go:17-20 | with equal epochs the upstream version decides, and then the revision behind the last hyphen |
| `DebianVersion.NoRevision` | internal/apt/version.go:33-36 | a missing revision counts as zero |
| `Text.CanonicalNumerals` | internal/apt/version.go:72-80 | comparing lengths and then bytes of zero-stripped numerals is comparing the unbounded numbers |
| `Text.ScannedNumeral` | internal/apt/version.go:59-71 | skipping zeros and then digits takes exactly one digit run and its number |
| `Text.CompareStringsLess` | internal/apt/version.go:78 | a string is less if and only if it is a proper prefix or has the lesser character at the first difference |
| `Text.ParseDigits` | internal/apt/version.go:25-30 | the accumulating loop yields the number of the leading digits modulo 2^64 |
| `ApkVersion.CompareVersionBase` | internal/apk/version.go:41-88 | the two-index loop computes the comparison of the token lists |
| `ApkVersion.SplitVersion` | internal/apk/version.go:23-39 | base and revision, the revision only from a final -r with digits alone |
| `ApkVersion.ApkVersionCompare` | internal/apk/version.go:8-21 | computes the comparison by base and then revision |
| `ApkVersion.CompareTotalPreorder` | internal/apk/version.go:8-21 | the comparison is a total preorder on all strings |
| `ApkVersion.EqualVersions` | internal/apk/version.go:8-88 | two versions tie if and only if tokens (digit runs as numbers) up to final zero bytes, and revisions, are equal |
| `ApkVersion.UnderscoreSortsAfter` | internal/apk/version.go:8-85 | an underscore suffix of any kind sorts after the plain version, whatever the revisions of the two |
| `ApkVersion.CharacterOrder` | internal/apk/version.go:71-85 | behind any common prefix, characters decide by their code, a digit against text included |
| `ApkVersion.NumberOrder` | internal/apk/version.go:47-69 | behind any common prefix, the smaller number sorts first, whatever follows |
| `ApkVersion.RevisionDecides` | internal/apk/version.go:11-20 | the base decides, and then the smaller revision sorts first |
| `ApkVersion.NoRevision` | internal/apk/version.go:23-38 | a missing revision counts as zero |
| `Selection.SelectRecords` | internal/apt/handler.go:191-211 | for any comparator that is a total preorder: the newest versions up to the limit, each once, by its representative, newest first; nothing left out is newer |
| `Selection.SelectAptRecords` | internal/apt/handler.go:191-211 | the same with the Debian order and `all` |
| `Selection.SelectApkRecords` | internal/apk/handler.go:177-197 | the same with the Alpine order and `noarch` |
| `Selection.ChosenIsRepresentative` | internal/apt/handler.go:193-201 | for every filter, the empty one included, which record represents a version: the first compatible one, unless that is independent and one of exactly the wanted (or empty) architecture takes its place |
| `Selection.FirstIsKeptIff` | internal/apt/handler.go:197-200 | the condition under which the first compatible record is kept, over all filters |
| `Selection.FirstIsNotKept` | internal/apt/handler.go:197-200 | two records of a version, for an empty filter and for the independent architecture, of which the second is kept |
| `Selection.ChosenIsExactFirst` | internal/apt/handler.go:193-201 | for a named architecture: its first record if there is one, else the first independent one |
| `Selection.ChosenIndependentIsLast` | internal/apt/handler.go:197-200 | asked for the independent architecture itself, by its last record |
| `Selection.ChosenIsAccepted` | internal/apt/handler.go:193-201 | a version is represented if and only if it has a compatible record, and by one of those |
| `Selection.ChosenIff` | internal/apt/handler.go:193-196 | without an architecture every version of the list can be selected, else those with a record of that architecture or an independent one |
| `Selection.SelectionsAgree` | internal/apt/handler.go:202-210 | for any two iteration orders and sorts: equal lengths, and versions that tie position by position |
| `Selection.OnlySelectionIff` | internal/apt/handler.go:202-210 | a selection is the only one if and only if no selected version ties with another compatible one |
| `Selection.NoTiesSameSelection` | internal/apt/handler.go:202-210 | then any two selections are equal; ties among what is left out do not matter |
| `Sorting.SortSlice` | internal/apt/handler.go:206 | a permutation with no element before an earlier one, for a strict weak order |
| `Releases.SelectReleaseFiles` | internal/pypi/handler.go:377-409 | the preferred files of the newest releases with a usable file, newest first; what newest means is `NewestFirst` |
| `Releases.NewestFirst` | internal/pypi/handler.go:395-403 | upload times never ascend, and version strings descend where the times are equal; a usable version left out is no later than any selected one, and of a lesser version string where the times are equal |
| `Releases.Summarise` | internal/pypi/handler.go:380-390 | the usable files of a version and their latest upload time |
| `Releases.PreferredFile` | internal/pypi/handler.go:411-423 | the first universal wheel, else the first sdist, else the first file |
| `Releases.PreferredKind` | internal/pypi/handler.go:411-423 | a universal wheel is preferred to everything, and an sdist to what is neither |
| `Releases.UniversalWheelNames` | internal/pypi/handler.go:413 | which file names are universal wheels |
| `Releases.NewerStrict` | internal/pypi/handler.go:395-400 | the order of releases is a strict weak order |
| `Releases.NewerTotal` | internal/pypi/handler.go:395-400 | on distinct versions it leaves no ties |
| `Releases.TopVersionsUnique` | internal/pypi/handler.go:395-403 | only one list of versions is the newest `count` |
| `Releases.SelectionDeterministic` | internal/pypi/handler.go:377-409 | every iteration order and sort gives the same files |
| `Releases.SelectionUsable` | internal/pypi/handler.go:382-393 | a selected file is neither yanked nor without URL, and min(count, usable releases) are selected |
| `Stanzas.ParseIndex` | internal/apt/handler.go:103-134 | the scan loop computes the parse of the lines, or nothing after a scanner error |
| `Stanzas.ParseConcatenation` | internal/apt/handler.go:115-119 | two line lists joined by a blank line parse to the concatenation of their records |
| `Stanzas.ParseIsStanzaRecords` | internal/apt/handler.go:109-114 | the records of an index are those of its stanzas, each field read from the last line that sets it |
| `Stanzas.LineIgnored` | internal/apt/handler.go:120-127 | a line without a colon, or in a Packages file one that starts with a blank, changes nothing, wherever it stands |
| `Stanzas.RecordIff` | internal/apt/handler.go:109-114 | a stanza gives a record if and only if every required field has a value |
| `Stanzas.ParsePrinted` | internal/apt/handler.go:103-134 | printed well-formed records come back, whatever continuation lines and other fields are interleaved |
| `Stanzas.PrintPrints` | internal/apk/handler.go:98-113 | the plain printing of a record is such a printing, in both formats |
| `Stanzas.TrimPadding` | internal/apt/handler.go:126 | trimming removes exactly the white space around a trimmed value |
| `Stanzas.SpaceCodes` | internal/apt/handler.go:126 | which code points are white space |
| `Catalog.Store.Replace` | internal/store/store.go:244-268 | the replaced table, or the table unchanged if any statement fails |
| `Catalog.Store.RecordsOf` | internal/store/store.go:283-299 | exactly the rows of the package, each path once |
| `Catalog.Store.RecordForArtifact` | internal/store/store.go:270-281 | the row of the path, if any |
| `Catalog.ReplacedRow` | internal/store/store.go:244-268 | every row after a replacement: last wins, owned by the index; other rows stay unless the index owned them |
| `Catalog.OwnedRows` | internal/store/store.go:250-266 | the rows the index then owns are exactly the last-wins map of its records by path |
| `Catalog.OtherRows` | internal/store/store.go:253-256 | other upstreams keep every row; other indexes lose only named paths |
| `Catalog.ReplaceIdempotent` | internal/store/store.go:244-268 | replacing twice is replacing once, but for the time |
| `Catalog.ReplaceCommutes` | internal/store/store.go:244-268 | replacements for different upstreams commute |
| `Catalog.LookupsAgree` | internal/store/store.go:270-299 | the lookups by package and by path agree on every record |
| `Catalog.RunOwner` | internal/store/store.go:244-268 | over any run of replacements: a path is present if and only if the index that mentioned it last was not replaced since, with that mention's last record |
| `Catalog.NotTheUnion` | internal/store/store.go:250-266 | three updates after which a path is gone although the latest index of one name lists it |
| `Base64Url.DecodeEncode` | internal/pypi/handler.go:208-211 | unpadded base64url decodes what it encodes |
| `Base64Url.EncodeInAlphabet` | internal/pypi/handler.go:208 | the encoding has no character outside the alphabet, so no dot |
| `Base64Url.DecodesIff` | internal/pypi/handler.go:219-231 | a text decodes if and only if, but for line breaks, it is all in the alphabet and has no letter left over |
| `Base64Url.BreakIgnored` | internal/pypi/handler.go:219-231 | a line break, wherever it stands, does not change what a text decodes to |
| `Links.VerifyAccepts` | internal/pypi/handler.go:214-242 | verify accepts a token as a link if and only if the token spells it with the MAC of its payload and project and URL are valid |
| `Links.AcceptedLink` | internal/pypi/handler.go:230-241 | an accepted link names one path segment and an absolute http or https URL with a host and without a fragment |
| `Links.VerifySign` | internal/pypi/handler.go:207-242 | a signed link verifies as itself if and only if its project and URL are valid |
| `Links.SignedLinkIff` | internal/pypi/handler.go:207-242 | what that validity is: one path segment that is not a dot or two, and an http or https URL with a host and no fragment |
| `Links.SignInjective` | internal/pypi/handler.go:207-212 | two links with valid projects never share a token |

## Left out

- HTTP, TLS, URL parsing, response headers and upstream failover: an upstream is any source of a 304, a body in
  chunks that ends as its Content-Length says, or an error. That the HTTP library enforces Content-Length is
  assumed (the guards of `ReadChunk` and `EndOfBody` in `Downloads.CanWork`).
- SQLite: tables are maps, and a transaction commits or leaves the table unchanged.
- SHA-256 and HMAC: cache keys are assumed distinct for distinct objects, the MAC is any function of the payload
  with a non-empty result.
- Decompression, tar and HTML: parsing starts from a list of lines.
- `internal/admin`, `internal/server`, `internal/config`, `cmd/homir`: no property beyond routing and defaults.
- Watches, touch times, content types, validators and the refresh interval in `Downloads`: whether a cached
  object is current is any choice, and so is the prior row of a prefetch or refresh.
- Timers, tickers and contexts in `Downloads`: a writer may fail at any read and a request may end at any moment.
  Timers, keep-alive and wakers are in `SessionRuns`, files are in `Downloads`; the two share the session's
  fields but not one state.
- Readers after a restart: a crash ends the process, its sessions and its requests.
- The order of the writer's steps is the code's, but Read and Write of one chunk are one step.
- Writer.Download: one chunk is one Read and one write, and what others do to the session meanwhile is in
  `SessionRuns` and `Downloads`; what a failed write leaves in a part file that cannot be removed is not stated.
- Liveness: that a waiting reader is woken, that a reader can always go on, and that each pass advances is proved
  (`SessionRuns.EveryRun`, `DownloadProgress`); no fairness is assumed of the scheduler, so not that it does go on.
- Allocation, and the 64-bit width of sizes, offsets and `MaxSize`: they are unbounded here. Epochs and revisions
  wrap as in the code.
- fmt.Sscan: a parameter, known only to read canonical decimals back.
- Sorting in place and truncating the same slice: sequences here, so aliasing of the slice is not captured.
- The APK copies of the catalog functions, which only repeat the APT ones under another table name.
- Bytes against characters: versions and index lines are strings of characters, so the results cover all bytes.
  bufio.Scanner's splitting into lines and its line limit are not part of this model.
- A negative limit or count of a selection, which makes the code panic: limits are natural numbers.
- DownloadTheorems.ReaderBytes: says nothing of a reader whose descriptor is not its session's own file, because
  then it is false (`StaleReaderSendsOtherBytes`). For a session that answers from the cached object,
  `DownloadReuse.ReusedBytes` does.
- DownloadLengths.LengthIsKept: not across a crash, which ends the session; what the artifact then is, is `DownloadTheorems.ArtifactsAreWhole`.
- DownloadAlone.WriterAlone: the writer's steps one after the other; what others do in between is in the invariants.
  Its content type is always empty, as no theorem about files depends on it; `Writer.Download` has it.
- DownloadTheorems.ArtifactOpensOwnIff: only for a session that has a file; one that reuses a cached object of
  another length than the row's has none (`DownloadReuse.ReuseOwnIff`).
- DownloadRows.RowsAgreeUnlessUnrecorded: nothing about the first agreement after a crash, which may lose the last
  rename or the last row.
- Eviction.Manager.Cleanup: the set of active sessions and the failures of the file system are fixed during one
  call. The race between the check of the sessions map and the removal is in `Downloads`, where an artifact may be
  removed at any moment.
- Streaming.StreamGrowingFile: one reader at a time; that any other readers and the writer are a schedule it
  covers is `DownloadTheorems.ViewFollows`.
