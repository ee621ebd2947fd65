# A verified model of the streaming library's core

This project models the parts of the repository whose correctness is least obvious from
reading one function, and proves what they promise:

* **Resumable upload** (`ChunkArithmetic`, `UploadTable`, `UploadProtocol`,
  `UploadInvariant`, `UploadTheorems`, `UploadCompletion`, `UploadClient`, `UploadDialogue`).
  Each lock region of the three handlers is a method of the class `PendingUploads`, proved
  equal to a function on the table. The protocol is a state machine whose steps are those
  functions, partial file writes, dropped requests, sweeps and the job queue; a run is any
  list of steps, so the theorems hold for every interleaving, and they say exactly which
  uploads can still be completed. The browser's worker pool is a second state machine, and
  `UploadDialogue` runs the two against each other.
* **Rate limiter and watch folder** (`RateLimit`, `WatchFolder`): small mutable tables
  proved to summarise the whole history of calls or scans.
* **Library merge** (`LibraryTables`, `LibraryMerge`, `RowColumns`, `MergeTheorems`,
  `MergeContents`, `MergeIntegrity`, `MergeOrder`, `MergeReplay`, `MergeMarkers`): ten tables
  as maps on their unique keys, one transaction that is all or nothing, and theorems over all
  exports and all sequences of merges. What a table holds afterwards is told by the columns of
  the exported rows.
* **Snapshot replication** (`Crypto`, `Replication`, `Restore`): cutting a snapshot, sending
  it through every bot with arbitrary failures, and restoring it from a descriptor in any
  order. The cipher is a pair of functions with the inverse law and tag length of section
  2.8 of RFC 8439.
* **Fingerprints and markers** (`FingerprintMatch`, `MarkerDedup`): a search against its
  definition, and a greedy pass whose correctness rests on its sort order.
* **Text formats against a reference** (`BasicAuth`, `LikeSearch`, `SqlWhere`, `JobFilter`,
  `EnvFile`, `SettingValues`, `Playlist`, `PlaylistRoundTrip`, `PlaylistReader`, `Tiers`). The
  WHERE clause built from a filter is read as SQL, and an emitted playlist is read as a player
  reads it. Every setting the registry accepts survives the env file it is written to, and is
  accepted again unchanged.

`Options`, `Text`, `Decimal`, `Bits`, `Unicode`, `Sorting`, `Folds` and `OrderedKeys` hold
what these share: the Rust string functions the codecs are written with, decimal numbers,
bit operations, UTF-8, stable sorting and list walks.

Code that changes things in loops is a method or a class method with the loop; its contract
ties the result to a function or predicate, and the theorems are about that function.
Strings are sequences of Unicode characters, or of bytes where the code works on bytes.
Unsigned 32-bit wrap-around is written out where the code relies on it. Times are whole
ticks, durations whole microseconds or reals.

## Where the code does not do what one might expect

Each of these is a lemma with the exact condition, and one with an input or a run that shows it:

* A chunk request that is dropped while writing leaves its in-flight mark behind, and a
  finalize request that is dropped before its job is queued leaves the finalizing mark
  behind; both can happen to any upload (`UploadCompletion.StuckIsReachable`,
  `UploadCompletion.ClaimedIsReachable`), and then no
  finalize ever passes (`UploadCompletion.BlockedForever`). Some run leads to a finalize that
  passes exactly when the upload is pending for that address, every chunk in flight still
  has a live request, and, if it is marked as finalizing, a finalize request still waits for
  the queue (`UploadCompletion.CompletableExactly`).
* A success answer to a chunk request does not mean that the chunk is stored: it may only be
  in flight. The browser can show 100 percent while the server has nothing
  (`UploadDialogue.PromisedOnly`), even after that write has failed and nothing is in flight
  (`UploadDialogue.PromiseLost`), and even when no finalize will ever pass
  (`UploadDialogue.FullBarForever`). Once all workers have returned, finalize passes exactly
  when nothing is in flight and every chunk whose write failed after such an answer was
  stored again (`UploadDialogue.DialogueDecides`).
* A failed enqueue restores the upload except for its activity time, which is that of the
  last chunk request in between that found its chunk already there; it is restored
  completely exactly when there was none or the last came at the same time
  (`UploadTheorems.FailedEnqueueRestores`). After any finalize that passes, one such request
  is enough (`UploadTheorems.FailedEnqueueCanRenew`).
* Merging an older export once more puts its metadata texts back, and changes nothing else
  (`MergeReplay.ReplayChangesOnlyTexts`, `MergeReplay.ReplayRestoresText`).
* How many markers remain after merging can depend on the order of the exports, because
  being nearly equal is not transitive (`MergeMarkers.MarkerOrderMatters`). Over all lists
  drawn from some markers the order does not matter exactly when it is transitive on those
  of them that are near nothing in the library (`MergeMarkers.OrderIsFreeExactly`).
* A segment without a measured duration is written with the configured length, which may
  exceed the target duration taken from the measured ones, unless no segment is measured or
  one is longer than the configured length less a second
  (`PlaylistReader.ConformsExactly`, `PlaylistReader.UnmeasuredExceedsTarget`).
* A configured admin user that contains a colon admits nobody (`BasicAuth.RequireAuth`), not
  even a client that sends exactly that user and its password (`BasicAuth.ColonLocksOut`).

## Model

| member | source | states |
|---|---|---|
| ChunkArithmetic.DivCeilCovers | src/api/uploads.rs:107 | the number of chunks computed at init is exactly the one that cuts the file into full chunks and one last chunk |
| ChunkArithmetic.ChunksDisjoint | src/api/uploads.rs:555-561 | the byte ranges of different chunks do not overlap |
| ChunkArithmetic.AllChunksMakeFile | src/api/uploads.rs:404-405 | the expected sizes of all chunks add up to the file size |
| UploadTable.PendingUploads.Init | src/api/uploads.rs:86-195 | the answer of init and the entry it makes |
| UploadTable.PendingUploads.ChunkBegin | src/api/uploads.rs:246-299 | the first lock region: every refusal, the expiry, the retry answer, or the in-flight mark and the offset |
| UploadTable.PendingUploads.ChunkCommit | src/api/uploads.rs:324-345 | the last lock region: the mark is cleared and a chunk is counted once |
| UploadTable.PendingUploads.ChunkFailed | src/api/uploads.rs:301-322 | a failed open, seek or write only clears the mark |
| UploadTable.PendingUploads.FinalizeBegin | src/api/uploads.rs:389-421 | which finalize requests pass, and that passing marks the upload |
| UploadTable.PendingUploads.EnqueueFailed | src/api/uploads.rs:449-453 | a failed enqueue clears the finalizing mark and nothing else |
| UploadTable.PendingUploads.Enqueued | src/api/uploads.rs:462 | after a successful enqueue the entry is gone |
| UploadTable.PendingUploads.Sweep | src/api/uploads.rs:516-537 | an id is pending afterwards exactly when it was and `now` is at most its last activity plus the time to live, and its entry is then unchanged |
| UploadInvariant.RunKeeps | src/api/uploads.rs:246-345 | the global invariant holds after every sequence of steps |
| UploadTheorems.Accounting | src/api/uploads.rs:246-345 | in every reachable state received and in-flight chunks are disjoint and in range, the byte counter is the sum over received chunks, writers own disjoint ranges, and each received chunk has its full length and its bytes are in the file |
| UploadTheorems.CountDecides | src/api/uploads.rs:404-405 | having as many chunks as expected means having all of them, with nothing in flight, and implies the byte test |
| UploadTheorems.FinalizeSeesWholeFile | src/api/uploads.rs:389-421 | when finalize passes, and as long as its request waits for the queue, the upload is complete and the file equals the client's |
| UploadTheorems.PieceIsSlice | static/upload.js:535-536 | the pieces meant are the slices the browser cuts |
| UploadTheorems.UploadDelivers | src/api/uploads.rs:389-421 | whatever the interleaving, if every chunk request sends its slice and a finalize passes, the server holds the client's file |
| UploadTheorems.EnqueuedOnce | src/api/uploads.rs:398-462 | no run of concurrent, failed and repeated finalize calls enqueues two jobs for an upload |
| UploadTheorems.FailedEnqueueRestores | src/api/uploads.rs:449-453 | a failed enqueue puts the upload back as it was before finalize, whatever ran in between, with the activity time of the last chunk request in between that found its chunk there; so completely exactly when that time is the earlier one |
| UploadTheorems.FailedEnqueueCanRenew | src/api/uploads.rs:276-289 | after every finalize that passes, a chunk request can leave a later activity time for the failed enqueue |
| UploadTheorems.BodiesStay | src/api/uploads.rs:337-341 | the body accepted for a chunk is never replaced |
| UploadTheorems.SweepIsExact | src/api/uploads.rs:516-537 | in any state a sweep leaves an upload that is not expired as it was, entry and file, and clears entry and file of an expired one |
| UploadTheorems.WritesExactly | src/api/uploads.rs:246-299 | which chunk requests may write and where, and when each refusal is given |
| UploadTheorems.AnswersExactly | src/api/uploads.rs:246-290 | the effect of a chunk request that may not write: nothing, the removal of an expired upload, or a renewed activity time with the counters as the answer |
| UploadTheorems.WritesBytes | src/api/uploads.rs:316-322 | a write changes the next bytes of the request's slice in the file and no others |
| UploadTheorems.FinalizeAnswersExactly | src/api/uploads.rs:389-415 | when each answer of finalize is given |
| UploadTheorems.QueueExactly | src/api/uploads.rs:437-462 | what a queued job, a failed enqueue and a dropped request leave of the upload and its file |
| UploadTheorems.AcceptedExactly | src/api/uploads.rs:86-114 | which sizes init accepts |
| UploadTheorems.RefusalsExactly | src/api/uploads.rs:86-114 | the refusals of init in their order, and the number of chunks it answers |
| UploadTheorems.FinalizeNamesFile | src/api/uploads.rs:389-421 | in every run a finalize that passes has the file name and the address of its init |
| UploadCompletion.CompletableExactly | src/api/uploads.rs:280-453 | some run of steps leads to a finalize that passes exactly when the upload is pending for that address, no mark on a chunk has lost its request, and a finalizing mark still has a request waiting for the queue |
| UploadCompletion.ClientCanFinish | src/api/uploads.rs:246-421 | such an upload, while it has not expired, is completed by requests that send the missing slices, and the server then holds the client's file |
| UploadCompletion.BlockedForever | src/api/uploads.rs:280-421 | a mark left behind by a dropped request stays in every run, and no finalize passes |
| UploadCompletion.StuckIsReachable | src/api/uploads.rs:291-345 | every accepted upload can get blocked by a chunk request that is dropped while writing |
| UploadCompletion.ClaimedIsReachable | src/api/uploads.rs:415-453 | every accepted upload can get blocked by a finalize request that is dropped before its job is queued |
| UploadClient.ListMissing | static/upload.js:520-523 | the missing chunks, each once and in order |
| UploadClient.BytesForReceivedChunks | static/upload.js:616-623 | the bytes of the received chunks, in whatever order the set lists them |
| UploadClient.WorkerPool.Next | static/upload.js:532-534 | a worker takes the next missing chunk, and only one worker gets it |
| UploadClient.WorkerPool.Stored | static/upload.js:538-543 | a chunk whose request was answered with success is counted once in the client's set and counter |
| UploadClient.PoolFinishes | static/upload.js:529-560 | however the workers interleave, no chunk is sent by two at once, and when all return the client's own set holds every chunk and its counter shows the file size |
| UploadDialogue.DialogueDecides | static/upload.js:529-560 | with the server, other requests and the sweeper interleaved: what the client counts is stored or was promised, what was promised is stored, in flight or lost, and after all workers returned finalize passes exactly when every promise was kept |
| UploadDialogue.DialogueDelivers | static/upload.js:529-580 | if finalize passes after such a dialogue, the server holds the client's file |
| UploadDialogue.PromisedOnly | src/api/uploads.rs:278-290 | a page that sends a chunk already in flight is told success, shows the whole file as sent, and finalize answers incomplete |
| UploadDialogue.PromiseLost | src/api/uploads.rs:301-322 | if that write then fails, nothing is in flight and finalize still answers incomplete |
| UploadDialogue.FullBarForever | src/api/uploads.rs:278-291 | such a page is reachable from the start with an upload that no run can finalize |
| RateLimit.Limiter.Check | src/api/uploads.rs:619-648 | all deques are pruned, the request is recorded, and refused beyond the limit |
| RateLimit.DequeIsRecent | src/api/uploads.rs:627-639 | after any history a deque holds exactly that address's requests inside the window, accepted and refused |
| RateLimit.AtMostMaxAccepted | src/api/uploads.rs:640-647 | at most `max` requests of an address are accepted in any interval of the window's length |
| RateLimit.RefusedExactly | src/api/uploads.rs:640-647 | a request is refused exactly when its address made more than `max` requests, this one included, in the window that ends with it |
| RateLimit.Replay | src/api/uploads.rs:619-648 | the class and the functions on histories agree, call by call |
| WatchFolder.Watcher.Clear | src/api/watch_folder.rs:182 | a change of settings forgets every path |
| WatchFolder.Watcher.Scan | src/api/watch_folder.rs:222-262 | which files become ready, and what is remembered of every path |
| WatchFolder.StableSinceIsRunStart | src/api/watch_folder.rs:229-254 | `stable_since` is the time of the first scan of the unbroken run that saw the file unchanged since the last claim or reset |
| WatchFolder.ClaimedIffStable | src/api/watch_folder.rs:230-236 | a file is claimed exactly when every scan across at least the configured seconds, and at least one, saw it unchanged |
| LibraryTables.InsertRows | src/db/transfer.rs:123-184 | one table's loop of INSERT OR IGNORE: the rows after it, the first failure, and the count of rows added |
| LibraryTables.UpsertProgressRows | src/db/transfer.rs:231-244 | the loop of last-writer-wins upserts |
| LibraryTables.UpsertMetaRows | src/db/transfer.rs:245-265 | the loop of metadata upserts with the id map it fills |
| LibraryTables.AddMarkerRows | src/db/transfer.rs:286-300 | the loop that adds markers without a near-equal one |
| LibraryMerge.Database.MergeFromExport | src/db/transfer.rs:113-313 | the merge is the composition of its table loops, counts the rows added, and leaves everything untouched on any failure |
| LibraryMerge.Database.MergeFromDatabase | src/db/transfer.rs:339-345 | the same with every bot index mapped to itself |
| LibraryMerge.AutoSameBotIndexMap | src/db/transfer.rs:347-358 | the map is the identity on exactly the bot indices of segments and parts |
| LibraryMerge.SplitSegmentKeyInjective | src/db/transfer.rs:372-376 | prefix and name determine a key that passes the CHECK |
| MergeTheorems.MergeIdempotent | src/db/transfer.rs:113-313 | merging any export again, at any later time, succeeds and changes no table |
| MergeTheorems.MetaAgain | src/db/transfer.rs:245-265 | a second pass over the metadata changes no entry and maps ids as the first did |
| MergeTheorems.MergePreserves | src/db/transfer.rs:123-306 | prior jobs, tracks, segments, parts, links, markers and fingerprints are unchanged, and every exported marker has a near-equal one |
| MergeIntegrity.MergeKeepsValid | src/db/transfer.rs:198-306 | every child's job and every link's metadata row exist after the merge, and metadata ids stay unique |
| MergeIntegrity.MergeKeepsChecked | src/db/transfer.rs:123-306 | the rows of a merged library meet the checks, told by their columns, so it can be exported and merged itself |
| MergeIntegrity.NewJobLinkPointsHome | src/db/transfer.rs:266-275 | a new job link points to the row with the provider, id and kind its metadata has in the export |
| MergeIntegrity.NewSeriesLinkPointsHome | src/db/transfer.rs:276-285 | the same for series links |
| MergeIntegrity.ExportIsSelfContained | src/db/transfer.rs:25-65 | an export of a sound library refers to its own jobs and metadata only |
| MergeIntegrity.ExportedLibraryMerges | src/db/transfer.rs:339-358 | merging such an export over the same-bot map cannot fail: no missing map entry, no missing parent, no failed check |
| RowColumns.JobByColumns | src/db/migrations.rs:862-874 | an exported job goes in, normalised, exactly when its status is one of the eight, it has an error text exactly when the status is error, and its source path is missing or a plain file name |
| RowColumns.ProgressByColumns | src/db/migrations.rs:1196-1198 | the ranges of a progress row |
| RowColumns.MetaByColumns | src/db/migrations.rs:1158-1160 | the providers and kinds of metadata |
| RowColumns.MarkerByColumns | src/db/migrations.rs:1256-1260 | the kinds, sources and ranges of a marker |
| RowColumns.NearByColumns | src/db/transfer.rs:290-297 | when two markers count as the same |
| MergeContents.JobsExactly | src/db/transfer.rs:123-172 | the jobs afterwards are those before and the exported ones whose columns allow it; a new one is the first exported one of its id, normalised and stamped with the clock |
| MergeContents.TracksExactly | src/db/transfer.rs:173-197 | the same for tracks: one of three types, a stream index of at least -1 |
| MergeContents.SegmentsExactly | src/db/transfer.rs:198-208 | the same for segments: a key with a slash and a mapped bot of at least 0; stored under the mapped bot, with its key cut at the first slash |
| MergeContents.PartsExactly | src/db/transfer.rs:209-230 | the same for parts of segments: part index, mapped bot and size of at least 0 |
| MergeContents.JobLinksExactly | src/db/transfer.rs:266-275 | the same for links of jobs: one of two roles |
| MergeContents.SeriesLinksExactly | src/db/transfer.rs:276-285 | every exported link of a series is there |
| MergeContents.FingerprintsExactly | src/db/transfer.rs:301-307 | the same for fingerprints: one of two windows |
| MergeContents.UnsoundRowFails | src/db/transfer.rs:231-300 | progress out of range, unknown metadata, or a new marker that is unknown or out of range makes the merge fail |
| MergeContents.MergedMarkersAreExported | src/db/transfer.rs:286-300 | a new marker is an exported one, and none before it is within a hundredth of a second of it |
| MergeContents.MergedMetadataIsLast | src/db/transfer.rs:245-265 | a metadata row holds the text of the last exported row with its key, or what it held |
| MergeContents.MissingBotIndexFails | src/db/transfer.rs:198-212 | a segment or part whose bot the map lacks makes the merge fail |
| LibraryMerge.NormalizedJobChecks | src/db/models.rs:466-478 | after normalising only the status and source path can fail a check, and normalising again changes nothing |
| MergeOrder.ProgressIsGreatest | src/db/transfer.rs:231-244 | after any sequence of merges each client and job has the row with the greatest timestamp of all that competed |
| MergeOrder.ProgressOrderIndependent | src/db/transfer.rs:231-244 | progress does not depend on the order of the exports when equal timestamps imply equal rows |
| MergeOrder.KeysOrderIndependent | src/db/transfer.rs:123-230 | the key sets of jobs, segments and parts do not depend on the order of the exports |
| MergeOrder.SoundRunsSucceed | src/db/transfer.rs:339-358 | every sequence of exports that refer to themselves only merges into any library over the same-bot maps |
| MergeOrder.SoundRunsAnyOrder | src/db/transfer.rs:113-313 | such exports can be merged in any order, with the same jobs, segments and parts, and the same progress when ties agree |
| MergeMarkers.MarkersOrderIndependent | src/db/transfer.rs:286-300 | permuted merges leave the same number of markers when near-equality is transitive on the exported markers that are near none of the library |
| MergeMarkers.OrderIsFreeExactly | src/db/transfer.rs:286-300 | over all lists drawn from some markers the order does not matter exactly under that condition |
| MergeMarkers.MarkerOrderMatters | src/db/transfer.rs:286-300 | two exports that leave one marker in one order and two in the other |
| MergeReplay.RunsHold | src/db/transfer.rs:113-313 | after any sequence of merges the library holds what each export of the sequence brought |
| MergeReplay.RunsHoldRows | src/db/transfer.rs:113-313 | the same by columns: every exported row that may go in is there, or a newer progress row, or a near-equal marker |
| MergeReplay.ReplayChangesOnlyTexts | src/db/transfer.rs:245-265 | merging one of the exports once more succeeds, adds and removes nothing, puts its metadata texts back, and changes nothing at all exactly when these are stored already |
| MergeReplay.ReplayRestoresText | src/db/transfer.rs:245-265 | two exports with different texts for one key, of which the first, merged once more, brings its text back |
| Crypto.HexEncode | src/crypto.rs:133-141 | two lower-case digits for each byte, high digit first |
| Crypto.ParseHex | src/crypto.rs:110-122 | the fixed buffer holds the bytes of a text of the right length, and any other text is refused |
| Crypto.ParseEncoded | src/crypto.rs:110-141 | a written nonce is read back |
| Crypto.ParsesDigits | src/crypto.rs:110-131 | the bytes read are those whose digits the text holds, in either case and with blanks around them |
| Crypto.DecryptsExactly | src/crypto.rs:91-104 | a payload without a nonce is taken as it is, one with a nonce is opened under the key, and it is lost without a key or with any other text |
| Crypto.AadInjective | src/crypto.rs:106-108 | different parts or snapshots never share their associated data |
| Replication.SnapshotUploadPaths | src/api/db_transfer_sync.rs:346-367 | the parts, all full but the last, or the reason the size limit is unusable |
| Replication.ChunksConcat | src/api/db_transfer_sync.rs:360-366 | the parts joined are the snapshot |
| Replication.PayloadFits | src/crypto.rs:81-89 | a part of the computed size stays within the limit after the tag is added |
| Replication.Telegram.UploadDocument | src/telegram/upload.rs:27-65 | what is sent and recorded, and that an oversized payload is not sent |
| Replication.Telegram.UploadToBot | src/api/db_transfer_sync.rs:225-273 | a bot's entries are complete and stored, or the first failing part is named |
| Replication.Telegram.UploadSnapshotToAllBots | src/api/db_transfer_sync.rs:207-343 | the descriptor lists exactly the bots that sent every part, all their parts are stored, each failing bot is reported with its first unsent part, the status is complete when every bot sent every part, failed when none did, and partial otherwise, and no file sent exceeds the limit |
| Restore.GroupByBot | src/api/db_transfer_sync.rs:68-94 | the usable entries of each bot, in their order |
| Restore.GroupsName | src/api/db_transfer_sync.rs:68-94 | a bot has a part exactly when some entry names it: with that bot, a file, its part index or 0, and its nonce unless it is empty |
| Restore.DownloadBootstrapParts | src/api/db_transfer_sync.rs:136-164 | the parts fetched, decrypted and joined, or failure |
| Restore.Bootstrap | src/api/db_transfer_sync.rs:95-127 | the first bot in ascending order whose snapshot is downloaded and accepted |
| Restore.RestoreIsExact | src/api/db_transfer_sync.rs:68-164 | for every failure pattern and every order of the entries, the named bots are those that sent all parts, and each restores the snapshot if its files are there and nothing otherwise |
| Restore.BootstrapIsExact | src/api/db_transfer_sync.rs:68-343 | uploading with any failures and bootstrapping from the entries in any order gives the snapshot, from the least bot that sent all parts, still has them and is accepted, or nothing when there is none |
| FingerprintMatch.FindBestMatch | src/media/markers.rs:306-373 | the answer the specification of the search demands |
| FingerprintMatch.CompareFingerprints | src/media/markers.rs:279-298 | the best match of every stored fingerprint, in order |
| FingerprintMatch.AlignmentSkipped | src/media/markers.rs:319-325 | alignments that overlap in fewer than 100 points hold no match |
| FingerprintMatch.MatchUnique | src/media/markers.rs:306-373 | the specification of the search has one answer |
| FingerprintMatch.NearExactly | src/media/markers.rs:333 | two points are near when at most six of their 32 bits differ |
| FingerprintMatch.AnswerMeans | src/media/markers.rs:306-373 | an answer lies in the window where the longest stretch of near points lies, with the window's kind, a duration fit for the kind and a confidence that tells the share it covers; no answer means no stretch of 100 points, or that the longest has no fit duration |
| MarkerDedup.DedupeMarkers | src/media/markers.rs:375-402 | the two sorts and the greedy pass between them |
| MarkerDedup.OnlyLastClashes | src/media/markers.rs:384-392 | only the last kept marker of a kind can overlap the next |
| MarkerDedup.DedupeCorrect | src/media/markers.rs:375-402 | the result is ordered, a sub-multiset, free of overlaps of a kind, and as confident as the input |
| MarkerDedup.DedupeNext | src/media/markers.rs:384-400 | one more marker behind the others is added, takes the place of the less confident one it overlaps, or is dropped; of two equally confident ones the earlier stays |
| MarkerDedup.DedupeIdempotent | src/media/markers.rs:375-402 | deduplicating again changes nothing |
| LikeSearch.EscapeLike | src/db/models.rs:520-529 | the escaped text |
| LikeSearch.SearchIsSubstring | src/db/models.rs:493-498 | the pattern matches exactly the texts that contain the search text, up to the case of ASCII letters |
| JobFilter.JobFilterSql | src/db/models.rs:488-518 | the WHERE text with its parameters, read as SQL, selects exactly the jobs the filter accepts, and is empty exactly for a filter that asks for nothing |
| JobFilter.FilterSelects | src/db/models.rs:488-518 | clauses and parameters together select exactly the jobs the filter describes |
| JobFilter.TextSelects | src/db/models.rs:494-517 | the text of any list of clauses, read word by word with AND before OR, selects a row exactly when all clauses hold |
| BasicAuth.Base64Decode | src/api/auth.rs:66-89 | the decoder with its wrapping accumulator computes the meaning of every text |
| BasicAuth.DecodeInvertsEncode | src/api/auth.rs:66-89 | decoding the encoding of section 4 of RFC 4648 gives back every byte string, padded or not |
| BasicAuth.EncodesGroups | src/api/auth.rs:66-89 | that encoding spells every group of 24 bits as four characters of the alphabet |
| Unicode.ValidExactly | src/api/auth.rs:29 | the bytes that pass the UTF-8 test are exactly the encodings of strings |
| BasicAuth.ConstantTimeEq | src/api/auth.rs:55-64 | true exactly on equal inputs |
| BasicAuth.RequireAuth | src/api/auth.rs:18-37 | a request is admitted exactly when no user is configured, or the user has no colon and the header decodes to user, colon and password |
| BasicAuth.CredentialsAreUtf8 | src/api/auth.rs:29 | the credentials of UTF-8 names pass the UTF-8 test |
| BasicAuth.ClientIsAdmitted | src/api/auth.rs:23-37 | a client of section 2 of RFC 7617 is admitted with the right credentials and no others |
| BasicAuth.OnlyVisibleTails | src/api/auth.rs:23-28 | behind the padding a header may hold visible characters and tabs, and with any other byte it is refused |
| BasicAuth.ColonLocksOut | src/api/auth.rs:23-37 | the header that carries exactly the configured user and password is refused exactly when the user contains a colon |
| EnvFile.UnquoteEnvValue | src/settings_registry.rs:222-236 | unquoting against its definition |
| EnvFile.QuotedReads | src/settings_registry.rs:209-236 | a quoted value is read character by character, a backslash standing for the character behind it |
| EnvFile.CommentIsCut | src/settings_registry.rs:209-220 | a value without quotes ends at the first hash sign, without the whitespace around it |
| EnvFile.AssignedKey | src/env_writer.rs:30-37 | the key and the value of an assigning line, with whitespace around the key |
| EnvFile.AssignsNothing | src/env_writer.rs:31-36 | comments and lines without an equals sign assign nothing |
| EnvFile.ValueRoundTrip | src/env_writer.rs:84-91 | an encoded value reads back as itself exactly when it is trimmed or holds a hash sign, a quote or a backslash |
| EnvFile.WriteEnvValues | src/env_writer.rs:15-66 | the new content, and refusal exactly when some value holds a newline, a carriage return or a null character |
| EnvFile.WrittenFileReads | src/env_writer.rs:25-66 | every key of the map reads as its encoded value, every other key as before, and other non-blank lines stay in order, verbatim but for a final carriage return |
| EnvFile.SettingSurvives | src/env_writer.rs:25-66 | when a written setting reads back exactly |
| SettingValues.NormalizeList | src/settings_registry.rs:292-321 | the normal form of a list, or refusal when some item fails the key's test |
| SettingValues.IntExactly | src/settings_registry.rs:238-254 | a number with whitespace around it is accepted exactly in its bounds, and written plainly |
| SettingValues.BoolExactly | src/settings_registry.rs:256-265 | "true" in any case and 1 are on, "false" in any case and 0 are off, and nothing else is accepted |
| SettingValues.ListExactly | src/settings_registry.rs:292-321 | a list is accepted when all its items pass, and they are joined in order, trimmed, without blank ones, with a leading dot where that is asked for |
| SettingValues.SettingExactly | src/settings_registry.rs:185-205 | a setting of each type, with whitespace around it, is normalised as its type says |
| SettingValues.CommentsOnlyInFiles | src/settings_registry.rs:185-207 | a comment is cut off values of the environment, but not off posted ones |
| SettingValues.AcceptedIsTrimmed | src/settings_registry.rs:185-346 | whatever is posted or found in the environment, a value the registry accepts is trimmed |
| SettingValues.AcceptedAgain | src/settings_registry.rs:185-346 | an accepted value of any type is accepted again and unchanged |
| SettingValues.PassedSurvives | src/api/bots_settings.rs:487-504 | every value that is ever written to the env file, an accepted setting or a JSON text, reads back as itself |
| Playlist.SanitizeSegmentUri | src/api/playlists.rs:487-515 | which keys are refused, and the encoding of the others |
| PlaylistRoundTrip.AcceptedExactly | src/api/playlists.rs:487-504 | a key is accepted exactly when it has no line end and no component that is empty, a dot name, begins with a hash sign or holds a space |
| Playlist.UriDecodes | src/api/playlists.rs:505-514 | percent-decoding gives back the bytes of the key, and the URI is in the normal form of section 6.2.2 of RFC 3986 |
| Playlist.UriInjective | src/api/playlists.rs:505-514 | no two keys share a URI |
| Playlist.EmitMediaPlaylist | src/api/playlists.rs:352-408 | the playlist text, line by line |
| PlaylistReader.EmittedMeans | src/api/playlists.rs:352-408 | read as RFC 8216 says, the emitted text is a whole playlist: version 7 with an init segment and else 4, the least whole target duration that covers every measured segment or else the configured one, the init segment's URI if its key is accepted, and the accepted media segments in order with their durations and addresses |
| PlaylistReader.ConformsExactly | src/api/playlists.rs:366-395 | the durations read respect the target read, by section 4.3.3.1 of RFC 8216, exactly when every listed segment is measured, or no media segment is, or some measured one is longer than the configured length less a second |
| PlaylistReader.UnmeasuredExceedsTarget | src/api/playlists.rs:392-395 | a playlist whose text does not conform |
| Playlist.ParseHlsSegmentDurations | src/media/process_probe.rs:100-126 | the durations a reader of the lines finds |
| PlaylistRoundTrip.DurationLineReads | src/media/process_probe.rs:104-112 | a duration line sets the waiting duration, whatever title follows it |
| PlaylistRoundTrip.OtherLineReads | src/media/process_probe.rs:113-115 | blank lines, comments and other tags change nothing |
| PlaylistRoundTrip.FileLineReads | src/media/process_probe.rs:116-123 | the waiting duration goes to the last component of the path, without its query |
| Playlist.SecondsRoundTrip | src/api/playlists.rs:402-405 | a formatted duration reads back exactly |
| PlaylistRoundTrip.ParseEmitted | src/media/process_probe.rs:100-126 | parsing an emitted playlist finds every media segment's duration under its name and nothing else |
| PlaylistRoundTrip.DurationsKeys | src/media/process_probe.rs:123 | the keys found are those of the accepted media segments |
| PlaylistRoundTrip.DurationsValues | src/media/process_probe.rs:123 | with distinct names every segment finds its own duration |
| PlaylistRoundTrip.UnreservedName | src/api/playlists.rs:507-512 | a name of unreserved characters stands in the playlist as it is |
| PlaylistRoundTrip.MeasuredFits | src/api/playlists.rs:367-376 | a measured segment does not exceed the target duration |
| PlaylistRoundTrip.DurationsFitExactly | src/api/playlists.rs:366-395 | the same condition for the computed durations and target |
| Tiers.IsBitrate | src/settings_registry.rs:429-460 | the counters accept exactly a decimal number with a unit |
| Tiers.BitrateExactly | src/settings_registry.rs:429-460 | digits, with digits behind a point if there is one, and one of six letters |
| Tiers.ListReads | src/settings_registry.rs:176-183 | a list is read item by item in order, without the whitespace around items and without blank ones |
| Tiers.PairReads | src/settings_registry.rs:323-346 | how a pair is read when it is saved, with its first error, and when it is used |
| Tiers.NormalizeTiers | src/settings_registry.rs:323-346 | the normal form, or the first error |
| Tiers.NormalFormReads | src/settings_registry.rs:323-346 | normalising is idempotent, and reading the normal form in order gives the validated pairs |
| Tiers.Tier0Bitrate | src/media/tiers.rs:103-114 | the bitrate of the tallest configured tier not above the source, the first listed among equals, or the default |
| Tiers.ChoiceUnique | src/media/tiers.rs:103-114 | there is only one such tier |
| Tiers.SelectVideoTiers | src/media/tiers.rs:5-38 | the first tier, copied exactly for h264 and hevc when copying is on, and the fitting configured tiers below it |
| Tiers.SelectVideoTiersWith | src/media/tiers.rs:40-78 | the same for a given tier string |
| Tiers.SelectionsAgree | src/media/tiers.rs:5-78 | both selectors give the same tiers for the same string |
| Tiers.SelectionWellOrdered | src/media/tiers.rs:5-84 | tiers are numbered by position, heights never rise, and none stands above the source, or beside a copied one |
| Tiers.SelectionComplete | src/media/tiers.rs:21-36 | every configured pair that is not above the source, or is below a copied one, is used as often as configured, and no other |

## Left out

- HTTP routing, JSON shapes, the web pages, metrics and logging.
- The per-address cap on pending uploads: its check and the insertion are in different lock regions, so it is not an invariant.
- The operating system's file layer: a write step writes its bytes; buffering, syncing and disk-full errors beyond a failed write are not modelled.
- UploadTable.PendingUploads.Init: assumes a positive chunk size, the minimum of the setting, and a fresh upload id; the file-name, rate-limit and free-space refusals are not modelled here.
- UploadClient.PoolFinishes: speaks of the client's own set; what the server has stored by then is in UploadDialogue.DialogueDecides.
- The waiting times and the number of retries of chunk requests in the browser: in UploadDialogue a worker may ask again any number of times.
- UploadTheorems.Accounting: says nothing about file contents after a job is queued, when the job owns the file.
- Telegram's network protocol: sending a part succeeds with a fresh, non-empty file id or fails, and a stored file is found again or not.
- The cipher: any functions with the inverse law and tag length; nothing is claimed about secrecy or tampering.
- Replication.Telegram.UploadSnapshotToAllBots: the database rows that record the uploads always succeed; a failing one would end the run without a descriptor.
- The guards that skip a snapshot already merged.
- Staging and merging a downloaded snapshot, in Restore.Bootstrap, are one function of the bot and the bytes that says whether they succeed.
- SQLite itself: surrogate row ids, gaps in autoincrement ids, NOT NULL defaults and columns that are only carried along (kept together in one field).
- LibraryMerge.Database.MergeFromDatabase: starts from the export of the source file; opening, validating and reading that file are not modelled.
- MergeContents.TracksExactly: the derived track columns for mode and bitrate, and their checks, are functions of a carried column and left out.
- Timestamps of playback progress are compared as a total order; the model uses integers.
- LibraryMerge.NormalizeJobMetadata: job rows are values, so the function returns the changed row where the code changes a local structure in place.
- Floating point: durations, confidences and marker times are reals or whole microseconds, so rounding is not modelled; numbers with exponents, infinities and NaN in a playlist are not read.
- Playlist.EmitMediaPlaylist: durations are whole microseconds, so rounding a duration to six digits is not modelled.
- Playlist.ParseHlsSegmentDurations: reads plain decimal durations; text the float parser accepts beyond that counts as no duration.
- FingerprintMatch.CompareFingerprints: works on parsed fingerprints; splitting the text into numbers is left out.
- SettingValues.NormalizeList: a key's own tests of a value (addresses, ranges, names) are one predicate on texts, and the texts of the errors are left out.
- The dotenv reader between the env file and the process: reading back uses the repository's own functions.
- Writing the env file through a temporary file and a rename.
- EnvFile.WrittenFileReads: keys are assumed to be as every setting's name is: trimmed, non-empty, without `=` and newline, not starting with `#`.
- PlaylistReader.EmittedMeans: job ids are assumed to hold no newline and no double quote.
- JobFilter.JobFilterSql: season numbers are 64-bit integers, as in the source; the rest of the SQL statement around the clause is not modelled.
- PlaylistRoundTrip.ParseEmitted: job ids are assumed to hold no newline and no question mark.
- Master, subtitle and virtual playlists, bandwidth and codec strings.
- Marker snapping, silence and chapter detection, and the generation of fingerprints.
- `tier_bitrate`, the first listed pair of a height: a one-line lookup.
