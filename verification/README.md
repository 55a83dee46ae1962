# The install pipeline, from the content server to the disk

This project models how a Wii U title is installed on a USB disk: a resumable,
parallel downloader; a metadata parser that guesses between two layouts;
tickets and CBC decryption; a queue of items and jobs that survives crashes;
and a writer that puts the files on a WFS disk, natively or simulated. It
proves what each part promises and, from the parts, what an install that ends
DONE has achieved.

## What is where

- `Ranges`, `Server`, `Callbacks`, `Downloader`: byte ranges, an honest but unreliable
  server (sections 14, 15.3.7 and 15.5.17 of RFC 9110), the pool of range
  workers as atomic steps under any schedule, assembly, and the single
  resumable stream. `TitleDownload` fetches all files of a title; `Progress`
  has the progress bands over the reals.
- `Tmd`, `TmdRoundTrip`: the parser's loops against a view of the bytes, and
  when encoded files parse back to themselves.
- `Cbc` (section 6.2 of NIST SP 800-38A), `AppDecryptor`, `Hex`, `Ticket`.
- `FlatFs` is the simple view of a disk, a map from paths to entries;
  `WfsTree` and `WfsDevice` are the directory tree and the device it is kept
  in; `WfsEngine` the native engine's walks; `SimulatedAdapter` the simulated
  backend; `Adapter` either of them; `Refinement` compares the two.
- `Queue` has the rows and the service that updates them; `Protocol` the
  transition system of runs, progress callbacks, crashes and recoveries;
  `RunRecord` ties a live run to it.
- `Store` and `Writer`: placing files resumably, and deinstalling.
- `Analyzer`, `Worker`, `Installation`: one run from the queue item to the
  disk, and the end-to-end theorem.

Failures are nondeterministic: a transaction may roll back, a callback may
raise, a stream may break off, and the process may be killed between any two
steps. A method that was killed says in its contract what it leaves behind.

## What is found

- Over any sequence of aborted or killed calls, a file that only the
  downloader writes is a prefix of the server's body. The ticket is not such
  a file: a synthetic one is written to the same place
  (core/services/download_service.py:602-605). A later fetch that resumes it
  gives the server's ticket exactly when it is a prefix of that ticket
  (`Downloader.ResumedIsBodyIff`), which it never is when the ticket's second
  byte is not zero (`TitleDownload.SyntheticTicketSpoilsFetch`).
- A job's progress, as it is computed, falls only inside the band of a file
  that has started over, by a retried attempt of a range worker or by the
  fallback to the single stream (`TitleDownload.DownloadProgressGrows`). The
  values that reach the rows can fall without that: the sum is computed under
  the lock, but the callback is called outside it
  (core/services/download_service.py:131-148), so that the worker with the
  larger sum may update the row first (`Downloader.RowsCanCross`,
  `Worker.WrittenProgressCanFall`). Within a round this happens exactly when
  a callback that began earlier with a smaller sum is overtaken
  (`Worker.WrittenProgressFallsIff`), and so never for the TMD, the ticket or
  a single stream (`TitleDownload.RowProgressGrows`).
- A run on an item returns, once its job exists and unless it is killed,
  exactly when its exception handler does not raise
  (`Worker.QueueWorker.ReturnsUnlessHandlerRaises`). Two exceptions are not
  caught: one from `create_job`, which is called before the `try`
  (apps/worker/runner.py:88), and a second one inside the handler
  (apps/worker/runner.py:406-421). The loop around the runs catches neither
  (apps/worker/runner.py:73-80). The second leaves the item active and its
  job RUNNING until a restart recovers them
  (`Protocol.EscapedRunLeavesJobRunning`).
- The parallel path delivers `body[..expected]`, where expected is the TMD's
  size. If that is not a multiple of 16 the file cannot be decrypted and the
  run does not end DONE (`Worker.QueueWorker.DoneMeansWholeBlocks`).
- `create_file` on an existing file is where the two backends part: the native
  engine keeps what it can of the old bytes, the simulation none
  (`Refinement.CreateAgreesIff`, `Refinement.CreateDiffers`). The writer's
  create and write together agree.
- An integrity check of an existing directory with a slash behind its name is
  not ok for the native engine, which looks up the empty name inside it, and
  ok in the simulation (`Refinement.CheckAgreesIff`, `Refinement.CheckDiffers`).
- A canonical 0x24 TMD can be read as 0x30: exactly when the wide reading has
  room and is canonical too (`TmdRoundTrip.NarrowRoundTripIff`). For one and
  for two records this is spelled out in the file's own fields, and for two
  or more it needs a second hash that starts with the bytes 00 01.
- FALLBACK_STAGED is missing from the recovery set: after a recovery an item
  is staged exactly when it was before (`Protocol.StagedExactlyAsBefore`), so
  a crash during a staged install leaves a staged item with a failed job
  (`Protocol.StagedItemStaysStaged`).
- An old error code is never cleared: a run that ends DONE leaves it exactly
  as it was (`Protocol.ErrorCodeKeptUnlessFailed`).
- The code USB_ONLY_IMPOSSIBLE is never reported: the analyzer requires the
  fallback whenever it does not allow a direct install (`Analyzer.Analyze`).
- A content hash that does not match is logged but stops nothing.
- The native engine's message for a missing disk is not among those the
  handler recognises, so it is reported as INSTALL_FAILED.

## Assumptions

- A block cipher is any family of functions in which decryption undoes
  encryption under each key; a hash is any function of the bytes.
- The server is honest about one fixed body per address, and a stream that
  ends normally has delivered everything.
- Directories of the disk are maps from names to entries, and no entry has an
  empty name where the two backends' checks are compared; `Resize` keeps what
  it can and fills with zeros, a write past the end extends the file (the
  library itself caps both at the size allocated on disk,
  third_party/wfslib/src/file.cpp:411-455, so that overwriting a smaller file
  can write short there), a non-empty directory cannot be deleted, the disk
  is never full, and the text of a missing-entry error contains "not found".
- Job ids are fresh: no row and no event carries a new job's id.

## Model

| member | source | states |
|---|---|---|
| Ranges.SplitRanges | core/services/download_service.py:81-98 | The spans are exactly min(max(1, parts), total) in number (none for a total of zero or less), tile [0, total) without gap or overlap, and their lengths differ by at most one |
| Ranges.TilesUpTo | core/services/download_service.py:94-97 | The spans before any span tile exactly what lies before it, which is what appending parts in order relies on |
| Ranges.CountersSum | core/services/download_service.py:122-137 | Per-span counters that have not passed their span never add up to more than the total, and full ones add up to it |
| Server.Get | core/services/download_service.py:281-301 | A response may fail or break off anywhere, but a 206 carries the selected bytes, a 200 the body, a 416 only answers a range past the end, and announced lengths are true |
| Callbacks.Report | core/services/download_service.py:307-329 | A callback on the emitting thread begins when none is open and ends before anything else happens, whether or not it raises; its row updates are its own, and what it is told continues what its round has claimed |
| Callbacks.NextFile | core/services/download_service.py:480-522 | The marks of one file after another are in file order, each row update is that of a callback that has begun, and the callbacks open at the end are those that the last file left open |
| Callbacks.RowsFollowCallbacks | core/services/download_service.py:126-148 | Two row updates of a file are told in step with the order of their rows, unless the later one belongs to a callback that began earlier and has been overtaken; then they are in step the other way round |
| Callbacks.NoneOvertaken | core/services/download_service.py:307-329 | A callback that began when no other was open has overtaken none |
| Downloader.StartAttempt | core/services/download_service.py:158-172 | An attempt clears its counter and its part file, touches no other file, is counted as one request sent or given up just before, and anything but a 206 costs it |
| Downloader.ReadOn | core/services/download_service.py:172-194 | A worker succeeds only with a part that holds exactly its span of the body; a short, broken or failing read goes to the next attempt, after the third to exhaustion |
| Downloader.StepWorker | core/services/download_service.py:151-194 | One atomic step of a worker outside a callback keeps its invariant, changes no file but its own part, counts exactly the request it makes, and takes counted bytes back only by starting a further attempt |
| Downloader.StepCallback | core/services/download_service.py:126-148 | Inside a progress callback a worker makes its row updates one by one; the callback ends after the last or by an exception, which costs the attempt |
| Downloader.StepPool | core/services/download_service.py:151-201 | One step of any worker keeps the pool invariant and its log: the open callbacks are those of the reporting workers, rounds are counted by retried attempts, within a round emissions only grow, and requests and started attempts grow together |
| Downloader.CallbackBegins | core/services/download_service.py:126-148 | The emission computed under the lock is the sum of all counters, and continues every earlier one of its round |
| Downloader.RowsCanCross | core/services/download_service.py:126-148 | A failing history: from any state of a pool with two reading workers, four steps of the pool lead to one where, without any retry, the row update with the larger sum of a round comes before the one with the smaller sum |
| Downloader.JoinedPoolReportsNothing | core/services/download_service.py:198-201 | When every worker has finished, as leaving the pool waits for, no progress callback is open |
| Downloader.FetchRanges | core/services/download_service.py:196-201 | Once the pool has been joined no callback is open and the pool invariant holds; it ends well only if every worker has succeeded, and its attempts are the requests made |
| Downloader.RunPool | core/services/download_service.py:196-201 | For every interleaving of the workers and their callbacks: the pool invariant and its log hold at the end, the attempts started are exactly the requests made, and neither the destination nor any foreign file is touched |
| Downloader.PoolProgressBounded | core/services/download_service.py:126-148 | At any point of any schedule the shared counters sum to at most the total, and to the total once all workers have succeeded |
| Downloader.Assemble | core/services/download_service.py:203-207 | Appending the parts in order gives exactly the first total bytes of the body; a kill at any write leaves a prefix of the body |
| Downloader.AssembleRanges | core/services/download_service.py:203-217 | After a joined pool without failures: the file is body[..total], and the last emission, the sum of all counters, claims exactly the total |
| Downloader.DownloadParallelRanges | core/services/download_service.py:100-217 | Returning means the destination is body[..total] and an emission has claimed all of it; whatever happens the destination stays a prefix of the body; the pool has one worker per range with at most three attempts each, as many in all as requests were made; emissions fall only where one was retried, and unless killed no callback is left open |
| Downloader.TotalSizeIsExact | core/services/download_service.py:61-79 | The size read from an honest response, appending or not, is the size of the body |
| Downloader.StreamToFile | core/services/download_service.py:302-342 | Written after the kept bytes, the file is kept + payload on return and kept + a prefix of the payload after any abort or kill; each emission continues all earlier ones of the stream |
| Downloader.ResumedIsBodyIff | core/services/download_service.py:277-299 | Resuming a file that somebody else wrote gives the body if and only if it was a prefix of it |
| Downloader.SingleStream | core/services/download_service.py:277-342 | From a destination that is a prefix of the body, every return leaves the whole body, after a 416 as after a stream, and an abort leaves a prefix; from any other it leaves the body or what resuming makes of the file; its one request is counted, and its callbacks begin alone |
| Downloader.PoolFirst | core/services/download_service.py:226-275 | The pool is tried exactly when the destination is missing or empty, a size of at least the minimum is expected and there is more than one thread; without a result the destination still is a prefix of the body and a new round begins |
| Downloader.DownloadWithResume | core/services/download_service.py:219-342 | One call keeps the prefix property and delivers: the body, or body[..expected] when the parallel path returned; it touches only the destination and its parts; the trail it returns names a pool exactly when one was tried and a stream exactly when one was asked for, its attempts and the stream are the requests made, and emissions start over only with the retries and the fallback it tells of |
| Downloader.DownloadRepeatedly | core/services/download_service.py:219-342 | A loop of calls, each possibly aborted or killed, is a sequence of the kind the next row speaks of: the destination is a prefix of the body after every call |
| Downloader.CallsKeepPrefix | core/services/download_service.py:219-342 | Over any sequence of calls, each aborted or killed anywhere, the destination is always a prefix of the body, every return delivers, and expecting more than the body never returns from the parallel path |
| TitleDownload.TryFetchBinary | core/services/download_service.py:356-385 | Any failure and a file below the minimum count as missing; success means at least the minimum size, and the body when the file was a prefix of it |
| TitleDownload.ObtainTicket | core/services/download_service.py:590-620 | A fetched ticket is passed on as it is; otherwise a synthetic one only when allowed, with every later failure swallowed at the point it had reached: a claimed one is exactly the generated ticket, and without a claim the file is as before or a prefix of that |
| TitleDownload.SyntheticTicketSpoilsFetch | core/services/download_service.py:602-605 | Resuming a fetch over the generated ticket never gives a server ticket whose second byte is not zero |
| TitleDownload.DistinctIdsDistinctNames | core/nus/tmd.py:95-120 | In a parsed TMD, different content ids give different file names |
| TitleDownload.FetchContent | core/services/download_service.py:624-669 | The content file ends as the body or body[..record.size], the artifact describes exactly that file, and the trail is one that the size allows, its attempts the requests made |
| TitleDownload.FetchContents | core/services/download_service.py:622-669 | After the loop every content file of distinct name still is what its own fetch left, progress is logged file by file with the trail of each, and the requests made are those of the trails |
| TitleDownload.TakeMeta | core/services/download_service.py:566-620 | TMD and ticket become the leading artifacts, with their sizes; a TMD that cannot be parsed is still an artifact but yields no contents |
| TitleDownload.FetchRest | core/services/download_service.py:566-714 | From sound metadata files, a download that returns is complete: parsed TMD, leading artifacts and all contents as fetched |
| TitleDownload.DownloadTitle | core/services/download_service.py:454-714 | All files the downloader owns stay prefixes of their bodies; a returned result is complete, a claimed ticket is there and not empty, a fake one only when allowed; progress is logged file by file, TMD and ticket as single streams without restart, each content with its trail, the requests made are exactly those of the trails, and all callbacks have ended |
| Progress.BandsTile | core/services/download_service.py:539-628 | The bands of TMD, ticket and contents have positive width and follow each other from 0 to 1 without gap |
| Progress.StaysInBand | core/services/download_service.py:492-503 | Every emission stays inside its band without being clamped, and a plausible done one reaches its end |
| Progress.JobProgressGrows | core/services/download_service.py:480-520 | Of two emissions as they are computed, a later file is never below an earlier one, and within a file progress is non-decreasing in each round |
| Progress.JobProgressFallsIff | core/services/download_service.py:480-520 | Of two emissions in the order of their files, the later is less of the whole if and only if it is less of the same file |
| Progress.RowFallsIff | core/services/download_service.py:126-148 | A later row update is told less if and only if it is of the same file, claims less of it, and its callback began earlier and was overtaken, or the file has started over; within a round of a file of known size: if and only if its callback began earlier with a smaller sum |
| TitleDownload.DownloadProgressGrows | core/services/download_service.py:480-668 | The emissions of a whole download, in the order in which they are computed, never fall, except where their own file has started over in between; a file whose trail has no restart never falls |
| TitleDownload.RowProgressFallsIff | core/services/download_service.py:126-148 | The same exact condition for any two row updates of a whole download |
| TitleDownload.RowProgressGrows | core/services/download_service.py:307-329 | After a row update of a callback that began alone, none of the same round is told less, and none at all in a file that was fetched without a pool, as the TMD, the ticket and every single stream are |
| TitleDownload.RowProgressCanFall | core/services/download_service.py:131-148 | A download without any restart in which two row updates of one round come with the larger progress first: the order in which sums are computed is not the order in which rows are written |
| Progress.QueueProgressBounds | apps/worker/runner.py:104-114 | Every DOWNLOADING value lies in [0.1, 0.35], whatever the payload says |
| Cbc.DecryptUndoesEncrypt | core/nus/app_decryptor.py:41-61 | CBC decryption undoes CBC encryption under the same key and initial value, for any invertible block cipher |
| Cbc.DecryptConcat | core/nus/app_decryptor.py:47-54 | Decrypting in two calls, with the chaining value carried over, equals decrypting at once |
| Cbc.DecryptPrefix | core/nus/app_decryptor.py:47-54 | Decryption commutes with taking a prefix of whole blocks |
| AppDecryptor.CbcDecryptor.Update | core/nus/app_decryptor.py:52 | The buffered decryptor outputs the decryption of all whole blocks it has, keeps the rest, and carries the chaining value |
| AppDecryptor.DecryptApp | core/nus/app_decryptor.py:10-61 | Each refusal in the order of its check, changing nothing; otherwise, for any positive multiple of 16 as block size, dest is the whole-file CBC decryption and the source size is returned |
| AppDecryptor.StreamDecrypt | core/nus/app_decryptor.py:47-61 | The read, decrypt and write loop writes the one-shot decryption of the whole source |
| AppDecryptor.CutCiphertextDecrypts | core/nus/app_decryptor.py:41-61 | A ciphertext cut at a block boundary decrypts to the plaintext cut at the same place |
| AppDecryptor.PaddedPlaintextRecovered | apps/worker/runner.py:186-190 | Decryption followed by truncation to the record size recovers any plaintext that was padded to whole blocks |
| Hex.HexRoundTrip | core/nus/ticket.py:104-105 | Hexadecimal text read as bytes and printed back as a big-endian number at the same width is the text in lower case |
| Ticket.GenerateFakeCetk | core/nus/fake_ticket.py:19-44 | The generated ticket is the zero buffer with exactly the two fields patched in, the key field being the encrypted zero key; each refusal is reported |
| Ticket.LayoutSlots | core/nus/fake_ticket.py:34-42 | The title id slot and the key slot do not overlap: each reads back as written |
| Ticket.FakeTicketParsesBack | core/nus/ticket.py:94-118 | Parsing a generated ticket returns the lowercase zero-padded title id and the all-zero title key, for every hex title id of at most 16 digits |
| Ticket.HexTitleIdAccepted | core/nus/fake_ticket.py:30 | Hexadecimal title ids are accepted exactly up to 16 digits |
| Tmd.ParseRecords | core/nus/tmd.py:95-120 | The loop returns the records at the offsets of the layout, in order |
| Tmd.ScoreRecords | core/nus/tmd.py:123-151 | The loop computes the score function that the bounds and the round trips are about |
| Tmd.Parse | core/nus/tmd.py:54-92 | Trying, scoring and sorting the candidates is the same as: read wide when it fits and scores at least as well as narrow, else narrow when it fits, else an error |
| TmdRoundTrip.RecordsDecode | core/nus/tmd.py:95-120 | Encoded records, of either layout, decode to themselves at their own layout whatever follows them |
| TmdRoundTrip.ScoreIsMaximalIffCanonical | core/nus/tmd.py:123-151 | Scores lie in [-9m, 7m] for m sampled records, and 7m is reached exactly by canonical samples |
| TmdRoundTrip.WideRoundTrip | core/nus/tmd.py:54-92 | A canonical 0x30 file with arbitrary hashes and trailing bytes parses back to exactly its records |
| TmdRoundTrip.NarrowRoundTripWithoutRoom | core/nus/tmd.py:61-92 | A 0x24 file with arbitrary records and fewer than 12n trailing bytes parses back to exactly its records |
| TmdRoundTrip.NarrowRoundTripIff | core/nus/tmd.py:61-92 | A canonical 0x24 file parses back exactly when the wide reading has no room or is not canonical too |
| TmdRoundTrip.NarrowRoundTripByHash | core/nus/tmd.py:61-92 | A canonical 0x24 file of two or more records parses back unless the second hash starts with the bytes 00 01 |
| TmdRoundTrip.WideViewOfSecond | core/nus/tmd.py:98-108 | The second record of the wide reading takes its id from the second narrow size and its index and size from the second narrow hash |
| TmdRoundTrip.TwoNarrowRecordsIff | core/nus/tmd.py:61-92 | For two canonical narrow records the misreading is decided exactly by the trailing length and the second record's own fields |
| TmdRoundTrip.OneNarrowRecordIff | core/nus/tmd.py:61-92 | A file of one canonical narrow record is misread exactly when twelve or more bytes follow it |
| TmdRoundTrip.NarrowMisread | core/nus/tmd.py:61-92 | A concrete canonical narrow file that does not parse back: the condition on the second hash is needed |
| WfsPath.SplitParts | native/wfs_core/src/wfs_core_engine.cpp:77-88 | The loop returns the non-empty components in order |
| WfsPath.TargetsAgree | core/services/wfs_adapter.py:115-126 | A path the native engine accepts names the same components in the simulation if and only if it does not end in a character that strip removes, those outside ASCII included |
| Refinement.TargetsSameIffClean | core/services/wfs_adapter.py:115-126 | For an operation whose path the native engine accepts, clean text is exactly what makes both backends act on the same components |
| WfsPath.RenderRoundTrip | native/wfs_core/src/wfs_core_engine.cpp:42-98 | Rendering clean components and reading them back, as a directory or as a leaf, is the identity |
| WfsTree.ViewDrop | native/wfs_core/src/wfs_core_engine.cpp:179 | Removing a node from the tree removes exactly the entries at or below its path from the flat view |
| WfsTree.ViewWellFormed | native/wfs_core/src/wfs_core_engine.cpp:100-126 | The flat view of a directory tree always has every entry in a directory |
| WfsDevice.Device.DeleteEntry | native/wfs_core/src/wfs_core_engine.cpp:179-182 | The device refuses a missing and a non-empty entry without a change, and otherwise removes exactly that entry |
| WfsEngine.ResolveDirectory | native/wfs_core/src/wfs_core_engine.cpp:100-126 | Walking with creation adds exactly the missing directories or, when a component is no directory, fails having changed nothing; walking without creation finds or fails |
| WfsEngine.ScanDirectory | native/wfs_core/src/wfs_core_engine.cpp:128-150 | The totals grow by exactly the number and bytes of the files below the directory |
| WfsEngine.DeleteEntryRecursive | native/wfs_core/src/wfs_core_engine.cpp:152-183 | Terminates, never lets the device refuse a non-empty directory, removes exactly the entries at or below the path; a missing entry changes nothing |
| FlatFs.DeleteConserves | native/wfs_core/src/wfs_core_engine.cpp:128-183 | Totals of the root before a delete are those after it plus those of the removed subtree, in files and in bytes |
| WfsEngine.CreateAt | native/wfs_core/src/wfs_core_engine.cpp:232-253 | Creation resizes an existing file or adds a zeroed one with its missing ancestors; a failure has changed nothing |
| WfsEngine.WfsCoreEngine.Mkdir | native/wfs_core/src/wfs_core_engine.cpp:223-227 | mkdir does to the flat view exactly what the path specification says, each error leaving it as it was |
| WfsEngine.WfsCoreEngine.CreateFile | native/wfs_core/src/wfs_core_engine.cpp:229-254 | create_file does to the flat view exactly what the specification says, each error leaving it as it was |
| WfsEngine.WfsCoreEngine.WriteStream | native/wfs_core/src/wfs_core_engine.cpp:256-275 | A write at offset 0 overlays the start of an existing file and returns the length; other offsets, missing files, directories and blocked paths are refused, each with its own error |
| WfsEngine.WfsCoreEngine.Remove | native/wfs_core/src/wfs_core_engine.cpp:277-286 | delete removes exactly the subtree of an accepted path, each error leaving the view as it was |
| WfsEngine.LookUp | third_party/wfslib/src/wfs_device.cpp:28-43 | Looking an entry up by its path finds it, reports it missing, or fails when a component in between is no directory |
| WfsEngine.CheckBelow | native/wfs_core/src/wfs_core_engine.cpp:326-356 | The report counts exactly the files and bytes at or below the components looked up, is not ok for a missing or foreign entry, and a scope below a file is an error |
| WfsEngine.WfsCoreEngine.IntegrityCheck | native/wfs_core/src/wfs_core_engine.cpp:326-356 | The check of a scope text: a slash that is kept at its end asks for the empty name inside the directory |
| WfsEngine.WfsCoreEngine.ListTitles | native/wfs_core/src/wfs_core_engine.cpp:288-314 | Exactly the directories directly below /usr/title; none when it is missing, an error when the way is blocked |
| SimulatedAdapter.SimulatedWfsAdapter.Mkdir | core/services/wfs_adapter.py:128-130 | The simulated mkdir meets the same flat specification |
| SimulatedAdapter.SimulatedWfsAdapter.CreateFile | core/services/wfs_adapter.py:132-139 | The simulated create_file truncates what was there and zero-fills to the hint |
| SimulatedAdapter.SimulatedWfsAdapter.WriteStream | core/services/wfs_adapter.py:141-150 | The simulated write creates what is missing and overlays at any offset |
| SimulatedAdapter.SimulatedWfsAdapter.Delete | core/services/wfs_adapter.py:152-157 | The simulated delete removes exactly the subtree, and nothing when it is absent |
| SimulatedAdapter.SimulatedWfsAdapter.IntegrityCheck | core/services/wfs_adapter.py:162-177 | The simulated report counts exactly the files and bytes at or below the scope |
| SimulatedAdapter.SimulatedWfsAdapter.Walk | core/services/wfs_adapter.py:169-177 | Counting in any order gives the same totals as the recursive scan |
| SimulatedAdapter.SimulatedWfsAdapter.ListTitles | core/services/wfs_adapter.py:179-183 | Exactly the directories directly below /usr/title, none when it is no directory |
| Refinement.CreateAgreesIff | core/services/wfs_adapter.py:132-139 | A create_file that the native engine completes has the same effect in the simulation if and only if the bytes the native engine keeps are all zero |
| Refinement.CreateDiffers | native/wfs_core/src/wfs_core_engine.cpp:240-243 | A concrete view on which create_file differs between the two backends |
| Refinement.StoreAgrees | core/services/writer_engine.py:79-86 | The writer's pair of create_file and a write at least as long always has the same effect on both backends |
| Refinement.OperationAgrees | core/services/wfs_adapter.py:115-183 | Every operation that the native engine completes gives the same answer and the same view in the simulation: a path ending in white space, a create over old bytes and a check of a directory with a slash behind it excepted, each of which is shown to differ |
| Refinement.CheckAgreesIff | native/wfs_core/src/wfs_core_engine.cpp:326-356 | A check that the native engine completes has the same answer in the simulation if and only if the scope does not end in a slash, other than that of the root, or is no directory |
| Refinement.CheckDiffers | third_party/wfslib/src/wfs_device.cpp:28-43 | The check of an existing directory with a slash behind it is answered differently by the two backends |
| Refinement.RunsAgree | core/services/wfs_adapter.py:115-183 | The same over any sequence of operations |
| Refinement.MkdirPreserves | native/wfs_core/src/wfs_core_engine.cpp:100-126 | mkdir keeps every file, adds only directories on the way, and does nothing to a directory that is there |
| Refinement.CreatePreserves | native/wfs_core/src/wfs_core_engine.cpp:229-254 | create_file keeps the bytes of every other file and adds only the file and directories on the way to it, on both backends |
| FlatFs.OperationsKeepWellFormed | native/wfs_core/src/wfs_core_engine.cpp:223-286 | Every operation of either backend keeps every entry inside a directory |
| Adapter.WfsAdapter.CreateFile | core/services/wfs_adapter.py:226-227 | Sizes above 32 bits are refused before anything happens; otherwise the chosen backend's specification holds |
| Adapter.WfsAdapter.Delete | core/services/wfs_adapter.py:232-233 | The delete of the chosen backend, by its specification |
| Queue.QueueService.AddItem | core/services/queue_service.py:16-28 | A committed call adds one waiting item with normalised title and region and changes nothing else |
| Queue.QueueService.NextQueuedItem | core/services/queue_service.py:39-46 | The oldest waiting item, or none exactly when none waits |
| Queue.QueueService.SetState | core/services/queue_service.py:48-67 | Only the given columns of one item change, progress clamped; an absent error code keeps the old one; a roll-back changes nothing |
| Queue.QueueService.CreateJob | core/services/queue_service.py:69-80 | One running job without a finishing time is added |
| Queue.QueueService.UpdateJob | core/services/queue_service.py:82-107 | Only the given columns of one job change, and the finishing time exactly with a terminal state |
| Queue.QueueService.AddJobEvent | core/services/queue_service.py:128-131 | One event is appended |
| Queue.QueueService.RecoverIncompleteJobs | core/services/queue_service.py:170-225 | In one transaction: every running job fails, items of those jobs in a recoverable state fail, one event per job is added, and the number of jobs is returned |
| Queue.QueueService.FailRunningJobs | core/services/queue_service.py:186-213 | The loop over the running jobs, in any order |
| Queue.QueueService.FailItems | core/services/queue_service.py:215-223 | The loop over their items: exactly the recoverable ones become FAILED and INTERRUPTED |
| Protocol.AlwaysInvariant | apps/worker/runner.py:82-422 | Through every history of runs, callbacks, crashes and recoveries: a run's job is its own and running until the run ends it, and every item being worked on has a running job |
| Protocol.ActiveItemsHaveRunningJobs | apps/worker/runner.py:99-422 | In every reachable state, also with several jobs on one item, an item in DOWNLOADING to VERIFYING has a RUNNING job |
| Protocol.FinishedExactlyWhenTerminal | core/services/queue_service.py:100-103 | In every reachable state a job has a finishing time exactly when it is DONE or FAILED |
| Protocol.AfterRecovery | core/services/queue_service.py:170-225 | After a crash anywhere and a recovery, no job is RUNNING and every item is DONE, FAILED, FALLBACK_STAGED, or QUEUED without any job |
| Protocol.RecoveryKeepsSettledItems | core/services/queue_service.py:215-223 | Recovery leaves DONE, FAILED and FALLBACK_STAGED items exactly as they are and interrupts the others that have a running job |
| Protocol.StagedExactlyAsBefore | core/services/queue_service.py:171-223 | After any recovery in any history, an item is FALLBACK_STAGED if and only if it was before |
| Protocol.SecondRecoveryIdle | core/services/queue_service.py:170-225 | A second recovery returns 0 and changes nothing |
| Protocol.OneRecoveredEventPerJob | core/services/queue_service.py:205-213 | Each counted job gets its recovered event, nothing else does, and the count is the number of new events |
| Protocol.StagedItemStaysStaged | core/services/queue_service.py:171-178 | A history in which recovery fails a job but leaves its item FALLBACK_STAGED, because that state is not in the recovery set |
| Protocol.RunsFollowThePath | apps/worker/runner.py:99-422 | The states a run writes are DOWNLOADING (repeated), DOWNLOADED, DECRYPTING, then WRITING_WFS, VERIFYING, DONE or FALLBACK_STAGED, DONE, with FAILED possible after each |
| Protocol.NoLateDownloading | apps/worker/runner.py:104-142 | No DOWNLOADING write lands after DOWNLOADED, which is only written when no callback is open |
| Protocol.RunLeavesItsState | apps/worker/runner.py:82-422 | Replaying a finished run's actions leaves item and job in the state it returns, both complete, with an error code when it failed, and touches no other row |
| Protocol.AmidOthersAsAlone | apps/worker/runner.py:82-422 | In any history, as long as no other job acts on the item and nothing crashes, a run's item, job and events are what its own actions make of them alone, whatever happens to other items |
| Protocol.RunSettlesAmidOthers | apps/worker/runner.py:82-422 | Without concurrent runs of the same item but with any on others: a finished run has left item state, job state and its own outcome equal, an error code when it failed and the old one when not, along a legal path |
| Protocol.ErrorCodeNeverCleared | core/services/queue_service.py:63-64 | An item that has an error code keeps having one through every run, a successful one included |
| Protocol.ErrorCodeKeptUnlessFailed | core/services/queue_service.py:63-64 | A run that has not failed leaves the error code exactly as it was: a DONE item carries one if and only if it did before |
| Protocol.RunExtendsHistory | apps/worker/runner.py:82-422 | The actions of any run extend any history as single steps, so that what holds throughout histories holds throughout runs |
| Protocol.RaisesTellThePhase | apps/worker/runner.py:395-422 | A run has seen no exception before its handler, exactly one inside it, and exactly two when it has escaped |
| Protocol.EscapeIsRaisedInHandler | apps/worker/runner.py:406-421 | What escapes a run is the second exception, raised inside the handler, and the last thing it does |
| Protocol.EscapedRunLeavesJobRunning | apps/worker/runner.py:395-421 | A history in which a second exception, inside the handler, leaves the item DOWNLOADING and its job RUNNING although nothing has crashed |
| RunRecord.LogsReplay | core/services/writer_engine.py:92-101 | Events added by the writer are steps of the run that do not move it |
| Store.PlacementResumes | core/services/writer_engine.py:78-86 | Wherever placing a file was cut off, between or after its steps, placing it again ends as if it had not been |
| Store.EveryStepCutsOff | core/services/writer_engine.py:78-86 | After every single step of a placement, only its file and directories on the way have changed and it can be resumed |
| Store.StoreOneTouches | core/services/writer_engine.py:78-86 | Placing one file changes one file and adds only directories on the way to it |
| Store.StoreAllHolds | core/services/writer_engine.py:52-103 | After all placements every target holds its data and no other file has been added, changed or removed |
| Store.StoreAllKeepsEntries | core/services/writer_engine.py:52-103 | Entries that are no targets stay, and whatever else is new is a directory on the way to a target |
| Store.StoreAllKeepsOthers | core/services/writer_engine.py:52-103 | No file but the targets changes, even with repeated targets or wrongly announced sizes |
| Store.LoggedTargetsHold | core/services/writer_engine.py:83-101 | At every interruption, the target of each logged file holds that file's bytes |
| Store.InterruptedKeepsEntries | core/services/writer_engine.py:52-103 | At every interruption, nothing but targets and directories on the way to them has changed |
| Store.MovesMidway | core/services/writer_engine.py:83-101 | Writing and logging the next file of an interrupted run gets it one file further |
| Store.EndsUninterrupted | core/services/writer_engine.py:52-103 | A run that has been cut off any number of times and has logged all its files has left the disk as one uninterrupted run would have |
| Store.RefusedUninterrupted | core/services/writer_engine.py:78-86 | Where an interrupted run would be refused by the disk, the uninterrupted run is refused too |
| Store.StaysMidway | core/services/writer_engine.py:78-90 | A further interruption inside the same file leaves the run resumable from there |
| Store.DistinctNeverRepeats | core/services/writer_engine.py:61-62 | With distinct targets no file still to come is mistaken for a logged one, at any point of a run |
| Store.SkippedAreLogged | core/services/writer_engine.py:61-62 | Exactly the files already logged are skipped when no target repeats |
| Writer.WriterEngine.PlaceOnDisk | core/services/writer_engine.py:78-86 | The disk steps of one artifact: complete means placed, killed or failed between any two means resumable, and the disk refuses only what it would have refused without the interruption |
| Writer.WriterEngine.WriteOne | core/services/writer_engine.py:78-103 | A file_written event is only added once the target holds the artifact's bytes |
| Writer.WriterEngine.WriteArtifacts | core/services/writer_engine.py:52-103 | The loop, skipping what is logged, keeps the run resumable at every exit and has placed every file when it ends |
| Writer.WriterEngine.WriteDownloadResult | core/services/writer_engine.py:41-116 | Rerun with the same job after any number of kills or failures, with others writing to the database in between, it ends in the file system of one uninterrupted run and is refused by an attached disk only where that run is; at every interruption the logged targets hold their bytes and all else is as it was but for directories on the way; without confirmation or in a dry run the disk is untouched |
| Writer.WriterEngine.WriteFirst | core/services/writer_engine.py:41-116 | A first call that returns has placed every artifact in order and has logged its report |
| Writer.WriterEngine.RehearseArtifacts | core/services/writer_engine.py:52-76 | A dry run only adds dry_run_file events to its job, one per artifact counted |
| Writer.WriterEngine.Finish | core/services/writer_engine.py:105-116 | The report counts what was written and carries the check of the whole disk |
| Writer.WriterEngine.DeinstallTitle | core/services/writer_engine.py:118-146 | A completed deinstall leaves the view without both title subtrees, whichever of them existed |
| Store.InstallThenDeinstall | core/services/writer_engine.py:118-146 | Install followed by the removal of two subtrees that hold all targets leaves exactly the files that the removal alone would have left |
| Writer.InstallThenDeinstallTwice | core/services/writer_engine.py:41-146 | The two calls in a row: after write_download_result and deinstall_title the files are those that deinstalling alone would have left, and a second deinstall_title changes nothing |
| Installation.ContinuedIsBelow | core/services/wfs_adapter.py:115-126 | A path text that continues another names something below it, on both backends |
| Installation.ChainUnderRoots | core/services/writer_engine.py:34-39 | Everything a title installs lies under its two directories, unless its id ends in white space on the simulated backend |
| Installation.ChainThenDeinstall | core/services/writer_engine.py:118-146 | A title's own install followed by its deinstall leaves the files that the deinstall alone would have left |
| Store.SecondDeinstallIdle | core/services/writer_engine.py:118-146 | A second deinstall leaves the view unchanged |
| Analyzer.Analyze | core/services/install_analyzer.py:20-45 | Direct install is possible exactly with a ticket, a parsed TMD and no artifact above the limit, and the fallback is required exactly otherwise |
| RunRecord.LiveRun.SetState | apps/worker/runner.py:100 | Each row update of a run, after whatever others have done to other rows, commits as the next step of the protocol, raises, or is where the process is killed |
| RunRecord.LiveRun.Follow | apps/worker/runner.py:104-114 | A pool thread enters a callback, makes a row update or leaves, while other threads may be inside theirs; what is added to the run is that mark with the progress it was told; a failing update raises into the download, not into the run |
| Worker.QueueWorker.Advance | apps/worker/runner.py:141-145 | The item's next state and then the job's phase, each with the progress and text that belong to the state |
| Worker.QueueWorker.RunCallbacks | apps/worker/runner.py:104-123 | Overlapping callbacks write DOWNLOADING within [0.1, 0.35]: the actions of the run are marks of the download in their order, each row update with the progress its callback was told, and as many callbacks are open afterwards as the download left open |
| Worker.WrittenProgressFallsIff | apps/worker/runner.py:104-114 | Of two progress values that a download writes to the item, the later is less if and only if it is of the same file, claims less of it, and its callback was overtaken or the file has started over, within a round of a file of known size if and only if its callback began earlier with a smaller sum; never after a callback that began alone, in its round, and so never in a file fetched without a pool |
| Worker.WrittenProgressCanFall | apps/worker/runner.py:104-114 | The value written to the row can fall without any file having started over |
| Worker.QueueWorker.Fetch | apps/worker/runner.py:100-145 | From the first row update to DECRYPTING: a failed download raises, a returned one is complete, and no callback is left |
| Worker.QueueWorker.CheckHash | apps/worker/runner.py:192-241 | The hash check adds events at most: a mismatch does not stop a run |
| Worker.QueueWorker.DecryptContent | apps/worker/runner.py:185-255 | The decrypted file is the content's decryption cut to its record size, the artifact describes it, and no other file changes |
| Worker.QueueWorker.DecryptAll | apps/worker/runner.py:172-255 | Every content with a record is decrypted from the file as downloaded, also when two artifacts share one, and everything else is passed on |
| Worker.QueueWorker.Decrypt | apps/worker/runner.py:147-272 | With a ticket and a TMD, all contents are decrypted under the parsed title key, an unreadable ticket ends the run FAILED; otherwise everything is passed through |
| Worker.QueueWorker.Choose | apps/worker/runner.py:292-376 | Direct unless the fallback is asked for or nothing else is possible; a refusal exactly when the fallback is needed but not allowed, never with USB_ONLY_IMPOSSIBLE |
| Worker.QueueWorker.Install | apps/worker/runner.py:313-368 | An install that ends done has a reported write behind it, and placed every artifact unless it was a dry run |
| Worker.QueueWorker.Decide | apps/worker/runner.py:274-393 | Without an exception, DONE exactly when the fallback is allowed or not needed, FAILED otherwise |
| Worker.QueueWorker.Handle | apps/worker/runner.py:395-422 | The handler fails the item before the job and returns FAILED; its own exception, and nothing else, escapes and ends the run; the code distinguishes a missing confirmation and a missing simulated disk |
| Worker.QueueWorker.ProcessQueueItem | apps/worker/runner.py:82-422 | Whatever fails or is killed, and whatever runs on other items do between any two of its transactions, the writer's included: the run's rows are what the protocol makes of its actions, it returns DONE or FAILED only at the protocol's end, escapes only where the protocol has escaped, and DONE has a completed write, direct only with ticket and TMD |
| Worker.QueueWorker.ProcessNext | apps/worker/runner.py:66-71 | Takes the oldest waiting item, or does nothing exactly when none waits |
| Worker.QueueWorker.ExecuteQueueItem | apps/worker/runner.py:59-64 | Runs the item asked for when it exists, and changes nothing otherwise |
| Worker.QueueWorker.ReturnsUnlessHandlerRaises | apps/worker/runner.py:82-422 | A run that has created its job and is not killed returns if and only if it saw at most one exception, that is, its handler raised none; otherwise it saw exactly two, the second in the handler |
| Worker.QueueWorker.ReturnedRunSettles | apps/worker/runner.py:82-422 | A run that has created its job, is not killed and sees at most one exception returns, and has left item state, job state and returned state equal, both at progress 1.0, the job finished, an error code when FAILED and the old one when DONE, no other row written by it, and the item states on a legal path |
| Worker.QueueWorker.DoneMeansWholeBlocks | apps/worker/runner.py:174-190 | A run that decrypted and returns DONE had only files of whole blocks: a fetch cut off a 16-byte boundary never ends DONE |
| Worker.QueueWorker.DoneMeansInstalled | apps/worker/runner.py:99-350 | End to end: contents served encrypted under the ticket's title key, distinct ids, dry_run off; then DONE, direct or staged after decryption, means the file system holds exactly p[..min(record.size, len(p))] at every content target, whichever way each was fetched, the TMD and ticket at theirs, and every other file as before |
| Installation.DecryptsToWanted | apps/worker/runner.py:186-190 | Whole or cut off at the record size, what can be decrypted at all decrypts to the plaintext up to that size |
| Installation.FindsOwnRecord | apps/worker/runner.py:178-181 | With distinct names the first record with a content's name is that content's record |
| Installation.LeafOfTarget | core/services/writer_engine.py:34-39 | The last component of an accepted target path is what follows its last slash, for every title id, on both backends |
| Installation.ChainLeaves | core/services/writer_engine.py:34-39 | All files of a title, metadata and contents, are installed under different names |
| Installation.ContentPlaced | apps/worker/runner.py:186-255 | A fetched and decrypted content is placed at its target with the plaintext that is wanted of it |
| Installation.InstalledExactly | apps/worker/runner.py:99-350 | A completed chain of download, decryption and placement puts exactly the wanted plaintext at every content target and the metadata at theirs, and changes no file that is not one of its targets |

## Left out

- The manifest path of `download_title`, and HTTP below the status line: redirects, content encodings, timeouts, retry pauses.
- Speed figures and the throttling of progress by time: an emission is optional at each point.
- SQLAlchemy and SQLite: each session is one atomic transaction that commits or rolls back.
- AES, SHA-1 and SHA-256 themselves, and actual key values.
- wfslib, the Python bindings, attaching, key loading, `flush` beyond its attachment check, and `remove_title`.
- Starting, pausing and stopping the worker thread; the loop around `process_next` appears as any number of runs in `Protocol`.
- Settings are read once per run instead of at each use; a failing read is modelled where it happens.
- Listings, serialisers and events as text: payloads other than those of the writer and of recovery are known by their type only, and the level of an event is not kept.
- Routes, templates, launcher, catalog, readiness, disk scanning and staged diagnostics: single-branch facts or plumbing.
- Names in the work directory are a datatype instead of text; that the rendering of hexadecimal names and `.partNN` suffixes is injective is used, not proved, except for content ids.
- Diagnostics that do not parse as JSON are not modelled; the diagnostics of a job are a map of strings.
- Worker.QueueWorker.ProcessQueueItem: lets runs on other items change the database between any two of its own transactions; its disk and its work directory are its own. What holds with several runs on one item is proved in `Protocol`.
- Worker.QueueWorker.RunCallbacks: makes the row updates in the order of the download's marks, after the download's file operations, which they do not touch; an update that rolls back does not take the rest of its callback with it, which only adds behaviours.
- WfsEngine.WfsCoreEngine.WriteStream: never writes short, because files are not limited to the size allocated for them; the writer's check for short writes is left out with it.
- WfsEngine.WfsCoreEngine.ListTitles: gives a set instead of a sorted list.
- WfsEngine.ScanDirectory: counts in unbounded numbers, where the engine wraps at 64 bits.
- SimulatedAdapter.SimulatedWfsAdapter.Mkdir: is one step, where a host file system could fail between two components, and follows no symbolic links.
- WfsDevice.Device.DeleteEntry: names are compared exactly; any folding of case inside wfslib is not modelled.
- Progress.JobProgressGrows: is over the reals, not over floating-point numbers.
