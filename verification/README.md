# Verified model of the object storage reconciler

The program compares files in S3-compatible object storage with references in MySQL databases,
moves them between providers, archives and deletes them, and repoints the databases. This
project models the parts of it where a mistake loses data and proves what they promise.

| files | what they model |
|---|---|
| ArchiveProtocol, ArchiveSafety, ArchiveOutcomes, ArchiveHazards | archive-and-delete as a transition system: any number of runs and workers, two stores, failures and crashes at every step, other users writing |
| ArchiveKeys, Cloud, CopyObjects, CopySteps, BatchDelete, ArchiveRun, Restore, ArchiveRefs | the same operations in the form of the program: copy, batched delete, the archive call, restore, pasted references |
| JobLog, JobReaders, JobRegistry | reconnectable jobs: the compacted event log, its readers, the registry above the guard |
| PyStrings, Urls, UrlRoundTrip, UrlForms, UrlHosts, Scanner, ScannerRules | printing and splitting object URLs, splitting bare paths and foreign URLs, finding URLs in rich text |
| Records, Paging, CheckpointNames, Checkpoints, Reconciliation, ReportFields, Scans, ColumnScans, ContentProtection, EmptyBucketList, FailedColumns | reconciliation: paging with retries, crash-safe checkpoints, merge and classification, resumption, protection by rich text |
| Repoint, RepointOutcomes, RepointReplay | repointing database cells among other writers, resuming and repeating it |
| DumpFilter, DumpForms, DumpSecondPass | the dump filter |
| MigrationReport, ReportRules, ReportRoundTrip | the migration report, written and read |
| Basics | options, schedules and sums |

Workers of a pool appear as a schedule, a permutation of the indices: results hold for every
schedule; CopySteps interleaves the requests of the workers one by one. Reports are lists of
rows, disks and stores are maps from paths to contents.

## Hypotheses

They are stated where they are used, as preconditions or as laws of the modelled environment.

- SHA-256 (section 6.2 of FIPS 180-4) has no collisions, nor have the 16 hexadecimal digits of it that name a checkpoint; hashing piecewise equals hashing at once.
- An ETag names one content at a location. Stores are read-after-write consistent, and puts and renames are atomic. A request has its effect, if any, before the worker that sent it goes on or its process is gone, even if its reply is lost.
- Bucket names have no slash, and only archive runs write to the archive bucket: not other users, and not this program's own copies with overwrite or direct deletions, which could reach it (app/routes/storage.py:758-784).
- Database and storage stay fixed while a scan is interrupted and repeated; a bucket in another region stays so.
- Progress callbacks do not raise. There is one server process.

## Where the code differs from what it says

Each of these is proved, with the exact condition where there is one.

- Copying "never overwrites" only items that a request names once (OverwritesExactly, RepeatedItemOverwrites, CopyNeverOverwrites).
- Between the second HeadObject and the delete, another user's write is lost, exactly when it changes the ETag (WriteInsideWindowIsLost, DeleteLosesExactly).
- Byte updates are said to be kept per item; they are kept per key, so equal keys in two buckets displace each other. Of the phase messages, said to remain available, only the last one is kept (UpdatesShareSlot, OnlyLastPhaseKept).
- A full registry forgets its oldest job even if it is running; a second thread for the same keys can then start. Only the guard keeps their bodies apart (EvictionAllowsSecondThread, SecondThreadReachable, BodiesNeverShareKeys).
- Amazon URLs in the default region whose bucket is "s3" or ends in ".s3", buckets ending in a dot, and keys with a leading slash are not read back (AwsUrlRoundTrip, EndpointUrlRoundTrip).
- The identifier pattern also accepts a final line feed, which the checkpoint file name turns into an underscore (SameSafeName, NewlineCollision).
- A request with an empty list of buckets, which scans nothing, has the checkpoint id of the request without a list, which scans everything; a rich-text checkpoint of the former, loaded by the latter, lacks keys unless URLs without a bucket name them all, and their objects become orphans (SameIdWhen, EmptyListPoisonsExactly, EmptyListUnprotects).
- The checkpoint is said to go when a run finishes without errors. The first part's goes when that part had no error, even if the rich text failed; when the rich-text columns are the requested columns, it also goes when only the rich text had no error, and an error-free first part makes all rich text be read again (LeftByBoth, FetchedInBoth, SharesIdWhen).
- An orphan is said to be absent from every column. A stored object that a column refers to, or that rich text names, is listed as one exactly when all these columns and rich texts failed (ScanListsOrphansExactly; ColumnFailureMakesOrphan and RichTextFailureMakesOrphan show it).
- Paging loses rows whose id is repeated across a batch boundary (PagedIsScan, RepeatedIdLosesARow).
- Without a primary key, rows sharing an `id` are all repointed and the item is reported as a conflict that "is never overwritten" (ConflictHasWritten).
- Reprocessing an applied row is said to be self-correcting. Resending the rest of a list in its order is (ResumeInOrder, for any items); resending in any order is only for compatible items (OrderIrrelevantExactly), and resending a whole list only when its items do not chain (SecondRunOfTwo, SecondRunOfList, SecondRunOfListAnyIds; ChainedItemsReplay and IdItemsReplay are instances).
- The dump filter drops every table with "log" anywhere in its name, such as blog or catalog (LogTableWhen, AnyLogIsLogTable).

## Model

| member | source | states |
|---|---|---|
| ArchiveKeys.RestoreUndoesArchiveKey | app/services/storage_service.py:620-636 | the restore functions recover bucket and key from an archive key if and only if the original bucket has no slash |
| ArchiveKeys.ArchiveKeyInjective | app/services/storage_service.py:620-621 | two objects in slash-free buckets with one archive key are the same object |
| ArchiveKeys.ArchiveKeyCollision | app/services/storage_service.py:620-621 | without that, two different objects share an archive key |
| ArchiveSafety.NothingLost | app/services/storage_service.py:738-886 | over every interleaving of runs, workers, failures (uploads and deletes that are applied and reported as failed included), crashes and outside writes, except writes between an item's last head and its delete, every deleted source is in the archive byte for byte, from then on |
| ArchiveSafety.DeleteLosesExactly | app/services/storage_service.py:856-876 | without that exception: the delete a cleared worker is about to send finds the stored content in the archive if the stored ETag is the verified one; where different ETags mean different contents, it loses content if and only if the ETag has changed |
| ArchiveSafety.VerifiedContentKept | app/services/storage_service.py:820-876 | even with writes inside the windows, the archive keeps exactly the content that was verified, for every deletion on record |
| ArchiveSafety.ArchiveStable | app/services/storage_service.py:881-884 | from the barrier after a run's copies to its end, no step of anyone changes the archive entries of its items |
| ArchiveSafety.StepKeepsArchive | app/services/storage_service.py:532-539 | one step: neither the uploads nor the deletes of any run touch the archive entries of a verifying run |
| ArchiveSafety.RunsNeverShareItems | app/services/storage_service.py:715-734 | runs in progress never share an item, and the active set is exactly the union of their items |
| ArchiveSafety.CopyNeverOverwrites | app/services/storage_service.py:532-539 | however runs interleave, the upload of an item that its request names once never replaces an archive entry |
| ArchiveSafety.EveryItemReportedOnce | app/services/storage_service.py:795-879 | taking a number and emitting item_done are steps of their own: in every reachable state no item is reported twice, no number used twice, and each report carries the number its item took; a run that may end has reported every item, and its numbers are 1 to n in some order |
| ArchiveSafety.TraceKeepsInv | app/services/storage_service.py:715-886 | the inductive invariant of the whole protocol: guard, barrier, verification stages and the record of deletions |
| ArchiveSafety.StepKeepsInv | app/services/storage_service.py:738-886 | every step of every run, crash or outside write keeps that invariant |
| ArchiveOutcomes.CopyFailedExactly | app/services/storage_service.py:510-617 | over every trace: a worker that has ended has a failed copy if and only if, since the start of its run, a request of its copy failed or its upload was not confirmed; an item that is already archived does not fail |
| ArchiveOutcomes.RetainedOnlyIf | app/services/storage_service.py:811-863 | over every trace: a source is retained only if, since the start of its run, a request of its verification failed or two of the reads of source and archive entry differed |
| ArchiveOutcomes.AttemptedExactly | app/services/storage_service.py:864-879 | over every trace: a worker that has ended has an attempted deletion, confirmed or not, if and only if, since the start of its run, it sent the delete request and was told so |
| ArchiveOutcomes.StoresChange | app/services/storage_service.py:510-879 | every event: an upload puts its object and a deletion that is applied removes the source, whatever is reported of it, and so do other users; nothing else changes the stores |
| ArchiveOutcomes.RecheckExactly | app/services/storage_service.py:811-863 | a worker is cleared to delete if and only if the object its second head meets has the entity tag, length, date and version that the first one found |
| ArchiveOutcomes.UndisturbedIsArchived | app/services/storage_service.py:532-879 | over every trace: if the archive entry was absent or held the bytes of the source when the run started, no request of the worker failed and nobody wrote the source, a worker that has ended has sent the delete and the archive holds the bytes |
| ArchiveOutcomes.NeverStuck | app/services/storage_service.py:510-879 | such a worker has at every stage a step that succeeds and brings it nearer to its report; it takes at most eleven |
| ArchiveOutcomes.RunGoesOn | app/services/storage_service.py:719-734 | a run copies exactly if its arguments are right, verifies once all its workers have copied, and ends and releases its keys once all have reported |
| ArchiveHazards.WriteInsideWindowIsLost | app/services/storage_service.py:856-868 | for any object: a replacement between the second head and the delete is deleted and exists nowhere afterwards |
| ArchiveHazards.RepeatedItemOverwrites | app/services/storage_service.py:532-617 | any accepted request that names an object twice, whatever else it names, reaches an upload for it that replaces a different archive entry |
| ArchiveHazards.OverwritesExactly | app/services/storage_service.py:532-617 | an upload for an item of an accepted request can replace a different archive entry if and only if the request names the item more than once |
| ArchiveHazards.SampleCase | app/services/storage_service.py:738-886 | the premises of these hazards are met by an everyday object, its second version and a request naming it twice |
| CopyObjects.CopyOne | app/services/storage_service.py:510-606 | one worker, all branches: bucket unavailable, head refused, already there, fetch or upload failed, uploaded without an answer, transferred; it writes only its own destination, and only if the upload is applied |
| CopyObjects.FateExactly | app/services/storage_service.py:528-604 | skipped if and only if the request does not overwrite, could ask and found the destination; transferred if and only if the bucket is available, the source is there, the destination is not or is overwritten, and no request failed |
| CopyObjects.CopyObjects | app/services/storage_service.py:415-617 | in any order of the workers: results align with the request, only destinations of transfers or of unanswered uploads change, nothing existing changes without overwrite, and with separate destinations whatever was uploaded, reported or not, holds the source's bytes |
| CopySteps.AnyInterleavingIsHarmless | app/services/storage_service.py:510-615 | with every head, get and put a step of its own, in any interleaving, and even if items share a destination: the same limits on what changes |
| CopySteps.AnyInterleavingIsFaithful | app/services/storage_service.py:510-615 | with separate destinations every item fares, in any interleaving, as if it were alone |
| CopySteps.FaithfulIsUnique | app/services/storage_service.py:510-615 | so every interleaving and every order of whole workers ends in the same stores with the same results |
| CopyObjects.RerunSkips | app/services/storage_service.py:530-552 | after any first request, a second one skips whatever was transferred, skipped or stored without an answer, if and only if it gets to ask, and leaves it as it is |
| CopyObjects.RerunSkipsEverything | app/services/storage_service.py:530-552 | repeating a fully successful request skips every item and leaves the stores equal |
| BatchDelete.ChunksPartition | app/services/storage_service.py:271-279 | the chunks are non-empty, of one bucket and at most the batch size, and carry per bucket exactly the requested keys in order |
| BatchDelete.BuildChunks | app/services/storage_service.py:271-279 | the grouping and cutting loops build those chunks |
| BatchDelete.SendAll | app/services/storage_service.py:281-326 | in any order of the workers, the answers are folded into one outcome per key, the counter has after each worker the number of keys handled so far, and every value is reported once, in an order of its own |
| BatchDelete.DeleteObjects | app/services/storage_service.py:247-335 | one result per requested object in request order; success if and only if the last answer recorded for the key confirms it, and then the object is gone; nothing unrequested is touched; the counter strictly increases to the number of items |
| BatchDelete.TwiceRequestedEitherWay | app/services/storage_service.py:316-317 | for a key that one batch confirms and another denies, the order of the workers decides |
| ArchiveRun.DigestStream | app/services/storage_service.py:829-844 | the chunked loop returns the length and hash of the whole stream, however it arrives |
| ArchiveRun.VerifyAndDeleteOne | app/services/storage_service.py:795-879 | one worker, all branches: the source goes only if both bodies have equal length and hash and every step succeeds; on every path one number is taken and one item_done emitted, last, with that number and the final result; the deletion callback follows only a delete call that returned |
| ArchiveRun.ArchiveAndDelete | app/services/storage_service.py:719-886 | guard, argument checks, copies, barrier, verification and deletes: the active set is restored, a refusal changes and reports nothing, a source disappears exactly when its archive entry holds its bytes and the provider deleted, and every item is reported once |
| ArchiveRun.DeleteOne | app/services/storage_service.py:866-879 | deleting a single object through the batch delete succeeds exactly when the provider confirms |
| Restore.ValidateRestore | app/routes/storage.py:1065-1083 | a request passes if and only if it is non-empty, every key has a slash and no item targets its own bucket |
| Restore.RestoreFromArchive | app/services/storage_service.py:639-667 | restoring is a copy with the restore rule, with the whole copy contract |
| Restore.ArchivedIsRestorable | app/routes/storage.py:1065-1083 | what an archive run filed passes that check |
| Restore.RestoreTargets | app/services/storage_service.py:624-667 | restoring sends every archived object to the place it came from |
| Restore.RestoreGivesBack | app/services/storage_service.py:639-667 | archive, delete, restore: whatever failed on either way, every item not reported as failed is back with its original bytes, whatever stands at an original place has the original bytes, retained items are skipped, and no archive entry changes |
| ArchiveRefs.ParseArchiveRefs | app/routes/storage.py:328-345 | the texts of rows and errors together are exactly the lines that are not blank; each is a row or an error with its reason, in the order given, and every row has a bucket and a key with a slash |
| ArchiveRefs.ArchiveUrlRestores | app/routes/storage.py:328-343 | pasting the URL of an archived object at any configured endpoint gives a row that restores to its original bucket and key |
| ArchiveRefs.AwsArchiveUrlRestores | app/routes/storage.py:328-343 | the same for Amazon URLs of readable buckets |
| ArchiveRefs.BarePathRestores | app/routes/storage.py:333-343 | the same for a bare path, with or without leading slashes and surrounding blanks |
| ArchiveRefs.PastedPath | app/routes/storage.py:333-343 | a pasted path: whatever blanks surround it and however many slashes lead it, its first segment is the bucket and the rest the key, refused if the rest has no slash |
| ArchiveRefs.PastedWord | app/routes/storage.py:337-339 | a pasted word without an inner slash names no bucket |
| ArchiveRefs.PastedReference | app/routes/storage.py:331-343 | a reference that names a bucket gives that bucket and its whole key, refused if the key has no slash |
| JobLog.CompactEntry | app/services/archive_jobs.py:43-60 | what the compacted log holds for a slot: the last emission of the whole history with that slot, and nothing for unused slots |
| JobLog.PendingExactly | app/services/archive_jobs.py:43-60 | a poll delivers, in order and with their numbers, exactly the events above the cursor that no later one displaces; byte updates displace by key, progress by bucket and key, phase messages each other, and item_done and all other events neither displace nor are displaced |
| JobLog.Job.Emit | app/services/archive_jobs.py:43-60 | an emission extends the history by one and the log stays its compaction |
| JobLog.Job.Run | app/services/archive_jobs.py:42-68 | a job's thread leaves exactly its emissions, two more if the work raises, and is finished in any case |
| JobLog.Job.Poll | app/services/archive_jobs.py:75-78 | a poll returns the pending frames above the cursor in order, and whether the job had finished |
| JobLog.Sorted | app/services/archive_jobs.py:76 | the frames handed to the reader are exactly the stored ones above the cursor, ascending |
| JobReaders.Reader.Turn | app/services/archive_jobs.py:74-83 | one turn of the streaming loop is one poll of the session model |
| JobReaders.ReaderSeesHistory | app/services/archive_jobs.py:70-88 | attaching at any time with any polling schedule: strictly increasing sequence numbers, every kept event exactly once, and the last value per slot equals that of the full history up to the cursor |
| JobReaders.StoppedReaderIsComplete | app/services/archive_jobs.py:75-83 | a reader stops only when the job has finished and nothing is undelivered; its display then equals the fold of the complete uncompacted log |
| JobReaders.UpdatesShareSlot | app/services/archive_jobs.py:50-58 | in-flight updates of different items displace each other if and only if both are byte updates with the same key |
| JobReaders.ByteUpdatesDisplaceEachOther | app/services/archive_jobs.py:47-52 | it happens: of byte updates for one key in two buckets only the second is kept |
| JobReaders.OnlyLastPhaseKept | app/services/archive_jobs.py:47-56 | a phase message is in the log, and replayed to a new reader, if and only if no later one was emitted |
| JobRegistry.ArchiveJobs.Connect | app/services/archive_jobs.py:17-40 | by quantifiers over the old registry: an unknown id, an id of another provider or without all keys, and keys that collide are refused, each if and only if; without an id the first running job of the provider with all keys is attached; otherwise one is spawned and the oldest of a full registry forgotten. The job returned is of the provider and has all keys |
| JobRegistry.ArchiveJobs.Choose | app/services/archive_jobs.py:17-31 | the two searches agree with the decision |
| JobRegistry.DecideMeans | app/services/archive_jobs.py:20-31 | the decision by quantifiers over the registry: attached is the first entry with the id, or the first running one of the provider with all keys; each refusal and the spawn exactly when its condition holds |
| JobRegistry.SpawnIsApart | app/services/archive_jobs.py:26-31 | a job is spawned only if no registered running job shares a key |
| JobRegistry.BodiesNeverShareKeys | app/services/storage_service.py:719-734 | over every sequence of requests, entries and exits: at most 8 entries, registered running jobs pairwise disjoint, no two archive bodies on one key even after an eviction, and the active set is the disjoint union of what runs |
| JobRegistry.LeaveGuard | app/services/storage_service.py:731-733 | a finishing run releases exactly its own keys |
| JobRegistry.EnterGuard | app/services/storage_service.py:725-729 | entering with keys apart from the active set keeps the holders pairwise disjoint |
| JobRegistry.SpawnKeepsThreadsApart | app/services/archive_jobs.py:33-39 | the registry alone keeps all running threads apart if and only if the new job avoids the keys of evicted running ones |
| JobRegistry.EvictionAllowsSecondThread | app/services/archive_jobs.py:33-34 | with eight jobs running, one more request evicts the oldest, and a request for its keys then starts a second thread on them |
| JobRegistry.SecondThreadReachable | app/services/archive_jobs.py:17-40 | from the empty registry, nine requests for any keys that share nothing and one for the keys of the first lead there |
| UrlRoundTrip.EndpointUrlRoundTrip | app/services/reconciliation_service.py:115-128 | splitting a printed path-style or virtual-hosted object URL returns its bucket and provider, and its key without leading slashes |
| UrlRoundTrip.ApartEndpointsUnclaimed | app/services/reconciliation_service.py:117-128 | with no endpoint equal to or a subdomain of another, only the printing provider claims the host |
| UrlRoundTrip.AwsUrlRoundTrip | app/services/reconciliation_service.py:95-140 | splitting a printed Amazon URL returns what was printed if and only if the key has no leading slash, the bucket does not end with a dot and, without a region label, does not end with an "s3" of its own |
| UrlRoundTrip.AwsFound | app/services/reconciliation_service.py:95-131 | where the Amazon pattern first matches on a printed host |
| UrlRoundTrip.AwsMisreading | app/services/reconciliation_service.py:95-140 | a bucket "school.s3" in the default region is misread |
| UrlRoundTrip.SplitPrinted | app/services/reconciliation_service.py:143-175 | splitting any printed URL comes down to the choice of the provider for its host and decoded path |
| UrlRoundTrip.PrintedParts | app/providers/s3_provider.py:57-78 | every printed URL is scheme, host and path of the expected characters |
| UrlHosts.ProviderUrl | app/services/reconciliation_service.py:101-128 | any URL: the first configured provider at which it means an object decides, where the first path segment on the host of an endpoint, or what stands before it in the host, is the bucket, a missing bucket means nothing, and the key loses its leading slashes |
| UrlHosts.AmazonHostUrl | app/services/reconciliation_service.py:129-136 | otherwise what stands before the leftmost match of the Amazon pattern, without the dots, is the bucket, with the hint aws |
| UrlHosts.AmazonPathUrl | app/services/reconciliation_service.py:129-140 | with nothing in front of that match the first path segment is the bucket |
| UrlHosts.NobodysUrl | app/services/reconciliation_service.py:129-175 | and otherwise there is no bucket and no hint, and the key is the decoded path |
| UrlForms.BarePath | app/services/reconciliation_service.py:160-163 | a value that is no URL: no bucket and no provider, and whatever blanks surround it and however many slashes lead it, the key is what follows them |
| UrlForms.SlashedPath | app/services/reconciliation_service.py:152-163 | so for every value that begins with a slash, whatever follows |
| UrlForms.ForeignUrl | app/services/reconciliation_service.py:164-175 | a URL whose host no endpoint and no Amazon pattern claims: no bucket and no provider, and the decoded path without its leading slashes as key, with parameters, query and fragment dropped |
| UrlForms.NotAmazon | app/services/reconciliation_service.py:95-140 | so for every host that no endpoint claims and that does not end in the domain of Amazon |
| UrlForms.TailMakesNoDifference | app/services/reconciliation_service.py:164-170 | a query or a fragment changes nothing for any host |
| UrlForms.UnbalancedHost | app/services/reconciliation_service.py:164-168 | a URL whose host has one kind of bracket only cannot be parsed; the whole value is the key |
| UrlForms.PrintedKeyLosesSlashes | app/services/reconciliation_service.py:171-175 | of a key printed with leading slashes the splitter returns what follows them |
| PercentCoding.UnquoteQuote | app/services/reconciliation_service.py:170 | decoding a percent-encoded key gives it back |
| Scanner.DelimitedUrlFound | app/services/reconciliation_service.py:178-190 | a URL between two characters that no URL contains is found, whatever surrounds it |
| Scanner.ExtractEmbeddedKeys | app/services/reconciliation_service.py:181-196 | the loop collects exactly the keys that the found URLs of scanned buckets contribute |
| Scanner.QuotedUrlExtracted | app/services/reconciliation_service.py:181-196 | a quoted printed URL of a scanned bucket puts its key among the extracted ones |
| Scanner.FindAll | app/services/reconciliation_service.py:178-190 | the scan yields all leftmost, non-overlapping matches in order |
| ScannerRules.FoundExactly | app/services/reconciliation_service.py:178-190 | the URLs found in a text are stretches of it in order, none overlapping another, each a scheme in letters of any case with as long a body as there is, and no URL begins outside them |
| Paging.FetchFileReferences | app/services/mysql_service.py:188-214 | the paging loop ends for every batch size, also at an exact multiple, and yields the rows its queries deliver |
| Paging.PagedIsScan | app/services/mysql_service.py:192-212 | batches equal one ordered scan if and only if no id is repeated across a batch boundary |
| Paging.UniqueIdsReadWhole | app/services/mysql_service.py:188-214 | with unique ids every non-empty row is yielded exactly once, in id order |
| ColumnScans.ScanExactly | app/services/mysql_service.py:193-199 | the one big scan: every row whose value is neither NULL nor empty, each once and in order |
| Paging.NoIdLost | app/services/mysql_service.py:192-212 | even with repeated ids, a lost row shares its id with a delivered one |
| Paging.RepeatedIdLosesARow | app/services/mysql_service.py:178-214 | for any batch size: when the row after a full batch repeats the last id in it and is the last of all, it is not delivered |
| Paging.CollectWithRetries | app/services/reconciliation_service.py:49-78 | the rows of the first attempt that runs through, none of a broken one; an error if and only if all three attempts fail |
| CheckpointNames.IdentifierExactly | app/services/mysql_service.py:11 | an identifier is accepted if and only if it is a letter or underscore, then letters, digits, underscores and hyphens, and then nothing or one line feed |
| CheckpointNames.SafeNameKeeps | app/services/checkpoint_service.py:54-55 | a name survives in its file name if and only if it has only safe characters |
| CheckpointNames.SameFileSameItem | app/services/checkpoint_service.py:58-59 | items with one file have one kind and, for safe names, one name |
| CheckpointNames.MappingKeyInjective | app/services/reconciliation_service.py:219 | table and column are determined by their joined key |
| CheckpointNames.SameSafeName | app/services/mysql_service.py:11 | two accepted identifiers give one file name if and only if they are equal or one ends in a line feed where the other ends in an underscore |
| CheckpointNames.NewlineCollision | app/services/checkpoint_service.py:54-59 | a column with a final line feed shares its checkpoint with the column ending in an underscore |
| CheckpointNames.MappingTextInjective | app/services/checkpoint_service.py:35 | the text hashed for a mapping determines table, column and effective id column |
| CheckpointNames.SameIdSameRequest | app/services/checkpoint_service.py:22-39 | requests with one id agree in prefix, database, provider, mappings and, unless a list is empty, buckets |
| CheckpointNames.SameColumnSameId | app/services/checkpoint_service.py:22-39 | within such requests a column is read by one id column |
| CheckpointNames.SameIdWhen | app/services/checkpoint_service.py:31 | changing only the buckets keeps the id if and only if the lists are permutations or both name nothing |
| Checkpoints.PathDeterminesWork | app/services/checkpoint_service.py:22-59 | items of different requests, or different items of one request, never share a checkpoint file |
| Checkpoints.CheckpointsStaySound | app/services/checkpoint_service.py:62-74 | however processes interleave and wherever they are killed, every checkpoint that can be loaded is complete and right |
| Checkpoints.StepKeepsInv | app/services/checkpoint_service.py:62-67 | opening, filling and renaming temporary files, kills and removals keep the files sound |
| Checkpoints.TempNamesUuid | app/services/checkpoint_service.py:64 | temporary files with different unique parts differ |
| Scans.SaveAtomic | app/services/checkpoint_service.py:62-67 | a save puts the data under the item and leaves no temporary file |
| Scans.SaveIsThreeSteps | app/services/checkpoint_service.py:62-67 | the three assignments of a save are three steps of the machine whose processes may be killed in between |
| Scans.Perform | app/services/reconciliation_service.py:68-93 | whatever fetching an item yields is what the fixed database or storage holds for it; it is given up if and only if a name is invalid or all attempts break off |
| Scans.Worker | app/services/reconciliation_service.py:216-251 | the checkpoint if there is one, else fetch and save; the slot holds the right data or an error, an error if and only if fetching is given up or saving fails, and other checkpoints stay |
| Scans.FetchAll | app/services/reconciliation_service.py:199-327 | in any order of the workers: every slot right or an error, errors exactly as the attempts force, items with a checkpoint not fetched again, every item without an error kept |
| Scans.CollectKeys | app/services/reconciliation_service.py:499-518 | the keys of a column are the union over its rows |
| ColumnScans.ColumnTells | app/services/reconciliation_service.py:68-78 | a column with unique ids gives one reference per row that holds a text, in id order, with the id and text of the row under the names of table and column |
| ColumnScans.TextTells | app/services/reconciliation_service.py:499-518 | a rich-text column with unique ids gives exactly the keys found in the texts of its rows, and the number of the rows that hold one |
| ColumnScans.BucketTells | app/services/reconciliation_service.py:268-327 | a bucket gives its listing, or nothing where it lives in another region |
| Scans.RunScan | app/services/reconciliation_service.py:330-496 | from any disk that earlier runs have left: the report fits what was read, an error-free run reports everything there is, errors are those its attempts force, no item with a checkpoint is fetched again, each part removes its own directory when it had no error, whatever the other part had, and what came through a part with errors is kept; with the exceptions for a shared directory |
| Scans.LeftByBoth | app/services/reconciliation_service.py:402-475 | what the two parts leave: the first part's directory goes when that part had no error even if the rich text failed; with a shared directory it also goes when only the rich text had no error |
| Scans.FetchedInBoth | app/services/reconciliation_service.py:216-251 | what the two parts fetch: with a shared directory, an error-free first part makes every rich-text column be fetched again |
| Scans.CleanRunsAgree | app/services/reconciliation_service.py:330-404 | there is one report for everything there is |
| Scans.ResumedEqualsUninterrupted | app/services/reconciliation_service.py:330-404 | after any processes of any requests have run from an empty disk, interleaved and been killed at any step, an error-free scan over what they left gives the report of an error-free scan that was never interrupted |
| Scans.SharesIdWhen | app/services/reconciliation_service.py:461-475 | the rich-text part shares the directory of the first part if and only if both read the same columns |
| Reconciliation.FirstWins | app/services/reconciliation_service.py:387 | a key is in the reference dictionary if and only if some reference in scope names it, with the first such reference |
| Reconciliation.LastWins | app/services/reconciliation_service.py:397-400 | a key is in the object dictionary if and only if some object has it, with the last such object |
| Reconciliation.MergeRefs | app/services/reconciliation_service.py:365-387 | the nested loop builds that dictionary and counts every reference once, as other-provider, other-bucket or in scope |
| Reconciliation.MergeObjects | app/services/reconciliation_service.py:395-400 | the nested loop builds the object dictionary and counts all objects |
| Reconciliation.ListMatched | app/services/reconciliation_service.py:408-426 | matched and unmatched files, in dictionary order, with the first reference and the last object |
| Reconciliation.ListMissing | app/services/reconciliation_service.py:428-448 | each missing file is attributed to the only scanned bucket or to that of the first matched file of its column |
| Reconciliation.Protect | app/services/reconciliation_service.py:476-478 | the unused objects named in rich text become protected, the others stay orphans, both in order |
| Reconciliation.RunReconciliation | app/services/reconciliation_service.py:363-496 | the whole merge and classification gives the report specified for what was read |
| Reconciliation.ClassesAreSetAlgebra | app/services/reconciliation_service.py:408-478 | with D the referenced and S the stored keys: matched = D∩S, missing = D\S, orphan and protected disjointly cover S\D; no list names a key twice |
| Reconciliation.CountsAddUp | app/services/reconciliation_service.py:480-496 | total = different + other + in scope; matched + missing is the size of D; matched + orphan + protected is the size of S, at most the number of objects, with equality if and only if no key repeats |
| Reconciliation.FewerReferencesMoreOrphans | app/services/reconciliation_service.py:243-251 | references that were not read change exactly this: the stored keys that only they name stop being matched and become orphans, or protected if rich text names them; the other keys only they name are no longer missing |
| FailedColumns.ScanListsOrphansExactly | app/services/reconciliation_service.py:330-496 | any scan, with any failures, for every stored key: matched if and only if a column that was read refers to it; else protected if and only if rich text that was read names it; else an orphan. So a key that some column or rich text names is listed as an orphan if and only if all of these failed |
| FailedColumns.KeyClasses | app/services/reconciliation_service.py:408-478 | the same of any report over what slots hold |
| FailedColumns.ReferencesRead | app/services/reconciliation_service.py:233-251 | the references that were read name a key if and only if a column without an error does |
| FailedColumns.TextsRead | app/services/reconciliation_service.py:563-586 | the same for rich text |
| FailedColumns.ColumnFailureMakesOrphan | app/services/reconciliation_service.py:243-251 | it happens: in a world of one file whose URL stands in a column, a scan whose attempts at the column break off lists the file as an orphan, one whose attempts do not as matched |
| FailedColumns.RichTextFailureMakesOrphan | app/services/reconciliation_service.py:563-586 | the twin: a file that only rich text names is an orphan when the rich text could not be read, and protected otherwise |
| Reconciliation.ReportUnique | app/services/reconciliation_service.py:363-496 | what was read determines the report |
| ReportFields.MatchedFields | app/services/reconciliation_service.py:411-426 | every field of a matched file: table, column, id and value of the first reference to it, bucket, size and date of the last object under its key |
| ReportFields.OrphanFields | app/services/reconciliation_service.py:450-454 | every field of an orphan or a protected file: those of the last object under its key |
| ReportFields.MissingFields | app/services/reconciliation_service.py:428-448 | every field of a missing file: those of the first reference to it, and as bucket the only one scanned, else that of the first matched file of its column, and none if there is no such file |
| ReportFields.ReportOrder | app/services/reconciliation_service.py:411-454 | matched and missing files come in the order of the first references to them, orphans and protected files in the order in which their keys were first listed |
| ReportFields.SummaryTells | app/services/reconciliation_service.py:484-496 | every number of the summary: the lengths of the lists, all references and objects read, the references of other providers and other buckets, the rows of rich text |
| ContentProtection.QuotedObjectNeverOrphan | app/services/reconciliation_service.py:460-478 | an object whose quoted URL stands in a rich-text row read without error is never an orphan; if stored, it is matched or protected |
| ContentProtection.EndpointObjectNeverOrphan | app/services/reconciliation_service.py:178-196 | so for every configured endpoint apart from the others and every key without a leading slash |
| ContentProtection.ScanSparesQuotedObject | app/services/reconciliation_service.py:456-478 | end to end: a scan from any sound disk whose rich-text part has no error never lists such an object as an orphan, whatever happened to the other columns and the buckets |
| EmptyBucketList.EmptyListPoisonsExactly | app/services/checkpoint_service.py:31 | a rich-text column has one checkpoint file for the empty list of buckets and for no list, and what the former leaves is right for the latter if and only if every key that some URL in the rows contributes is also contributed by a URL that names no bucket |
| EmptyBucketList.EmptyListUnprotects | app/services/reconciliation_service.py:461-475 | then the saved keys lack a key that the column has, and the disk is not sound for the request without a list |
| EmptyBucketList.UnprotectedIsOrphan | app/services/reconciliation_service.py:476-478 | a report made without that key lists the stored, otherwise unreferenced object as an orphan |
| EmptyBucketList.SampleUnprotects | app/services/checkpoint_service.py:31 | a world with one endpoint, one bucket and one quoted URL in which that happens |
| ContentProtection.RowsAreSearched | app/services/reconciliation_service.py:499-518 | without an error every key in every row of every rich-text column is collected |
| ContentProtection.EndpointUrlFate | app/services/reconciliation_service.py:375-387 | a reference by the URL of an object at a configured endpoint: of a different provider if and only if another one is scanned, else outside if and only if its bucket is not scanned, else compared by its key |
| ContentProtection.AwsUrlFate | app/services/reconciliation_service.py:375-387 | the same for Amazon |
| ContentProtection.RequestFate | app/services/reconciliation_service.py:355-387 | within a scan: the provider of the request or, without one, the default, and the buckets of the request or, without a list, all of the provider |
| ContentProtection.PathFate | app/services/reconciliation_service.py:375-387 | a bare path is compared by what follows its slashes, whatever provider and buckets are scanned |
| ContentProtection.ForeignFate | app/services/reconciliation_service.py:375-387 | the URL of a host in front of the storage is compared by its decoded path, whatever is scanned |
| Repoint.Resolve | app/services/mysql_service.py:83-126 | validation fails if and only if the database name or some item is invalid, before anything is written |
| Repoint.IdColumnExactly | app/services/mysql_service.py:107-118 | rows are identified by the only primary key column, or by the column id if no primary key is declared; by nothing otherwise |
| Repoint.UpdateItem | app/services/mysql_service.py:131-156 | select, judge, guarded update among other writers: missing if and only if no row had the id; already updated if and only if the first row with the id held the destination; with neither path there, a conflict and no write; with the source there, every row of the id at the source is written and nothing else, and it is called updated if and only if that was one row |
| Repoint.UpdateMigratedUrls | app/services/mysql_service.py:61-163 | a validation failure leaves the database untouched; otherwise every outcome says in that way what its item met and wrote, the counts tell the outcomes, and without other writers each item starts from what the one before it left and the result is that of the items reached |
| Repoint.ResumeInOrder | app/services/mysql_service.py:75-82 | for any items and any database: after a run that broke off at an item, applied or not, resending from that item on gives the database of one full run |
| Repoint.OrderIrrelevantExactly | app/services/mysql_service.py:131-158 | order and repetition are irrelevant on every database if and only if the items are compatible: any two of one table are for different cells, or neither leaves what the other looks for, or one does nothing; items of the id column likewise with the rows they rename |
| RepointReplay.SecondRunOfTwo | app/services/mysql_service.py:131-158 | two items of one table, of the id column or not, over all tables, shared ids included: a second run can change something if and only if the second leaves what the first looks for and the first does not make it what the second looks for |
| RepointReplay.SecondRunOfList | app/services/mysql_service.py:131-158 | any list of items outside the id columns, over all databases with unique ids: a second run changes nothing if and only if following the items of a cell from any of their sources ends where following them again stays |
| RepointReplay.SecondRunOfListAnyIds | app/services/mysql_service.py:131-158 | the same over all databases, also those whose rows share ids: if and only if from the sources of any two items for one cell, one in the first row with the id and one in another, following the items ends where following them again stays |
| Repoint.ResumeEqualsFullRun | app/services/mysql_service.py:75-82 | for compatible items: after an interruption, applying any list that covers the unfinished items, in any order, gives the database of one full run |
| Repoint.SecondRunChangesNothing | app/services/mysql_service.py:75-82 | a second full run of compatible items changes nothing |
| Repoint.SameItemsSameResult | app/services/mysql_service.py:131-158 | without other writers only the set of compatible items matters, not their order or repetition |
| Repoint.ApplyTwice | app/services/mysql_service.py:142-156 | any item once applied, even one of the id column, has nothing left to do |
| RepointOutcomes.ResentIsRecognised | app/services/mysql_service.py:75-82 | resending after a run, in any order and among any other items: an item whose cell no other item writes and whose table has no renaming is reported already updated if it was updated or found so, as before otherwise, and nothing is written for it |
| Repoint.RowsCommute | app/services/mysql_service.py:142-156 | items of different cells commute |
| Repoint.TallyAddsUp | app/services/mysql_service.py:131-158 | the four counts add up to the items handled |
| RepointOutcomes.CountsTell | app/services/mysql_service.py:127-158 | every count is the number of the items with that outcome, and total that of all items sent |
| Repoint.ConflictHasWritten | app/services/mysql_service.py:150-156 | rows are written yet reported as a conflict if and only if several rows share the id and hold the source |
| Repoint.SharedIdExample | app/services/mysql_service.py:109-118 | two rows with one fallback id: both repointed, reported "conflict" |
| Repoint.ChainedItemsReplay | app/services/mysql_service.py:131-158 | two items for one cell: a second run goes on changing it |
| Repoint.IdItemsReplay | app/services/mysql_service.py:131-158 | an item for the id column: a second run finds a row the first did not |
| DumpFilter.FixDump | tools/fix_mysql_dump.py:37-85 | header, then exactly the normalised lines outside log sections that are no settings; written + skipped + dropped = input lines; all log tables named anywhere are reported |
| DumpFilter.SectionStep | tools/fix_mysql_dump.py:51-72 | the section of a line: opened by a log marker or log statement, closed only by another marker |
| DumpFilter.FilterLines | tools/fix_mysql_dump.py:51-79 | the streaming loop agrees with the section-level specification |
| DumpFilter.NamesSeenAre | tools/fix_mysql_dump.py:51-68 | the reported tables are those whose log marker or statement stands anywhere |
| DumpForms.TableNamed | tools/fix_mysql_dump.py:9-34 | a line names a table if and only if it begins with one of the three statements for it |
| DumpForms.MarkerExactly | tools/fix_mysql_dump.py:8 | a line is a marker of a table if and only if it ends, but for white space, in the name of the table |
| DumpForms.NormalizeExactly | tools/fix_mysql_dump.py:19-26 | what the six substitutions are and in which order |
| DumpForms.ReplaceLeftmost | tools/fix_mysql_dump.py:19-26 | a substitution replaces the leftmost occurrence and goes on after it |
| DumpForms.NothingOldLeft | tools/fix_mysql_dump.py:19-26 | whatever the line, none of the six texts is left in the normalised one |
| DumpForms.NormalizeTwice | tools/fix_mysql_dump.py:19-26 | so a normalised line normalises to itself |
| DumpForms.WrittenExactly | tools/fix_mysql_dump.py:70-79 | after the header come exactly the normalised lines outside the sections of log tables that set neither names nor foreign key checks |
| DumpSecondPass.SecondPassSkipsNothing | tools/fix_mysql_dump.py:37-85 | filtering the output again skips no line and reports no table |
| DumpSecondPass.NormalizingNamesNoLog | tools/fix_mysql_dump.py:19-26 | normalising turns no other line into a log marker or log statement |
| DumpSecondPass.ReplaceCreatesNoLog | tools/fix_mysql_dump.py:19-26 | no substitution creates the letters "log" |
| DumpSecondPass.TableKept | tools/fix_mysql_dump.py:19-34 | normalising a line keeps the statement head and normalises the table name by itself |
| DumpSecondPass.LogTableWhen | tools/fix_mysql_dump.py:14-16 | a table is a log table if and only if "log" stands anywhere in its name; backticks make no difference |
| DumpSecondPass.AnyLogIsLogTable | tools/fix_mysql_dump.py:14-16 | so any name around "log", such as blog or catalog, is one |
| MigrationReport.IndexColumns | app/services/excel_service.py:473 | the dictionary maps every normalised name to its last column |
| MigrationReport.ParseCopyReportForDeleteDetails | app/services/excel_service.py:457-536 | the loop of the reader gives what DeletionRule and RefusedExactly say |
| ReportRules.DeletionRule | app/services/excel_service.py:484-536 | any sheet with the columns: the results are, in order, exactly the rows whose status reads copied or skipped and whose bucket, key and destination have values, with these values; every other row that is not blank is excluded, in order, for the reason its cells give; the counts count these lists |
| ReportRules.RefusedExactly | app/services/excel_service.py:469-477 | a sheet with a header is refused if and only if no header reads one of the four names |
| ReportRules.ColumnExactly | app/services/excel_service.py:473 | a name stands for the last column whose header reads it, apart from white space and capitals |
| ReportRules.ValueExactly | app/services/excel_service.py:479-482 | a value is the cell in that column; there is none without the column or in a row too short for it |
| ReportRules.NormalReads | app/services/excel_service.py:490 | a text counts as a word if and only if it is the word but for surrounding white space and capitals |
| MigrationReport.DeleteCountsAddUp | app/services/excel_service.py:486-536 | for any sheet: total = eligible + failed + incomplete = rows with a value; eligible = copied + skipped = results; excluded = failed + incomplete |
| MigrationReport.ColumnOrderIrrelevant | app/services/excel_service.py:473-484 | permuting distinctly named columns changes nothing |
| ReportRoundTrip.GenerateCopyReport | app/services/excel_service.py:253-303 | one row per entry in order, and the number of entries of every status |
| ReportRoundTrip.BuildCopyReport | app/routes/storage.py:916-939 | request and answers side by side give the sheet of the run |
| ReportRoundTrip.DeletionRoundTrip | app/services/excel_service.py:457-536 | reading the sheet of a copy run gives exactly the successful items as deletable, in order, and every failed item as excluded |
| ReportRoundTrip.DeletableAreSuccesses | app/services/excel_service.py:526-535 | an object is offered for deletion if and only if its copy succeeded |
| ReportRoundTrip.ParseCopyReportForDbUpdate | app/services/excel_service.py:404-454 | the loop of the second reader gives what UpdateRule and UpdateRefusedExactly say |
| ReportRules.UpdateRule | app/services/excel_service.py:434-454 | any sheet with the columns: the items are, in order, exactly the rows whose status reads copied or skipped and that have all five values, with these values; the counts are the numbers of rows not blank, used, not migrated, and migrated but incomplete |
| ReportRules.UpdateRefusedExactly | app/services/excel_service.py:423-428 | a sheet with a header is refused if and only if no header reads one of the six names |
| ReportRoundTrip.UpdateRoundTrip | app/services/excel_service.py:404-454 | reading the sheet for repointing gives exactly the successful items with all five values, as they were written |
| ReportRoundTrip.UpdateCountsAddUp | app/services/excel_service.py:434-454 | for any sheet: total = eligible + failed + incomplete, eligible = items |
| BatchDelete.GroupByBucket | app/services/storage_service.py:271-273 | the grouping loop: buckets in order of appearance, each with its keys in order |
| BatchDelete.CutBatches | app/services/storage_service.py:275-279 | one bucket's keys cut into consecutive batches |
| BatchDelete.FoldAnswersEntries | app/services/storage_service.py:316-317 | an item has an outcome if and only if some answer mentions it, and it is what the last of these answers says |
| ArchiveRun.VerifyAndDeleteAll | app/services/storage_service.py:881-884 | the second pool, in any order: no worker disturbs another, and the item_done events are one per item, numbered in that order, with the results of the items |
| ArchiveRun.Stream.Read | app/services/storage_service.py:834-837 | a read returns a non-empty piece of what is left, or nothing at the end |
| JobRegistry.ArchiveJobs.FindId | app/services/archive_jobs.py:21 | the entry with the requested id |
| JobRegistry.ArchiveJobs.FindCovering | app/services/archive_jobs.py:26-28 | the first running job of the provider that covers the keys |
| JobRegistry.ArchiveJobs.FindColliding | app/services/archive_jobs.py:29-31 | the first running job that shares a key |
| JobRegistry.StepKeepsHub | app/services/archive_jobs.py:17-40 | every request, entry, exit and end keeps registry and guard consistent |
| Scanner.AddKey | app/services/reconciliation_service.py:190-195 | one turn of the loop adds the key a URL contributes, if any |
| Scanner.EmbeddedKeys | app/services/reconciliation_service.py:181-196 | the specified set: a key is in it if and only if some found URL contributes it |
| Paging.CollectRows | app/services/reconciliation_service.py:68-78 | one attempt collects into a list of its own and fails exactly where the source breaks off |
| CheckpointNames.EmptyListSharesId | app/services/checkpoint_service.py:31 | an empty list of buckets and no list have one id |
| Scans.ListBucket | app/services/reconciliation_service.py:81-93 | listing with retries returns the whole listing or, if all attempts fail, an error |
| Scans.FetchRows | app/services/mysql_service.py:178-214 | reading with retries returns exactly the paged rows, and fails if and only if a name is invalid or all attempts break off |
| Scans.ScanFirst | app/services/reconciliation_service.py:355-404 | columns, then buckets: without errors all there is and the checkpoint gone; with errors everything that came through is kept; rich-text checkpoints stay unless they are in the removed directory |
| Scans.ScanContent | app/services/reconciliation_service.py:456-475 | the rich-text part: without errors the keys of all columns, and only its own directory is cleared; with errors every column that came through is kept; none with a checkpoint is fetched again |
| Scans.MergeContent | app/services/reconciliation_service.py:581-586 | the keys of all columns together and the sum of their rows |
| Reconciliation.ListOrphans | app/services/reconciliation_service.py:450-454 | the stored keys nothing refers to, in dictionary order, with the last object |
| Reconciliation.BucketByMapping | app/services/reconciliation_service.py:434-436 | the bucket of the first matched file of every column |
| Reconciliation.MatchedIsFirstAndLast | app/services/reconciliation_service.py:411-426 | a matched file is reported for the first reference to it and the last object under its key |
| Repoint.WriteAll | app/services/mysql_service.py:128-158 | the loop over the items: every step accounted for by what its item met, counts equal to the outcomes |
| DumpFilter.Judge | tools/fix_mysql_dump.py:51-76 | the branches of one line: skipped with or without naming a table, dropped as a setting, or written normalised |
| MigrationReport.ReadRows | app/services/excel_service.py:484-536 | the loop over the rows gives the details of all verdicts in order |
| MigrationReport.ReadFields | app/services/excel_service.py:479-482 | a cell is looked up by its column's name; rows may be shorter than the header |

## Left out

- boto3, PyMySQL, urllib, openpyxl and FastAPI internals, event-stream framing, heartbeats, time-based throttling and row-rate messages: no property of this program.
- Visibility (ACLs, public bucket policy) and the creation of destination buckets: provider error codes; whether a bucket is available is an input.
- CopyObjects.CopyObjects: with items whose destinations coincide it promises only that nothing else is harmed, as AnyInterleavingIsHarmless does for interleaved requests; which of the uploads stays is not stated. Its faults are one per item.
- ArchiveRun.ArchiveAndDelete: the whole effect is stated for a call during which nobody else writes and for a request without repeated items; other runs, other users and crashes are in ArchiveSafety.
- BatchDelete.DeleteObjects: a worker's request, record and count are one turn of the schedule; requests only remove and records for different keys are independent, so a finer interleaving matters only for a key requested twice.
- JobRegistry.ArchiveJobs.Connect: starting the thread is not part of the call's contract; threads are the business of the hub in the same module.
- JobLog.Sorted: sorting is by repeated minimum, not by the library's algorithm.
- Strings in URLs are sequences of UTF-8 bytes; white space is ASCII, invalid UTF-8 after decoding and urllib's errors other than unbalanced brackets are not modelled.
- Paging.FetchFileReferences: ids are non-null numbers in the database's order, as a primary key gives them; a table whose first page had only NULL ids is not modelled, and the comparison with the empty string is exact.
- Repoint.UpdateItem: cells are compared exactly; a collation under which different texts are equal is not modelled.
- Repoint.ResumeEqualsFullRun, SecondRunChangesNothing and SameItemsSameResult: stated for compatible items, which OrderIrrelevantExactly shows to be the exact condition for any order; ResumeInOrder, SecondRunOfTwo and SecondRunOfList cover the rest.
- RepointReplay.SecondRunOfList and SecondRunOfListAnyIds: stated for items outside the id columns; for items of the id column the exact condition is that of two items (SecondRunOfTwo).
- Checkpoints.PathDeterminesWork: stated for plain identifiers, one mapping per column and no empty list of buckets; SameSafeName and SameIdWhen say what happens otherwise. The JSON text and its dictionary converters are taken to be faithful, and a sorted list appears as a multiset.
- Scans.RunScan: the process is killed between its steps only in the machine of Checkpoints; the contract is for a run that ends. The progress counters of the fan-out are not modelled.
- MigrationReport.ParseCopyReportForDeleteDetails: a sheet is a list of rows of cells and an empty text is stored as no value; formulas, fonts, hyperlinks and column widths are not modelled. The reason of an incomplete row is the list of labels instead of a sentence.
- DumpFilter.FixDump: lines come as the text reader delivers them; replacing undecodable bytes is not modelled.
- archive_size_summary, report file names, configuration, the column-discovery heuristics and the presigned-URL signature: easy members or opaque tokens.
- The validation-stream route that shares one result list among threads (app/routes/storage.py:453-470): its list changes after it was handed out, so it has no contract to state.
