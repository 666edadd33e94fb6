# Verification of Trieve's workers and scripts

Trieve does its slow work outside the request path: workers take messages from Redis lists, upload
chunks to Postgres and Qdrant, delete datasets and organizations, collapse search queries and
migrate vector collections. This project models that work in Dafny and proves what it keeps, over
all inputs and over all interleavings and failures of the calls to other systems.

`dafny verify dfyconfig.toml` checks everything.

## Parts

| files | what they model |
|---|---|
| `RedisLists`, `WorkQueue`, `QueueLaws` | the queue protocol of the delete, file, group-update and ingestion workers as a transition system of any number of workers, each Redis command a step, with a fault step wherever a call can fail |
| `Worker` | the worker loop and the retry function on mutable lists; each is proved to follow the protocol |
| `ChunkStore`, `Batches`, `Ingestion`, `IngestionLaws`, `UpsertIngestion`, `UpsertLaws` | the bulk upload over two stores: insert, embed, upsert, revert; its retries |
| `CollapseQueries`, `CollapseLaws`, `PagedScan` | the query-collapsing script: the window algorithm and the paging loop |
| `OrgDeletion`, `DeleteWorker` | the deferred deletion of an organization: requests of the API and delete workers, any number of each |
| `Migration`, `MigrationLaws` | the BM25 migration: the cursor scroll that fills a queue, and its drain |
| `Text`, `TagCodec`, `ParseQuery` | comma-joined tag sets and their three decoders; stop words and quoted phrases |

## Assumptions

- A message that was decoded serialises to the string it came from, so LREM by value finds it, and
  an API handler submits messages with attempt number 0.
- A Redis command is atomic. A call either succeeds, fails without effect, or (where the model has
  a step for it) takes effect and loses its reply.
- Postgres executes a statement completely or not at all, with the uniqueness rules of the
  migrations. The vector services return one vector for each text, in order. Ids of chunks and of
  their points are drawn when a message is made and are new.
- Ids of organizations and datasets are drawn fresh, and Postgres enforces the foreign key from a
  dataset to its organization. A soft-delete and the push of its message are one step, or two when
  the push fails.
- The order of the rows with equal timestamp and query length is the same in every page query, and
  the rows themselves do not change during a scan.
- Point ids are UUIDs, the source collection does not change during a migration, and Qdrant's
  scroll returns ids in order from the cursor on, the cursor included.

## Where the code does not do what it or its documentation says

Each of these is a lemma below, with the exact condition under which the promise holds.

- The script's documentation says that only queries within 10 seconds of each other are collapsed.
  The last loop of the pass has no time test, so the longest query of a group can be marked by a
  row outside the window (`LongestMayBeMarked`, `LongestMarkedExactly`).
- A page filled by one timestamp stops the scan for good, even with rows behind it
  (`CrowdedRowIsMissed`, `CoverageExactly`, `FirstRunExactly`).
- A comment in the bulk upload says that only the inserted chunks are embedded. All chunks are, and
  the zip pairs the i-th inserted chunk with the i-th vector of the message: with a skipped chunk
  in front, vectors go to the wrong points (`MisalignedExample`, `AlignmentExactly`).
- A failure while linking groups and tags, or while building points, is not compensated. The retry
  then finds nothing to insert, answers success, and the chunks stay without points
  (`RollbackExactly`, `RetryTransparentExactly`, `UncompensatedIsSilent`).
- An upsert message with a chunk without tracking id can never succeed again after a first attempt
  that got past its insert (`UpsertNeverRecovers`, `UpsertRetryExactly`).
- An upsert message with two chunks of one tracking id stores the row of the first, and the groups
  and vectors of the last (`FirstRowLastVectors`).
- The API pushes the messages of an organization's datasets before it marks the organization. A
  quick worker can pass the check in between, and the organization is then never deleted; the same
  holds for an organization without datasets (`CleanupMayBeLost`, `CleanedUpExactly`).
- A dataset whose creation has passed its look at the flag is inserted after the deletion has loaded
  its list. It stays live, the worker's delete fails on the foreign key, and nobody looks again
  (`LateDatasetBlocks`, `CleanedUpExactly`).
- The migration worker builds the push of a failed message to the dead letters but never sends it,
  so the points of a failed message are silently missing (`FailedMessageIsLost`, `MigrationExactly`).
- The three tag-set decoders invert the encoder on three different domains (`StoredRoundTrip`,
  `SlimRoundTrip`, `ScoredRoundTrip`).

## Model

| member | source | states |
|---|---|---|
| RedisLists.LRemByValue | server/src/bin/grupdate-worker.rs:268-272 | LREM with count 1 takes away exactly one copy of a value, and nothing when there is none |
| WorkQueue.StepInv | server/src/bin/grupdate-worker.rs:184-377 | every step of any worker, faults included, keeps the whole invariant: first-in-first-out arrivals, one fate for each handled message, the exact contents of the processing list, and all attempt numbers below the limit |
| WorkQueue.ProcessingChange | server/src/bin/grupdate-worker.rs:264-323 | which steps add a message to the processing list and which take one away |
| WorkQueue.ClaimIsListed | server/src/bin/grupdate-worker.rs:311-319 | a message a worker still claims is in the processing list, whatever failed before |
| QueueLaws.JobLedger | server/src/bin/grupdate-worker.rs:184-377 | in every reachable state, under every fault, each submitted job is in exactly one place: queued, held by a worker before or after its LREM, dead, done, parked, or caught by a logged fault |
| QueueLaws.ListLedger | server/src/bin/grupdate-worker.rs:184-377 | submissions plus copies made by failed LREMs equal what is queued, in processing, between LREM and lpush, dead, done, or lost there |
| QueueLaws.LRemNeverMisses | server/src/bin/file-worker.rs:235-241 | in every reachable state LREM finds its message and leaves a copy for every claim of every other worker, even with identical payloads |
| QueueLaws.FaultFreeLists | server/src/bin/file-worker.rs:186-262 | without faults the processing list is, as a multiset, exactly the claimed and the parked messages, and no job is lost |
| QueueLaws.AttemptBound | server/src/bin/ingestion-worker.rs:1240-1280 | queued and processing messages stay below the limit, dead letters carry limit minus one, and a job is handled at most `limit` times a submission and at least `limit` times a dead letter: the `==` test suffices |
| QueueLaws.HandledChain | server/src/bin/grupdate-worker.rs:307-321 | no attempt number of a job is handled more often than the one before it |
| QueueLaws.BuriedAfterEveryAttempt | server/src/bin/grupdate-worker.rs:321-352 | a job submitted once and dead-lettered was handled exactly once at each attempt number below the limit, and never at another |
| QueueLaws.NoStarvation | server/src/bin/grupdate-worker.rs:369-374 | a message d places from the pop end is the one taken by pop number d + 1, whatever is submitted, retried or lost meanwhile |
| QueueLaws.StepCost | server/src/bin/delete-worker.rs:384-464 | a weighted sum over queue and workers rises by 4 times the limit with a submission and falls with every other step |
| QueueLaws.WorkBound | server/src/bin/delete-worker.rs:194-381 | the number of steps of any run is bounded by that sum |
| QueueLaws.TotalWork | server/src/bin/delete-worker.rs:194-464 | from the empty system, k submissions cause at most 4 times limit times k further steps: without new submissions all work ends |
| QueueLaws.DrainedLedger | server/src/bin/delete-worker.rs:194-381 | no deadlock: the system rests only with an empty queue and idle workers, and then every job is done, dead, parked or caught by a fault |
| Worker.Redis.BRPopLPush | server/src/bin/file-worker.rs:186-205 | takes the oldest message of the queue to the head of the processing list, or reports that there is none |
| Worker.ReaddErrorToQueue | server/src/bin/ingestion-worker.rs:1212-1306 | the retry function of each service, with every call able to fail, takes exactly the steps of the protocol for its outcome, and returns an error exactly when it says |
| Worker.RemoveOld | server/src/bin/file-worker.rs:393-398 | the LREM of the old serialisation is one protocol step, and its failure is ignored |
| Worker.Finish | server/src/bin/file-worker.rs:400-456 | at the limit the old payload goes to the dead letters, otherwise the message with the next attempt number goes back to the queue |
| Worker.Handle | server/src/bin/ingestion-worker.rs:293-372 | what follows a handler's result is a path of the protocol, and leaves for each result and each failing call exactly the stated lists and history; only undecodable input in the delete and file workers ends the worker |
| Worker.HandledAsPromised | server/src/bin/file-worker.rs:230-259 | the steps of the handling: a success removes the message from processing, a file without chunks, a duplicate tracking id and a failed update leave it there, another failure puts the next attempt at the head of the queue or, at attempt 3 (10 for ingestion), the old payload at the head of the dead letters |
| Worker.RunTurn | server/src/bin/file-worker.rs:180-262 | one pass of the loop body is a path of the protocol, and leaves exactly the stated queue, processing list, dead letters and history; the worker ends if and only if it popped undecodable input in the delete or file worker |
| Worker.RunWorker | server/src/bin/grupdate-worker.rs:176-294 | the loop takes every turn, one after the other, up to one that ends the worker; it is a path of the protocol, and a fault-free one when no call fails and every message decodes |
| Worker.CleanTurn | server/src/bin/ingestion-worker.rs:206-375 | a turn without failing calls takes no fault step |
| Worker.StepInCrowd | server/src/bin/grupdate-worker.rs:146-294 | what the loop does alone is what worker w does among any others, with the same effect on the lists |
| ChunkStore.InsertAdds | server/src/operators/chunk_operator.rs:590-599 | an insert that skips conflicts keeps the uniqueness rules, changes no row, and adds only rows of its batch under free ids |
| ChunkStore.InsertSaturates | server/src/operators/chunk_operator.rs:590-599 | after it every row of the batch conflicts with the table |
| ChunkStore.InsertTwice | server/src/operators/chunk_operator.rs:590-599 | so inserting the batch again changes nothing |
| ChunkStore.RevertUndoes | server/src/operators/chunk_operator.rs:986-1020 | deleting exactly the new ids gives the old table back |
| Ingestion.Databases.InsertSkippingClashes | server/src/operators/chunk_operator.rs:590-599 | the statement row by row: the table after it, and the returned rows have exactly the ids that are new |
| Ingestion.Databases.BulkInsert | server/src/operators/chunk_operator.rs:523-608 | without upsert: the statement and the loop over the returned rows leave the chunks whose ids are new, in message order |
| Batches.InsertExactly | server/src/operators/chunk_operator.rs:590-599 | of a batch without clashes of its own, exactly the rows that do not clash with the table before are added |
| Batches.BatchExactly | server/src/operators/chunk_operator.rs:538-552 | the statement gets exactly the chunks without tracking id and the first chunk of each tracking id |
| Batches.AddsExactly | server/src/operators/chunk_operator.rs:538-608 | a chunk is added if and only if it clashes with no row of the table before, and has no tracking id or is the first of the message with it |
| Batches.InsertsNothing | server/src/operators/chunk_operator.rs:590-599 | the statement changes nothing if and only if every row it gets clashes with the table before |
| Ingestion.Databases.BulkUploadChunks | server/src/bin/ingestion-worker.rs:430-792 | the upload call by call, with every call able to fail: its answer and both stores are those of the specification function |
| IngestionLaws.InsertedIds | server/src/bin/ingestion-worker.rs:571-574 | the ids an upload answers are exactly the ids new in the table |
| IngestionLaws.RollbackExactly | server/src/bin/ingestion-worker.rs:595-789 | after a failed upload both stores are exactly as before if and only if every row of the message clashed with the table, or the failure came before the insert, or an embedding or the upsert failed and the revert succeeded |
| IngestionLaws.UploadConsistent | server/src/bin/ingestion-worker.rs:402-792 | no upload, failed or not, breaks the uniqueness rules |
| IngestionLaws.AlignmentHolds | server/src/bin/ingestion-worker.rs:686-757 | when in the message no chunk that is added is behind a skipped one, every point has the dense, sparse and BM25 vector of its own chunk |
| IngestionLaws.AlignmentExactly | server/src/bin/ingestion-worker.rs:558-569 | where a vector that is on tells the chunks apart, all points are aligned if and only if no chunk that is added is behind a skipped one, a condition on the message and the table before |
| IngestionLaws.MisalignedExample | server/src/bin/ingestion-worker.rs:558-569 | a taken tracking id in front of a new chunk: the new chunk's point gets the vector of the other text |
| IngestionLaws.RetainedPrefix | server/src/operators/chunk_operator.rs:601-605 | the returned chunks are a prefix of the message exactly when the skipped ones come last |
| IngestionLaws.SuccessIsComplete | server/src/bin/ingestion-worker.rs:686-791 | a successful upload leaves, for every new chunk, its row in Postgres and a point with that row and its groups in Qdrant |
| IngestionLaws.OtherPointsStay | server/src/bin/ingestion-worker.rs:773-791 | an upload touches no point but those of the chunks it inserts, and a failed one touches none |
| IngestionLaws.AnswersExactly | server/src/bin/ingestion-worker.rs:539-792 | success if and only if the insert and the links succeeded and every row clashed or every later call that is needed succeeded; then the answer has exactly the ids new in the table |
| IngestionLaws.PointFromMessage | server/src/bin/ingestion-worker.rs:430-508 | when skipped chunks come last, each new point carries its own chunk's ids, groups, texts and boosts as the message gives them, with HTML converted unless the message says no, and the semantic content preferred for the dense vector |
| IngestionLaws.PreparedFrom | server/src/bin/ingestion-worker.rs:430-508 | a chunk is prepared if and only if it comes from the message and has some content |
| IngestionLaws.PreparedConcat | server/src/bin/ingestion-worker.rs:430-508 | in the order of the message |
| IngestionLaws.RetryTransparentExactly | server/src/bin/ingestion-worker.rs:1223-1302 | any failed attempts and then one without failures leave both stores as an immediate success would if and only if all failures were compensated or every row of the message clashes with the table |
| IngestionLaws.UncompensatedIsSilent | server/src/bin/ingestion-worker.rs:761-765 | after an uncompensated failure the retries answer success with no ids, and the inserted rows have no points |
| UpsertIngestion.BulkUpsert | server/src/operators/chunk_operator.rs:555-640 | the upsert statement and the matching of chunks with returned rows |
| UpsertIngestion.BulkUploadUpserts | server/src/bin/ingestion-worker.rs:539-792 | the upload of an upsert message call by call, where no failure is reverted |
| UpsertIngestion.UpsertTwice | server/src/operators/chunk_operator.rs:555-580 | with a tracking id on every row the statement is idempotent |
| UpsertIngestion.UntrackedTwice | server/src/operators/chunk_operator.rs:555-580 | with a row without tracking id the statement fails the second time |
| UpsertIngestion.UpsertAligned | server/src/operators/chunk_operator.rs:581-586 | an upsert returns every chunk, so vectors are always aligned |
| UpsertIngestion.RefusedExactly | server/src/operators/chunk_operator.rs:555-580 | the upsert statement is refused if and only if some row it gets clashes with the table and the table has no row with its tracking id |
| UpsertIngestion.UpsertRetryExactly | server/src/bin/ingestion-worker.rs:1223-1302 | retries of an upsert message are transparent if and only if some row of it is refused, every chunk has a tracking id, or every failure came before the insert |
| UpsertIngestion.UpsertNeverRecovers | server/src/bin/ingestion-worker.rs:1223-1302 | one chunk without tracking id: after one failed embedding all later attempts fail |
| UpsertLaws.UpsertOld | server/src/operators/chunk_operator.rs:555-580 | a row of the table gets the body of the batch row with its tracking id, and otherwise stays as it is |
| UpsertLaws.UpsertNew | server/src/operators/chunk_operator.rs:555-580 | a batch row that no table row can take is added as it is |
| UpsertLaws.UpsertOnly | server/src/operators/chunk_operator.rs:555-580 | no other row is added |
| UpsertLaws.ReturnedRow | server/src/operators/chunk_operator.rs:581-640 | a returned chunk has the table's row with its tracking id, with the body of the first chunk that has it, or else its own |
| UpsertLaws.UpsertAnswers | server/src/bin/ingestion-worker.rs:539-792 | success if and only if the statement and every later call that is needed succeeded; the answer has each chunk's row id in order; a refused statement changes nothing, a later failure leaves the new table |
| UpsertLaws.UpsertedPoint | server/src/bin/ingestion-worker.rs:686-791 | after a success each chunk's point holds the row it ended up in, its groups and its own vectors; of chunks that share a row the last wins |
| UpsertLaws.UpsertOtherPoints | server/src/bin/ingestion-worker.rs:773-791 | no other point is touched, and a failed upload touches none |
| UpsertLaws.FirstRowLastVectors | server/src/operators/chunk_operator.rs:544-552 | of chunks with one tracking id in a message, the row is the first's and the vectors are the last's |
| CollapseQueries.SortIsStable | docker/collapse-query-script/collapse_queries.py:81 | the rows are ordered by timestamp, none is lost, and rows with one timestamp keep their order |
| CollapseQueries.BreakIsSound | docker/collapse-query-script/collapse_queries.py:112-115 | the early break skips no neighbour inside the time window |
| CollapseQueries.LookAround | docker/collapse-query-script/collapse_queries.py:84-123 | the two loops find out exactly whether a row has an in-time comparable neighbour, and whether it has a strictly longer one |
| CollapseQueries.OthersInRange | docker/collapse-query-script/collapse_queries.py:130-137 | the third loop returns the comparable rows in index range, in order, whatever their time |
| CollapseQueries.Pass | docker/collapse-query-script/collapse_queries.py:83-137 | what one pass appends |
| CollapseQueries.Collapse | docker/collapse-query-script/collapse_queries.py:79-139 | the returned list, in order |
| CollapseLaws.FirstPassesExact | docker/collapse-query-script/collapse_queries.py:83-137 | a row is returned if and only if some pass marks it |
| CollapseLaws.MarkedExactly | docker/collapse-query-script/collapse_queries.py:79-139 | for distinct ids: row k is returned if and only if an in-time neighbour is strictly longer, or a comparable row in range has in-time neighbours, none longer than itself |
| CollapseLaws.SurvivorsIndependent | docker/collapse-query-script/collapse_queries.py:89-137 | of any two comparable rows in range and in time, at least one is returned |
| CollapseLaws.LongestMarkedExactly | docker/collapse-query-script/README.md:33-37 | the longest row of its range is marked if and only if a comparable row in range but outside the time window leads a group of its own |
| CollapseLaws.LongestMayBeMarked | docker/collapse-query-script/README.md:33-37 | a concrete input where the function returns that row |
| CollapseLaws.LongestSurvives | docker/collapse-query-script/collapse_queries.py:102-137 | a row longer than all comparable rows in its range, all inside the window, is never returned |
| CollapseLaws.MarkedHaveNeighbours | docker/collapse-query-script/README.md:8 | where the range lies inside the window, only rows with an in-time neighbour are marked |
| PagedScan.CollapseDataset | docker/collapse-query-script/collapse_queries.py:180-197 | the paging loop ends; its pages are those of the page specification, the marks exactly the rows that some page's collapse returns, the new cursor the timestamp of the last page's last row, and without a cursor the first page the first `limit` unmarked rows in order |
| PagedScan.FirstPageExactly | docker/collapse-query-script/collapse_queries.py:12-20 | without a cursor a row is in the page if and only if it is unmarked and fewer than `limit` unmarked rows are in front, and its place is their number |
| PagedScan.CursorPageExactly | docker/collapse-query-script/collapse_queries.py:21-35 | with a cursor a row is in the page if and only if it is not earlier and fewer than `limit` such rows are in front, marked or not |
| PagedScan.AllCollapsedExactly | docker/collapse-query-script/collapse_queries.py:183-189 | a row is marked if and only if the collapse of some page returns it |
| PagedScan.NextPage | docker/collapse-query-script/collapse_queries.py:21-35 | the page for a cursor starts with the first row of the cursor's timestamp and is never empty |
| PagedScan.MeasureDrops | docker/collapse-query-script/collapse_queries.py:183-194 | with every page that does not end on the same row, a measure of the rows left and of the coming move decreases |
| PagedScan.StopTest | docker/collapse-query-script/collapse_queries.py:191-194 | the last-id test stops the loop exactly when no page follows |
| PagedScan.LaterPages | docker/collapse-query-script/collapse_queries.py:183-194 | a row is in one of the later pages if and only if its place is between the bounds of one |
| PagedScan.RangeCovered | docker/collapse-query-script/collapse_queries.py:183-194 | together the pages cover exactly the rows from the first page's start to the last page's end |
| PagedScan.ReachesEnd | docker/collapse-query-script/collapse_queries.py:183-194 | the scan reaches the last row if and only if no timestamp from the cursor on fills a page with rows behind it |
| PagedScan.CoverageExactly | docker/collapse-query-script/collapse_queries.py:181-194 | every row at or after the cursor is given to a collapse if and only if no timestamp at or after it fills a page with rows behind it |
| PagedScan.CrowdedRowIsMissed | docker/collapse-query-script/collapse_queries.py:191-194 | for every limit: of one row more than a page with one timestamp, the last never gets to a collapse |
| PagedScan.FirstRunExactly | docker/collapse-query-script/collapse_queries.py:12-20 | without a cursor: every unmarked row is given to a collapse if and only if none behind the first page is also behind such a timestamp |
| OrgDeletion.StepSafe | server/src/bin/delete-worker.rs:236-364 | every step of the API and of any worker, faults included, keeps: a worker past the mark check works on a marked or deleted organization, a dataset with a message is soft-deleted or gone, and every dataset has its organization |
| OrgDeletion.NeverEarly | server/src/bin/delete-worker.rs:334-341 | when any step deletes an organization, it is marked and no dataset of it is left, however requests and workers interleave |
| OrgDeletion.StepCovered | server/src/operators/organization_operator.rs:181-211 | while no dataset is inserted into the organization, every live one is still on the list of the request that deletes it |
| OrgDeletion.MarkedWhenSoft | server/src/operators/organization_operator.rs:181-234 | so without such an insert every dataset is soft-deleted when the request sets the mark |
| OrgDeletion.StepServed | server/src/operators/dataset_operator.rs:197-248 | every dataset of an organization keeps its message, unless the API touches it or a worker gives up the last one |
| OrgDeletion.StepAlive | server/src/bin/delete-worker.rs:322-364 | a marked organization that somebody will still look at stays so until it is deleted, whatever the API and the workers do, except for a failure after its last dataset went |
| OrgDeletion.StepForgotten | server/src/bin/delete-worker.rs:322-364 | once nobody will look at an organization any more, nobody ever does, until a dataset is inserted |
| OrgDeletion.StepBlocked | server/migrations/2023-12-07-150242_add-organization-id-to-datasets/up.sql:26 | a dataset without a message stays, and with it its organization, until the API touches it |
| OrgDeletion.CleanedUpExactly | server/src/bin/delete-worker.rs:302-364 | from any state in which an organization is marked and the API is done with its datasets: a run that comes to rest, in which no failure costs it its check or a dataset its last message, has deleted it if and only if every dataset it had was soft-deleted with a message on its way, and it had one or a worker was still before the end of its check |
| OrgDeletion.CleanupMayBeLost | server/src/operators/organization_operator.rs:213-234 | the messages are pushed before the mark: a fault-free run after which the organization is marked and no run ever deletes it |
| OrgDeletion.LateDatasetBlocks | server/src/handlers/dataset_handler.rs:114-140 | the look at the flag and the insert are two statements: a fault-free run after which the organization is marked, has a live dataset, and is not deleted |
| DeleteWorker.CleanHandling | server/src/bin/delete-worker.rs:236-378 | when no call fails no fault step is taken |
| DeleteWorker.Stores.DeleteOrganization | server/src/bin/delete-worker.rs:334-357 | a path of the protocol that deletes and unmarks the organization if and only if no dataset is left and no call fails |
| DeleteWorker.Stores.CheckDatasets | server/src/bin/delete-worker.rs:327-363 | so is the look for soft-deleted datasets |
| DeleteWorker.Stores.Check | server/src/bin/delete-worker.rs:322-364 | the whole check is a path of the protocol; a marked organization without datasets is afterwards neither there nor marked unless a call failed, and in every other case both sets are as before |
| DeleteWorker.Stores.Handle | server/src/bin/delete-worker.rs:236-378 | a message's handling is a path of the protocol; the dataset is removed if it is found, soft-deleted or not, with the last one of a marked organization the organization goes, and a failure before the check pushes the message back unless it was the last attempt |
| DeleteWorker.StepInCrowd | server/src/bin/delete-worker.rs:157-381 | what a worker does alone it also does among any others |
| Migration.PagesPartition | server/src/bin/queue-bm25-migration.rs:54-97 | popped in order, the messages give every point id of the collection exactly once, every page but the last has `limit` ids, and only an empty collection has an empty page |
| Migration.FromSuffix | server/src/operators/qdrant_operator.rs:1459-1510 | the next cursor continues a scroll exactly where the page ended |
| Migration.Reindex.QueueCollection | server/src/bin/queue-bm25-migration.rs:54-97 | the producer ends and pushes exactly the pages, or those before the failed call |
| Migration.Reindex.Turn1 | server/src/bin/reindex-worker.rs:48-165 | one pass of the drain, with every call able to fail; the process ends if and only if it popped points that cannot be fetched or one of which is malformed |
| Migration.Reindex.Drain | server/src/bin/reindex-worker.rs:48-165 | the drain loop takes every turn, up to the one in which the process ends |
| MigrationLaws.MigrateExactly | server/src/bin/reindex-worker.rs:168-226 | a message puts exactly its points in the target, with the same id, payload and vectors plus the BM25 vector of the content, and touches no other |
| MigrationLaws.ReplayNothing | server/src/bin/reindex-worker.rs:168-226 | replaying a message changes nothing, whatever was drained in between |
| MigrationLaws.GoodStays | server/src/bin/reindex-worker.rs:48-165 | a migrated point stays migrated through failures, replays and other messages |
| MigrationLaws.DrainExactly | server/src/bin/reindex-worker.rs:48-165 | a drained queue is completely in the target if and only if no message with points met a failing call and no point is malformed |
| MigrationLaws.MigrationExactly | server/src/bin/reindex-worker.rs:146-163 | the same for producer and drain together: the target has every source point in migrated form if and only if no call failed on a message with points and no point is malformed |
| MigrationLaws.FailedMessageIsLost | server/src/bin/reindex-worker.rs:150-159 | one point whose upsert fails: the queue is empty and no further turn ever brings it |
| Text.JoinSplit | server/src/data/models.rs:625-633 | joining the parts of a split gives the string back, and no part has the separator |
| Text.SplitJoin | server/src/data/models.rs:1092-1096 | splitting joined parts without separator gives them back |
| TagCodec.StoredRoundTrip | server/src/data/models.rs:625-633 | encode then decode is the identity exactly on absent sets, empty sets, and sets of comma-free tags whose first is not empty |
| TagCodec.SlimRoundTrip | server/src/data/models.rs:648-650 | exactly on absent sets and non-empty sets of comma-free tags |
| TagCodec.ScoredRoundTrip | server/src/data/models.rs:766-771 | exactly on absent sets and sets of non-empty comma-free tags |
| TagCodec.StoredKeepsString | server/src/data/models.rs:625-633 | decode then encode loses exactly the strings that start with a comma |
| TagCodec.SlimKeepsString | server/src/data/models.rs:648-650 | decode then encode loses nothing |
| TagCodec.ScoredKeepsString | server/src/data/models.rs:766-771 | decode then encode loses exactly the non-empty strings with an empty tag |
| TagCodec.AbsentIsEmpty | server/src/data/models.rs:1092-1096 | an absent tag is encoded as an empty one |
| TagCodec.ScoredDropsEmpty | server/src/data/models.rs:766-771 | the scored decoder drops an empty tag anywhere, and keeps any other in its place |
| TagCodec.StoredEmpties | server/src/data/models.rs:625-633 | the stored decoder gives an empty set exactly for the strings that start with an empty tag |
| ParseQuery.RemoveStopWords | server/src/handlers/chunk_handler.rs:1053-1074 | the loop with its two accumulators equals splitting, filtering and rejoining, and keeps a query of stop words only |
| ParseQuery.StopWordsIdempotent | server/src/handlers/chunk_handler.rs:1053-1074 | removing stop words again changes nothing |
| ParseQuery.ParseText | server/src/handlers/chunk_handler.rs:1053-1078 | stop words are removed only on request, the words that stay are the others in order, and a query that this would empty is kept |
| ParseQuery.KeptExactly | server/src/handlers/chunk_handler.rs:1059-1066 | a word stays if and only if it is no stop word |
| ParseQuery.KeptConcat | server/src/handlers/chunk_handler.rs:1059-1066 | and in its place |
| ParseQuery.CloseExactly | server/src/handlers/chunk_handler.rs:1080 | the scan closes a phrase at a place exactly when the regular expression matches the inside up to there |
| ParseQuery.QuoteAtExactly | server/src/handlers/chunk_handler.rs:1080 | a quoted phrase starts at a place and ends at another exactly when the scan says so; none has two ends |
| ParseQuery.SpansAreLeftmost | server/src/handlers/chunk_handler.rs:1081-1085 | the matches are quoted phrases, disjoint and in order, and no phrase starts in a gap |
| ParseQuery.LeftmostIsUnique | server/src/handlers/chunk_handler.rs:1081-1085 | there is only one such list |
| ParseQuery.GapsAndPhrases | server/src/handlers/chunk_handler.rs:1081-1085 | matches and gaps put the query together again |
| ParseQuery.ParseFindsQuotes | server/src/handlers/chunk_handler.rs:1048-1117 | the phrases are the texts of all leftmost quoted phrases, in order, of the query that is returned, and there are none exactly when it has none |

## Left out

- `upload_chunk`, the path for messages with split averages: it draws new point ids on each attempt, so the retry laws do not apply to it.
- Update messages of the ingestion worker (`update_chunk`): only what the queue does with them is modelled.
- Messages that clear a dataset, and what deleting a dataset does to its chunks, groups and files.
- `server/src/bin/sync-qdrant.rs`: its delete set is always empty.
- The negated words of a parsed query, which would only add an easy member.
- The tag tables a bulk insert fills: they are part of the step that links groups and tags.
- The vector services and Qdrant failing in part, and a Postgres statement whose reply is lost.
- ClickHouse replacing a marked row by its new version, which can show a row twice in one page before it merges.
- Lower-casing, trimming and Unicode: the normal form of a query and the test for stop words are parameters.
- Several collections in one migration: each is queued and drained the same way.
- Panics outside the two named ones (undecodable messages, malformed points) and out-of-memory ends, which the crash step of the queue covers.
- Sleeping between attempts, logging, Sentry, environment variables, and signal handling.
