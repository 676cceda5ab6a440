# Sprue: accounting, usage, uploads and routing

Sprue coordinates blob uploads between clients and storage nodes. It keeps an
append-only account of what each space holds and answers usage queries by
rebuilding a series from that account. This project models four connected parts of
it in Dafny and proves what they promise over every input, run and interleaving.

**Accounting.** `Accounting` is the specification of the registry, the upload store,
the two diff logs and the counters as one state changed by one call at a time.
`Consistency` and `History` prove what every run of calls keeps. `Stores` holds the
in-memory stores as objects that update their maps in place, proved to hold what the
specification says. `Postgres` is the same calls as atomic commits that may be rolled
back, `TwoStep` interleaves the lookups and deletes of concurrent removals, and
`Locking` the row locks of concurrent transactions.

**Usage.** `Reader` is the optimistic read: two paged scans between two readings of
the counters, with any commits of other callers before each query (`Backend` carries
a schedule of them). `Usage` replays a reading into samples with the wrap-around of
64-bit integers written out. `EndToEnd` joins the two: from store calls to samples.

**Uploads.** `Tokens` models invocations, receipts and containers, with the value
itself as its link. `AgentStore`, `Piri`, `Attachments`, `Grouping`, `Packing`,
`Polling`, `Deliveries`, `Resolving`, `Registering`, `Concluding` and `Adding` follow the
handlers from an add to a concluded put. `Protocol` runs any number of handlers side by
side.

**Routing.** `Routing`, `Drawing` and `Allocation` are policies, filters, the weighted
draw and the loop that asks nodes for space.

`Words`, `Ordering`, `Sequences` and `DiffLogs` are the integers, the string order, the
places a filter keeps and the sorted logs the rest is built on.

Instants and durations are nanoseconds; an instant counts from Go's zero time, so
zero is the zero time. What comes from outside is a parameter or a schedule: the
clock, the nodes' answers, envelopes and nonces of new invocations, whether a key can
be derived, whether a message store takes a message, and what other callers commit.

## Findings

- A draw tests `random <= 0`, so of several candidates the first is drawn once more
  than its weight and the last once less; a last candidate of weight one is never
  drawn (`Drawing.DrawsOf`, `Drawing.NeverDrawn`).
- The in-memory space log keeps rows of equal keys, and a page boundary between two
  loses a row (`DiffLogs.PagingExact` gives the exact condition). Its `List` honours a
  limit of zero, and then fails when there is a row (`Stores.SpaceDiffs.List`).
- A Postgres removal looks the size up before its transaction. The counters and the
  log still agree, but they part from the registered bytes when the digest was
  registered again in another size in between (`TwoStep.StaleLookup`), and only then
  (`Postgres.RemovalKeepsBytes`).
- The comment on the usage read says unchanged counters mean nothing was committed for
  the space. A blob of no bytes, a repeated upsert and other commits move none of the
  four counters that are compared (`Reader.UnseenCommit` is one; `Reader.StoodStill`
  gives all of them). A snapshot is therefore stated in sums over time, which cannot tell
  the difference; a reading's rows are those of one state too, but for byte rows when a
  change of no bytes is logged while it reads (`Reader.ListsStill`, `Reader.Read`).
- An add without a digest whose space has lost its provider is refused before its
  receipt is looked up, so the promise in `Adding.BlobAdd` is for provisioned spaces.
- Resolving a put decodes the arguments of whatever invocation is on record for the
  task its destination names, and does not look at its command. A registration is
  therefore backed by an invocation with an allocation's arguments
  (`Protocol.RegistrationsBacked`); that is an allocation when the puts concluded name
  allocate tasks (`Protocol.AllocationsBacked`), as those an add asks for do
  (`Adding.SiteIsAccepted`), and need not be otherwise (`Protocol.CommandUnchecked`,
  `Resolving.ResolvedByAllocation`).
- The first upsert of a space files the shards it is given as they are, and keeps one
  that is given twice; later ones merge (`Stores.FiledKeeps`).

## Model

| member | source | states |
|---|---|---|
| Usage.SampleUsage | pkg/usage/usage.go:149-197 | a query is refused, empty or answered exactly as its range, window and the clock decide; a series is that of the whole logs and counters of one committed state, whatever is committed while it reads; busy means over 500000 rows to list, unstable that the counters moved between each two of four readings, inconsistent that some committed counters account for no amount |
| Usage.PlanFor | pkg/usage/usage.go:149-188 | the exact condition of each answer: refused for its range, its window or its number of windows, which it names, empty, or filled; a filled one gets as few windows as cover its clamped range, between 1 and 2048 |
| Usage.ParseRange | pkg/usage/usage.go:128-136 | accepts exactly positive ascending timestamps and a window of at most 366 days; the query is from and to those instants, counted from the first day of year 1, with the window in nanoseconds |
| Usage.Dense | pkg/usage/usage.go:250-260 | every bucket is non-empty and a window long, except that the last ends where the range does |
| Usage.EdgeClosed | pkg/usage/usage.go:250-260 | bucket ends accumulated a window at a time are from + k*window, capped at the end of the range |
| Usage.WindowsCover | pkg/usage/usage.go:179-188 | the number of windows is the span divided by the window, rounded up |
| Usage.BucketOf | pkg/usage/usage.go:226-228 | dividing a row's offset by the window gives the bucket whose edges hold the row |
| Usage.Bucket | pkg/usage/usage.go:226-228 | every instant of the range indexes an existing bucket, and the duration it is taken from does not saturate |
| Usage.Tally | pkg/usage/usage.go:206-248 | per bucket, the wrapped sum of the log's deltas and of its increases; the rows at or after the end apart; rows before the range count nowhere |
| Usage.Replay | pkg/usage/usage.go:200-297 | sample k is the totals less every delta at or after its bucket's end, floored at zero, with the increases inside the bucket |
| Usage.PartIsWhole | pkg/usage/usage.go:299-326 | the part of the logs a reading fetched yields the series of the whole logs it is a snapshot of |
| Reader.Read | pkg/usage/usage.go:327-372 | a reading it returns agrees, in both totals and in every sum over time from the range's start, with one state committed during the read; its upload rows are that state's, and so are its byte rows unless a change of no bytes was logged while it read; it gives up after three attempts, each of which saw a counter move, is busy only over a log of more than 500000 rows to list, and finds counters inconsistent only where some committed state's account for no amount |
| Reader.Attempt | pkg/usage/usage.go:333-364 | scans whose envelope of counters held still describe the state at its start; otherwise nothing is answered |
| Reader.Scan | pkg/usage/usage.go:397-447 | over an unchanging log, every row later than the bound once and in order, or too busy exactly when there are more than 500000; while only weightless rows are added, every row that moves a sum; whatever is added, rows of the log each once and in order, and too busy only when it has more than 500000 to list |
| Reader.SettledIsSteady | pkg/usage/usage.go:374-388 | while the four counters stand still, so do the rows of both logs that move a sum, even when an add and an equal removal cancel |
| Reader.SettledExactly | pkg/usage/usage.go:374-388 | a commit that goes through leaves the four counters alone exactly when it is a registration that is repeated or of no bytes, a removal that finds nothing or looked up no bytes, an upsert of a known root, a removal of an absent one, or a change the upload log holds already |
| Reader.StoodStill | pkg/usage/usage.go:309-316 | the four counters read the same exactly when every commit between the readings is of another space, is rolled back, or is one of those |
| Reader.ListsStill | pkg/usage/usage.go:316-320 | while they read the same the upload log stands still whole, and the byte log does exactly when no change of no bytes was logged |
| Reader.UnseenCommit | pkg/usage/usage.go:309-316 | a blob of no bytes is registered and logged while the four counters read the same |
| Reader.EnvelopeIsSnapshot | pkg/usage/usage.go:312-326 | two scans inside one settled envelope describe one state |
| Reader.QuietReadingIs | pkg/usage/usage.go:327-372 | with nobody writing, the read is busy exactly when either log has more than 500000 rows to list, else inconsistent exactly when the counters account for no amount, and else answers with their differences and every row to list |
| Reader.StaysOnCourse | pkg/usage/usage.go:402-419 | one more page keeps a scan's rows and what its cursor leaves equal to what it set out to list, whatever commits came between |
| EndToEnd.BackwardIsForward | pkg/usage/usage.go:262-294 | where the total is the sum of the whole log, walking back to an instant is summing the deltas before it |
| EndToEnd.AddedAsOf | pkg/usage/usage.go:229-231 | the increases logged before an instant are the bytes the changes before it added |
| EndToEnd.SampleTells | pkg/usage/usage.go:262-294 | for every run with a clock that does not go back and distinguishable changes within 63 bits, each sample is the bytes registered and uploads held by the changes recorded before its bucket's end, and neither floor fires |
| EndToEnd.SeriesTells | pkg/usage/usage.go:149-197 | the same of the series of any state of any commits that look sizes up before removing them and give a digest one size, at the microseconds their rows keep |
| EndToEnd.MetricsSample | pkg/service/handlers/metrics_sample.go:28-67 | a query is refused exactly when its arguments do not do, as they do not; an answer starts at the timestamp asked for, ends at the one asked for or at the present, has the window asked for and as few buckets as cover that, each with its end as a Unix timestamp; whatever is committed while it reads, each bucket tells the bytes registered, the bytes added and the uploads held by the commits up to one state of the read; with nobody writing it answers unless the logs are too busy |
| EndToEnd.Planned | pkg/usage/usage.go:149-188 | what is planned for a query in Unix seconds is what it asks for, or the one way it is refused |
| EndToEnd.CommitsBefore | pkg/usage/usage.go:226-234 | rounding instants to microseconds moves no change across an instant that is whole |
| DiffLogs.PagingExact | pkg/store/space_diff/memory/store.go:31-91 | over a fixed sorted log the cursor loop collects exactly the rows beyond the bound, for every page size, if and only if no two of them share (receiptAt, cause) |
| DiffLogs.PagesExact | pkg/store/upload_diff/memory/store.go:34-99 | rows with distinct keys are each collected once, in order |
| DiffLogs.TwinsLost | pkg/store/space_diff/memory/store.go:53-75 | two neighbours of one key lose a row to the page boundary between them |
| DiffLogs.PageResumes | pkg/store/space_diff/memory/store.go:53-87 | a page's cursor resumes with exactly the rows after its last |
| DiffLogs.InsertFresh | pkg/store/upload_diff/memory/store.go:114-131 | a row with a new key keeps the log strictly sorted |
| DiffLogs.InsertSum | pkg/store/space_diff/memory/store.go:100-119 | a row put into a log adds its own weight to every sum over it |
| DiffLogs.SumBlind | pkg/usage/usage.go:390-396 | a sum that cannot see weightless rows or rows before the bound is the same over the whole log, its moving rows and what a scan fetches |
| Consistency.LogsAndCountersAgree | pkg/store/upload/memory/store.go:140-246 | after every run, suppressed replays and failed calls included, each space's counters equal its logs' sums and each global counter the sum over the spaces, modulo 2^64 |
| History.RunExact | pkg/store/blob_registry/memory/store.go:133-171 | after every distinguishable run within 63 bits, byte counters, byte log and registered bytes are equal, as are upload counters, upload log and uploads, and both logs are strictly sorted |
| History.BytesAsOf | pkg/store/blob_registry/memory/store.go:49-83 | the byte log summed up to an instant is the bytes registered by the changes before it |
| History.UploadsAsOf | pkg/store/upload/memory/store.go:140-160 | the upload log summed up to an instant is the uploads held by the changes before it |
| History.UntilSplits | pkg/store/blob_registry/memory/store.go:156-159 | with a clock that does not go back, the changes before an instant are the first ones of a run |
| Accounting.DropsOne | pkg/store/blob_registry/memory/store.go:53-81 | dropping a registered digest takes out one record, of the size the lookup reports |
| Accounting.ActTells | pkg/store/upload/memory/store.go:140-160 | each call answers and leaves of the tables what its kind says: a registration adds its record last unless its digest is there, an upsert replaces its root's record where it stands or adds one last, a removal takes out the record it names; every other record stays, in order |
| Accounting.ActCounts | pkg/store/blob_registry/memory/store.go:133-171 | each call logs its row and moves its counters, by the size and by one, or does neither: when its digest is registered or missing, its root known or absent, or the log has its microsecond and cause |
| Accounting.RemovalSpares | pkg/store/upload/memory/store.go:140-160 | a removal leaves exactly the uploads of other roots, each record as it was, and says whether there was one to remove |
| Consistency.RunTells | pkg/store/upload/memory/store.go:140-246 | after every run of calls, one more answers, leaves of the tables, logs and counts what its kind says |
| Stores.AddAll | pkg/store/metrics/memory/store.go:34-41 | adding increments in any order adds each to its own counter, modulo 2^64 |
| Stores.SpaceMetrics.IncrementTotals | pkg/store/metrics/memory/store.go:66-75 | moves the counters of one space and of no other |
| Stores.SpaceDiffs.Put | pkg/store/space_diff/memory/store.go:100-119 | the space's log gains the row at its sorted place; other logs and the order stay |
| Stores.SpaceDiffs.List | pkg/store/space_diff/memory/store.go:31-91 | a positive limit gives the page of the rows beyond the bound; the call fails exactly for a negative limit, or a zero one with rows to list |
| Stores.UploadDiffs.Put | pkg/store/upload_diff/memory/store.go:101-131 | records a change exactly when its instant and cause are new, and says so |
| Stores.UploadDiffs.List | pkg/store/upload_diff/memory/store.go:34-99 | the page of the rows beyond the bound, 1000 to a page unless the limit is positive |
| Stores.Registry.Get | pkg/store/blob_registry/memory/store.go:85-94 | the record of a digest, or none |
| Stores.Registry.Register | pkg/store/blob_registry/memory/store.go:133-171 | a new digest gains a record, last, a log row and both sets of counters together, and the call says so; a registered one changes nothing and says it exists |
| Stores.Registry.Deregister | pkg/store/blob_registry/memory/store.go:49-83 | a registered digest loses its record and no other, and is logged and counted once; a missing one changes nothing and is reported missing |
| Stores.Uploads.RecordDelta | pkg/store/upload/memory/store.go:226-246 | a change the log already holds moves no counter |
| Stores.Uploads.Upsert | pkg/store/upload/memory/store.go:162-214 | a new root is added, logged and counted; a known one has its index and cause replaced where it stands and is not counted; every other record stays; the shards given are filed with it either way |
| Stores.FiledKeeps | pkg/store/upload/memory/store.go:189-207 | after an upsert an upload has the shards it had and those given, sorted; it holds one twice exactly when it did before, or when the upsert is its space's first and is given one twice |
| Stores.UnfiledKeeps | pkg/store/upload/memory/store.go:157-158 | removing an upload drops its shards and no other upload's |
| Stores.Uploads.Remove | pkg/store/upload/memory/store.go:140-160 | a known root is taken out with its shards, logged and counted, and every other upload keeps its record, its place and its shards; a missing one changes nothing and is reported missing |
| Stores.MemoryStores.Call | pkg/store/upload/memory/store.go:19-37 | the stores, sharing counters, hold after any calls exactly what the specification of the run says, and answer as it does |
| Stores.AppendAndSort | pkg/store/space_diff/memory/store.go:104-117 | appending to a sorted log and sorting it is inserting the row |
| Postgres.PgApplyGrows | pkg/store/blob_registry/postgres/store.go:62-147 | a commit never lowers a counter, and one that moves no size or upload counter leaves the rows that move a sum as they were |
| Postgres.RolledBackExactly | pkg/store/blob_registry/postgres/store.go:62-147 | a transaction is rolled back exactly when it would repeat the instant and cause of a row in the byte log, or take a counter of its space or of the whole service past what its column holds |
| Postgres.PgActTells | pkg/store/blob_registry/postgres/store.go:62-147 | one that goes through leaves, logs and counts what its call says, a removal the size its lookup saw |
| Postgres.PgRunOnTick | internal/migrations/sql/00004_upload_diff.sql:17-24 | every row any run of commits leaves is at a whole microsecond |
| Postgres.PgRunAgrees | pkg/store/blob_registry/postgres/store.go:62-147 | under every interleaving, whatever the sizes and lookups, each space's counters equal the sums of its logs and each global counter the sum over the spaces, modulo 2^64 |
| Postgres.PgRunTidy | pkg/store/blob_registry/postgres/store.go:62-147 | under every interleaving, whatever the sizes, no digest is registered twice, each registration is removed at most once and no log repeats a key |
| Postgres.PgRunBooked | pkg/store/blob_registry/postgres/store.go:62-147 | of sizes below 2^63, every interleaving of commits keeps the byte counters equal to the byte log, with no wrap-around, and removes each registration at most once |
| Postgres.RemovalKeepsBytes | pkg/store/blob_registry/postgres/store.go:104-147 | a removal keeps the log equal to the registered bytes exactly when the size it looked up is that of the row it deletes |
| Postgres.LookupCurrent | pkg/store/blob_registry/postgres/store.go:104-109 | when each digest has one size, a removal's lookup is never out of date |
| Postgres.PgRunHeld | pkg/store/blob_registry/postgres/store.go:62-147 | when each digest has one size, below 2^63, every interleaving keeps the log equal to the registered bytes |
| TwoStep.InterleavedCoherent | pkg/store/blob_registry/postgres/store.go:104-147 | whatever the interleaving of lookups and deletes, each removal's size was seen in a state committed before it |
| TwoStep.InterleavingsAre | pkg/store/blob_registry/postgres/store.go:104-147 | the interleavings of lookups, deletes and other calls commit exactly the lists of calls in which each removal records a size its digest had in some state committed before it |
| TwoStep.InterleavingsAgree | pkg/store/blob_registry/postgres/store.go:62-147 | under every interleaving of lookups, deletes and other calls, whatever the sizes, counters equal the logs and registrations are removed at most once; with one size per digest the byte log equals the registered bytes; all modulo 2^64 |
| TwoStep.InterleavingsExact | pkg/store/blob_registry/postgres/store.go:62-147 | the same of sizes below 2^63, with no wrap-around |
| TwoStep.LawfulIsMemory | pkg/store/blob_registry/postgres/store.go:62-147 | commits that keep the clock, tell changes apart, fit 63 bits and give a digest one size are never rolled back and leave what the in-memory stores would |
| TwoStep.StaleLookup | pkg/store/blob_registry/postgres/store.go:104-147 | two callers that looked up the same 10 bytes, with a re-registration of 1 byte between their deletes, leave 11 bytes added, 20 removed and nothing held |
| Locking.IncrementWith | pkg/store/metrics/postgres/store.go:65-79 | rows are locked in sorted key order whatever order the map yields, up to the first counter that would overflow; exactly those before it by name are moved |
| Locking.IncrementInTransaction | pkg/store/blob_registry/postgres/store.go:90-96 | inside a transaction every counter is moved, or none when one would overflow |
| Locking.IncrementTotals | pkg/store/metrics/postgres/store.go:56-61 | outside one each statement commits by itself: when one would overflow, the counters before the first such by name stay moved |
| Locking.LocksDisciplined | pkg/store/upload/postgres/store.go:209-312 | every transaction takes its tables in one order, counters of a table by name, and no shard before its upload |
| Locking.LocksExact | pkg/store/upload/postgres/store.go:209-312 | a transaction locks the record it works on, its shards, the change's row and each counter it moves of the space and of the service, and nothing else |
| Locking.Progress | pkg/store/metrics/postgres/store.go:65-79 | in every reachable state of transactions that keep to the order, all have ended or one can take its next row or end |
| Locking.StoresProgress | pkg/store/blob_registry/postgres/store.go:62-147 | the same of any number of the stores' own transactions, however interleaved |
| Locking.AllFinish | pkg/store/metrics/postgres/store.go:65-79 | from every reachable state of transactions that keep to the order, all of them can take every row they ask for and end |
| Locking.UnsortedDeadlocks | pkg/store/metrics/postgres/store.go:65-69 | without the sorted order two transactions reach a state in which each waits for the other |
| Ordering.SortNamesAscends | pkg/store/metrics/postgres/store.go:125-139 | sorting the keys of a map leaves them ascending, whatever order they came in |
| AgentStore.Memory.Write | pkg/store/agent/memory/store.go:95-130 | a message within a container's limit is indexed under each of its invocations and receipts; a larger one changes nothing |
| AgentStore.Memory.GetInvocation | pkg/store/agent/memory/store.go:36-77 | the first invocation of the task in the first message that has one |
| AgentStore.Memory.GetInvocations | pkg/store/agent/memory/store.go:47-62 | exactly the tasks that have an invocation, each with the one a single lookup gives |
| AgentStore.Memory.GetReceipt | pkg/store/agent/memory/store.go:79-93 | a receipt of the task from the first message that has one |
| AgentStore.Memory.List | pkg/store/agent/memory/store.go:132-149 | the messages that hold the task's invocation or its receipt, and no others |
| AgentStore.FirstStays | pkg/store/agent/memory/store.go:64-93 | later messages never change what a task is answered with |
| AgentStore.FirstIs | pkg/store/agent/memory/store.go:64-93 | a task is answered with its first invocation in the earliest message that has one, and with a receipt of the earliest that has one; with none only when no message does |
| AgentStore.Indexed | pkg/store/agent/index.go:5-26 | a message is indexed under a task exactly when it holds its invocation, or its receipt |
| AgentStore.InvocationHead | pkg/store/agent/memory/store.go:64-77 | the first message a task's index lists is the one its invocation is answered from |
| Piri.PutEvidence | pkg/piriclient/client.go:157-172 | fails exactly when a request that names no digest lacks its put or its put's receipt; otherwise gives the puts of exactly the requests that carry one, and their receipts, in the order of the requests |
| Piri.AcceptBatch | pkg/piriclient/client.go:244-305 | results follow the requests; exactly the chunks of 1000 before the first failure have their receipts, each from the node's answer to its own chunk, with one container a chunk; it fails exactly for missing put evidence or proofs, when nothing is sent, for an accept that cannot be issued, or for a request the node fails or answers without some accept's receipt |
| Piri.SendChunk | pkg/piriclient/client.go:271-302 | one request carries its chunk's accepts in order with their put evidence; its answer fills that chunk's receipts and no others |
| Attachments.NamesAre | pkg/service/handlers/ucan_conclude_http_put.go:340-368 | a usable success receipt names exactly its location commitment, by its own link or as the last attached of its task, and its PDP promise likewise; any other receipt names nothing |
| Attachments.LastIs | pkg/service/handlers/ucan_conclude_http_put.go:261-276 | of several attached invocations of a task, a task link names the last, in the last container that has one |
| Grouping.GroupAcceptances | pkg/service/handlers/ucan_conclude_http_put.go:260-334 | the answered accepts and their receipts head the first groups, one each, in order; a group adds exactly what its receipt names as commitment or promise and no earlier group took, with the attached receipts for that; beyond those heads every attached invocation is at one place and no other, every attached receipt at one unless it heads a group, nothing else is anywhere, and what nothing claims is alone |
| Grouping.Claim | pkg/service/handlers/ucan_conclude_http_put.go:297-317 | an accept claims what its receipt names and nothing claimed before, with the receipts of what it claims |
| Grouping.IndexMetas | pkg/service/handlers/ucan_conclude_http_put.go:261-276 | what a node attached is found by its own link, by the last invocation of its task, and receipts by what they ran |
| Packing.WriteAgentMessages | pkg/service/handlers/ucan_conclude_http_put.go:379-400 | persists the greedy batches in order, and stops at the first message too large to encode |
| Packing.GreedyInOrder | pkg/service/handlers/ucan_conclude_http_put.go:386-399 | no acceptance is lost, repeated, split or moved |
| Packing.GreedyWithin | pkg/service/handlers/ucan_conclude_http_put.go:386-399 | when each acceptance fits a message alone, every message is within budget |
| Packing.GreedyFits | pkg/service/handlers/ucan_conclude_http_put.go:386-399 | a message over budget holds an acceptance that is over budget by itself |
| Packing.GreedyOptimal | pkg/service/handlers/ucan_conclude_http_put.go:386-399 | no other cut of the acceptances in order into messages within budget has fewer messages |
| Polling.PollComplete | pkg/service/handlers/ucan_conclude_http_put.go:370-378 | where an answered accept's receipt names an attached invocation, as its commitment or its promise, and no other receipt does, one of the messages listed for the accept holds its receipt and that invocation |
| Polling.Persist | pkg/service/handlers/ucan_conclude_http_put.go:477-491 | after grouping, packing and writing succeed, every answered accept can be polled for with each attached commitment or promise that its receipt alone names; writing succeeds when each group fits the budget |
| Deliveries.Match | pkg/service/handlers/ucan_conclude.go:64-111 | fails exactly when a link names no delivered receipt; otherwise pairs each receipt named, in order, with the last invocation of its task delivered, or where none was the first on record, and leaves out exactly those nobody has an invocation for |
| Deliveries.ConclusionsMatch | pkg/service/handlers/ucan_conclude.go:80-103 | a receipt is paired with an invocation of the task it ran, and left out only when nobody has one |
| Deliveries.GroupStable | pkg/service/handlers/ucan_conclude.go:70-111 | keys in the order they first occur, the values of each key in the order given, none lost or repeated |
| Deliveries.SelectAre | pkg/service/handlers/ucan_conclude.go:70-111 | the values of a key are those of exactly the items that have it, in their order |
| Resolving.ResolveAllocations | pkg/service/handlers/ucan_conclude_http_put.go:129-198 | each delivered put is resolved to the allocation on record, in order; one that is no put or whose allocation is unknown fails all, one that reports no usable digest is skipped |
| Resolving.ResolveGrounds | pkg/service/handlers/ucan_conclude_http_put.go:147-196 | a resolved put has its allocation on record with its space, size and cause, names its digest or its digest's function, and carries the evidence its node may need |
| Resolving.ResolvedByAllocation | pkg/service/handlers/ucan_conclude_http_put.go:147-163 | an allocation on record fulfils a resolved put if and only if the put names an allocate task as its destination |
| Resolving.ResolvesExactly | pkg/service/handlers/ucan_conclude_http_put.go:147-219 | a put breaks the conclusion exactly when it is no put or no allocation is on record for its destination; otherwise it resolves to that allocation's node, space, size and cause, to its digest or, without one, the digest of its function that the put receipt reports, and to an accept with the put and its receipt; and is skipped exactly when no such digest is reported |
| Resolving.KeptAre | pkg/service/handlers/ucan_conclude_http_put.go:70-95 | the puts one node is sent are exactly the delivered ones that did not fail, resolve, and went to it, in the order they were delivered |
| Resolving.BrokenNone | pkg/service/handlers/ucan_conclude_http_put.go:70-86 | the conclusion is broken exactly when some delivered put that did not fail is |
| Concluding.AcceptOnProvider | pkg/service/handlers/ucan_conclude_http_put.go:413-530 | what a node executed is persisted before anything is registered, also when a later request failed; exactly the puts with a usable acceptance, and a matching commitment where the digest came from the put, are registered; when a message cannot be written those before it stay and nothing is registered; it fails only without proofs, for an accept that cannot be issued, a request the node does not answer whole, or an acceptance too large for a message |
| Concluding.RanIsPlan | pkg/service/handlers/ucan_conclude_http_put.go:473-528 | what a node's puts leave is their plan performed to the end, or, cut short, its first messages and no registration |
| Registering.RegisterAccepted | pkg/service/handlers/ucan_conclude_http_put.go:494-529 | a blob is registered if it was before or some put's accept was a success naming a commitment and a promise, where a digest from the put needs an attached location commitment for it; the first such put's size and cause stand, and a blob already registered stays as it is |
| Registering.RegistersIs | pkg/service/handlers/ucan_conclude_http_put.go:505-524 | when an accept's result registers its blob, both ways, in terms of its receipt and what the node attached |
| Concluding.ConcludePuts | pkg/service/handlers/ucan_conclude_http_put.go:61-111 | each node is sent exactly the accepts of the delivered puts that did not fail, resolve and went to it, in that order and in chunks; a success means each was received by its node, answered and persisted, and registered when the blob has a digest and the answer is usable, and can be polled for; a failure means an allocation could not be found, when nothing is changed or sent, or that one of those puts has no reachable node or a node that cannot be made to accept it; every blob it registers is backed by what the agent store then holds, by an allocation when every put names one as its destination |
| Protocol.RegistrationsBacked | pkg/service/handlers/ucan_conclude_http_put.go:473-528 | in every reachable state of adds, conclusions, removals, failures and logged requests, each registration has on record an invocation with an allocation's arguments for its space, cause and size naming its digest or its digest's function, and a success receipt for an accept of that invocation's blob; a digest from a put receipt is named by the accept's location commitment |
| Protocol.AllocationsBacked | pkg/service/handlers/ucan_conclude_http_put.go:473-528 | when every put concluded names an allocate task as its destination, that invocation is an allocation, in every reachable state |
| Protocol.CommandUnchecked | pkg/service/handlers/ucan_conclude_http_put.go:147-163 | for every command, a run that logs an invocation of it with an allocation's arguments and concludes a put naming it registers the blob; the registration is backed by an allocation if and only if the command is allocate |
| Protocol.ConcludeJustified | pkg/service/handlers/ucan_conclude_http_put.go:473-528 | a conclusion registers nothing before it has persisted what backs it |
| Protocol.AddJustified | pkg/service/handlers/blob_add.go:390-431 | an add registers nothing before it has persisted its allocation and its accept |
| Protocol.AdvanceSound | pkg/service/handlers/blob_add.go:390-431 | each step of any handler, of the message log or of a removal keeps every registration backed and only appends to the agent store |
| Registering.PlanRuns | pkg/service/handlers/ucan_conclude_http_put.go:473-528 | from any reachable state a handler that nothing interrupts, and whose messages fit, logs all of them in order and registers each of its blobs not yet registered |
| Adding.BlobAdd | pkg/service/handlers/blob_add.go:38-176 | an unprovisioned space, a missing nonce, a blob already registered and a task that has run ask no node, persist nothing and are answered as the code says, the last two by the receipt on record; any other add fails only when no node grants it, or something named breaks, and its success is the upload's |
| Adding.Upload | pkg/service/handlers/blob_add.go:130-175 | a success is of the last node asked: where the node has yet to receive the blob its response holds no receipt but the allocation's and nothing is registered; where the node has it the service's own put receipt is there, and a blob with a digest is accepted, logged and registered at once; a failure says that every node that could be asked refused, and whether one refused the digest's function |
| Adding.Respond | pkg/service/handlers/blob_add.go:253-440 | the put asked for is of the blob, to the allocation, by a principal derived from the digest or else from the task; it has the service's receipt exactly when the node has the blob; an accept at once fails only as its node or its message does |
| Adding.ReplayRebuilds | pkg/service/handlers/blob_add.go:460-519 | a replayed success names the receipt's site and holds the accept, put and allocation behind it with the receipts on record for them and nothing else; it is an error exactly when one of these is not on record |
| Adding.ReplayAdd | pkg/service/handlers/blob_add.go:460-519 | the answer rebuilt from an add's receipt, with the put and accept receipts there are, or an error when a task behind it is unknown |
| Adding.StablePromise | pkg/service/handlers/blob_add.go:70-93 | once an add without a digest has a receipt, every later answer to it is decided by that receipt: the same failure, or the same site, and no other |
| Adding.PromiseInRuns | pkg/service/handlers/blob_add.go:70-93 | the same across any continuation of any run |
| Adding.SiteIsAccepted | pkg/service/handlers/ucan_conclude_http_put.go:165-173 | the accept sent when a put is concluded is the one the add named as its site, whatever envelope the put arrives in, and the put an add asks for names its allocation as its destination |
| Adding.LoggedAddReplays | pkg/service/handlers/blob_add.go:460-519 | once an add's response is logged with its receipt, replaying it succeeds with its site |
| Drawing.WeightedRandomInt | pkg/routing/service.go:298-311 | for positive weights that total within 63 bits the panic is unreachable and the index drawn is the one the draw lands on |
| Drawing.DrawsOf | pkg/routing/service.go:303-308 | an index is drawn as often as its weight, except the first of several once more and the last once less |
| Drawing.PicksOnce | pkg/routing/service.go:303-308 | every draw lands on one index and no other |
| Drawing.DrawsCover | pkg/routing/service.go:303-308 | the counts sum to the total |
| Drawing.NeverDrawn | pkg/routing/service.go:303-308 | an index is never drawn exactly when it is the last of several and weighs one |
| Routing.Collect | pkg/store/store.go:29-46 | over a fixed set of nodes the page loop ends with each node once, in order |
| Routing.ProviderStore.List | pkg/store/storage_provider/memory/store.go:52-91 | a page of the nodes in order after the cursor, and a cursor exactly when some are left; it panics exactly for a negative limit, or a zero one with nodes to list |
| Routing.FollowingIs | pkg/store/storage_provider/memory/store.go:73-82 | a cursor leaves what comes after the node it names; one that names none leaves everything |
| Routing.PolicyStore.SetSpacePolicy | pkg/store/routing_policy/memory/store.go:65-87 | a space comes to reference a policy exactly when that is stored, and a stored policy has candidates |
| Routing.PolicyStore.Resolve | pkg/routing/service.go:204-224 | as long as only the store's calls change it, a space's reference resolves to a policy that has candidates |
| Routing.PutPolicy | pkg/routing/service.go:75-92 | a policy is stored exactly when it has candidates and all are registered |
| Routing.SelectStorageProvider | pkg/routing/service.go:125-171 | a node is drawn by weight among those registered with a positive weight, not excluded, and, when the space references a policy, among its candidates; none exactly when there is none |
| Allocation.DoAllocate | pkg/service/handlers/blob_add.go:178-240 | asks only eligible nodes, none twice; gives up only after every one refused, and then reports an unsupported digest code exactly when one refused with it; a success is persisted |

## Left out

- Stores.SpaceDiffs.Put: rows of equal keys keep the order they were put in, where the
  library's sort leaves it open.
- Stores.SpaceMetrics.IncrementTotals: the nested per-space stores are one map of maps,
  so their own locks are not modelled.
- Reader.Scan: the two scans, which differ only in the log they list, are one method
  with the log as a parameter. Likewise the two tallying loops are one `Usage.Tally`.
- Reader.Attempt: errors of the database itself are not modelled.
- Postgres.PgRunBooked: needs sizes below 2^63, which a BIGINT column holds as they are;
  of larger ones, held as negative numbers, `Postgres.PgRunAgrees` speaks modulo 2^64.
- Postgres.PgRunHeld: the same, with `Postgres.PgRunHeldModulo`.
- TwoStep.InterleavingsExact: the same, with `TwoStep.InterleavingsAgree`.
- Reader.Read: needs sizes below 2^63 too, as a counter of larger ones can fall back.
- Usage.ParseRange: instants so far off that converting a Unix timestamp wraps.
- EndToEnd.SeriesTells: needs the hypotheses it names; that a TIMESTAMPTZ drops what is
  below a microsecond is taken from the upload log, which does so itself. Over the in-memory stores, which
  write the log and the counters separately, a concurrent snapshot is not claimed.
- AgentStore.Memory.List: the order by content hash, cursors and limits; and the
  Postgres agent store, in which the last write wins.
- Tokens: signatures, proof chains, expiry and encodings; containers keep each token
  where it first occurs; keys derived from digests are told apart by the whole digest,
  where the program uses its last 32 bytes; a container is too large above 8192 tokens
  and otherwise always encodes.
- Concluding.AcceptOnProvider: looking the node's record up and making its client,
  either of which can fail before anything is sent; registry errors other than a blob
  already registered.
- Ordering.SortNamesAscends: Postgres compares strings so under the C collation.
- Concluding.ConcludePuts: the response handed back to the deliverer, which is dropped
  whole when it does not fit. That a blob allocated without a digest is registered is
  stated node by node (`Concluding.AcceptOnProvider`), not delivery by delivery.
- Deliveries.Match: handlers for commands other than puts.
- Locking.Progress: waits are for row locks only, and every statement's locks are one
  row at a time; lock escalation, foreign keys and the database's own catalog are not
  modelled.
- Routing.Collect: the page loop is stated of pages of nodes. Over any pages at all it
  need not end.
- Routing.SelectStorageProvider: the selection of replication nodes, which the service
  does not use.
- Allocation.DoAllocate: nodes, policy and weights stay fixed while it runs, and each
  node answers an allocation of one add one way.
- Cursor encoding, HTTP, CBOR, JSON, S3, access, email, billing, admin, tracing,
  configuration, command line, user interface, customers, delegations, replicas,
  revocations, subscriptions, index and abort handlers, and the Postgres schema beyond
  keys and locks.
