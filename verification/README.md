# Atlas web server: a verified model of its hard parts

Atlas is an epoll web server with a network-drive backend.  This project models, in Dafny 4.11, the parts of it
whose correctness is not visible from one function: a lock-free task queue, a worker pool, a deduplicating upload
store over a database and a disk, incremental request parsers over a ring buffer, a connection timer, a session
cache and the response write loop.  `dafny verify dfyconfig.toml` checks everything.

Bytes are `char`, byte strings are `string`, integers are unbounded except where a width is written out.

| module | what it models |
|---|---|
| `SlotMask`, `MpmcQueue` | the bounded lock-free queue, one atomic access per step, any number of threads |
| `WorkerPool` | the pool in mutex mode: submissions, growth, idle exit, shutdown |
| `StorageProtocol`, `StorageRuns` | uploads, soft deletes, restores and permanent deletes over tables, row locks and disk, and what holds on all their runs |
| `StorageLoss` | uploads that go on after losing their transaction, and what that costs |
| `Text`, `ChunkedCoding` | searching in byte strings; the chunked transfer coding as a function of bytes |
| `RingBuffer`, `BodyReader` | the byte ring; reading chunked and Content-Length bodies on top of it |
| `FileNames` | file name sanitizing and the search for a free name |
| `Multipart`, `MultipartReader`, `MultipartRoundTrip` | multipart forms as a function of bytes, the streaming reader, encode and parse |
| `HeapTimer` | the indexed min-heap and the reactor's scan for idle connections |
| `SessionSteps`, `SessionRuns`, `SessionLimits`, `SessionCache` | session table and session cache: the operations on values, what holds on all runs, the runs that go wrong and the exact condition, the object that performs the operations |
| `WriteLoop` | the send loop, plain and TLS |
| `JsonBody` | JSON escaping and the flat-object parser |

How the protocols are modelled:

- **Queue.**  Steps are sequentially consistent single accesses (position load, sequence load, compare-and-swap,
  payload access, sequence store), a compare-and-swap may fail spuriously, and tickets do not wrap.  The `log` of a
  state is history that no step reads.
- **Pool.**  A step is a critical section, or the part of one between two reads of what others may change without the
  lock (the busy counter and the stop flag).  Thread creation may fail, waits may wake spuriously, a timed-out
  waiter may be overtaken.
- **Storage.**  Each statement of a transaction is a step; its writes stay in an overlay until COMMIT and its row locks
  until its end.  Any statement may fail, the server may drop a transaction at any time, and a COMMIT may take effect
  although the client sees an error.  An upload takes a failed lookup of its name or its digest for "nothing there"
  (service/files/file_service.cpp:459-462, service/files/upload_service.cpp:274); when the failure was the loss of the
  transaction (a deadlock victim, a reconnect), its later statements run in autocommit, without locks and each committed
  at once.  Which of the two lookups may do so is a parameter of the runs (`Rules`).  Disk operations are atomic, immediate and never undone; the unlink of a
  permanent delete may come arbitrarily later than its commit.  A file's bytes are identified with their SHA-256
  digest, and the random prefix of a stored name is fresh.
- **Readers and writers.**  What the kernel, the TLS library or the disk answers is arbitrary: any number of bytes, would
  block, interrupted, failed.  The results hold for every sequence of answers, and for reads in level-triggered and
  edge-triggered mode; the error number left over from earlier calls is arbitrary too.
- **Sessions.**  Inside an operation time passes, and a statement may fail with or without effect.  The table finds
  tokens and user names by collation and judges expiry by the database's clock; the cache compares the bytes a client
  sent and uses the process's clock.  The collation, the distance of the clocks, the login names and tokens that
  clients use, the longest lag of a cache write behind its table write, and whether requests may overlap are
  parameters of the runs.

Where the properties the code aims at are false, the exact condition is proved instead:

- the queue is safe exactly from two cells on (`SafeIffTwoCells`; `normalize_capacity` can return one);
- committed rows keep their files, and quotas hold, on all runs exactly when no upload may go on after losing its
  transaction (`ContentSafeIffLossless`, `QuotaSafeIffLossless`); reference counts are exact on all runs regardless
  (`CountsAlwaysExact`);
- accepted tokens have their rows, and logins and logouts leave no other token in any spelling, on all runs exactly when
  requests do not overlap, cache writes follow table writes within the refresh threshold, the process's clock is at
  most that threshold behind the database's, accepted login names are spelled as registered, and presented tokens
  are spelled as issued (`SafeIff`);
- a read event cuts the connection for its buffer exactly at a full ring of maximal size in edge-triggered mode (one
  filled by a spooled body in this event makes it loop instead), and in level-triggered mode at such a ring, or at any
  ring filled during the event when the stale error number is neither EAGAIN nor EINTR (`ReadOnce`);
- a string survives `json_escape` and the JSON parser exactly without control characters (`SurvivesIffPrintable`);
- a sanitized file name is free of separators, quotes and control bytes exactly when no copied multi-byte sequence holds
  one (`SanitizedIsClearIff`), as in all UTF-8 text;
- a candidate file name respects the 80-byte limit exactly when number and extension leave room (`CandidateLength`);
- the sleep time of the event loop is exact up to 2147483 seconds (`NextTimeoutMs`);
- the counter of a response accounts for all of it exactly below 2^31 bytes (`Response.constructor`).

The main results are `SafeIffTwoCells`, `StepRefinesFifo` and `RunDelivers` for the queue; `TasksStartInOrder`,
`AcceptedAreAccountedFor`, `NothingLeftBehind` and `NobodyIsStuck` for the pool; `CountsAlwaysExact`,
`ContentSafeIffLossless` and `QuotaSafeIffLossless` for storage; `ReadsDoNotMatter`, `RoundTrip` and `ReadBody` for
bodies; `ParseSpooled` and `AcceptedFormComesBack` for forms; `ScanTimeout` for timers; `SafeIff` and `OnlyTheNewToken`
for sessions; `Deliver` for responses; `SurvivesIffPrintable` and `RoundTrip` for JSON.  The other rows lead up to them,
and the rows marked as side facts follow directly from the definitions.

## Model

| member | source | states |
|---|---|---|
| `SlotMask.NormalizeCapacity` | infra/threadpool/threadpool.h:128-136 | the result is the least power of two that is large enough, and it is at least 2 exactly when the request is |
| `SlotMask.SlotFirstLap` | infra/threadpool/threadpool.h:52-60 | masking visits the cells of the first lap in order, so the initial sequence of a cell is its first ticket |
| `SlotMask.SlotLap` | infra/threadpool/threadpool.h:106 | a lap later a ticket comes back to the same cell |
| `SlotMask.SlotSeparation` | infra/threadpool/threadpool.h:68 | two tickets with the same masked cell are at least a whole lap apart |
| `MpmcQueue.StepKeeps` | infra/threadpool/threadpool.h:63-119 | every atomic step of any thread keeps the invariant that ties tickets, cell sequences, payloads and owners |
| `MpmcQueue.RunInv` | infra/threadpool/threadpool.h:47-143 | the invariant holds in every state of every interleaving, for power-of-two capacities of at least 2 |
| `MpmcQueue.StepRefinesFifo` | infra/threadpool/threadpool.h:63-119 | each step is a step of a bounded FIFO queue: a won enqueue ticket appends while there is room, a won dequeue ticket removes the oldest, all else changes nothing |
| `MpmcQueue.RunDelivers` | infra/threadpool/threadpool.h:92-119 | what a dequeue returns under ticket k is what was enqueued under ticket k, and no ticket is delivered twice |
| `MpmcQueue.RunReportsExactly` | infra/threadpool/threadpool.h:81-113 | enqueue reports full exactly when the ticket one lap behind was unreleased at its last sequence load, dequeue reports empty exactly when the head ticket was unpublished |
| `MpmcQueue.OneCellOverwrites` | infra/threadpool/threadpool.h:128-136 | with one cell there is a run in which a published task is overwritten before it is read |
| `MpmcQueue.SafeIffTwoCells` | infra/threadpool/threadpool.h:50-61 | published tasks stay in their cells until released, on every run, exactly when there are at least two cells |
| `WorkerPool.StepKeeps` | infra/threadpool/threadpool.h:367-417 | every step of submitters, workers, timeouts and the destructor keeps conservation, the counters and attendance |
| `WorkerPool.SignalKeeps` | infra/threadpool/threadpool.h:281-285 | when a submission unlocks, exactly one sleeper has been woken, or nobody sleeps and no worker changed; the invariant is kept |
| `WorkerPool.RunInv` | infra/threadpool/threadpool.h:275-321 | the invariant holds in every state of every interleaving after construction |
| `WorkerPool.TasksStartInOrder` | infra/threadpool/threadpool.h:408-411 | the tasks started are always exactly the first ones accepted, in order, and the rest are queued |
| `WorkerPool.HistoryGrows` | infra/threadpool/threadpool.h:275-286 | along a run the accepted, started and executed histories only grow at their ends |
| `WorkerPool.AcceptedAreAccountedFor` | infra/threadpool/threadpool.h:367-417 | each task was accepted as often as it is queued, being executed and executed together |
| `WorkerPool.WorkerCountBounded` | infra/threadpool/threadpool.h:305-321 | live workers never exceed the maximum, do not fall below the minimum before stop, and the queue keeps its limit |
| `WorkerPool.NothingLeftBehind` | infra/threadpool/threadpool.h:397-406 | once all workers have exited, the queue is empty and every accepted task has been executed |
| `WorkerPool.ShutdownShrinks` | infra/threadpool/threadpool.h:212-235 | after the broadcast every step that changes anything leaves strictly less to do |
| `WorkerPool.NobodyIsStuck` | infra/threadpool/threadpool.h:231-234 | after the broadcast every worker that has not exited has an enabled step that makes progress, so the joins end |
| `StorageProtocol.EvaluateUploadQuota` | service/files/upload_service.cpp:151-191 | an upload is allowed exactly when its size is valid, within the single-file limit and within what the quota leaves; the remainder and the reason given are those of that test |
| `StorageRuns.StepKeeps` | service/files/upload_service.cpp:228-385 | every step of every worker, in a transaction or in autocommit after losing it, keeps the invariant over tables, disk, locks, overlays and pending unlinks |
| `StorageRuns.RunInv` | service/files/file_service.cpp:609-714 | the invariant holds in every state of every interleaving of uploads, soft deletes, restores and permanent deletes |
| `StorageRuns.ContentAlwaysPresent` | service/files/file_service.cpp:673-714 | as long as no upload may go on after losing its transaction, each committed physical row has its file on disk with the row's bytes, despite failed and ambiguous commits and late unlinks |
| `StorageRuns.CountsAlwaysExact` | migrations/006_ref_count_triggers.sql:4-25 | in every state of every run, with or without lost transactions, `ref_count` is the number of file rows naming the row, each such row exists, and digests and stored names are unique |
| `StorageRuns.QuotaNeverExceeded` | repo/mysql/file_repository.cpp:325-354 | under the same condition no user ever owns more than the quota, trash included, whatever runs concurrently |
| `StorageRuns.ClampNeverBites` | migrations/006_ref_count_triggers.sql:20-25 | whenever the delete trigger fires it subtracts exactly one; the clamp at zero never changes a value |
| `StorageRuns.GuardIsExact` | repo/mysql/file_repository.cpp:240-256 | the guarded delete removes the physical row exactly when the deleted file row was the last reference |
| `StorageRuns.DeduplicatedContentIsThere` | service/files/upload_service.cpp:270-370 | under the same condition an upload that found a row by digest and still holds its lock finds the bytes on disk |
| `StorageLoss.RowWithoutFile` | service/files/upload_service.cpp:298-370 | if an upload may go on after losing its transaction, there is a run that ends with nothing running and a committed row without its file |
| `StorageLoss.QuotaBroken` | service/files/upload_service.cpp:268-311 | and one in which a user ends one byte above any positive quota |
| `StorageLoss.ContentSafeIffLossless` | service/files/upload_service.cpp:268-311 | content is present on every run exactly when neither tolerant lookup lets an upload go on without its transaction |
| `StorageLoss.QuotaSafeIffLossless` | service/files/upload_service.cpp:268-311 | a positive quota is kept on every run under exactly the same condition |
| `StorageLoss.SafeWhileNobodyGoesOn` | service/files/upload_service.cpp:228-385 | even where it may happen: on each run content and quota hold as long as nobody has gone on without a transaction |
| `Text.FindFacts` | http/files/multipart_parser.cpp:267 | the search returns the first occurrence, or there is none |
| `ChunkedCoding.ParseChunkSizeLine` | http/core/parser.cpp:52-78 | the loops accept exactly the size lines with hex digits below LONG_MAX, and return their value |
| `ChunkedCoding.DecodeSplit` | http/core/parser.cpp:381-474 | decoding a prefix and resuming with the rest is decoding the whole, from every decoder state |
| `ChunkedCoding.ReadsDoNotMatter` | http/core/parser.cpp:381-474 | the result of decoding read by read depends only on the concatenated bytes |
| `ChunkedCoding.RestHasNoLine` | http/core/parser.cpp:392-397 | bytes left over by an incomplete decoding hold no CRLF |
| `ChunkedCoding.RoundTrip` | http/core/parser.cpp:347-474 | every body within the limit, in any non-empty chunks with any extensions and trailers, decodes to itself however the bytes arrive |
| `RingBuffer.Ring.Append` | http/core/io.cpp:122-139 | the whole of the data joins the queue of bytes, or nothing changes when it does not fit |
| `RingBuffer.Ring.Receive` | http/core/io.cpp:141-190 | a receive appends the prefix of the waiting bytes that it reports; closing and errors change nothing; a full ring reports an error and leaves the old error number |
| `RingBuffer.Ring.Peek` | http/core/io.cpp:194-208 | peeking returns the oldest bytes across the wrap |
| `RingBuffer.Ring.Send` | http/core/io.cpp:210-237 | a send removes exactly the bytes it puts on the wire from the front, and a progressing one removes some |
| `RingBuffer.Ring.EnsureCapacity` | http/core/io.cpp:28-74 | growth keeps the contents, reaches the size asked for by doublings and refuses exactly beyond the maximum |
| `BodyReader.Connection.SyncReadBuffer` | http/core/io.cpp:348-357 | the mirror holds the ring's bytes and a terminator |
| `BodyReader.Connection.CompactReadBufferPrefix` | http/core/io.cpp:359-387 | ring and mirror lose exactly the consumed prefix |
| `BodyReader.Connection.ParseLine` | http/core/parser.cpp:81-111 | the first CR or LF behind the scanner's position decides whether a line is complete, open or bad; exactly the CRLF of a complete line is zeroed |
| `BodyReader.Connection.AppendStreamedBodyChunk` | http/files/file_response.cpp:261-297 | spooling appends the data, or refuses it exactly beyond the limit |
| `BodyReader.Connection.AppendDecodedBodyChunk` | http/core/parser.cpp:347-379 | decoded bytes join the body in memory or on disk, or the payload is reported too large exactly beyond the limit |
| `BodyReader.Connection.ParseChunkedContent` | http/core/parser.cpp:381-474 | status and body are those of decoding all body bytes received so far, although parsed bytes are dropped from ring and mirror |
| `BodyReader.Connection.ParseKnownLength` | http/core/parser.cpp:312-345 | the request is complete exactly when content_length bytes have come, and the body is the first content_length of them, in memory or spooled |
| `BodyReader.Connection.FlushStreamedBody` | http/core/io.cpp:570-598 | moving received bytes to the spool file keeps the account of body bytes |
| `BodyReader.Connection.ReadLevel` | http/core/io.cpp:432-473 | the level-triggered loop: the bytes taken join the stream, and how the event ends follows from room, network and the stale error number |
| `BodyReader.Connection.ReadEdge` | http/core/io.cpp:478-568 | the edge-triggered loop: the same with a ring that grows whenever it is full, up to its maximum |
| `BodyReader.Connection.ReadOnce` | http/core/io.cpp:424-568 | in both modes the mirror agrees with the ring afterwards, and the connection is cut for its buffer exactly at the guard given for the mode |
| `BodyReader.Connection.ProcessRead` | http/core/parser.cpp:777-822 | status and body are a function of the stream alone, despite the stray line scans that overwrite CRLFs in the mirror of a partial body |
| `BodyReader.OutcomeStable` | http/core/parser.cpp:777-822 | a status once reached is not changed by later bytes |
| `BodyReader.ReadBody` | http/core/io.cpp:424-598 | in both modes, for every way to cut the input into read events, status and body are those of the concatenated bytes as long as the connection is open; otherwise some event ended it for a reason of its mode, and for the buffer exactly at that mode's guard with that event's stale error number |
| `FileNames.SanitizeFilename` | http/files/file_helpers.cpp:10-76 | a sanitized name has 1 to 80 bytes, is no dot directory, does not begin with a blank, and ends with one only when it was cut |
| `FileNames.SanitizedIsClearIff` | http/files/file_helpers.cpp:18-60 | the name holds none of the bytes the filter drops exactly when no multi-byte sequence copied into its first 80 bytes holds one |
| `FileNames.SanitizedUtf8IsClear` | http/files/file_helpers.cpp:38-58 | which is so for every name whose lead bytes are followed by non-ASCII bytes, as in UTF-8 text |
| `FileNames.SeparatorBehindLeadByteStays` | http/files/file_helpers.cpp:38-44 | a separator directly behind a two-byte lead byte is kept |
| `FileNames.ExtensionIsLast` | http/files/file_helpers.cpp:142-151 | the extension is the suffix from the last dot on without a separator, and it is empty exactly when a separator follows every dot |
| `FileNames.CandidatesDistinct` | service/files/file_service.cpp:15-31 | no two numbered candidates of a name coincide, however much of the stem is cut off |
| `FileNames.CandidateLength` | service/files/file_service.cpp:22-30 | a candidate is within 80 bytes exactly when number and extension fit; with the wrapped subtraction it still is at most 87 |
| `FileNames.EnsureUniqueOwnedFilename` | service/files/file_service.cpp:446-470 | for every collation the loop returns the first candidate that is free or whose lookup fails, at most 87 bytes, and unused if all lookups are answered and fewer names are in use than the candidates have classes |
| `FileNames.InUseIffAllTaken` | service/files/file_service.cpp:455-469 | with all lookups answered the result is in use exactly when all 1001 candidates are |
| `FileNames.FreeWhenFewUsed` | service/files/file_service.cpp:446-470 | fewer names in use than the candidates have classes leave the result unused, the unchecked last candidate included |
| `FileNames.ThousandClasses` | service/files/file_service.cpp:15-31 | a collation that tells different candidates apart sees at least 1000 of them |
| `MultipartReader.Sink.Write` | infra/storage/storage.cpp:162-189 | data is taken whole, or refused exactly beyond the limit |
| `MultipartReader.Reader.Fill` | http/files/multipart_parser.cpp:240-262 | a fill moves bytes from file to buffer and loses none, whatever its size |
| `MultipartReader.Reader.ReadLine` | http/files/multipart_parser.cpp:157-174 | the line is what precedes the first CRLF of the whole remaining file |
| `MultipartReader.Reader.ReadHeaders` | http/files/multipart_parser.cpp:176-197 | the header fields are those of the remaining file's bytes, and it fails exactly when those have no valid header |
| `MultipartReader.Reader.ConsumeDelimiter` | http/files/multipart_parser.cpp:264-312 | the sink gets the bytes before the delimiter, the two bytes behind it decide, and -1 means it is not in the buffer |
| `MultipartReader.Reader.FlushBuffer` | http/files/multipart_parser.cpp:227-235 | no delimiter starts inside the flushed bytes |
| `MultipartReader.Reader.ReadPartBody` | http/files/multipart_parser.cpp:199-237 | the sink holds exactly the bytes before the first delimiter of the file, for all fill sizes; the limit trips exactly when there are more |
| `MultipartReader.Reader.ReadPart` | http/files/multipart_parser.cpp:378-459 | one part does to the form what its bytes say, and the temporary file that then exists is the form's |
| `MultipartReader.ParseSpooled` | http/files/multipart_parser.cpp:323-468 | the outcome is that of the file's bytes, however reads are cut; failure leaves no temporary file, success exactly the file part's bytes |
| `MultipartRoundTrip.NameParam` | http/files/multipart_parser.cpp:41-77 | the name parameter of an encoded disposition comes back for every name without a quote |
| `MultipartRoundTrip.FilenameParam` | http/files/multipart_parser.cpp:41-77 | a filename is found exactly in file parts, when the field name does not itself hold `filename=` |
| `MultipartRoundTrip.HeadersBack` | http/files/multipart_parser.cpp:176-197 | the header of an encoded part parses to its disposition and content type |
| `MultipartRoundTrip.FindDelimiter` | http/files/multipart_parser.cpp:202 | with a boundary without CR the first delimiter is the one behind the content, never an overlap |
| `MultipartRoundTrip.RoundTrip` | http/files/multipart_parser.cpp:323-468 | for every list of sendable parts, parsing the encoded form gives what the list says, the refusals and their status included |
| `MultipartRoundTrip.AcceptedFormComesBack` | http/files/multipart_parser.cpp:395-467 | an encoded form is accepted exactly with one file and all parts within limits; the file comes back under its sanitized name and each field with its last value |
| `HeapTimer.Timer.AddOrUpdate` | infra/timer/heap_timer.cpp:5-24 | the timers, seen as a map from socket to expiry, gain or change exactly this entry; heap order and index stay intact |
| `HeapTimer.Timer.Remove` | infra/timer/heap_timer.cpp:26-34 | the map loses exactly this socket, if it was there |
| `HeapTimer.Timer.SiftUp` | infra/timer/heap_timer.cpp:73-88 | order broken at one node is repaired upwards, or the node was not earlier than its parent and nothing moved |
| `HeapTimer.Timer.SiftDown` | infra/timer/heap_timer.cpp:90-115 | order broken below one node is repaired without changing the map |
| `HeapTimer.Timer.DeleteAt` | infra/timer/heap_timer.cpp:117-139 | deleting a position removes exactly its socket from the map |
| `HeapTimer.Timer.SwapNode` | infra/timer/heap_timer.cpp:141-146 | a swap keeps the index the inverse of the heap and the map unchanged |
| `HeapTimer.FrontIsEarliest` | infra/timer/heap_timer.cpp:46 | the front of the heap has the least expiry of the map |
| `HeapTimer.Timer.NextTimeoutMs` | infra/timer/heap_timer.cpp:58-71 | no timers give -1, a timer that has run out gives 0, otherwise the milliseconds lead exactly to an earliest timer if and only if that is at most 2147483 seconds off |
| `HeapTimer.Reactor.OnExpire` | app/webserver_sub_reactor.cpp:235-248 | an open connection is put back exactly when it was active within the timeout, and closed otherwise, also if a worker serves it between the clock readings; its new timer lies in the future |
| `HeapTimer.Reactor.ScanTimeout` | infra/timer/heap_timer.cpp:36-56 | a scan terminates, fires exactly the timers that had run out, once each in order of expiry, leaves only later ones and the others untouched |
| `SessionCache.Sessions.PersistSession` | service/auth/auth_service.cpp:218-233 | new state and answer are those of the step, which writes the row by account and by the token's class, and the cache entry by bytes, or nothing of the cache on failure |
| `SessionCache.Sessions.RefreshSession` | service/auth/auth_service.cpp:235-252 | new state and answer are those of the step, which extends the unexpired row of the account in the token's class, and the cache entry by bytes |
| `SessionCache.Sessions.LookupSession` | service/auth/auth_service.cpp:439-504 | new state and answer are those of the step; on a trustworthy run an accepted token has an unexpired row of the account named |
| `SessionCache.Sessions.RemoveSession` | service/auth/auth_service.cpp:506-522 | new state and answer are those of the step, which removes the row of the token's class and the cache entry of its bytes, and nothing else |
| `SessionCache.Sessions.DropCached` | service/auth/auth_service.cpp:531-544 | the loop removes exactly the entries with this spelling, except the one to keep |
| `SessionCache.Sessions.RemoveUserSessions` | service/auth/auth_service.cpp:524-551 | new state and answer are those of the step: rows go by account, cache entries by spelling |
| `SessionCache.Sessions.LoginUser` | service/auth/auth_service.cpp:391-437 | new state and answer are those of the step; after success on a trustworthy run the new token, and no other in any spelling, stands for the account |
| `SessionCache.Sessions.Logout` | service/auth/auth_service.cpp:553-556 | new state and answer are those of removing the token, or all tokens of the user |
| `SessionRuns.StepKeeps` | service/auth/auth_service.cpp:218-556 | on trustworthy rules every operation keeps the invariant between table and cache, and its own promise |
| `SessionRuns.RunInv` | service/auth/auth_service.cpp:218-556 | the invariant holds in every state of every such run |
| `SessionLimits.SafeIff` | service/auth/auth_service.cpp:391-556 | lookups are sound, logins leave only the new token and logouts none, in any spelling, on all runs, exactly when requests do not overlap, lag and clock distance are within the refresh threshold, login names are spelled as registered and tokens as issued |
| `SessionLimits.LagBreaksLookups` | service/auth/auth_service.cpp:218-233 | with a longer lag there is a run in which the cache vouches for a token whose row has expired |
| `SessionLimits.SkewBreaksLookups` | service/auth/auth_service.cpp:480-497 | with a process clock further behind there is a run in which a session found in the table outlives its row in the cache |
| `SessionLimits.SpellingBreaksLogins` | service/auth/auth_service.cpp:418-429 | under another spelling there is a run in which a login leaves an older token accepted without a row |
| `SessionLimits.SpellingBreaksLogouts` | service/auth/auth_service.cpp:531-544 | and one in which logging out everywhere leaves a cached token in force |
| `SessionLimits.TwoLogins` | service/auth/auth_service.cpp:391-437 | two logins under two spellings of one account leave the first token accepted although its row is gone |
| `SessionLimits.TokenSpellingBreaksLogouts` | repo/mysql/session_repository.cpp:94-103 | a token presented in another spelling is still accepted in that spelling after the logout of the token, although its row is gone |
| `SessionLimits.OverlapBreaksLookups` | service/auth/auth_service.cpp:218-233 | two logins of one account at once leave a token accepted while no row is left |
| `SessionRuns.HoldersOnlyByLogin` | service/auth/auth_service.cpp:218-556 | no token comes to stand for an account, in any spelling, by anything but a login of that account, whatever fails |
| `SessionRuns.OnlyTheNewToken` | service/auth/auth_service.cpp:391-556 | once only one token stands for an account, only that one does, in any spelling, until the next login, whatever others do and however the database fails |
| `WriteLoop.Response.constructor` | http/core/response.cpp:216-225 | the counter, an int, accounts for the whole response exactly when header and file have less than 2^31 bytes |
| `WriteLoop.Response.HeaderRound` | http/core/runtime.cpp:57-89 | one round on the header sends its next bytes, waits, or gives up on an error |
| `WriteLoop.Response.SendFile` | http/core/runtime.cpp:106-135 | sendfile always moves bytes while some are unsent, so its zero branch is unreachable for a file of fixed length |
| `WriteLoop.Response.Stage` | http/core/io.cpp:287-306 | a read always gets bytes while some are unsent, so its end-of-file branch is unreachable |
| `WriteLoop.Response.SendFileOverTls` | http/core/io.cpp:283-346 | the TLS loop ends with all sent, blocked, or broken, and never loses or repeats a byte |
| `WriteLoop.Response.Write` | http/core/runtime.cpp:45-144 | the wire holds a prefix of header and file, the counters split the response, the cycle finishes exactly when all is sent, waits only on a blocked network and breaks only on an error |
| `WriteLoop.Response.Deliver` | http/core/runtime.cpp:30-144 | the same over any number of write events; it no longer waits after as many productive answers as the response has bytes |
| `JsonBody.JsonEscape` | http/core/http_message.cpp:193-229 | the loop computes the character-wise escape |
| `JsonBody.TrimCopy` | http/core/http_message.cpp:178-191 | the loops remove exactly the white space at both ends |
| `JsonBody.ReadQuoted` | http/core/parser.cpp:574-597 | the loop reads the string up to its closing quote as the body's meaning says |
| `JsonBody.ParseJsonBody` | http/core/parser.cpp:541-670 | acceptance and the fields left behind are those of the body, also when it gives up halfway |
| `JsonBody.ScanEscaped` | http/core/parser.cpp:621-637 | reading an escaped string gives it back with its control characters replaced |
| `JsonBody.ObjectBack` | http/core/parser.cpp:541-670 | every object built with json_escape is accepted, each pair with its control characters replaced |
| `JsonBody.SurvivesIffPrintable` | http/core/http_message.cpp:199-226 | a string survives escaping and reading exactly when it has no byte below 0x20 |
| `JsonBody.RoundTrip` | http/core/parser.cpp:654-657 | pairs with non-empty keys and no byte below 0x20 come back as exactly the map, the last duplicate winning |
| `StorageRuns.RecountEstablishesCounts` | migrations/006_ref_count_triggers.sql:4-11 | side fact: the recount makes key-respecting tables sound, and changes nothing exactly when they already are |
| `SessionRuns.LookupComplete` | service/auth/auth_service.cpp:439-504 | side fact: a token with an unexpired row is accepted when the query for it is answered, whatever else fails |

## Left out

- C++ weak memory ordering and `size_t` wrap-around of queue tickets: steps are sequentially consistent and tickets unbounded.
- Lock-free mode of the pool around the queue: semaphore permits do not cover queued tasks there, and worker counts are not bounded.
- Thread creation failing inside the pool's constructor, and the unlocked early test of the stop flag, which only rejects what the locked test would reject.
- Lost transactions at other statements: a failed insert, write or commit makes the upload give up, as in the code; reconnects inside a permanent delete are not modelled.
- Partial acquisition of the three row locks of a permanent delete: they are taken in one step.
- Folder and name checks inside an upload: they appear as statements that may fail.
- Orphan files on disk after failed commits or unlinks: only the missing-file direction is guaranteed.
- `empty_trash`: it repeats permanent deletes one by one.
- BodyReader.ReadBody: says nothing about the partial body left behind when the payload is too large, because it depends on how the reads were cut; an event that never ends on a full ring is an end of its own (`Spinning`).
- BodyReader.Connection.AppendStreamedBodyChunk: failed writes to the spool file are not modelled.
- Request-line and header parsing: the body reader starts where the header ends.
- MultipartReader.ParseSpooled: read errors on the spool file (the fill loops do not stop on them), failure to create a temporary file, and the SHA-256 of the upload are not modelled.
- MultipartReader.Sink.Write: output failures of a sink are not modelled.
- MultipartRoundTrip.RoundTrip: names and types without CR, quotes or an embedded `filename=`, contents without the delimiter; other inputs are covered by MultipartReader.ParseSpooled only.
- FileNames.EnsureUniqueOwnedFilename: concurrent inserts are not modelled.
- SessionLimits.SafeIff: of overlapping requests only those inside the gap of a login are modelled, which suffices to show that overlaps break the promises; disabled users, several server processes and adjustments of a clock are not modelled; tokens issued by a login are new; somebody can log in, two tokens exist, and the process's clock is less than a session's lifetime ahead.
- SessionRuns.OnlyTheNewToken: speaks of requests that begin after the login has ended; a lookup that is under way meanwhile can cache an older token again.
- WriteLoop.Response.Write: what is sent of a response of 2^31 bytes or more, whose counter is wrong from the start, is not modelled; the file does not change while it is sent; the reset after a finished cycle is not modelled.
- Sockets, epoll, TLS handshake, hashing, passwords, share links, controllers, configuration, logging.
