# zero-examples: a verified model

A Dafny 4.11 model of the parts of zero-examples that hold concurrent state or
arithmetic of their own, with proofs of what those parts guarantee. `dafny verify
dfyconfig.toml` checks the whole project.

| file | models |
|---|---|
| `Text.dfy` | byte strings: split and join, `TrimSpace`, line scanning |
| `Chat.dfy` | the chat server as a step machine: hub, `ServeWs`, `readPump`, `writePump` |
| `ChatInvariant.dfy` | its inductive invariant, step by step |
| `ChatTheorems.dfy` | what holds in every interleaving |
| `ChatProgress.dfy` | what can happen from every reachable state |
| `HubObjects.dfy` | hub and client as mutable objects: register, unregister, the broadcast loop, the drain loop |
| `KeepAlive.dfy` | ping/pong timing of a chat connection |
| `Loader.dfy` | the parallel dictionary loader |
| `DictionaryFile.dfy` | dictionary files written and loaded back |
| `LoadGenerator.dfy` | the load generator: ramp, gauge, averages, window reductions |
| `Greeting.dfy` | the bidirectional greeting stream |
| `CachedStore.dfy` | table plus cache: the short-URL store and the bookstore |
| `Counters.dfy` | counters that are reported and zeroed while requests run |
| `CountFunc.dfy`, `Sums.dfy` | the map-reduce line count |

**How concurrency is modelled.** Each protocol is a state, a set of atomic steps, an
`Enabled` predicate and an `Apply` function. A run is any sequence of enabled steps, so a
statement about all runs is a statement about all interleavings. History fields (the
hub's broadcast log, what was enqueued for a client, how often a channel was closed)
are ordinary fields that no step reads to decide what to do. A Go run-time panic in the
hub is a state of the model (`panicked`), shown to be unreachable, not a precondition.

**The chat server** is the centre. One invariant over hub and clients gives: a client's
peer shows a gap-free prefix of the broadcast sequence from the client's registration
on; channels are closed once and never sent to afterwards; the writer's counted drain
loop never blocks and never reads a closed channel's zero value; frames split back into
the messages they were built from; the writer's Close frame is last and complete;
broadcast rounds always finish; a writer whose channel was closed always ends; a client
whose writer has ended is sent no more than its buffer holds before it is removed. And
the steps are there: from every reachable state there are runs in which clients join and
leave, a message is accepted, and it reaches the peers.

**Where code and intention differ**, the code is followed:

- `addFail` and `addReject` of the breaker client increment `ok`
  (http/breaker/client/client.go:43-53): the sum of the counters is conserved, the split
  is not, and the ok column is right exactly when nothing failed or was rejected.
- The bookstore's `Insert` leaves the cache alone (bookstore/rpc/model/bookmodel.go:50-55):
  a lookup before the insert hides the new book. `Bookstore.HiddenExact` says which
  histories do that, `Bookstore.FindOneExact` that nothing else makes an answer wrong.
- A cache entry that cannot be dropped after a write may go stale: exactly when, is said for
  one write by `CachedStore.FailedDropExact` and `Bookstore.FailedDropRows`, for whole runs
  by `CachedStore.CoherentExact`.
- `reset` swaps the four counters of the simulation client one by one
  (load/simulate/client/main.go:87-95), so a line is a joint snapshot only under the
  condition of `Counters.SnapshotExact`; over all lines nothing is lost.
- The reducer's `maxFiles` is documented as a number of files, but compared with the sum
  of the counts so far (mapreduce/countfunc/countfunc.go:24 and 87); `CountFunc.LimitExact`
  says when the two coincide.
- The requests' `index` is an int32: the indices are 1, 2, ... exactly while the total
  fits.
- A chunk of the dictionary file with a malformed line loses the rest of the chunk, and
  only that: what is loaded depends on where the file was cut (`Loader.CutMatters`), unless
  the condition of `Loader.CutExact` holds.
- A header too long for the scanner is not skipped: the failed scan is ignored and the
  next one returns the start of the header as a line (filex/pread.go:94-100).

## Model

| member | source | states |
|---|---|---|
| ChatInvariant.ReachableInv | chat/internal/hub.go:28-49 | one invariant over hub, channels, readers and writers holds after every interleaving |
| ChatInvariant.StepKeeps | chat/internal/hub.go:28-49 | every one of the 19 atomic steps of hub, ServeWs, reader and writer keeps that invariant |
| ChatTheorems.ContiguousDelivery | chat/internal/hub.go:28-49 | what was enqueued for a client is one contiguous slice of the broadcast sequence, from registration to removal; the peer shows a prefix of it, the rest is in hand, buffered, or went down with a failed write |
| ChatTheorems.PeersAgree | chat/internal/hub.go:38-46 | two peers that both show the k-th broadcast show the same message for it, so they agree on order |
| ChatTheorems.NoPanicCloseOnce | chat/internal/hub.go:31-46 | no run closes a channel twice or sends on a closed one; membership in the hub's set means an open channel |
| ChatTheorems.DrainNeverBlocks | chat/internal/client.go:104-109 | each of the n receives of the drain loop finds a message, whatever the hub does meanwhile |
| ChatTheorems.DrainTakesBuffered | chat/internal/client.go:98-113 | in any run, the frame gets the received message and exactly what was buffered when its length was read |
| ChatTheorems.FrameBounds | chat/internal/client.go:102-113 | every data frame splits into at most 257 messages, which are the consecutive broadcasts after those the earlier frames showed, and has at most 131840 bytes |
| ChatTheorems.FrameSplitsBack | chat/internal/client.go:98-113 | whatever runs between reading the length and a successful flush, the browser's split of the one frame appended is the received message and what was buffered at that length |
| ChatTheorems.CloseFrameLast | chat/internal/client.go:88-120 | at most one Close frame, last on the wire, after every enqueued message; written by every writer that ended without a write error |
| ChatTheorems.WriterEnds | chat/internal/client.go:88-120 | once the channel is closed the writer is never stuck and takes fewer than 1288 more steps in any continuation, pings aside |
| ChatTheorems.StoppedClientRemoved | chat/internal/hub.go:38-46 | once a client's writer is exiting or ended, over any run nothing more is written to its peer and at most 256 - n further messages (n buffered) are enqueued; the hub makes it at most 257 - n offers, the last of which removes it |
| ChatTheorems.BroadcastRound | chat/internal/hub.go:38-46 | a round interleaved with anything makes one offer per registered client, can always go on, and ends with each of them holding the message or closed and removed |
| ChatTheorems.RoundOrderIrrelevant | chat/internal/hub.go:39-46 | without interruption, every iteration order of the map gives the same state |
| ChatTheorems.RunGrows | chat/internal/hub.go:31-46 | over any run a client never rejoins, its wire only grows, nothing is enqueued after close and nothing written after hang-up |
| ChatTheorems.ReadsPublishedOnce | chat/internal/client.go:63-73 | over any run the broadcast sequence is what the readers handed over, and each reader hands over what it read, cleaned, once and in order |
| ChatTheorems.ReadErrorIsFinal | chat/internal/client.go:56-69 | after a read error a client reads and publishes nothing more and hangs up only once removed |
| ChatTheorems.LeavesOnlyOnError | chat/internal/client.go:63-70 | a reader that is leaving or gone had a read error in that run |
| ChatTheorems.FramesMatchWrites | chat/internal/client.go:88-118 | over any run the pings and data frames on a wire are exactly the ticks and flushes that did not fail |
| ChatTheorems.CleanedMessage | chat/internal/client.go:71 | the cleaned message is what is left of the raw one between the white space at its ends, its lines joined by spaces; byte for byte the raw text if that holds no newline; never a newline in it |
| ChatProgress.HubGetsIdle | chat/internal/hub.go:38-46 | from every reachable state some run ends the round under way, without any client's pumps moving |
| ChatProgress.MessageAccepted | chat/internal/hub.go:38-46 | from every reachable state a message held by a reader has a run after which it is the next broadcast and the hub is idle again |
| ChatProgress.ReadBroadcast | chat/internal/client.go:60-73 | a serving reader on an open connection takes a message exactly if it has at most 512 bytes, and some run then broadcasts it, cleaned |
| ChatProgress.Joins | chat/internal/client.go:124-142 | from every reachable state a new connection has a run after which it is a member from now on, both pumps at work |
| ChatProgress.Registered | chat/internal/hub.go:31-32 | a client waiting to register has a run that puts it into the hub's set |
| ChatProgress.Leaves | chat/internal/client.go:56-59 | a leaving reader has a run after which its client is out of the set, its channel and connection closed |
| ChatProgress.ReadErrorLeaves | chat/internal/client.go:56-70 | a read error can always happen to a serving reader and has such a run |
| ChatProgress.RemovedWhenFull | chat/internal/hub.go:33-46 | a step removes a member exactly if it is its own leaving or an offer with 256 messages buffered |
| ChatProgress.WriterCatchesUp | chat/internal/client.go:88-113 | a writer on an open connection has a run of its own steps after which the peer shows everything enqueued |
| ChatProgress.MessageReachesPeer | chat/internal/client.go:63-113 | end to end: a message of up to 512 bytes read from one client has a run after which any member with a working writer shows every broadcast since it joined, the cleaned message last |
| ChatProgress.WriterCloses | chat/internal/client.go:88-96 | a writer whose channel is closed has a run that shows everything enqueued, then the Close frame, then ends and closes the connection |
| ChatProgress.WriteErrorEnds | chat/internal/client.go:98-120 | after any failed write nothing is put on the wire and all the writer can do is end and close the connection |
| ChatProgress.Pings | chat/internal/client.go:114-118 | a waiting writer on an open connection can send a ping |
| Text.SplitJoin | chat/home.html:39 | splitting a joined batch on newline gives the batch back exactly when it is non-empty and no message holds a newline |
| Text.JoinSplit | chat/home.html:39 | joining the parts of a split gives the text back |
| Text.SpaceAtExact | chat/internal/client.go:71 | the byte tests find white space exactly where the UTF-8 encoding of a white-space code point stands |
| HubObjects.HubObject.constructor | chat/internal/hub.go:19-26 | a new hub has no clients |
| HubObjects.HubObject.Register | chat/internal/hub.go:31-32 | adds the client; all registered channels stay open |
| HubObjects.HubObject.Unregister | chat/internal/hub.go:33-37 | removes and closes a member, does nothing otherwise, never closes a closed channel |
| HubObjects.HubObject.Broadcast | chat/internal/hub.go:38-46 | in any iteration order: clients with room get the message at the end, full ones are closed and removed |
| HubObjects.BroadcastMatchesMachine | chat/internal/hub.go:38-46 | an uninterrupted round of the step machine, in any order, leaves the channels and the client set that the object's loop leaves |
| HubObjects.Client.Receive | chat/internal/client.go:108 | the oldest message, or the zero value of a closed empty channel |
| HubObjects.Client.WriteFrame | chat/internal/client.go:102-109 | with arbitrary hub actions between the receives, the frame is the first message and what was buffered; what the hub adds stays, in order |
| KeepAlive.KeepAliveCondition | chat/internal/client.go:14-20 | start skew, write delay and pong latency within given bounds keep every connection alive forever exactly when the bounds sum to less than 6 s |
| KeepAlive.TimesInForce | chat/internal/client.go:16-20 | pings are due every 54 s, and a connection survives exactly if no two settings of its deadline are 60 s or more apart |
| KeepAlive.AliveAt | chat/internal/client.go:61-62 | at every instant some deadline already set lies ahead |
| Loader.ParseLine | filex/pread.go:101-119 | the in-place loop yields the numbers in order padded with zeros; exactly when it stops at a malformed number, exactly when it panics |
| Loader.Walk | filex/pread.go:91-120 | a worker emits the pairs of its lines up to the first bad one, the header skipped in the first chunk; a header too long for the scanner is itself taken as one line, cut off, and nothing follows |
| Loader.Contribution | filex/pread.go:100-119 | its result is the longest prefix of lines that parse, as pairs |
| Loader.RunInterleaves | filex/pread.go:87-124 | under every schedule the consumer stores an interleaving of the workers' outputs |
| Loader.InterleavingRuns | filex/pread.go:87-124 | conversely, every interleaving of the outputs is stored by some schedule |
| Loader.StoredValue | filex/pread.go:121-124 | the value stored under a key is the one some worker's output ends with |
| Loader.StoreIsLast | filex/pread.go:121-124 | the last pair stored under a key decides |
| Loader.SchedulesAgree | filex/pread.go:87-124 | every finished run of workers and consumer gives the in-order dictionary exactly when chunks that share a key agree on its vector |
| Loader.ChunksCoverFile | filex/pread.go:76-99 | cutting any file at line starts loses and repeats no line and skips the header once |
| Loader.CutExact | filex/pread.go:76-120 | for any file and cut the workers together emit at least what one worker emits for the whole file, in order, and exactly that if and only if no chunk behind one whose worker stops has anything to contribute |
| Loader.CutMatters | filex/pread.go:76-120 | for every malformed line before a good one: loaded whole the file gives nothing, cut between them it gives the good line |
| Loader.CutMattersSomewhere | filex/pread.go:76-124 | one file, two cuts, two dictionaries under every schedule |
| Loader.ParallelLoad | filex/pread.go:87-124 | for any file, cut and schedule: the chunks hold the lines of the file once and in order, each chunk gives those before its first bad one, and the dictionary has exactly their keys, each with a value some chunk ends with |
| Loader.LoadExact | filex/pread.go:87-124 | if the emitted pairs have distinct keys, a finished load equals the sequential one if and only if the cut is harmless |
| Loader.ParallelEqualsSequential | filex/pread.go:87-124 | a well-formed file with distinct keys gives the sequential dictionary, an entry per line, for every chunking and schedule |
| DictionaryFile.WrittenLoads | filex/pread.go:87-124 | round trip: a file with a header and a line for each word and its numbers, in any notation that reads back, loads for every cut and schedule to exactly those words, each with its numbers and zeros behind them up to the dimension |
| DictionaryFile.LineGood | filex/pread.go:101-119 | the line written for a word and numbers parses to that word and those numbers, zeros behind them |
| Text.LinesConcat | filex/pread.go:93-100 | the lines of a text cut at a line start are the lines of its parts |
| Text.LinesSnoc | filex/pread.go:93-100 | one more line is one more line, with its newline or, unless empty, without it at the end of the file |
| LoadGenerator.Ramp | load/main.go:56-80 | the two loops issue 5*s*(s+2) requests in 2*s batches |
| LoadGenerator.GaugeAndAverages | load/main.go:85-107 | the gauge equals the requests in flight and never wraps; the averages stay within the peak (the lazy one below it) and have the closed weighted form |
| LoadGenerator.AveragedValues | load/main.go:86-107 | the values averaged are those the gauge returned, each once: increments in the aggressive average, decrements in the lazy one, all in the combined one, less what requests still hold; the peak is the largest returned |
| LoadGenerator.ReturnsInFlight | load/main.go:86-99 | what each increment and decrement returns is the number of requests in flight just after it |
| LoadGenerator.GaugeMoves | load/main.go:86-99 | adding 2^64-1 is a decrement by one, adding 1 an increment, in every reachable state |
| LoadGenerator.WeightedSnoc | load/main.go:88-106 | one update, nine tenths old and a tenth new, turns the closed form for n values into that for n+1 |
| LoadGenerator.AllLandedAtRelease | load/main.go:57-82 | when Wait returns all requests are done, the gauge is 0, every average took one value per request; the indices are 1..total exactly when the total fits an int32 |
| LoadGenerator.AllAveragedAtRelease | load/main.go:82-107 | when Wait returns each average has taken all its values, each once |
| LoadGenerator.RunsToTheEnd | load/main.go:57-83 | every run has at most 9 actions per request and the return of Wait, which comes exactly then; until then something can happen |
| LoadGenerator.RequestFinishes | load/main.go:85-111 | any request can finish by its own actions, whatever the others do |
| LoadGenerator.RampIndices | load/main.go:56-83 | for the ramp of s seconds the indices are 1..5*s*(s+2), each once, exactly when s is at most 20723 |
| LoadGenerator.MinRt | load/main.go:133-148 | the least rounded average of the non-empty buckets, capped at 1000 |
| LoadGenerator.Round | load/main.go:141 | within a half of its argument, halves away from zero |
| LoadGenerator.MaxPass | load/main.go:121-131 | the largest bucket sum, at least 1, truncated |
| LoadGenerator.AverageInRange | load/main.go:95-98 | a bucket of times from 1 to 10 ms has a rounded average in [1, 10] |
| LoadGenerator.MaxFlight | load/main.go:117-119 | 1, or the whole part of a hundredth of the largest bucket sum times the least rounded time; at most max(1, maxPass/10) once a time is recorded, ten times maxPass before |
| Greeting.RepliesInOrder | rpc/client/stream/client.go:39-62 | the i-th reply printed is "hello, " and the i-th name; the WaitGroup is adds minus replies and never negative; Wait returns only after all replies |
| Greeting.RunsToTheEnd | rpc/client/stream/client.go:39-62 | without failures the protocol never deadlocks and the client exits after exactly 7 actions per name and the return of Wait |
| Greeting.SendsAhead | rpc/client/stream/client.go:52-60 | the client can send all its names without waiting for a reply |
| Greeting.RepliesAhead | rpc/server/stream/server.go:17-37 | the server can answer all it has been sent without waiting for the client to read |
| Greeting.ReceivesAhead | rpc/client/stream/client.go:40-50 | the receiving goroutine can print all that has arrived, whatever the send loop is doing |
| Greeting.FatalEnds | rpc/client/stream/client.go:42-59 | a failure can come at any time while the client runs and nothing is printed after it |
| Greeting.ReachableInv | rpc/server/stream/server.go:15-38 | every name is in exactly one place, in order, in every reachable state |
| Greeting.Greet | rpc/server/stream/server.go:15-38 | the server loop answers "hello, " and the name to each request it reads, in order, until end or cancellation |
| CachedStore.RefinesTable | shorturl/rpc/transform/model/shorturlmodel_gen.go:53-95 | over any run of calls, evictions and failures, from any store right about a key, every call about the key is answered as the bare table would, unless a write of that key failed to drop its entry |
| CachedStore.CallKeepsCoherent | shorturl/rpc/transform/model/shorturlmodel_gen.go:53-95 | one call keeps what is cached for any key right, answers for the table and changes the table as its statement does |
| CachedStore.WriteThenFind | shorturl/rpc/transform/model/shorturlmodel_gen.go:53-95 | from any store: after a write that went well and any calls that do not write that key, a lookup through the cache sees the write |
| CachedStore.FailedDropExact | shorturl/rpc/transform/model/shorturlmodel_gen.go:53-95 | when dropping the cache key fails, what is cached for the row stays right exactly when nothing was cached or the statement changed nothing; other rows are unaffected |
| CachedStore.FailedDropHides | shorturl/rpc/transform/model/shorturlmodel_gen.go:62-86 | look up, insert with a failing drop, look up: the row is in the table and not found |
| CachedStore.EntryExact | shorturl/rpc/transform/model/shorturlmodel_gen.go:53-95 | for either model, after any run with any failures: a key is cached exactly if some lookup was not dropped since, and the entry says what the table said at the first such lookup |
| CachedStore.CoherentExact | shorturl/rpc/transform/model/shorturlmodel_gen.go:53-95 | so the cache is right about a key exactly when the row is now what it was at the lookup that filled the entry |
| CachedStore.LookupExact | shorturl/rpc/transform/model/shorturlmodel_gen.go:62-77 | the answer to a lookup after any run with any failures: the row as of the lookup that filled the entry, without an entry the present row, or a failure if the database is down |
| ShortUrl.ShorturlModel.FindOne | shorturl/rpc/transform/model/shorturlmodel_gen.go:62-77 | answers for the table whenever the entry for the key is right, fails only on a miss with the database down, leaves its answer in the cache, changes no other entry; coherence and all key bindings are kept |
| ShortUrl.ShorturlModel.Insert | shorturl/rpc/transform/model/shorturlmodel_gen.go:79-86 | succeeds exactly when nothing fails and the key is free; then the key is bound and no cache entry can hide it, every earlier binding holds, and coherence is kept unless the drop fails |
| ShortUrl.ShorturlModel.Update | shorturl/rpc/transform/model/shorturlmodel_gen.go:88-95 | on success an existing key is bound to the new URL with no stale entry left; bindings of other keys hold, and coherence is kept unless the drop fails |
| ShortUrl.ShorturlModel.Delete | shorturl/rpc/transform/model/shorturlmodel_gen.go:53-60 | on success the row and its cache entry are gone; bindings of other keys hold, and coherence is kept unless the drop fails |
| ShortUrl.Transformer.Shorten | shorturl/rpc/transform/internal/logic/shortenlogic.go:28-41 | succeeds exactly when nothing fails and the key is free; the key is the first six characters of the hash, then bound to the URL, and every earlier binding still holds |
| ShortUrl.Transformer.Expand | shorturl/rpc/transform/internal/logic/expandlogic.go:26-35 | a bound key expands to its URL, with an error only while the database is down; an unknown key gives an error; every binding is kept |
| ShortUrl.TwoUrls | shorturl/rpc/transform/internal/logic/shortenlogic.go:28-41 | two URLs with different, free six-character keys are both shortened to these and expand to themselves; with the same key the second is refused |
| ShortUrl.KeyExpandsForever | shorturl/rpc/transform/internal/logic/expandlogic.go:26-35 | for every hash and run, a key from a successful Shorten expands to its URL ever after, errors only while the database is down; no later Shorten returns that key |
| Bookstore.BookModel.Insert | bookstore/rpc/model/bookmodel.go:50-55 | succeeds exactly for a new book with the database up, leaves the cache as it was, so the new book is hidden exactly when something was cached for it; cached rows stay right |
| Bookstore.BookModel.FindOne | bookstore/rpc/model/bookmodel.go:57-72 | answers for the table exactly when no marker hides the book; says not found exactly when a marker is then cached; cached rows stay right |
| Bookstore.BookModel.Update | bookstore/rpc/model/bookmodel.go:74-81 | on success nothing hides the book any more; cached rows stay right unless the drop fails |
| Bookstore.BookModel.Delete | bookstore/rpc/model/bookmodel.go:83-90 | on success row and cache entry are gone; cached rows stay right unless the drop fails |
| Bookstore.CachedRowsRight | bookstore/rpc/model/bookmodel.go:50-90 | over any run a row cached for a book is the table's row, unless an update or delete of that book failed to drop its entry |
| Bookstore.FailedDropRows | bookstore/rpc/model/bookmodel.go:74-90 | when that drop fails, a cached row stays right exactly when no row was cached or the statement changed nothing |
| Bookstore.FindOneExact | bookstore/rpc/model/bookmodel.go:57-72 | after any run FindOne answers for the table exactly when no not-found marker hides the book |
| Bookstore.InsertThenFind | bookstore/rpc/model/bookmodel.go:50-55 | a new book is found right after its insert exactly when nothing was cached for it before |
| Bookstore.LookupHidesInsert | bookstore/rpc/model/bookmodel.go:50-72 | look up, insert, look up: the book is in the table and not found |
| Bookstore.HiddenExact | bookstore/rpc/model/bookmodel.go:50-90 | the histories that hide a book, with any failures: exactly those in which the lookup that filled its present cache entry found it absent and it is in the table now; it was then inserted after that lookup |
| Counters.SwapsConserve | load/simulate/client/main.go:57-95 | with the four swaps interleaved with requests in any way, reported plus in hand plus live equals started, and finished in each way |
| Counters.ReportedPlusLive | load/simulate/client/main.go:87-95 | between resets, reported plus live accounts for every request |
| Counters.LineNeedNotBalance | load/simulate/client/main.go:87-95 | a single report line can show a pass without a start |
| Counters.LineExact | load/simulate/client/main.go:87-95 | what a report line says, for any requests between the four swaps: the counters at the first swap, plus every pass, failure and drop that ended before its own counter was swapped |
| Counters.SnapshotExact | load/simulate/client/main.go:87-95 | a line is the joint snapshot of the counters exactly when no pass ended before the second swap, no failure before the third and no drop before the fourth |
| Counters.RunsExact | load/simulate/client/main.go:57-95 | every mix of starts, ends and swaps is a run exactly if at no point more requests have ended than started |
| Counters.Metric.Record | http/breaker/client/client.go:37-65 | 200, 500 and 503 each add one to ok, no response one to errs, any other status one to unknown; nothing else moves |
| Counters.Metric.Reset | http/breaker/client/client.go:67-86 | returns the counters and zeroes them |
| Counters.MetricConserves | http/breaker/client/client.go:37-117 | over any run the reports plus live counters hold every response, failures and rejections in the ok column |
| Counters.ColumnsByStatus | http/breaker/client/client.go:37-117 | over any run the ok column holds the responses 200, 500 and 503, the errs column the requests without one, the unknown column the rest |
| Counters.OkColumnExact | http/breaker/client/client.go:43-53 | the ok column counts the ok responses exactly when none failed or was rejected |
| CountFunc.CountFuncs | mapreduce/countfunc/countfunc.go:29-66 | the filtered, trimmed count equals the direct count of newline-terminated func lines |
| CountFunc.TerminatedExact | mapreduce/countfunc/countfunc.go:38-49 | the lines read make up the file but for a last one without newline, and each has its only newline at its end |
| CountFunc.MatcherExact | mapreduce/countfunc/countfunc.go:63 | a trimmed line starts with func exactly when the line is white space followed by func |
| CountFunc.Reduce | mapreduce/countfunc/countfunc.go:82-96 | cancels exactly when a proper prefix sum reaches a positive limit, otherwise writes the sum |
| CountFunc.CancelsByLast | mapreduce/countfunc/countfunc.go:85-93 | cancellation depends only on the total and the last arrival |
| CountFunc.SomeOrderCancels | mapreduce/countfunc/countfunc.go:85-93 | some arrival order cancels exactly when leaving out some one file still reaches the limit |
| CountFunc.OrderIndependent | mapreduce/countfunc/countfunc.go:82-96 | below the limit every arrival order writes the number of func lines of all files |
| CountFunc.LimitIsOnLines | mapreduce/countfunc/countfunc.go:82-96 | at limit 3 two files can be cancelled and four files not |
| CountFunc.LimitExactInOrder | mapreduce/countfunc/countfunc.go:82-96 | for one arrival order every limit acts as a limit on files exactly when the files before the last hold as many func lines as there are of them |
| CountFunc.LimitExact | mapreduce/countfunc/countfunc.go:82-96 | every limit acts as a limit on files in every arrival order exactly when there is at most one file or every file has exactly one func line |

## Left out

- WebSocket, HTTP, gRPC, SQL, Redis and file I/O appear as abstract inputs, FIFO queues or success flags; a frame is on the wire when its write has completed.
- Concurrent code (`Hub.Run` with the pumps, `issueRequest`, the stream goroutines, `reset` of the simulation client) is a step machine on values, so aliasing and in-place update are shown only by the objects in `HubObjects.dfy`, `CachedStore.dfy` and `Counters.dfy`.
- Fairness and wall-clock scheduling: runs are arbitrary step sequences; progress is stated as enabled steps and bounded step counts.
- IEEE rounding, NaN and infinities: averages and vectors are reals.
- LoadGenerator.GaugeAndAverages: for fewer than 2^64 requests in all; beyond that the uint64 gauge itself could wrap.
- LoadGenerator.MaxFlight: the rolling window's own bucket rotation is not part of this model; buckets hold arbitrary recorded times of 1 to 10 ms.
- CachedStore.RefinesTable: excludes writes of the key in question whose cache drop fails; CachedStore.CoherentExact and CachedStore.LookupExact cover every run.
- Bookstore.CachedRowsRight: excludes updates and deletes of the book in question whose cache drop fails; Bookstore.FailedDropRows and CachedStore.CoherentExact say what such a failure does.
- ChatTheorems.CloseFrameLast: the wire holds only the frames that writePump writes; the websocket library's own close handler may also write a Close frame, from the read path.
- The loader's pipe is an unbounded queue; the library's bounded channel allows some of these runs, among them those that `Loader.InterleavingRuns` builds.
- Loader.Walk: a run-time panic in a worker ends that worker as a malformed number does; what the stream library does with the panic is not part of this model.
- `FastLoad`'s header parsing and file errors (filex/pread.go:42-85): the dimension is a parameter.
- The mapper's stop-on-file and simulated return or panic modes (mapreduce/countfunc/countfunc.go:55-59 and 68-77), and a file that cannot be opened.
- Overflow of the int64 and int counters of the counting programs.
- The md5 hash: any function from strings to strings.
- The ramping loop of the simulation client (load/simulate/client/main.go:42-54) and the drop ratio of the breaker report: easy arithmetic.
- go-zero's own code, generated protobuf files, configuration, routing and handlers.
