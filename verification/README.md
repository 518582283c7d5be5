# Verification of RuKh

A Dafny model of five parts of RuKh, a C++ HTTP/1.1 server with a coroutine runtime and an ORM, with proofs of what
each part is for. `dafny verify dfyconfig.toml` checks everything.

* **Coroutine runtime.** `Scheduler` describes the executor's containers and every step that changes them, and keeps
  beside them where each suspended coroutine is; `Executor` is the class with the loops of `Executor::run`, each proved
  to be such steps. `PostWake`, `PoolJob` and `ThreadPool` are protocols between threads, as state machines whose steps are the
  atomic accesses and critical sections. `AsyncPool` is the waiting pool and `Connections` the ownership of SQLite connections on top of it.
* **Byte framing.** `ConnectionIO` is the read buffer in front of a socket that hands over arbitrary non-empty pieces of
  what the peer sends. `ChunkDecoder`, `HttpConnection`, `Multipart` and `MultipartBody` are the incremental readers over it, each proved against a
  definition on the whole byte string, for every way the bytes arrive. `Hex` and `Bytes` are number formatting and searching.
* **SQL generation.** `Predicate`, `PredicateSql` and `SelectQuery` render trees to text and a list of values; `Placeholders`
  says what a database makes of such a pair.
* **Symmetric relations.** `Relations` stores one relation on unordered pairs in three kinds of table.
* **Ranges and routing.** `Ranges` cleans byte ranges, `ByteRanges` announces and generates the multipart answer, `Router` is the trie.

A failure that the code reports by an exception is a result or an `Option` here. Text and bytes are sequences. What the code
leaves to the kernel, the clock, other threads and SQLite is a nondeterministic choice or an argument.

Where the code does not do what it is for, the model keeps the code and a theorem gives the exact condition:

* `ChunkDecoder`: an empty trailer section is recognised only if its two bytes are buffered when the decoder gets there (`ChunkDecoder.hpp:103`); otherwise the decoder goes on to the next blank line (`TrailerExact`, `ReceiveEncoded`).
* `BodyStream`: a read that finds nothing ends the body for good, so the next request starts at the wrong byte exactly then (`HandleBody`, `cutShort`).
* `Multipart`: a body whose parts are within the limits is parsed if and only if the first window of every part has at least boundary + 2 bytes (`MultipartParser.Go`). With a shorter one an unsigned subtraction wraps (lines 98 and 127): a handled part is refused as too large, a drained one has no defined outcome. A part without any delimiter is searched for ever if and only if it is within its limit (`ReadPart`), and so is a body shorter than its first boundary; part headers are limited by the 4 KB buffer, not by the 8 KB limit.
* `MultipartBody`: a parser read takes bytes of the next request if and only if as many bytes are buffered as the window has free and fewer are due, which takes a window with less than 1024 bytes free (`ReadForParser`).
* `SelectQuery`: a set operation drops the values of its own CTEs (line 480), so counts agree if and only if there are none (`QueryAligned`); the values handed over are those of the query without these CTEs (`ParamsGiven`).
* `Connections`: ownership is broken by exactly these steps (`StepKeepsOwnership`): an explicit `abandon()` of a live transaction, unless the job queue is full and nothing is open; the destruction of a live one, or an assignment over it, with the job queue full; an assignment over an ended one; a rollback job that fails while a transaction is open. After an accepted explicit `abandon()` the connection is given back twice (`AbandonReleasesTwice`).
* `ByteRanges`: a range that the block cuts leave with one byte loses it and its line break (line 392), so the body is three bytes shorter than announced for each such range, and longer by the digits that `digit_count` misses in numbers of 2^31 and more (`AnnouncedLength`). Several ranges with an If-Range that does not match are answered by the same generator, announced with the whole file's length (lines 346 and 375, `MultipartContentLength`). After the closing delimiter the generator never reports the end: the index has moved on, and the next call uses an element past the end of the list (lines 393 to 400, `NextBlock.Next`, `Emit`).
* `Scheduler`: sequence numbers are cut to `int`. A wait can be ended before its deadline if and only if, when it starts, the heap still has an earlier entry for its key with the number it gets (`TimelyStep`, `ConfusedWaitEndsEarly`); that takes more than 2^32 waits and can happen then (`FewWaitsUnconfused`, `ConfusionHappens`). A second wait on a descriptor, or its `unregister`, forgets the first coroutine (`LostWhenColliding`).
* `Router`: the node of a shape keeps the pattern added last. A route's handler gets its own parameter names if and only if the route added last for its shape has the same ones (`ParametersOfRoute`, `SharedNode`).

## Model

| member | source | states |
|---|---|---|
| Scheduler.EveryRun | rukh/src/core/Executor.cpp:29-276 | over every run of coroutines, kernel, clock and other threads, in any order and of any length: the containers agree with one another, every waiting coroutine's deadline is in the heap, every file operation has its own cell; coroutines are lost if and only if a wait took an occupied key or an occupied descriptor was unregistered |
| Scheduler.ResumedOnce | rukh/src/core/Executor.cpp:29-276 | in a run without such collisions each suspension has been resumed once, or its coroutine is in the executor |
| Scheduler.StepKeeps | rukh/src/core/Executor.cpp:29-276 | every single step keeps all containers, heap entries, result cells and the accounting in agreement |
| Scheduler.LostWhenColliding | rukh/src/core/Executor.cpp:39-43 | a coroutine is dropped in exactly the steps that collide |
| Scheduler.WaitsKeeps | rukh/src/core/Executor.cpp:70-80 | a wait on a descriptor, also an occupied one, leaves its caller in one place, with its own deadline in the heap |
| Scheduler.WaitsForEventKeeps | rukh/src/core/Executor.cpp:82-88 | a synthetic key collides with no waiting coroutine as long as keys fit an `int` |
| Scheduler.ExpiresKeeps | rukh/src/core/Executor.cpp:237-247 | the entry a turn of the sweep takes away is none that another wait relies on |
| Scheduler.TimelyStep | rukh/src/core/Executor.cpp:70-88 | where no entry ends a wait early, that stays so after a step if and only if the step is not a wait for whose key an earlier entry with its sequence number is left |
| Scheduler.EveryRunTimely | rukh/src/core/Executor.cpp:236-247 | over every run without such a wait, no wait is ended before its own deadline, by its own or by an outdated entry |
| Scheduler.FewWaitsUnconfused | rukh/src/core/Executor.cpp:70-88 | a run of at most 2^32 waits has no such wait |
| Scheduler.ConfusedWaitEndsEarly | rukh/src/core/Executor.cpp:238-246 | such a wait can be told that it timed out while its own deadline is still to come |
| Scheduler.ConfusionHappens | rukh/src/core/Executor.cpp:71 | such a wait is reachable: the one numbered 2^32 of a coroutine whose first wait had a shorter deadline |
| Scheduler.NoneOverdue | rukh/src/core/Executor.cpp:236-247 | when every heap entry is later than now, so is the deadline of every waiting coroutine |
| Scheduler.ResumedRightly | rukh/src/core/Executor.cpp:170-175 | a coroutine told that it timed out waited with a deadline that has passed, where no entry ends a wait early; one resumed after a file operation finds that operation's result in its own cell |
| Scheduler.DrainedExactly | rukh/src/core/Executor.cpp:151-168 | every pending operation named by a completion is delivered once, to its own coroutine and cell, and no other one ends |
| Scheduler.HearsAllExactly | rukh/src/core/Executor.cpp:204-234 | after a batch of events a coroutine still waits if and only if none of them was one it waits for; the pool queue is emptied if and only if the event descriptor rang |
| Scheduler.ReturnsInOrder | rukh/src/core/Executor.cpp:210-214 | posted coroutines become ready in the order they were posted |
| Scheduler.IssuedOrKept | rukh/src/core/Executor.cpp:250-267 | operations that found room in the ring are in flight with their own handle and cell; a full ring loses none |
| Executor.Executor.Spawn | rukh/src/core/Executor.cpp:29-37 | the step `Spawn`, and the task can be found under its address |
| Executor.Executor.Unregister | rukh/src/core/Executor.cpp:39-43 | the step `Unregister` |
| Executor.Executor.WaitFor | rukh/src/core/Executor.cpp:70-80 | the step `WaitForFd` |
| Executor.Executor.WaitForSynthetic | rukh/src/core/Executor.cpp:82-88 | the step `WaitForEvent`, with the key returned |
| Executor.Executor.FireSynthetic | rukh/src/core/Executor.cpp:90-96 | the step `FireEvent`; nothing happens if the wait has timed out |
| Executor.Executor.SubmitFileOp | rukh/src/core/Executor.cpp:107-119 | the step `Submit` |
| Executor.Executor.PostBack | rukh/src/core/Executor.cpp:45-52 | the step `Post` |
| Executor.Executor.DrainCompletions | rukh/src/core/Executor.cpp:151-168 | the loop delivers exactly the completed operations |
| Executor.Executor.ResumeFront | rukh/src/core/Executor.cpp:170-175 | the front of the queue is resumed and is then nowhere in the executor; a timeout it is told of is its own |
| Executor.Executor.ReapFinished | rukh/src/core/Executor.cpp:177-194 | exactly the finished roots that were owned are destroyed, each once, and the index stays right |
| Executor.SwapRemoveIndexed | rukh/src/core/Executor.cpp:185-193 | moving the last task into the gap removes exactly one task and keeps every other one findable |
| Executor.Executor.HandleEvents | rukh/src/core/Executor.cpp:204-234 | the loop over events wakes exactly the coroutines waiting for one of them |
| Executor.Executor.SweepDeadlines | rukh/src/core/Executor.cpp:236-247 | after the sweep every wait that is left has a deadline later than now, and all that have are left where no entry ends a wait early; the others' coroutines are told they timed out |
| Executor.Executor.PrepareOps | rukh/src/core/Executor.cpp:250-267 | a prefix of the prepared operations is in flight, the rest stays in order |
| Executor.Executor.Poll | rukh/src/core/Executor.cpp:203-267 | events, sweep and preparation in the loop's order leave no overdue wait |
| PostWake.NeverStranded | rukh/src/core/Executor.cpp:45-52 | in every interleaving, posted handles have moved to the ready queue once and in order, and a non-empty queue implies a thread about to write, a pending edge, or the loop on its way |
| PostWake.LoopDelivers | rukh/src/core/Executor.cpp:203-216 | when no thread is between push and write, the loop alone empties the queue within three steps |
| PoolJob.ContinuesOnce | rukh/include/rukh/pool/PoolJob.hpp:42-56 | in every interleaving of a worker and one `co_await` the caller goes on at most once, exactly once when both are through, and only after the outcome is stored; an unawaited job posts nothing |
| PoolJob.BothSidesFinish | rukh/include/rukh/pool/PoolJobAwaitable.hpp:50-69 | neither side waits for the other, and every step brings the end nearer |
| ThreadPool.EveryRun | rukh/include/rukh/pool/ThreadPool.hpp:92-115 | in every interleaving, accepted jobs are started once each and in order, the queue keeps its bound, and a queued job has a worker or a wake-up coming |
| ThreadPool.ShutdownRunsEverything | rukh/include/rukh/pool/ThreadPool.hpp:26-34 | when the last worker has returned, every job accepted before that has been run to its end |
| ThreadPool.LastReturns | rukh/include/rukh/pool/ThreadPool.hpp:97-99 | the last worker returns only from an empty queue |
| AsyncPool.EveryRun | rukh/include/rukh/core/AsyncPool.hpp:25-82 | under any acquires and releases by holders, every item is in exactly one place, nobody waits while an item is free, and waiters are served in order of arrival |
| AsyncPool.ReleasesConserves | rukh/include/rukh/core/AsyncPool.hpp:40-51 | a release by a holder keeps every item in one place |
| AsyncPool.ReleaseOfAnItemNotHeld | rukh/include/rukh/core/AsyncPool.hpp:40-51 | a release by anyone else puts the item into the pool twice |
| AsyncPool.AsyncPool.Acquire | rukh/include/rukh/core/AsyncPool.hpp:25-34 | the item given back last at once, or the end of the queue |
| AsyncPool.AsyncPool.Release | rukh/include/rukh/core/AsyncPool.hpp:40-51 | the item is in the longest waiter's slot, or free |
| AsyncPool.AsyncPool.Resume | rukh/include/rukh/core/AsyncPool.hpp:81 | a woken waiter goes on with the item of its slot and holds it |
| Connections.StepKeepsOwnership | rukh/include/rukh/db/ScopedTransaction.hpp:41-88 | a step keeps connection ownership if and only if it is disciplined: room in the job queue when a live transaction is destroyed or assigned over, no assignment over an ended one, no explicit abandon of a live one but a refused one with nothing open, a rollback that succeeds where a transaction is open |
| Connections.EveryRun | rukh/include/rukh/db/sqlite3/Sqlite3Db.hpp:89-145 | ownership holds after every disciplined run |
| Connections.ExactlyOneOwner | rukh/include/rukh/db/sqlite3/Sqlite3Db.hpp:89-145 | each connection is in exactly one of free list, hand-off, query, live transaction and rollback job, and a free one has no open transaction |
| Connections.DestroyOwns | rukh/include/rukh/db/ScopedTransaction.hpp:76-88 | destroying a scope keeps ownership if and only if it had ended or the rollback job was accepted |
| Connections.AbandonOwns | rukh/include/rukh/db/sqlite3/Sqlite3Transaction.hpp:80-86 | an explicit abandon keeps ownership if and only if the transaction had ended, or the job was refused and nothing is open |
| Connections.AbandonReleasesTwice | rukh/include/rukh/db/sqlite3/Sqlite3Transaction.hpp:80-86 | after an accepted explicit abandon the job and then the scope give the connection back, and it is in the pool twice |
| Connections.RefusedAbandonReleasesOnce | rukh/include/rukh/pool/ThreadPool.hpp:61-77 | after a refused one with nothing open the scope gives it back once |
| Connections.MoveAssignOwns | rukh/include/rukh/db/ScopedTransaction.hpp:45-52 | assigning over a scope keeps ownership if and only if the scope was empty or its transaction had not ended and the job was accepted |
| Connections.RunRollbackOwns | rukh/include/rukh/db/sqlite3/Sqlite3Db.hpp:103-111 | a rollback job keeps ownership if and only if it rolls back what is open |
| ConnectionIO.ConnectionIO.DrainIntoReadBuffer | rukh/include/rukh/net/ConnectionIO.hpp:161-193 | for every fragmentation no unread byte is lost or reordered, and the result says what happened |
| ConnectionIO.ConnectionIO.Read | rukh/include/rukh/net/ConnectionIO.hpp:50-66 | a read after a wake grows the buffer, by at most the size asked for, or the wake was spurious |
| ConnectionIO.ConnectionIO.EraseFromReadBuffer | rukh/include/rukh/net/ConnectionIO.hpp:243-249 | erasing drops exactly the first bytes, and dead space stays at half the buffer |
| Bytes.FindAfterMiss | rukh/include/rukh/http/MultipartParser.hpp:152-154 | after a miss in a window, a hit in the longer one ends beyond the window |
| Hex.RoundTrip | rukh/src/http/HttpStreamResponse.cpp:122-124 | reading the hexadecimal form of a number, whatever follows its digits, gives the number |
| ChunkDecoder.ChunkDecoder.ReadSome | rukh/include/rukh/http/ChunkDecoder.hpp:31-127 | for every fragmentation and buffer size the bytes delivered are those the whole-body decoder yields next; errors are that decoder's errors |
| ChunkDecoder.ChunkDecoder.ReadChunkSize | rukh/include/rukh/http/ChunkDecoder.hpp:40-71 | one step of the whole-body decoder at a size line, or its error |
| ChunkDecoder.ChunkDecoder.ReadChunkBody | rukh/include/rukh/http/ChunkDecoder.hpp:73-87 | some of the chunk's bytes, in order, and no more than there is room for |
| ChunkDecoder.ChunkDecoder.ReadChunkCrlf | rukh/include/rukh/http/ChunkDecoder.hpp:89-99 | one step of the whole-body decoder after a chunk, or its error |
| ChunkDecoder.ChunkDecoder.ReadTrailer | rukh/include/rukh/http/ChunkDecoder.hpp:101-119 | what is taken as the trailer section, given how much was buffered |
| ChunkDecoder.ReadToEnd | rukh/include/rukh/http/ChunkDecoder.hpp:31-127 | a handler that reads to the end with any non-empty buffers sees exactly the payload, and never anything but a beginning of it; the bytes buffered afterwards tell which branch the trailer section took |
| ChunkDecoder.TrailerExact | rukh/include/rukh/http/ChunkDecoder.hpp:101-119 | the trailer section is read as section 7.1 of RFC 9112 has it if and only if it is not empty or its two bytes were buffered |
| ChunkDecoder.DecodeTake | rukh/include/rukh/http/ChunkDecoder.hpp:73-87 | taking part of a chunk leaves a state that decodes the rest |
| ChunkDecoder.WriteBuffer.SerializeChunkInto | rukh/src/http/HttpStreamResponse.cpp:121-143 | the encoded chunk is appended if and only if it fits the write buffer; otherwise nothing changes |
| ChunkDecoder.DecodeOneChunk | rukh/src/http/HttpStreamResponse.cpp:121-143 | decoding an encoded chunk gives the chunk and the next size line |
| ChunkDecoder.EncodeDecode | rukh/src/http/HttpStreamResponse.cpp:121-143 | decoding what the server encodes gives the concatenation of the chunks, whatever follows |
| ChunkDecoder.ReceiveEncoded | rukh/include/rukh/http/ChunkDecoder.hpp:31-127 | a body as the server encodes it, received over a connection in any fragments: the payload is right, enough reads finish it, and exactly the bytes after it stay unread if and only if its last two bytes were buffered in time, as many as the returned count says |
| HttpConnection.ReadHeader | rukh/include/rukh/http/HttpConnection.hpp:98-163 | the header block is what precedes the first blank line after leading empty lines, for every fragmentation, with at most 1023 bytes read ahead |
| HttpConnection.BodyStream.ReadContent | rukh/include/rukh/http/HttpConnection.hpp:298-327 | the next bytes in order; more than is due only through the uncapped first branch, which the read-ahead bound rules out for 4096-byte buffers |
| HttpConnection.BodyStream.Read | rukh/include/rukh/http/BodyStream.hpp:37-45 | bytes, remainder and exhaustion agree, with the exact condition for taking more than is due and the wrapped remainder it leaves |
| HttpConnection.BodyStream.Drain | rukh/include/rukh/http/HttpConnection.hpp:329-345 | exactly the rest of the body is discarded |
| HttpConnection.HandleBody | rukh/include/rukh/http/HttpConnection.hpp:298-345 | after any number of reads and the drain, exactly the declared bytes are consumed, unless and only unless a read was cut short |
| HttpConnection.ServeRequests | rukh/include/rukh/http/HttpConnection.hpp:90-345 | the pipelined requests served are those of the byte stream, in order, and the bytes after them stay unread |
| Multipart.SplitRender | rukh/include/rukh/http/MultipartParser.hpp:266-440 | splitting what a client rendered gives back its parts, for any contents without the boundary (section 5.1.1 of RFC 2046) |
| Multipart.MultipartParser.Go | rukh/include/rukh/http/MultipartParser.hpp:266-443 | for every fragmentation each handler gets exactly its part's bytes in order; the parse succeeds if and only if the parts are within the limits and no first window of a part is shorter than boundary + 2, however little later reads bring |
| Multipart.MultipartParser.ReadParts | rukh/include/rukh/http/MultipartParser.hpp:291-443 | the same for the parts behind the first boundary |
| MultipartBody.ReadForParser | rukh/include/rukh/http/HttpConnection.hpp:298-327 | a parser's read of a body of declared length hands over the body's next bytes, or takes bytes of the next request, with the exact condition for that |
| Multipart.PartReader.ReadAndDo | rukh/include/rukh/http/MultipartParser.hpp:91-118 | what is passed on is exactly what precedes the delimiter, which is consumed with the two bytes after it; how it ends, wrap, limit, delimiter or never, is determined by the first window and the bytes |
| Multipart.PartReader.DrainTillBoundary | rukh/include/rukh/http/MultipartParser.hpp:120-142 | the same search and the same endings for a part nobody wants |
| Multipart.PartReader.FindBoundary | rukh/include/rukh/http/MultipartParser.hpp:150-166 | the delimiter of the window, if it is complete |
| Multipart.PartReader.SearchWindow | rukh/include/rukh/http/MultipartParser.hpp:94-116 | holding back boundary + 2 bytes is enough: a hit in a window is the body's delimiter, after a miss the delimiter ends beyond the window |
| Multipart.MultipartParser.ReadPartHeader | rukh/include/rukh/http/MultipartParser.hpp:296-318 | a header block is read if and only if it ends within the 4 KB buffer |
| Multipart.MultipartParser.ReadPart | rukh/include/rukh/http/MultipartParser.hpp:292-439 | one part as the whole-body split has it, and the exact outcome for a short first window, a part over its limit and a part without any delimiter |
| Multipart.MultipartParser.ReadInitialBoundary | rukh/include/rukh/http/MultipartParser.hpp:271-286 | accepted if and only if the body begins with the delimiter |
| Multipart.BufferedReader.Read | rukh/include/rukh/http/MultipartParser.hpp:65-70 | the window grows by what the body gives, nothing is lost |
| Multipart.BufferedReader.ConsumeBytes | rukh/include/rukh/http/MultipartParser.hpp:72-76 | the in-place move drops exactly the first bytes |
| Placeholders.BindSlot | rukh/include/rukh/orm/SelectQuery.hpp:453-558 | the i-th placeholder of a statement is the slot of the i-th value |
| Placeholders.Aligned | rukh/include/rukh/orm/SelectQuery.hpp:453-558 | pieces whose placeholders match their values, concatenated as text and as values, bind every value to its own piece |
| Predicate.SimplifiedJoin | rukh/include/rukh/orm/Predicate.hpp:195-225 | the simplifications of `&&` and `\|\|` keep the three-valued meaning, and constants never stay inside a larger predicate |
| Predicate.WhereClause.Where | rukh/include/rukh/orm/WhereClause.hpp:11-17 | on every row the accumulated predicate equals the unsimplified fold of all calls |
| Predicate.WhereClause.AndWhere | rukh/include/rukh/orm/WhereClause.hpp:19 | the same as `where` |
| Predicate.WhereClause.OrWhere | rukh/include/rukh/orm/WhereClause.hpp:21-27 | the same for the connective OR |
| PredicateSql.Resolve | rukh/include/rukh/orm/Predicate.hpp:577-695 | text and values are those of the tree's pieces; it throws if and only if a BETWEEN has not two values |
| PredicateSql.ResolveLeaf | rukh/include/rukh/orm/Predicate.hpp:580-640 | the same for a comparison |
| PredicateSql.PredicateAligned | rukh/include/rukh/orm/Predicate.hpp:577-695 | for every tree placeholders and values agree in number, and each value lands in the comparison it was given for |
| PredicateSql.ReadsBack | rukh/include/rukh/orm/Predicate.hpp:577-695 | a left-to-right reader gets the same tree back, whatever follows, although BETWEEN brings an AND of its own |
| SelectQuery.Build | rukh/include/rukh/orm/SelectQuery.hpp:453-558 | text and values of the whole tree; nothing if and only if a clause or predicate is refused |
| SelectQuery.BuildSet | rukh/include/rukh/orm/SelectQuery.hpp:467-482 | operands that are set operations become named subqueries, and their values replace those collected |
| SelectQuery.QueryAligned | rukh/include/rukh/orm/SelectQuery.hpp:453-558 | the text has exactly as many more placeholders as set operations carry CTE values; counts agree if and only if none does, and then every value is bound where it belongs |
| SelectQuery.ParamsLost | rukh/include/rukh/orm/SelectQuery.hpp:480 | as many values are missing as CTEs on set operations have |
| SelectQuery.ParamsGiven | rukh/include/rukh/orm/SelectQuery.hpp:480 | the values handed over are, in order, those meant for the query without the CTEs of its set operations |
| SelectQuery.Builder.WithCte | rukh/include/rukh/orm/SelectQuery.hpp:117-134 | when it refuses, what it leaves behind, at most one recursive CTE, and soundness of the result if and only if the inner query lost nothing |
| SelectQuery.SubQueryPredicates | rukh/include/rukh/orm/Predicate.hpp:132-160 | a query as an operand is sound if and only if it lost nothing |
| Relations.DecidedAt | rukh/include/rukh/orm/ActiveRecord.hpp:877-903 | the first through field of either side on which two objects differ decides the order of their keys |
| Relations.IsSelfSmallerThan | rukh/include/rukh/orm/ActiveRecord.hpp:877-903 | the pass over both sides' fields is the lexicographic order of keys |
| Relations.InOrder | rukh/include/rukh/orm/ActiveRecord.hpp:229-248 | the comparison inside a through object is the same order |
| Relations.AddMeans | rukh/include/rukh/orm/ActiveRecord.hpp:293-391 | in each mode adding keeps the table's shape and adds the unordered pair, once, whichever order |
| Relations.UpsertMeans | rukh/include/rukh/orm/ActiveRecord.hpp:201-291 | in each mode storing a through object keeps the shape and sets the pair's extra fields, however it was stored |
| Relations.RemoveMeans | rukh/include/rukh/orm/ActiveRecord.hpp:393-451 | in each mode removing keeps the shape and removes the pair, however it was stored |
| Relations.ManyRelatedSymmetric | rukh/include/rukh/orm/ActiveRecord.hpp:453-510 | with both rows stored, b is related to a if and only if a is to b, and if and only if the pair is in the relation |
| Relations.ManyToMany.AddRelation | rukh/include/rukh/orm/ActiveRecord.hpp:293-391 | the method does that, and counts the new rows |
| Relations.ManyToMany.UpsertRelationThrough | rukh/include/rukh/orm/ActiveRecord.hpp:201-291 | the method does that |
| Relations.ManyToMany.RemoveRelation | rukh/include/rukh/orm/ActiveRecord.hpp:393-451 | the method does that, and counts the rows removed |
| Ranges.ValidateAndCleanRanges | rukh/include/rukh/http/httpUtils.hpp:147-188 | accepted if and only if every range asks for some byte; the result is in bounds, in order, with gaps, and covers exactly the bytes asked for; an absent end reads as the last byte whatever is in its place |
| Ranges.CleanRange | rukh/include/rukh/http/httpUtils.hpp:151-170 | one range, with the wrap of `fileSize - 1` for an empty file |
| Ranges.MergeSorted | rukh/include/rukh/http/httpUtils.hpp:174-185 | touching and overlapping neighbours become one, and no byte is gained or lost |
| ByteRanges.AnnouncedLength | rukh/src/http/middleware/StaticMiddleware.cpp:329-342 | for every file the body is three bytes shorter than announced for each range the cuts leave with one byte, and longer by the digits missed |
| ByteRanges.AnnouncedExactly | rukh/src/http/middleware/StaticMiddleware.cpp:329-342 | below 2^31 bytes the lengths are equal if and only if there is no such range |
| ByteRanges.MultipartContentLength | rukh/src/http/middleware/StaticMiddleware.cpp:322-347 | exactly when the content length of an answer with several ranges is that of its body, with If-Range matching and not |
| ByteRanges.TotalSize | rukh/src/http/middleware/StaticMiddleware.cpp:322-347 | the announced length of all three kinds of answer |
| ByteRanges.DigitCountIsLength | rukh/include/rukh/utils.hpp:31-53 | below 2^31 `digit_count` is the length of the decimal form |
| ByteRanges.NextBlock.Next | rukh/src/http/middleware/StaticMiddleware.cpp:384-430 | each call emits the next block of the body, with progress; the call after the closing delimiter uses an index past the list and never reports the end |
| ByteRanges.Emit | rukh/src/http/middleware/StaticMiddleware.cpp:384-430 | up to the closing delimiter exactly the body is emitted, and then the next call has no defined outcome |
| Router.BacktrackFindsBest | rukh/src/http/Router.cpp:141-167 | for every trie and path the search finds the matching shape that comes before all others segment by segment, and nothing only if none matches |
| Router.BacktrackIsLinear | rukh/src/http/Router.cpp:141-167 | the search equals a linear one through any list of the trie's shapes |
| Router.OneBefore | rukh/src/http/Router.cpp:150-164 | of two shapes that match a path exactly one comes first |
| Router.InsertedAt | rukh/src/http/Router.cpp:205-231 | adding a pattern changes its own node, makes its prefixes, and leaves everything else |
| Router.RecordedMeans | rukh/src/http/Router.cpp:228-231 | a node has the handlers of its routes by method, and the pattern added last |
| Router.ValidatePattern | rukh/src/http/Router.cpp:245-274 | accepted if and only if no segment is empty, wildcards come last, and parameter names are well formed and distinct |
| Router.Router.AddRoute | rukh/src/http/Router.cpp:199-243 | refused with nothing changed if and only if the pattern is bad or its shape and method are taken |
| Router.Router.FindMatchingRouteEntry | rukh/src/http/Router.cpp:136-139 | the first match among all registered patterns and their prefixes, nothing if it is no whole route; its stored pattern fits the path |
| Router.ParametersOfRoute | rukh/src/http/Router.cpp:61 | a route's handler gets its own pattern's captures, and its own names, if and only if the route added last for its shape has the same pattern, and the same names |
| Router.SharedNode | rukh/src/http/Router.cpp:228-231 | GET of `/<id>` and POST of `/<name>`: the first gets the parameter `name` |
| Router.GetPathParams | rukh/src/http/Router.cpp:169-197 | on a pattern that fits, no segment past the path is used, and the captures are those of the pattern |
| Router.CapturesFillPattern | rukh/src/http/Router.cpp:169-197 | the undecoded captures put back into the pattern give the path |

## Left out

- Sockets, TLS, epoll, io_uring, sendfile, file reads and SQLite: environment choices with the stated assumptions.
- The write side of `ConnectionIO`, and the deadlines a read is given: time is only an order of events.
- HttpConnection.ServeRequests: requires that no wake-up is spurious; with spurious ones `HandleBody` says exactly when framing is kept. Header parsing is the argument `lengthOf`.
- Multipart.MultipartParser.Go: header fields, part names and the choice of a handler are the argument `handling`; a wake-up that finds nothing ends a body early, as `MultipartBody.ReadForParser` says, and is not part of `BodySource`.
- `readAll` and `streamUsing` of `BodyStream`: loops of 4096-byte reads, covered by `HandleBody`'s reads.
- Scheduler.SubmitsKeeps: assumes that the result cell lies in the awaiting coroutine's frame, so that no outstanding operation shares it; the 64-bit counters of operations do not wrap.
- `submitSplice`, with queues of its own that work like the file operations', and the pipes that use it.
- `wakeMeIn`: its bucket is not cleared after firing.
- Graceful shutdown of the loop, and what resumed coroutines do between two steps: any of the steps, in any order.
- Coroutine frames beyond being destroyed once; memory orders weaker than sequential consistency.
- PoolJob.ContinuesOnce: a job submitted on a thread without an executor is never awaited here.
- Connections.EveryRun: SQL run by a handler inside a transaction neither begins nor ends one by itself.
- SelectQuery: models are a table name and a column list; the template machinery, hydration and `count`'s wrapper are not part of this model. The overload of `withCte` for a rendered CTE is left out. The field constructor with functions for BETWEEN leaves the values out and always throws when rendered.
- PredicateSql.PredicateAligned: column and function names hold no placeholder, and raw text holds one for each of its values.
- The pointers of the router's trie: nodes are values, and adding a route rebuilds the path to it. Splitting and normalising paths come before the model; percent-decoding is the argument `decode`.
- Router.Router.AddRoute: the `allow` header text and the middleware chain are not part of this model.
- Relations: DB_DOUBLE_ROW leaves mirroring to triggers in the database, and NONE has nothing to keep; `manyRelated` for the two single-row modes repeats one side in its second predicate and is left out.
- Relations.IsSelfSmallerThan: requires that both sides list the model's columns in the same order, interleaved in any way.
- ByteRanges.Emit: the generator's file reads return what they ask for.
- Compression, caching, cookies, sessions, CORS, dates, logging, configuration, JSON and the demo application.
