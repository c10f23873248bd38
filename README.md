# Redis cache facade — a Dafny model

This project models the core of the `cache-utils` Redis cache facade,
`IgniteCacheRedisImpl`, together with its two fluent request builders,
`PutStringRequest` and `GetScoredStringsRequest`. The facade:

- turns logical keys into physical keys `<namespace>:<key>`;
- validates each request before touching the store or the batch pipeline;
- dispatches puts to a plain set, a set with ttl or a compare-and-set;
- reads ranges of scored sorted sets and string-keyed maps;
- registers asynchronous writes with a shared batch pipeline. The pipeline uses a bounded retry loop for the "batch already executed" race, a counter and a batch swap;
- completes each caller's future from the store's answer;
- collects key/value pairs through a cursor-driven regex scan.

Modules, leaves first:

| file | module | what it holds |
|---|---|---|
| `types.dfy` | `CacheTypes` | `Option`, `Result`, values, the exceptions as a `Failure` datatype, future states |
| `java.dfy` | `JavaSemantics` | Java's 32-bit `int` increment with wrap-around, the truncating `%`, `String.contains`, `String.trim` |
| `namespace.dfy` | `KeyNamespace` | `addNamespace`, the trimmed namespace property, the scan pattern |
| `requests.dfy` | `Requests` | the two builders as classes whose setters assign one field and return `this`; the other request types folded into datatypes |
| `store.dfy` | `Store` | the store as an abstract state: buckets, score-ordered sorted sets and hashes |
| `futures.dfy` | `Futures` | batched operations, what the store does with each, and how each future is completed |
| `pipeline.dfy` | `BatchPipeline` | `performBatchOperation`, `advanceBatchState`, `startBatch` as a class, with their specification and invariants |
| `scan.dfy` | `RegexScan` | `getKeyValuePairsForRegex`'s loops and their specification |
| `facade.dfy` | `Cache` | the facade class and the pure specification of each operation |

The outside world is passed in as parameters:

- **Registration attempts.** Each registration attempt against the current batch either registers or throws. The outcomes of the attempts of one call are a sequence of `Attempt` values with at least five entries. This is how a concurrent batch swap by another thread shows up.
- **Scan script answers.** The answers of the server-side scan script are a sequence of `ScriptReply` values whose last one ends the scan.
- **Value decoder.** The value decoder is a total function in which `None` stands for an `IOException`.
- **Store.** The store is a value held by the facade. A retired batch affects the store only when it executes. `Futures.ExecuteBatch` states what executing it does, at whatever time that happens.

Three behaviours of the code shape the model:

- **Duplicate keys across scan answers.** Every decoded pair is put into a `HashMap`, so a later duplicate key overwrites an earlier one, within one answer and across answers (`RegexScan.LastPairWins`, `RegexScan.ScanLastPairWins`).
- **Exhausted retries.** When all five registration attempts fail, the async method itself throws, before any future is returned (`BatchPipeline.RetryVerdict`).
- **Store error replies.** Futures complete only in `thenAccept` callbacks, so an operation the store answers with an error reply leaves its future pending (`Futures.Resolve`).

## Model

| member | source | states |
|---|---|---|
| JavaSemantics.IncrementInt | src/main/java/com/harman/ignite/cache/redis/IgniteCacheRedisImpl.java:526 | the counter increment stays a Java int, equals the successor modulo 2^32, and is the plain successor below Integer.MAX_VALUE |
| JavaSemantics.JavaRem | src/main/java/com/harman/ignite/cache/redis/IgniteCacheRedisImpl.java:527 | Java's `%`: differs from the dividend by a multiple of the divisor, is smaller than the divisor in absolute value and signed like the dividend, and is zero exactly when the divisor divides the dividend |
| JavaSemantics.RemCongruent | src/main/java/com/harman/ignite/cache/redis/IgniteCacheRedisImpl.java:527 | the truncating remainder differs from the dividend by a multiple of the divisor |
| JavaSemantics.ContainsIsSubstring | src/main/java/com/harman/ignite/cache/redis/IgniteCacheRedisImpl.java:504 | the `contains` check holds exactly when the race message occurs at some index of the exception message |
| JavaSemantics.Trim | src/main/java/com/harman/ignite/cache/redis/IgniteCacheRedisImpl.java:156 | the trimmed namespace is a substring of the property surrounded only by characters at or below U+0020, and neither starts nor ends with one |
| KeyNamespace.NamespaceFromConfig | src/main/java/com/harman/ignite/cache/redis/IgniteCacheRedisImpl.java:156-157 | the namespace is the property value trimmed: never longer, no blank at either end |
| KeyNamespace.AddNamespace | src/main/java/com/harman/ignite/cache/redis/IgniteCacheRedisImpl.java:478-486 | with a non-empty namespace and the flag set, the result is namespace, `:` and key; otherwise the key unchanged |
| KeyNamespace.NamespaceRoundTrip | src/main/java/com/harman/ignite/cache/redis/IgniteCacheRedisImpl.java:478-486 | stripping `<namespace>:` from a namespaced key gives back the logical key |
| KeyNamespace.NamespaceInjective | src/main/java/com/harman/ignite/cache/redis/IgniteCacheRedisImpl.java:478-486 | two logical keys with the same physical key under the same setting are equal |
| KeyNamespace.NamespaceTwiceDiffers | src/main/java/com/harman/ignite/cache/redis/IgniteCacheRedisImpl.java:478-486 | namespacing an already namespaced key changes it again, so it must be applied exactly once |
| KeyNamespace.NamespaceExample | src/main/java/com/harman/ignite/cache/redis/IgniteCacheRedisImpl.java:478-486 | "k" becomes "ns:k" with the flag, stays "k" without it or with an empty namespace |
| KeyNamespace.AddNamespaceNullable | src/main/java/com/harman/ignite/cache/redis/IgniteCacheRedisImpl.java:203-205 | a null key under an active namespace becomes `<namespace>:null`, and stays null otherwise; a present key is namespaced as usual |
| KeyNamespace.ScanPattern | src/main/java/com/harman/ignite/cache/redis/IgniteCacheRedisImpl.java:389-392 | the scan pattern is namespaced when the optional flag is absent or true, and left as given when it is false |
| Requests.PutStringRequest.constructor | src/main/java/com/harman/ignite/cache/PutStringRequest.java:39-59 | a fresh put request has no key, value, expected value or mutation id, the ttl sentinel -1 and namespacing enabled |
| Requests.PutStringRequest.WithKey | src/main/java/com/harman/ignite/cache/PutStringRequest.java:61-64 | assigns the key only and returns the same object |
| Requests.PutStringRequest.WithValue | src/main/java/com/harman/ignite/cache/PutStringRequest.java:66-69 | assigns the value only and returns the same object |
| Requests.PutStringRequest.WithTtlMs | src/main/java/com/harman/ignite/cache/PutStringRequest.java:77-80 | assigns the ttl only and returns the same object |
| Requests.PutStringRequest.IfCurrentMatches | src/main/java/com/harman/ignite/cache/PutStringRequest.java:89-92 | assigns the expected value only and returns the same object |
| Requests.PutStringRequest.WithMutationId | src/main/java/com/harman/ignite/cache/PutStringRequest.java:103-106 | assigns the mutation id only (null accepted) and returns the same object |
| Requests.PutStringRequest.WithNamespaceEnabled | src/main/java/com/harman/ignite/cache/PutStringRequest.java:108-111 | assigns the namespace flag only and returns the same object |
| Requests.GetScoredStringsRequest.constructor | src/main/java/com/harman/ignite/cache/GetScoredStringsRequest.java:34-50 | a fresh range request has no key, indices 0 and 0, forward order and namespacing enabled |
| Requests.GetScoredStringsRequest.WithKey | src/main/java/com/harman/ignite/cache/GetScoredStringsRequest.java:52-55 | assigns the key only and returns the same object |
| Requests.GetScoredStringsRequest.WithStartIndex | src/main/java/com/harman/ignite/cache/GetScoredStringsRequest.java:57-60 | assigns the start index only and returns the same object |
| Requests.GetScoredStringsRequest.WithEndIndex | src/main/java/com/harman/ignite/cache/GetScoredStringsRequest.java:62-65 | assigns the end index only and returns the same object |
| Requests.GetScoredStringsRequest.FromReverseIndex | src/main/java/com/harman/ignite/cache/GetScoredStringsRequest.java:67-70 | sets descending order only and returns the same object |
| Requests.GetScoredStringsRequest.WithNamespaceEnabled | src/main/java/com/harman/ignite/cache/GetScoredStringsRequest.java:72-75 | assigns the namespace flag only and returns the same object |
| Requests.BuildCompareAndSet | src/main/java/com/harman/ignite/cache/PutStringRequest.java:57-92 | key, expected value and value set on a fresh request give a compare-and-set request that keeps the ttl sentinel and the namespace flag |
| Requests.BuildReversedRange | src/main/java/com/harman/ignite/cache/GetScoredStringsRequest.java:48-75 | the chain fromReverseIndex, withKey, withStartIndex, withEndIndex, withNamespaceEnabled(false) on a fresh request gives exactly those fields, still reversed |
| Requests.ApplySetters | src/main/java/com/harman/ignite/cache/GetScoredStringsRequest.java:52-75 | any chain of setter calls leaves the request with the fields the chain describes, applied left to right |
| Requests.ReversedIffReverseCalled | src/main/java/com/harman/ignite/cache/GetScoredStringsRequest.java:67-70 | after any chain of setter calls a request is reversed exactly when it was reversed before or the chain calls fromReverseIndex: no setter switches back |
| Store.Get | src/main/java/com/harman/ignite/cache/redis/IgniteCacheRedisImpl.java:168-169 | a bucket read finds a value exactly when the key holds a bucket |
| Store.Set | src/main/java/com/harman/ignite/cache/redis/IgniteCacheRedisImpl.java:186 | a plain set makes the key read back the value; every other key, every sorted set and every hash is unchanged |
| Store.SetWithTtl | src/main/java/com/harman/ignite/cache/redis/IgniteCacheRedisImpl.java:188 | a set with ttl is accepted exactly when the ttl is positive, then stores value and ttl and changes no other key, sorted set or hash; otherwise the store is unchanged |
| Store.CompareAndSet | src/main/java/com/harman/ignite/cache/redis/IgniteCacheRedisImpl.java:191 | answers true exactly when the current value equals the expected one, and writes only then and only at that key |
| Store.DeleteBucket | src/main/java/com/harman/ignite/cache/redis/IgniteCacheRedisImpl.java:353-354 | the key holds nothing afterwards, every other bucket is unchanged, sorted sets and hashes are untouched, and the answer says whether something was removed |
| Store.ZAdd | src/main/java/com/harman/ignite/cache/redis/IgniteCacheRedisImpl.java:228-229 | answers true exactly when the member was new; afterwards the set holds the other entries and the member once, with the new score, and stays in ascending score order; other sorted sets, buckets and hashes untouched |
| Store.SortedCons | src/main/java/com/harman/ignite/cache/redis/IgniteCacheRedisImpl.java:228-229 | a sorted set with a head entry is in score order exactly when its tail is and no tail entry scores below the head |
| Store.RemoveKeepsOthers | src/main/java/com/harman/ignite/cache/redis/IgniteCacheRedisImpl.java:228-229 | dropping a member's old entry keeps every entry of the other members and keeps score order |
| Store.InsertKeepsSorted | src/main/java/com/harman/ignite/cache/redis/IgniteCacheRedisImpl.java:228-229 | inserting an entry by score keeps score order |
| Store.RangeByRank | src/main/java/com/harman/ignite/cache/redis/IgniteCacheRedisImpl.java:237-244 | a rank range never returns more entries than the set holds, and only entries of the set |
| Store.Reverse | src/main/java/com/harman/ignite/cache/redis/IgniteCacheRedisImpl.java:238 | the descending order lists the entries back to front |
| Store.HashPutAll | src/main/java/com/harman/ignite/cache/redis/IgniteCacheRedisImpl.java:440-441 | the hash gets the union of its fields and the new ones, new values winning, old values kept elsewhere; other hashes, buckets and sorted sets unchanged |
| Store.HashGetAll | src/main/java/com/harman/ignite/cache/redis/IgniteCacheRedisImpl.java:455 | the answer holds exactly the requested fields that exist, with their values |
| Store.HashRemoveFields | src/main/java/com/harman/ignite/cache/redis/IgniteCacheRedisImpl.java:470 | the listed fields are gone, the other fields keep their values, and other hashes, buckets and sorted sets are unchanged |
| Store.HashDelete | src/main/java/com/harman/ignite/cache/redis/IgniteCacheRedisImpl.java:473 | the hash at the key is empty; every other hash, the buckets and the sorted sets are unchanged |
| Futures.CompleteFuture | src/main/java/com/harman/ignite/cache/redis/IgniteCacheRedisImpl.java:544-550 | success completes the future with the mutation id, failure completes it exceptionally with "Redis batch update failed" |
| Futures.Apply | src/main/java/com/harman/ignite/cache/redis/IgniteCacheRedisImpl.java:279-293 | plain sets, deletes, compare-and-sets and sorted-set adds are always acknowledged by the store |
| Futures.Resolve | src/main/java/com/harman/ignite/cache/redis/IgniteCacheRedisImpl.java:284-292 | a future stays pending exactly on an error reply, completes with the op's mutation id otherwise, and fails exactly for a false compare-and-set or sorted-set add |
| Futures.ExecuteBatch | src/main/java/com/harman/ignite/cache/redis/IgniteCacheRedisImpl.java:536 | executing a batch gives one future per operation |
| Futures.FutureOfOp | src/main/java/com/harman/ignite/cache/redis/IgniteCacheRedisImpl.java:536 | the i-th future is decided by the store as the operations before it in the batch left it |
| Futures.PlainWriteCompletes | src/main/java/com/harman/ignite/cache/redis/IgniteCacheRedisImpl.java:284-289 | plain sets, positive-ttl sets and deletes complete with their mutation id whatever the store held |
| Futures.CasFuture | src/main/java/com/harman/ignite/cache/redis/IgniteCacheRedisImpl.java:291-292 | a batched compare-and-set completes with its mutation id exactly when the value before it equals the expected one, and fails otherwise |
| Futures.ZAddFuture | src/main/java/com/harman/ignite/cache/redis/IgniteCacheRedisImpl.java:330-331 | a batched sorted-set add completes with its mutation id exactly when the member was new, and fails otherwise |
| Futures.CasExample | src/main/java/com/harman/ignite/cache/redis/IgniteCacheRedisImpl.java:291-292 | expecting "old" while "cur" is stored fails; expecting "cur" succeeds with the mutation id |
| Futures.NullMutationIdExample | src/test/java/com/harman/ignite/cache/redis/IgniteCacheRedisImplUnitTest.java:517-534 | a plain put queued with a null mutation id completes with null |
| BatchPipeline.Classify | src/main/java/com/harman/ignite/cache/redis/IgniteCacheRedisImpl.java:503-520 | retried exactly for a NullPointerException or an IllegalStateException whose message contains the race text; a message-less IllegalStateException becomes a NullPointerException; anything else passes through unchanged |
| BatchPipeline.RetryVerdict | src/main/java/com/harman/ignite/cache/redis/IgniteCacheRedisImpl.java:498-521 | the retry loop ends after at least one and at most five attempts |
| BatchPipeline.SucceededExactly | src/main/java/com/harman/ignite/cache/redis/IgniteCacheRedisImpl.java:499-502 | registration succeeds on attempt k exactly when attempt k registers and every earlier attempt failed in a retryable way |
| BatchPipeline.RetriesExhaust | src/main/java/com/harman/ignite/cache/redis/IgniteCacheRedisImpl.java:507-510 | five retryable failures end in "Batch operation failed despite trying 5 times" after five attempts |
| BatchPipeline.RethrownImmediately | src/main/java/com/harman/ignite/cache/redis/IgniteCacheRedisImpl.java:504-506 | a non-retryable failure is thrown right after the attempt that raised it |
| BatchPipeline.FourRacesThenSuccess | src/main/java/com/harman/ignite/cache/redis/IgniteCacheRedisImpl.java:499-510 | four races followed by a registration succeed on the fifth attempt |
| BatchPipeline.RaceMessageIsRetried | src/main/java/com/harman/ignite/cache/redis/IgniteCacheRedisImpl.java:504 | the store client's "Batch already has been executed!" is recognised as the race |
| BatchPipeline.UnexpectedStateIsRethrown | src/main/java/com/harman/ignite/cache/redis/IgniteCacheRedisImpl.java:504-505 | an IllegalStateException with an unrelated message is rethrown as it is |
| BatchPipeline.RaceOnEveryAttempt | src/test/java/com/harman/ignite/cache/redis/IgniteCacheRedisImplUnitTest.java:740-767 | the race on every attempt gives five attempts and the exhausted-retries error |
| BatchPipeline.UnexpectedOnFirstAttempt | src/test/java/com/harman/ignite/cache/redis/IgniteCacheRedisImplUnitTest.java:770-795 | an unexpected IllegalStateException is thrown after exactly one attempt with its own message |
| BatchPipeline.Advance | src/main/java/com/harman/ignite/cache/redis/IgniteCacheRedisImpl.java:525-542 | from any state: the counter is incremented as a Java int; the batch is retired (appended to the executed batches, a fresh one current) exactly when the new count is a multiple of the batch size, and otherwise batches are untouched; the counter is reset to 0 only when it then equals the batch size; a batch size of 0 throws after the increment; no registered operation is lost or duplicated |
| BatchPipeline.Perform | src/main/java/com/harman/ignite/cache/redis/IgniteCacheRedisImpl.java:498-523 | when the retry loop throws, counter, current batch and executed batches are untouched; after a registration the counter is incremented or reset to 0, and a batch size of 0 then throws with the operation already registered; the batch size never changes |
| BatchPipeline.PerformConserves | src/main/java/com/harman/ignite/cache/redis/IgniteCacheRedisImpl.java:498-542 | the executed batches and the current one gain the operation exactly when its registration succeeded, appended last |
| BatchPipeline.AdvanceAfterRegistration | src/main/java/com/harman/ignite/cache/redis/IgniteCacheRedisImpl.java:525-542 | after a registration from the steady state, the current batch is retired exactly when the count reaches the batch size; the counter is reset by the compare-and-set from the batch size |
| BatchPipeline.PerformKeepsSteady | src/main/java/com/harman/ignite/cache/redis/IgniteCacheRedisImpl.java:132-144 | single-threaded, with a fixed batch size: the counter stays below the batch size and equals the current batch's length, every executed batch holds exactly batchSize operations, the counter becomes (count + 1) mod batchSize after a success, and a throw leaves the state unchanged |
| BatchPipeline.FreshIsSteady | src/main/java/com/harman/ignite/cache/redis/IgniteCacheRedisImpl.java:601-610 | the pipeline as post-construction leaves it satisfies the steady invariant |
| BatchPipeline.RunAllConserves | src/main/java/com/harman/ignite/cache/redis/IgniteCacheRedisImpl.java:498-542 | over any run of calls, executed batches then the current batch hold exactly the successfully registered operations, once each and in call order |
| BatchPipeline.RunAllKeepsSteady | src/main/java/com/harman/ignite/cache/redis/IgniteCacheRedisImpl.java:132-144 | over any run of calls the steady invariant holds, so no executed batch holds fewer than batchSize operations |
| BatchPipeline.Pipeline.constructor | src/main/java/com/harman/ignite/cache/redis/IgniteCacheRedisImpl.java:601-610 | post-construction leaves an empty current batch, counter 0, nothing executed |
| BatchPipeline.Pipeline.SetBatchSize | src/main/java/com/harman/ignite/cache/redis/IgniteCacheRedisImpl.java:378-380 | only the batch size changes |
| BatchPipeline.Pipeline.StartBatch | src/main/java/com/harman/ignite/cache/redis/IgniteCacheRedisImpl.java:604-610 | a fresh empty batch becomes current; the counter becomes 0 only if it equalled the batch size |
| BatchPipeline.Pipeline.AdvanceBatchState | src/main/java/com/harman/ignite/cache/redis/IgniteCacheRedisImpl.java:525-542 | the fields end as the advance specification says |
| BatchPipeline.Pipeline.PerformBatchOperation | src/main/java/com/harman/ignite/cache/redis/IgniteCacheRedisImpl.java:498-523 | the retry loop and the advance leave the fields and answer as the call specification says, after as many attempts as the retry verdict counts |
| RegexScan.RaisedScanLimit | src/main/java/com/harman/ignite/cache/redis/IgniteCacheRedisImpl.java:393-396 | the scan limit in force is at least 10 and at least the configured one, and is one of the two |
| RegexScan.DecodePairs | src/main/java/com/harman/ignite/cache/redis/IgniteCacheRedisImpl.java:410-424 | the pair loop over one answer computes the pair-decoding specification |
| RegexScan.DecodeFrom | src/main/java/com/harman/ignite/cache/redis/IgniteCacheRedisImpl.java:411-424 | decoding an answer only adds keys to the map collected so far |
| RegexScan.DecodeKeepsEveryKey | src/main/java/com/harman/ignite/cache/redis/IgniteCacheRedisImpl.java:411-418 | every key of a decoded answer is in the map |
| RegexScan.DecodeOnlyKeys | src/main/java/com/harman/ignite/cache/redis/IgniteCacheRedisImpl.java:411-418 | the map holds nothing but earlier keys and keys of the answer |
| RegexScan.UntouchedKey | src/main/java/com/harman/ignite/cache/redis/IgniteCacheRedisImpl.java:418 | a key the answer does not name keeps its value |
| RegexScan.LastPairWins | src/main/java/com/harman/ignite/cache/redis/IgniteCacheRedisImpl.java:418 | a later duplicate key overwrites an earlier one: each key ends with the decoded value of its last pair |
| RegexScan.DecodeFailsIff | src/main/java/com/harman/ignite/cache/redis/IgniteCacheRedisImpl.java:411-423 | decoding an answer fails exactly when a key has no value or some value does not decode |
| RegexScan.Scan | src/main/java/com/harman/ignite/cache/redis/IgniteCacheRedisImpl.java:398-425 | at least one script call; the first sends the starting cursor, each later one the positive cursor answered just before it; a successful scan stops at an answer with cursor 0 or below |
| RegexScan.CallsFollowCons | src/main/java/com/harman/ignite/cache/redis/IgniteCacheRedisImpl.java:398-425 | a call sending the cursor of a reply that goes on, put in front of calls that each send the cursor answered before them, keeps that property |
| RegexScan.ScanRound | src/main/java/com/harman/ignite/cache/redis/IgniteCacheRedisImpl.java:398-425 | a reply that decodes and answers a positive cursor adds its one call in front of the rest of the scan, which goes on from that cursor with the grown map |
| RegexScan.ScanFailsOnLastFetched | src/main/java/com/harman/ignite/cache/redis/IgniteCacheRedisImpl.java:419-423 | a scan fails, returning no map, exactly when the last answer fetched does not decode |
| RegexScan.ScanGoesOnOnlyPastCleanReplies | src/main/java/com/harman/ignite/cache/redis/IgniteCacheRedisImpl.java:399-425 | every answer before the last fetched one decoded |
| RegexScan.ScanKeepsEveryKey | src/main/java/com/harman/ignite/cache/redis/IgniteCacheRedisImpl.java:418 | a successful scan returns every key of every answer it fetched |
| RegexScan.ScanOnlyKeys | src/main/java/com/harman/ignite/cache/redis/IgniteCacheRedisImpl.java:398-425 | a successful scan returns only keys it started with or keys named by an answer it fetched |
| RegexScan.ScanUntouched | src/main/java/com/harman/ignite/cache/redis/IgniteCacheRedisImpl.java:418 | a key no fetched answer names keeps its starting value |
| RegexScan.ScanLastPairWins | src/main/java/com/harman/ignite/cache/redis/IgniteCacheRedisImpl.java:418 | across the whole scan each key ends with the decoded value of its last pair in the last answer naming it |
| RegexScan.TwoCallExample | src/main/java/com/harman/ignite/cache/redis/IgniteCacheRedisImpl.java:398-425 | answers with cursors 5 then 0 give calls with cursors 0 then 5 and all pairs, the later duplicate winning |
| RegexScan.EmptyAnswerExample | src/main/java/com/harman/ignite/cache/redis/IgniteCacheRedisImpl.java:403-409 | an empty first answer ends the scan after one call with an empty map |
| Cache.Validate | src/main/java/com/harman/ignite/cache/redis/IgniteCacheRedisImpl.java:612-661 | a request passes exactly when key and (for writes) value are present; the key is checked first, each with its own message |
| Cache.PutOp | src/main/java/com/harman/ignite/cache/redis/IgniteCacheRedisImpl.java:184-192 | no expected value and ttl -1 give a plain set, no expected value and any other ttl a set with that ttl, an expected value a compare-and-set; key, value and mutation id carried over |
| Cache.PutRequestOp | src/main/java/com/harman/ignite/cache/redis/IgniteCacheRedisImpl.java:275-293 | a put request fails validation exactly when key or value is null, with "key is mandatory" first; otherwise it is the dispatched operation on the physical key |
| Cache.SyncPut | src/main/java/com/harman/ignite/cache/redis/IgniteCacheRedisImpl.java:179-193 | a rejected put leaves the store unchanged and fails with a NullPointerException |
| Cache.PutThenGet | src/main/java/com/harman/ignite/cache/redis/IgniteCacheRedisImpl.java:165-193 | a plain or positive-ttl put succeeds and the key-based read of the same logical key gives the value back |
| Cache.NonPositiveTtlRejected | src/main/java/com/harman/ignite/cache/redis/IgniteCacheRedisImpl.java:185-188 | a ttl that is neither -1 nor positive is sent to the store, which rejects it and changes nothing |
| Cache.CompareAndSetPut | src/main/java/com/harman/ignite/cache/redis/IgniteCacheRedisImpl.java:190-191 | a put with an expected value writes exactly when the stored value matches, and its ttl plays no part |
| Cache.AsyncPutMatchesSync | src/main/java/com/harman/ignite/cache/redis/IgniteCacheRedisImpl.java:274-296 | the operation an async put queues does to the store what the synchronous put does |
| Cache.DefaultPutIsPlainSet | src/main/java/com/harman/ignite/cache/redis/IgniteCacheRedisImpl.java:184-186 | a fresh request with only key and value is a plain set at the namespaced key whose future completes with null |
| Cache.ScoredRequestOp | src/main/java/com/harman/ignite/cache/redis/IgniteCacheRedisImpl.java:322-334 | an add request fails validation exactly when key or value is null, otherwise it is a sorted-set add on the physical key |
| Cache.Values | src/main/java/com/harman/ignite/cache/redis/IgniteCacheRedisImpl.java:238-239 | the projection keeps length and order: the i-th result is the i-th entry's value |
| Cache.RangeRead | src/main/java/com/harman/ignite/cache/redis/IgniteCacheRedisImpl.java:232-246 | a range read fails exactly for a null key; otherwise the reversed flag picks the order and the indices go to the store unchanged |
| Cache.FullRange | src/main/java/com/harman/ignite/cache/redis/IgniteCacheRedisImpl.java:237-244 | ranks 0 to -1 cover the whole sorted set |
| Cache.FullRangeReversed | src/main/java/com/harman/ignite/cache/redis/IgniteCacheRedisImpl.java:237-244 | over the full range the reversed read is the forward read back to front |
| Cache.AddThenRange | src/main/java/com/harman/ignite/cache/redis/IgniteCacheRedisImpl.java:224-246 | after an add, a full-range read of the same request key includes the value |
| Cache.DeleteRequestOp | src/main/java/com/harman/ignite/cache/redis/IgniteCacheRedisImpl.java:364-376 | a delete request fails exactly for a null key, otherwise it deletes the physical key with the request's mutation id |
| Cache.DeleteThenGet | src/main/java/com/harman/ignite/cache/redis/IgniteCacheRedisImpl.java:357-362 | after a delete the key reads nothing and every other key is unchanged |
| Cache.MapRead | src/main/java/com/harman/ignite/cache/redis/IgniteCacheRedisImpl.java:445-460 | a non-empty field set restricts the read to those existing fields; a null or empty one reads the whole map |
| Cache.MapDelete | src/main/java/com/harman/ignite/cache/redis/IgniteCacheRedisImpl.java:462-476 | a non-empty field set removes those fields only; a null or empty one removes the whole map |
| Cache.MapPutThenGet | src/main/java/com/harman/ignite/cache/redis/IgniteCacheRedisImpl.java:433-460 | reading fields just written gives back exactly those entries |
| Cache.MapDeleteThenGet | src/main/java/com/harman/ignite/cache/redis/IgniteCacheRedisImpl.java:445-476 | after a delete, a whole-map read shows none of the deleted fields, and nothing after a whole delete |
| Cache.IgniteCacheRedis.constructor | src/main/java/com/harman/ignite/cache/redis/IgniteCacheRedisImpl.java:109-160 | the namespace is the trimmed property, the scan limit the configured one, and the pipeline starts fresh |
| Cache.IgniteCacheRedis.GetByKey | src/main/java/com/harman/ignite/cache/redis/IgniteCacheRedisImpl.java:165-200 | getString(String) and getEntity(String) both read the bucket at the key, namespaced unconditionally |
| Cache.IgniteCacheRedis.GetString | src/main/java/com/harman/ignite/cache/redis/IgniteCacheRedisImpl.java:172-177 | fails with "key is mandatory" exactly for a null key; otherwise reads the physical key and hands the request back carrying it |
| Cache.IgniteCacheRedis.GetEntity | src/main/java/com/harman/ignite/cache/redis/IgniteCacheRedisImpl.java:202-206 | not validated: the nullable key is namespaced as is and the read fails only when the name stays null |
| Cache.IgniteCacheRedis.GetStringsFromScoredSortedSet | src/main/java/com/harman/ignite/cache/redis/IgniteCacheRedisImpl.java:232-246 | answers the range read, and overwrites the request object's key with the physical key only when validation passed |
| Cache.IgniteCacheRedis.GetEntitiesFromScoredSortedSet | src/main/java/com/harman/ignite/cache/redis/IgniteCacheRedisImpl.java:256-272 | answers the range read and hands the request back with the physical key |
| Cache.IgniteCacheRedis.GetMapOfEntities | src/main/java/com/harman/ignite/cache/redis/IgniteCacheRedisImpl.java:445-460 | fails with the get-map message exactly for a null key; otherwise answers the map read at the physical key |
| Cache.IgniteCacheRedis.PutString | src/main/java/com/harman/ignite/cache/redis/IgniteCacheRedisImpl.java:179-193 | store and answer are those of the synchronous put; the request object carries the physical key afterwards only when validation passed |
| Cache.IgniteCacheRedis.PutEntity | src/main/java/com/harman/ignite/cache/redis/IgniteCacheRedisImpl.java:208-222 | the same put for an entity request |
| Cache.IgniteCacheRedis.AddToScoredSortedSet | src/main/java/com/harman/ignite/cache/redis/IgniteCacheRedisImpl.java:224-254 | for strings and entities alike, a rejected request leaves the store unchanged; otherwise the sorted-set add is applied at the physical key |
| Cache.IgniteCacheRedis.DeleteKey | src/main/java/com/harman/ignite/cache/redis/IgniteCacheRedisImpl.java:350-355 | deletes the bucket at the key, namespaced unconditionally |
| Cache.IgniteCacheRedis.Delete | src/main/java/com/harman/ignite/cache/redis/IgniteCacheRedisImpl.java:357-362 | fails exactly for a null key with the store unchanged; otherwise deletes the physical key |
| Cache.IgniteCacheRedis.PutMapOfEntities | src/main/java/com/harman/ignite/cache/redis/IgniteCacheRedisImpl.java:433-443 | fails with the put-map messages for a null key, then a null map, leaving the store unchanged; otherwise writes all fields into the hash at the physical key |
| Cache.IgniteCacheRedis.DeleteMapOfEntities | src/main/java/com/harman/ignite/cache/redis/IgniteCacheRedisImpl.java:462-476 | fails with the delete-map message exactly for a null key; otherwise applies the map delete at the physical key |
| Cache.IgniteCacheRedis.Enqueue | src/main/java/com/harman/ignite/cache/redis/IgniteCacheRedisImpl.java:498-523 | the pipeline ends as the call specification says; the answer is the queued operation or the thrown failure |
| Cache.IgniteCacheRedis.PutStringAsync | src/main/java/com/harman/ignite/cache/redis/IgniteCacheRedisImpl.java:274-296 | a rejected request leaves batch and counter untouched and makes no attempt; otherwise the dispatched put on the physical key goes through the pipeline |
| Cache.IgniteCacheRedis.PutEntityAsync | src/main/java/com/harman/ignite/cache/redis/IgniteCacheRedisImpl.java:298-320 | the same for an entity request |
| Cache.IgniteCacheRedis.AddToScoredSortedSetAsync | src/main/java/com/harman/ignite/cache/redis/IgniteCacheRedisImpl.java:322-348 | a rejected request leaves the pipeline untouched; otherwise the sorted-set add goes through it |
| Cache.IgniteCacheRedis.DeleteAsync | src/main/java/com/harman/ignite/cache/redis/IgniteCacheRedisImpl.java:364-376 | a rejected request leaves the pipeline untouched; otherwise the delete goes through it |
| Cache.IgniteCacheRedis.SetBatchSize | src/main/java/com/harman/ignite/cache/redis/IgniteCacheRedisImpl.java:378-380 | only the batch size changes; the counter is left alone |
| Cache.IgniteCacheRedis.GetKeyValuePairsForRegex | src/main/java/com/harman/ignite/cache/redis/IgniteCacheRedisImpl.java:385-431 | the scan limit is raised to at least 10 for good, and answer and script calls are those of the scan specification with the namespaced or plain pattern |

## Left out

- Redisson client and topology configuration (`RedisConfig`) and the reflective codec loading and classpath file reading of post-construction: reflection and resource I/O. The decoder is a parameter and the scan script's text is not modelled.
- The health monitor (`isHealthy`, `forceHealthCheck`, the flags and names it reports): its verdict depends on live store round-trips.
- Real concurrency: `volatile currentBatch` and the atomic counter make the facade thread-safe, but the multi-threaded "a batch may hold more than batchSize operations, never fewer" is not verifiable sequentially. A race is an injected attempt outcome, and the steady invariant is the single-threaded case.
- `lastBatchExecTimestamp`: wall-clock time.
- Scores are integers, not `double`s.
- The store keeps buckets, sorted sets and hashes in separate key spaces. Redis's shared key space and its wrong-type errors are not modelled.
- Batch execution timing: `executeAsync` and its callbacks run later. `Futures.ExecuteBatch` gives their effect for any store state, and the facade's `store` field holds only synchronous writes.
- The test hooks `setRBatch` and `setRedissonClient`, and logging.
- The `String`-key overloads take a non-null key here. With a null key, Java would namespace the text "null".
- Cache.IgniteCacheRedis.GetEntity: a null physical name fails with a NullPointerException whose message is a stand-in. What the store client actually throws is not modelled.
- Store.ZAdd: members with equal scores are ordered by insertion (a new entry goes after every entry with a score not above its own). Redis orders them lexicographically by member, so `RangeByRank` results can differ from Redis's when scores tie.
- Store.SetWithTtl: the ttl is recorded but keys never expire. `Cache.PutThenGet` with a positive ttl describes reads made before the key expires.
- Store.RangeByRank: states bounds and membership only. The exact Redis index arithmetic is written out in its body and used by `Cache.FullRange`.
- The regex scan's `index + 2` is not wrapped at 2^31: answer lists that long do not occur.
- The scan script's answers are an oracle whose last answer ends the scan. A store that never answers with cursor 0 is not modelled.
- The pipeline's batch state lives in its own `Pipeline` object owned by the facade, not in fields of the facade class itself.
- The retry loop needs at least five attempt outcomes, one per possible attempt. The oracle provides them even when fewer are used.
