# Datuplet, modelled and proved

A Dafny model of the parts of Datuplet that carry protocol state, caches, parsers and budgets, with
proofs of what they promise over every input, every run or every history.

| file | what it models |
|---|---|
| `Options.dfy`, `Clock.dfy`, `Characters.dfy` | what several modules share |
| `JsonTokens.dfy` | JSON documents as token streams; a grammar, its printer, and the decoder's bracket stack |
| `JsonValues.dfy`, `StreamDecoder.dfy`, `WholeBody.dfy` | decoded values and what can be read back from them; the HTTP extractor's streaming record decoder, and its agreement with the whole-body `parseJSON` |
| `CommitPool.dfy`, `IdempotencyKey.dfy` | the data gateway's commit pool as interleaved critical sections; the bytes hashed into its idempotency key |
| `VendedCreds.dfy` | the vended-credential cache: renewal rule, hand-written single-flight, fetch pacing |
| `TokenCaches.dfy`, `TokenFlights.dfy` | viewer-token verification: four TTL caches against a token store, then the same calls interleaved through singleflight |
| `BundleLru.dfy` | the byte-bounded bundle LRU with its buffers, and the verified bundle fetch |
| `SqlGrammar.dfy`, `SqlScanner.dfy` | a declarative lexical grammar of SQL, the index-moving placeholder scanner, literal escaping |
| `JsonNumber.dfy`, `SortedStrings.dfy`, `QueryParams.dfy` | the JSON number grammar, sorting, parameter validation and binding |
| `ResultBudget.dfy` | the row cap and the serialized-size cap of a query result |
| `JsonText.dfy`, `ScriptEscape.dfy` | JSON texts as RFC 8259 reads them; the escaper for inlining a document in a script element |
| `BlockTrees.dfy` | chart validation and block search over a document's block tree |
| `RenderGates.dfy`, `QueryBudget.dfy` | render admission; the two stacked query budgets, deadline arithmetic and token minting of a render |
| `ProjectSaga.dfy` | project create, delete and reconcile over three stores, with failures and compensations |

Code that changes state is a class or a method with loops, proved against functions on values; the
results over whole runs are lemmas about those functions. The network, clocks, upstream services and
randomness are parameters. `dafny verify dfyconfig.toml` checks the project.

Where a promise does not hold of the code, the code is modelled as it is, a concrete run or input shows
the failure, and it is proved exactly when the promise holds:

- The comment on `MinRenewalInterval` promises at most one fetch a minute. `ExpiredIsRefetchedEarly`,
  `InvalidatedIsRefetchedEarly` and `FailedIsRefetchedEarly` are runs with two fetches inside a minute.
  `EarlyStartIff` is the exact condition in every run: a call within a minute of the last start fetches if
  and only if no fetch is in flight and the cache is empty, its credential has expired, or the last fetch
  failed; `EarlyStartIsExplained` reads the cause off the run.
- The stream and `parseJSON` differ on arrays of objects with a null among them
  (`NullAmongObjectsDisagrees`), beyond the scan window (`BeyondTheWindow`), on wrappers with repeated or
  empty keys (`RepeatedKeysDisagree`, `EmptyKeyDisagrees`) and on a bare `null`; `AgreeIff` is the exact
  condition over all documents.
- The comment on `VerifyToken` says that pair-level caching can never deny a real viewer. A token that was
  asked about before it existed is refused to its holder after somebody else's wrong guess
  (`WrongGuessLocksOut`), up to an age two nanoseconds short of 75 seconds and never beyond
  (`LockedOutIffYoung`).
- The short cut in front of a row's scan hides a scan or marshal failure behind an exactly full budget
  (`ShortcutHidesFailure`, `ShortcutChangesOnlyFailures`).
- A query's timeout is decided before the token is minted, and the engine's context starts after the
  render's clock is read, so a query can run past the render's deadline (`SlowMintOverruns`,
  `AllEndByDeadlineIff`).
- A failing create that reused a row or a project deletes what it reused (`ReusedRowIsDeleted`,
  `ReusedProjectIsDeleted`); `RestoresWhateverFailsIff` and `RestoresIff` say exactly when it restores.
- The result of a job dispatched while a `Wait` returns, against the pool's contract, is never reported
  (`LateDispatchIsLost`); `ReportedIffNoSwapBetween` says of every run which results are.

## Model

| member | source | states |
|---|---|---|
| `JsonTokens.ParseAfterPrint` | components/http-json-extractor/stream.go:39-63 | the grammar reads back exactly the document whose tokens were printed, leaving what follows |
| `JsonTokens.PrintAfterParse` | components/http-json-extractor/stream.go:39-63 | whatever the grammar reads is the print of what it read |
| `JsonTokens.PrefixFree` | components/http-json-extractor/stream.go:311-323 | no document's tokens are a prefix of another's, so truncation and trailing data are always visible |
| `JsonTokens.RunClosesArray` | components/http-json-extractor/stream.go:290-309 | counting brackets over the decoder's checked tokens ends exactly where the grammar ends the array, or fails exactly when the grammar does |
| `JsonTokens.RunClosesObject` | components/http-json-extractor/stream.go:290-309 | the same for an object |
| `JsonValues.ReadBack` | components/http-json-extractor/stream.go:182-206 | printing a decoded value gives the tokens of the document with members sorted and overwritten ones dropped, so decoding loses nothing else |
| `JsonValues.InOrderReadsBack` | components/http-json-extractor/stream.go:196-200 | a value whose objects have ascending keys, as every scalar, prints to the very tokens that were read |
| `JsonValues.DistinctMembersArePermuted` | components/http-json-extractor/stream.go:196-200 | with distinct keys setting the members in order is a permutation of them |
| `JsonValues.FieldsHoldTheLast` | components/http-json-extractor/stream.go:186-201 | a record holds, under each key, the value of the last member of that key, and no other key |
| `StreamDecoder.Decoder.SkipBalanced` | components/http-json-extractor/stream.go:292-309 | skips exactly the rest of the open container; fails exactly when it is not well formed |
| `StreamDecoder.Decoder.DrainToEOF` | components/http-json-extractor/stream.go:329-354 | succeeds exactly when the one open container is completed and nothing follows |
| `StreamDecoder.Decoder.DecodeObjectBody` | components/http-json-extractor/stream.go:185-206 | exactly when the rest is an object, the record of its members: the same keys, and each field prints back to the tokens of the last member of its key |
| `StreamDecoder.Decoder.StreamElements` | components/http-json-extractor/stream.go:132-157 | delivers exactly the array's objects in order; on an early stop a prefix of them |
| `StreamDecoder.Decoder.Buffer` | components/http-json-extractor/stream.go:112 | appends to the pending buffer and keeps its high-water mark |
| `StreamDecoder.Decoder.TakeRecord` | components/http-json-extractor/stream.go:101-118 | a record is delivered or buffered; the buffer is flushed in order when it fills the window, and never exceeds it |
| `StreamDecoder.Decoder.DecodeTopLevelArray` | components/http-json-extractor/stream.go:72-180 | success means a whole array whose records, bare or positional, were delivered in order; a malformed array delivers something only after committing early |
| `StreamDecoder.Decoder.DecodePositional` | components/http-json-extractor/stream.go:119-164 | metadata in front of the nested array is dropped and the nested array's objects are delivered |
| `StreamDecoder.Decoder.DecodeWrappedObject` | components/http-json-extractor/stream.go:214-288 | on a whole object the outcome and records are those of the first selected field; success only on a whole object |
| `StreamDecoder.Decoder.DecodeRecords` | components/http-json-extractor/stream.go:45-63 | success means the whole input was one document and its records were delivered; on a whole document the outcome is the one the document calls for; what is delivered is always a prefix of its records; at no moment of the run are more than 8192 records pending |
| `StreamDecoder.RecordsReadBack` | components/http-json-extractor/stream.go:39-44 | the records of every document read back, one by one and in order, to the object elements of one of its arrays |
| `WholeBody.RecordsFromSlice` | components/http-json-extractor/main.go:548-556 | keeps exactly the object elements, in order |
| `WholeBody.ParseJSON` | components/http-json-extractor/main.go:493-544 | on any token stream: on one complete document a result the chain of attempts allows, with map iteration order left open; on anything else a failure |
| `WholeBody.ParseDocument` | components/http-json-extractor/main.go:493-544 | the chain of attempts on the decoded document |
| `WholeBody.Stream` | components/http-json-extractor/stream.go:45-63 | the decoder object run on a document's own tokens gives the document's outcome and records |
| `WholeBody.ArraysAgree` | components/http-json-extractor/stream.go:65-71 | for every array, stream and `parseJSON` agree exactly when no null stands among objects only and either the first nested array is within the scan window or it holds the top-level objects again |
| `WholeBody.NullAmongObjectsDisagrees` | components/http-json-extractor/main.go:494-498 | an array of an object and a null on which they differ |
| `WholeBody.BeyondTheWindow` | components/http-json-extractor/stream.go:112-126 | an array beyond the window on which they differ |
| `WholeBody.WrappersAgree` | components/http-json-extractor/stream.go:208-288 | with distinct non-empty keys the stream gives a result `parseJSON` may give, and the only one with a configured key or at most one array field |
| `WholeBody.WrappersAgreeIff` | components/http-json-extractor/main.go:518-544 | for every wrapper object, they can agree exactly when the first field the stream takes holds the same records as the last field of a key `parseJSON` may look at |
| `WholeBody.AgreeIff` | components/http-json-extractor/stream.go:39-63 | over every document: the stream's result is one `parseJSON` may give exactly under the array and wrapper conditions, never on a bare null, always on another scalar |
| `WholeBody.RepeatedKeysDisagree` | components/http-json-extractor/stream.go:229-273 | a repeated key on which they differ |
| `WholeBody.EmptyKeyDisagrees` | components/http-json-extractor/main.go:525-537 | an array under the empty key on which they differ |
| `WholeBody.WholeDocumentIsOneDocument` | components/http-json-extractor/stream.go:311-323 | what a successful decode requires of the tokens: they are the print of some document |
| `WholeBody.TruncatedOrTrailingIsRejected` | components/http-json-extractor/stream.go:332-343 | every strict prefix of a document, and every document followed by anything, fails that requirement |
| `CommitPool.Normalize` | pkg/datagateway/commit_pool.go:79-85 | positive limits are kept, others become 4 workers and 256 places |
| `CommitPool.Pool.constructor` | pkg/datagateway/commit_pool.go:79-91 | a new pool is empty and open, with normalized limits |
| `CommitPool.Pool.TryAdmit` | pkg/datagateway/commit_pool.go:95-109 | admits, or refuses as closed or full, changing nothing else |
| `CommitPool.Pool.AppendResult` | pkg/datagateway/commit_pool.go:240-246 | a result is kept only for the session it was dispatched in |
| `CommitPool.Pool.Swap` | pkg/datagateway/commit_pool.go:254-267 | hands out all results, clears them and starts a new session |
| `CommitPool.Pool.MarkClosed` | pkg/datagateway/commit_pool.go:271-276 | later dispatches are refused |
| `CommitPool.CountsInEveryRun` | pkg/datagateway/commit_pool.go:95-132 | in every interleaving, with time-outs and Cancel, inflight equals the unfinished jobs and stays within the queue size, and at most Workers jobs run |
| `CommitPool.ReleasesAreEnabled` | pkg/datagateway/commit_pool.go:114-129 | a job holding a slot can always give it back, and the wait group never goes negative |
| `CommitPool.ReportedOnceInEveryRun` | pkg/datagateway/commit_pool.go:240-267 | in every interleaving each job appears in at most one Wait's output |
| `CommitPool.ReportsCarryTheAnswer` | pkg/datagateway/commit_pool.go:134-171 | in every run, what a reported result says, read off the dispatched job and the event that recorded it: the job's writer, namespace and table; after a run an error exactly if catalog or commit failed, with its message, the commit's answer, and the job's key; after a cancellation the cancellation and no key |
| `CommitPool.CancelledOnlyAfterCancel` | pkg/datagateway/commit_pool.go:123-127 | a cancellation is reported only after a Cancel |
| `CommitPool.RefusedIff` | pkg/datagateway/commit_pool.go:95-109 | in every run Dispatch refuses as closed exactly after a Cancel, and otherwise as full exactly when as many jobs are unfinished as the queue holds |
| `CommitPool.SessionInContractRuns` | pkg/datagateway/commit_pool.go:240-267 | when Dispatch never runs beside Wait, recorded and unfinished jobs of the session are exactly those dispatched since the last Wait |
| `CommitPool.CompletedWaitReportsItsSession` | pkg/datagateway/commit_pool.go:248-267 | under that contract a Wait ending by completion returns exactly one result for every job dispatched since the previous Wait and nothing else |
| `CommitPool.ReportedIffNoSwapBetween` | pkg/datagateway/commit_pool.go:111-113 | in every run, contract or not, with timed-out Waits and Cancel, a recorded result is handed out or waiting to be exactly when no Wait took the results between the job's reading of its session and its record |
| `CommitPool.DroppedForGood` | pkg/datagateway/commit_pool.go:240-246 | a result that was dropped is reported in no continuation of the run |
| `CommitPool.LateDispatchIsLost` | pkg/datagateway/commit_pool.go:111-113 | without the contract, a run in which a job is missing from the Wait that follows it and from every later one |
| `IdempotencyKey.HashInput` | pkg/datagateway/commit_pool.go:281-296 | the loop feeds every part, paths sorted, each followed by a NUL |
| `IdempotencyKey.TerminatedInjective` | pkg/datagateway/commit_pool.go:278-296 | the bytes determine the list of parts, for NUL-free parts |
| `IdempotencyKey.SameBytesIffSameCommit` | pkg/datagateway/commit_pool.go:278-296 | equal bytes exactly when run, namespace and table agree and the path lists are permutations of each other |
| `IdempotencyKey.SameBytesIffSamePieces` | pkg/datagateway/commit_pool.go:278-296 | for components of any kind, equal bytes exactly when cutting all parts at their NULs gives the same list of pieces |
| `IdempotencyKey.NulComponentsCollide` | pkg/datagateway/commit_pool.go:278-296 | with a NUL inside a component two different commits hash the same bytes |
| `SortedStrings.SortSorts` | pkg/datagateway/commit_pool.go:281-296 | sorting yields an ordered permutation |
| `SortedStrings.SortEqual` | pkg/datagateway/commit_pool.go:281-296 | two lists sort to the same list exactly when they are permutations of each other |
| `VendedCreds.RenewalDecision` | pkg/catalogwriter/vended_creds.go:127-154 | a stamped credential is renewed exactly when expired or at least max(60 s, fraction of its TTL) after issue |
| `VendedCreds.FloorYieldsToExpiry` | pkg/catalogwriter/vended_creds.go:127-154 | within a minute of issue it is renewed exactly when expired |
| `VendedCreds.TargetIsShare` | pkg/catalogwriter/vended_creds.go:117-122 | the renewal target is the configured share of the lifetime, one half for a share outside 0 to 1, cut to whole nanoseconds |
| `VendedCreds.StampIsComplete` | pkg/catalogwriter/vended_creds.go:394-415 | every fetched credential keeps its secret, is issued now, and expires as claimed; without a claim, after an S3 response's own lifetime below a day, otherwise after 15 minutes |
| `VendedCreds.Cache.EnterSection` | pkg/catalogwriter/vended_creds.go:173-216 | the first critical section of Get: return, park, pause or start a fetch |
| `VendedCreds.Cache.FinishSection` | pkg/catalogwriter/vended_creds.go:220-243 | the second: publish the credential, or fall back to a still valid one, or fail |
| `VendedCreds.Cache.Invalidate` | pkg/catalogwriter/vended_creds.go:272-276 | drops the cached credential and nothing else |
| `VendedCreds.FlightInEveryRun` | pkg/catalogwriter/vended_creds.go:172-245 | the single-flight invariant holds in every interleaving of Get and Invalidate |
| `VendedCreds.EveryCall` | pkg/catalogwriter/vended_creds.go:172-245 | at most one fetch in flight; fetching exactly when the channel is set, so the defensive branch is unreachable; a parked caller's channel is closed or owned by a fetcher that will close it once; every credential returned is the call's own fetch or one it found cached and checked |
| `VendedCreds.EnterOutcome` | pkg/catalogwriter/vended_creds.go:172-216 | in every run, entering Get returns the cached credential exactly if it needs no renewal, or a fetch is in flight and it is not past expiry; otherwise the call parks on that fetch or starts one |
| `VendedCreds.AnswersAreSettled` | pkg/catalogwriter/vended_creds.go:156-245 | in every run, which answer a call gets, read off the events: its own fetch's credential; after a failed fetch the credential recorded at its start exactly if there is one that has not expired, else an error; without a fetch the credential in the cache; a context error only if its context ended |
| `VendedCreds.StartsAreJustified` | pkg/catalogwriter/vended_creds.go:127-154 | every fetch starts with an empty cache, an expired credential, or at least max(60 s, fraction of TTL) after issue |
| `VendedCreds.EarlyStartIff` | pkg/catalogwriter/vended_creds.go:18-24 | in every run, a call less than 60 s after the last fetch started begins another exactly when none is in flight and the cache is empty, its credential has expired, or the last fetch failed |
| `VendedCreds.EarlyStartIsExplained` | pkg/catalogwriter/vended_creds.go:213-243 | two consecutive fetches start less than 60 s apart only if the first failed, an Invalidate fell in between, or the cached credential had expired |
| `VendedCreds.ExpiredIsRefetchedEarly` | pkg/catalogwriter/vended_creds.go:133-136 | a run with two starts within 60 s caused by expiry alone |
| `VendedCreds.InvalidatedIsRefetchedEarly` | pkg/catalogwriter/vended_creds.go:272-276 | one caused by an Invalidate alone |
| `VendedCreds.FailedIsRefetchedEarly` | pkg/catalogwriter/vended_creds.go:223-236 | one caused by a failed fetch alone |
| `VendedCreds.PacedInSteadyRuns` | pkg/catalogwriter/vended_creds.go:213-243 | with every fetch succeeding, TTLs of at least 60 s and no Invalidate, consecutive fetches start at least 60 s apart |
| `VendedCreds.FetchRate` | pkg/catalogwriter/vended_creds.go:18-24 | in such runs any window of W seconds holds at most 1 + W/60 fetch starts |
| `TokenCaches.TtlCache.Get` | pkg/appworker/apiclient.go:174-183 | an entry is returned exactly before its expiry |
| `TokenCaches.TtlCache.Set` | pkg/appworker/apiclient.go:185-189 | stores for the given TTL and touches no other key |
| `TokenCaches.Client.CheckTokenActive` | pkg/appworker/apiclient.go:667-681 | cached answer, else upstream's, cached 15 s; errors are never cached |
| `TokenCaches.Client.VerifyToken` | pkg/appworker/apiclient.go:598-636 | the three lookups, the upstream call and the classification of a false, on the four cache maps |
| `TokenCaches.InvariantInEveryHistory` | pkg/appworker/apiclient.go:548-597 | in every history each live cache entry traces back to an upstream answer of its own key and age |
| `TokenCaches.VerifyAnswers` | pkg/appworker/apiclient.go:598-636 | in every history the exact answer: true if a live positive entry exists, or no cache applies, upstream is reachable and the secret genuine; an error exactly if no cache applies and upstream is unreachable; false otherwise |
| `TokenCaches.CheckAnswers` | pkg/appworker/apiclient.go:667-681 | the live entry's value, else whether the token is live if upstream is reachable, else an error |
| `TokenCaches.AnswersServeTheirPeriod` | pkg/appworker/apiclient.go:42-51 | for 15 s after an upstream OK the triple gets true, and for 15 s after a check the pair gets the same answer, whether or not upstream is reachable |
| `TokenCaches.RefusalIsRemembered` | pkg/appworker/apiclient.go:621-633 | a refusal is remembered for 60 s for this secret alone if the token is live, for every secret if it is not, and not at all if that cannot be found out |
| `TokenCaches.TrueIsFresh` | pkg/appworker/apiclient.go:42-51 | a true rests on an upstream OK for the same triple less than 15 s old, so none is given 15 s or more after revocation |
| `TokenCaches.CachedFalseIsBounded` | pkg/appworker/apiclient.go:42-51 | a pair-level false rests on an upstream "inactive" less than 75 s old, to the tick; a wrong-secret false on one for the same triple less than 60 s old |
| `TokenCaches.RightSecretNeverLockedOut` | pkg/appworker/apiclient.go:564-597 | in every history the right secret of a token active since before it, or for 75 s less a nanosecond or longer, is never answered false |
| `TokenCaches.WrongGuessLocksOut` | pkg/appworker/apiclient.go:621-633 | for every shorter age, a history whose only verifications are wrong guesses and which refuses the right secret of a token of that age |
| `TokenCaches.LockedOutIffYoung` | pkg/appworker/apiclient.go:564-597 | some history refuses the right secret of a token of a given age if and only if the age is at most 75 s less two nanoseconds, and wrong guesses by others suffice |
| `TokenFlights.RightSecretNeverRefused` | pkg/appworker/apiclient.go:598-681 | with every cache access, upstream answer and singleflight hand-over a step of its own, no call with the right secret of a token active throughout ends with false |
| `TokenFlights.AnswersAreAccountedFor` | pkg/appworker/apiclient.go:598-681 | in every interleaving, where an answer comes from: a live entry the call looked up itself, or what upstream told the leader of a flight for the same key, an error if unreachable and otherwise the truth at that moment |
| `TokenFlights.LookupsSettleIffLive` | pkg/appworker/apiclient.go:599-610 | a lookup settles a call exactly when it finds a live entry |
| `TokenFlights.LearnedIsCached` | pkg/appworker/apiclient.go:617-633 | what upstream said is cached under its key for 15 or 60 s before the flight lands |
| `TokenFlights.OneLeaderPerTriple` | pkg/appworker/apiclient.go:191-207 | in every interleaving at most one call for a triple leads to upstream |
| `BundleLru.Lru.constructor` | pkg/appworker/apiclient.go:252-254 | an empty cache |
| `BundleLru.Lru.Get` | pkg/appworker/apiclient.go:261-273 | a fresh copy of the stored bytes, and the entry becomes the most recent; a miss changes nothing |
| `BundleLru.Lru.Put` | pkg/appworker/apiclient.go:280-306 | a fresh copy in front of the longest most-recent part that fits beside it; a known hash only moves to the front; an entry above the whole budget is not stored |
| `BundleLru.FitIsLongest` | pkg/appworker/apiclient.go:294-300 | eviction keeps the longest most-recent prefix within the budget |
| `BundleLru.PutKeepsLongest` | pkg/appworker/apiclient.go:280-306 | a bundle put is found again, in front of exactly the longest most-recent part that fits beside it; a known one only moves to the front; one above the budget changes nothing |
| `BundleLru.GetOnlyReorders` | pkg/appworker/apiclient.go:261-273 | a lookup changes no answer and puts the one found in front |
| `BundleLru.InEveryHistory` | pkg/appworker/apiclient.go:244-306 | after any history no hash is stored twice, the sizes sum to at most the budget, entries are ordered by last use, and each was offered under its hash |
| `BundleLru.ScribbleBetween` | pkg/appworker/apiclient.go:256-279 | overwriting a buffer passed in and one handed out does not change a later answer |
| `BundleLru.BundleClient.constructor` | pkg/appworker/apiclient.go:370-382 | a client with an empty, trivially verified cache |
| `BundleLru.BundleClient.Receive` | pkg/appworker/apiclient.go:516-543 | a response is accepted exactly when complete, within the cap and of the requested hash; otherwise the error names what was wrong |
| `BundleLru.BundleClient.Bundle` | pkg/appworker/apiclient.go:511-546 | whatever upstream answers, what is served hashes to its key within the cap, and only verified bytes enter the cache |
| `SqlGrammar.ReadAfterRender` | components/queryengine/params.go:191-235 | the first lexeme of a text is the one the grammar put there |
| `SqlGrammar.RenderAfterRead` | components/queryengine/params.go:191-235 | what is read is a lexeme of the grammar and its text |
| `SqlGrammar.ReadAllReads` | components/queryengine/params.go:191-235 | every text has a reading |
| `SqlGrammar.ReadingIsUnique` | components/queryengine/params.go:191-235 | and only one |
| `SqlGrammar.BlockRestIsReadItems` | components/queryengine/params.go:295-316 | counting nesting depth ends where the tree of nested comments ends |
| `SqlScanner.SkipQuoted` | components/queryengine/params.go:257-270 | stops where the quoted lexeme with doubled quotes ends |
| `SqlScanner.SkipLineComment` | components/queryengine/params.go:286-293 | stops at the newline or the end |
| `SqlScanner.SkipBlockComment` | components/queryengine/params.go:298-316 | stops where the nested comment ends, or at the end of an unclosed one |
| `SqlScanner.SkipDollarQuoted` | components/queryengine/params.go:276-282 | stops behind the first closing delimiter, or at the end |
| `SqlScanner.ScanDollar` | components/queryengine/params.go:237-252 | a dollar begins a dollar quote, a placeholder, or nothing, as the grammar says |
| `SqlScanner.PlaceholderSpans` | components/queryengine/params.go:205-228 | the spans are exactly the placeholders of the text's one reading |
| `SqlScanner.SpansAreInPlace` | components/queryengine/params.go:34-38 | spans are in order and disjoint, each a dollar followed by the name it reports |
| `SqlScanner.EscapeSQL` | components/queryengine/sqlescape.go:14-24 | doubles every single quote; un-doubling recovers the value |
| `SqlScanner.UndoubledRecovers` | components/queryengine/sqlescape.go:5-13 | un-doubling is the inverse of doubling |
| `SqlScanner.SplicedReading` | components/queryengine/sqlescape.go:5-13 | a quoted escaped value in code position, not followed by a quote, reads as one literal of that value between the readings of both sides |
| `SqlScanner.SplicedNames` | components/queryengine/sqlescape.go:5-13 | so the placeholder names found do not depend on the value |
| `SqlScanner.LiteralEndsUnlessQuoteFollows` | components/queryengine/sqlescape.go:5-13 | the literal is read back exactly when no quote follows it |
| `JsonNumber.IsJSONNumberLiteral` | components/queryengine/params.go:398-437 | the scan accepts exactly the number grammar of section 6 of RFC 8259 |
| `JsonNumber.AcceptsTheGrammar` | components/queryengine/params.go:395-437 | the staged reading and the grammar's decomposition accept the same texts |
| `QueryParams.ValidateNumber` | components/queryengine/params.go:354-364 | integral numbers only within ±(2^53−1), others always |
| `QueryParams.ValidateParamValue` | components/queryengine/params.go:321-346 | accepts exactly null, strings, booleans and safe finite numbers |
| `QueryParams.BindRat` | components/queryengine/params.go:178-189 | an integral number binds to itself as an integer, another as a double, an unsafe one not at all |
| `QueryParams.BindValue` | components/queryengine/params.go:141-172 | succeeds exactly on the values validation accepts, with a value that represents the parameter |
| `QueryParams.AllowedIffRepresentable` | components/queryengine/params.go:102-109 | the values accepted are exactly those that have a representation |
| `QueryParams.RepresentationIsUnique` | components/queryengine/params.go:103-109 | a parameter has at most one representation |
| `QueryParams.DistinctNames` | components/queryengine/params.go:56-69 | each name once in order of first appearance, exactly when all are short enough |
| `QueryParams.ValidateParams` | components/queryengine/params.go:49-93 | accepts exactly when placeholders and keys are the same set, names have at most 64 characters and values are allowed; otherwise the error names the first rule broken |
| `QueryParams.BindArgs` | components/queryengine/params.go:118-137 | one argument per key in sorted order, each representing its parameter; fails exactly on a value that is not allowed |
| `QueryParams.ValidateThenBind` | components/queryengine/params.go:95-137 | what validation accepts, binding carries out, with an argument for exactly the placeholder names |
| `ResultBudget.BuildResult` | components/queryengine/result.go:33-147 | the loop computes the outcome the rows and caps call for; an unsupported column type is reported first |
| `ResultBudget.SizeAgainstBudget` | components/queryengine/result.go:48-86 | the exact difference between the serialized size and what was budgeted for it |
| `ResultBudget.ResultFits` | components/queryengine/result.go:20-28 | a result serializes within the byte cap for any duration of at most 13 digits written afterwards |
| `ResultBudget.LongestAllowedPrefix` | components/queryengine/result.go:89-140 | the rows are the longest prefix both caps allow, and Truncated says exactly whether rows were left out |
| `ResultBudget.GivenIffNothingFails` | components/queryengine/result.go:142-146 | a result is given exactly when the stream did not break off, the empty result fits and no row that is reached fails; a stream that broke off is an error in exactly the same case |
| `ResultBudget.FailsIffReached` | components/queryengine/result.go:98-130 | a row that cannot be scanned, or measured, fails the result with that error exactly when everything before it fits with room to spare |
| `ResultBudget.ShortcutChangesOnlyFailures` | components/queryengine/result.go:98-108 | the pre-scan short cut changes the outcome exactly when the budget is used up in front of a row that would fail |
| `ResultBudget.ShortcutHidesFailure` | components/queryengine/result.go:98-108 | an input on which it does |
| `ResultBudget.TooLargeIffEnvelopeOverflows` | components/queryengine/result.go:71-86 | the result is refused as too large exactly when even the empty result can exceed the cap |
| `ScriptEscape.EscapeJSONForScript` | pkg/appworker/server.go:1014-1034 | the output holds none of the five characters, and denotes the value the document denotes |
| `ScriptEscape.NothingDangerous` | pkg/appworker/server.go:1008-1013 | no replacement introduces such a character |
| `ScriptEscape.CharsKept` | pkg/appworker/server.go:1008-1011 | inside a string literal the escaped text denotes the same UTF-16 code units, by section 7 of RFC 8259 |
| `ScriptEscape.SameValue` | pkg/appworker/server.go:997-1013 | every well-formed JSON text denotes the same value after escaping |
| `ScriptEscape.IllFormedMayBecomeWellFormed` | pkg/appworker/server.go:1008-1011 | a text that is not JSON which the escaper turns into JSON |
| `BlockTrees.WalkIsFirstBad` | pkg/appworker/render.go:499-558 | the walk reports the place of the first invalid chart in document order |
| `BlockTrees.SearchIsFirst` | pkg/appworker/server.go:1051-1109 | the search returns the first block with the id in document order |
| `BlockTrees.ListedIsReached` | pkg/appworker/server.go:1036-1040 | document order lists exactly the blocks a path through tabs, modals and row modals leads to |
| `BlockTrees.AcceptedIffChartsValid` | pkg/appworker/render.go:469-497 | with tabs and rows only in blocks of those types, validation succeeds exactly when every reachable chart is valid |
| `BlockTrees.FoundIffReached` | pkg/appworker/server.go:1041-1049 | the search succeeds exactly when a reachable block has the id, and returns such a block |
| `BlockTrees.ServedChartsAreValid` | pkg/appworker/server.go:918-925 | hence a chart served from an accepted document was validated |
| `BlockTrees.ServedIffChecked` | pkg/appworker/server.go:1036-1040 | on any document, no unchecked chart is ever served exactly when the walk looks at the spec of every chart the search can return |
| `BlockTrees.MisplacedTabsEscapeValidation` | pkg/appworker/render.go:523-556 | a document with misplaced tabs on which the two walks differ |
| `RenderGates.InflightGate.constructor` | pkg/appworker/render.go:138-143 | an empty gate with a positive limit |
| `RenderGates.InflightGate.TryAcquire` | pkg/appworker/render.go:148-156 | takes a slot exactly below the limit, without blocking |
| `RenderGates.InflightGate.Release` | pkg/appworker/render.go:158-166 | gives a slot back and prunes the last one |
| `RenderGates.ReleaseUndoesAcquire` | pkg/appworker/render.go:145-166 | releasing what was acquired restores the map exactly |
| `RenderGates.CountsInEveryRun` | pkg/appworker/render.go:209-240 | in every run each app's count is its admitted renders that have not left, at most the limit, with no zero entries; the pool holds exactly the running ones |
| `RenderGates.RefusedIffFull` | pkg/appworker/render.go:209-221 | a render is turned away exactly when its app has its full allowance in flight, changing nothing |
| `RenderGates.NothingIsLeaked` | pkg/appworker/render.go:129-131 | when every render has left, the gates are as at the start |
| `RenderGates.OwedEventsAreEnabled` | pkg/appworker/render.go:221-240 | an admitted render can always give back what it holds |
| `QueryBudget.QueryRunner.constructor` | pkg/appworker/render.go:262-269 | a fresh runner |
| `QueryBudget.QueryRunner.Take` | pkg/appworker/render.go:732-740 | consumes one unit unless the budget is spent |
| `QueryBudget.QueryRunner.Token` | pkg/appworker/render.go:759-771 | the minted token, minting on first use and forgetting failures |
| `QueryBudget.QueryRunner.Execute` | pkg/appworker/render.go:637-729 | the checks in order, the timeout, the mint, the query and what becomes of its response, as a step on the render's state |
| `QueryBudget.RenderState.RunQuery` | pkg/appengine/engine.go:101-128 | the engine's budget around it, spent before the request is read |
| `QueryBudget.HeldThroughout` | pkg/appworker/render.go:637-771 | through a whole render at most one mint succeeds and its token is on every query; every query has a timeout of at least 1 s that ends by the deadline from the clock it was decided on, and goes out while the engine's context is alive; no more than the budget are sent |
| `QueryBudget.EngineAnswersFirst` | pkg/appworker/render.go:651-658 | the host's own budget never answers; the engine's does, after exactly that many calls |
| `QueryBudget.SentByCalls` | pkg/appworker/render.go:655-700 | which calls of a render send a query, read off the calls alone, and what each sends |
| `QueryBudget.AnswerReadOffCalls` | pkg/appworker/render.go:637-729 | what each call of a render is answered, read off the calls and the reply alone |
| `QueryBudget.AllEndByDeadlineIff` | pkg/appworker/render.go:660-700 | every query of a render is over by its deadline exactly when the engine's context ends by then, or every sending call sends within what its timeout, or rounding down to seconds, leaves |
| `QueryBudget.SlowMintOverruns` | pkg/appworker/render.go:684-700 | a run in which loading the bundle and minting push a query a second past the deadline |
| `ProjectSaga.Backends.DeleteProjectTuples` | pkg/pipelineapi/authz/reconciler.go:102-135 | deletes the three relations one by one up to the first failure |
| `ProjectSaga.Backends.AdminCreateProject` | cmd/pipeline-api/admin.go:262-375 | the steps and compensations, for every combination of failing calls, as a step on the three stores |
| `ProjectSaga.Backends.AdminDeleteProject` | cmd/pipeline-api/admin.go:383-448 | tuples, project and row in that order, stopping at the first failure |
| `ProjectSaga.Backends.AdminEnsureProjectAuthz` | cmd/pipeline-api/admin.go:468-543 | the sweep over the listed rows, stopping at the first failure |
| `ProjectSaga.AnyNamedFinds` | cmd/pipeline-api/admin.go:311-314 | a lookup by name as the other results require of it exists |
| `ProjectSaga.FreshCreateRestores` | cmd/pipeline-api/admin.go:249-261 | for a name in neither store, a failing create whose compensations succeed restores all three stores; otherwise it leaves at most its own row, project and tuple, the row always and no tuple without its project |
| `ProjectSaga.RestoresIff` | cmd/pipeline-api/admin.go:301-355 | for given failures it restores exactly when neither the row nor the project it compensates for was there before |
| `ProjectSaga.RestoresWhateverFailsIff` | cmd/pipeline-api/admin.go:249-261 | every failing create whose compensations succeed restores the stores exactly when neither store has the name |
| `ProjectSaga.CreatedIff` | cmd/pipeline-api/admin.go:262-375 | a create succeeds exactly when no call on its way fails, and leaves compensations undone only if one of them fails |
| `ProjectSaga.ReusedRowIsDeleted` | cmd/pipeline-api/admin.go:301-339 | a repeated create whose grant fails deletes the existing row and project |
| `ProjectSaga.ReusedProjectIsDeleted` | cmd/pipeline-api/admin.go:311-339 | a create with a new row deletes the project it reused |
| `ProjectSaga.CreatedIsComplete` | cmd/pipeline-api/admin.go:262-375 | success leaves the row with its project and the creator's grant, reusing exactly what existed, and touches nothing else |
| `ProjectSaga.DeleteConverges` | cmd/pipeline-api/admin.go:377-448 | however often and wherever deletion fails, the row stays until an attempt meets no failure, and the project goes only after the creator's tuples; then exactly the row, its project and every tuple the creator has on it are gone |
| `ProjectSaga.ReconcileSettles` | cmd/pipeline-api/admin.go:450-466 | success leaves every row with an existing project and the admin grant; nothing is ever taken away |
| `ProjectSaga.ReconcileChooses` | cmd/pipeline-api/admin.go:454-462 | which project each row ends up with: its own if that exists, else one that already had its name, else a new one of its name; no other project is added |
| `ProjectSaga.SettledWritesNothing` | cmd/pipeline-api/admin.go:450-466 | on settled stores a reconcile writes nothing and fails only if a probe or a check does |
| `ProjectSaga.SecondReconcileWritesNothing` | cmd/pipeline-api/admin.go:450-466 | a reconcile after a successful one writes nothing |
| `ProjectSaga.CleanReconcileSettles` | cmd/pipeline-api/admin.go:450-466 | after any history of creates, deletes and reconciles, each for its own creator, failing or not, a reconcile in which nothing fails settles every row for the creator it is run for |

## Left out

- Command-line tools, operators, observers, wiring, HTTP handlers, metrics, logging, rate buckets and cookies: plumbing that would only add easy members.
- Real time and scheduling: clocks are non-decreasing numbers and wake-ups are stated as invariants, not as liveness.
- Hash functions: cache keys and bundle hashes are taken as collision-free, SHA-256 as a function parameter; `hashKey` on parts that contain a NUL is not modelled.
- Go's `json.Decoder` is taken at its contract over tokens (bracket kinds and token order are enforced); byte-level syntax, its nesting limit and the text-against-float64 difference of `UseNumber` are not modelled.
- WholeBody.ParseJSON: the body is a token stream, and error texts are reduced to their kind.
- TokenCaches.Client.VerifyToken: no time passes inside a call and calls do not overlap; TokenFlights models both, without the age bounds.
- VendedCreds: credentials are an issue time, an expiry and a secret; the HTTP exchange, prefix discovery and response parsing are not part of the model, and the fraction of the TTL is taken over exact numbers.
- BundleLru.BundleClient.Bundle: callers sharing one in-flight fetch receive the same slice in the source; that sharing is not modelled.
- SQL text is a sequence of bytes seen as characters; what DuckDB itself would accept is not modelled.
- QueryParams.BindRat: a double is represented by the exact number it is rounded from; `big.Rat.SetString` is a parameter.
- ResultBudget: the JSON encoding of a string and of a row is a parameter; `normalizeValue` is not modelled, and whether a row can be marshalled is given with it.
- ScriptEscape: documents are sequences of Unicode code points; bytes that are not UTF-8 become U+FFFD in the source.
- BlockTrees: blocks are objects with fields of the expected types, which the document schema enforces first; a place in the tree is a value, where the source writes it out as text.
- QueryBudget: the texts of answers and the mapping of the query service's error envelope are not modelled; a query is over when its own timeout or the engine's context ends, whichever is first.
- ProjectSaga: a store call that fails changes nothing (lost acknowledgements are not modelled), an authorization check is membership of the tuple, the Kubernetes namespace is not a store, and flag parsing and the resolution of a project's name or a user's email to an id are left out.
