# Verified model of the Boomi platform client

The repository is a Go client for the Boomi AtomSphere platform API. It paces
requests per account, retries them, stops at an authentication failure, and on
top of that collects pages, bulk chunks, folder batches, asynchronous results,
execution logs and licence reports. This project models that behaviour in Dafny
and proves what it guarantees.

| file | models |
|---|---|
| `Prelude.dfy` | results, and the cutting of a list into chunks |
| `Pacing.dfy` | limiter, gates, bucket, breaker and callers of one account as a transition system |
| `PacingSafety.dfy` | invariants of every run: slots, waiters, spacing of grants, ten per second |
| `PacingRuns.dfy` | the breaker over runs |
| `PacingProgress.dfy` | freedom from deadlock |
| `PacingLimits.dfy` | where pacing promises less than it may seem to, with exact conditions |
| `PacingOpening.dfy` | exactly what can still happen once the circuit is open |
| `Registry.dfy` | many accounts at once, keyed by normalised host and account |
| `PaceObjects.dfy` | the same limiter as the objects the program mutates, tied to the transitions |
| `Backoff.dfy` | the retry policy and the seconds form of Retry-After |
| `Retry.dfy` | one call: an adversarial server, a body with a cursor, the attempt loop |
| `Calls.dfy` | `Do` and `Download`: breaker, slot, send, release |
| `Filter.dfy`, `FilterJson.dfy` | the filter compiler, its JSON text, and the text read back |
| `Pages.dfy`, `Bulk.dfy`, `Folders.dfy` | collectors that complete or fail |
| `Polling.dfy`, `ExecutionLog.dfy`, `Licensing.dfy` | the polling loops and the machines built on them |
| `Properties.dfy` | the in-place upsert of persisted process properties |
| `Url.dfy` | the request URL, and reading it back |
| `SharedUrls.dfy` | exactly which requests share a URL |
| `Components.dfy` | the tilde forms of components |

## How the model is built

**Pacing.** Each mutex section of the limiter, each atomic access to the breaker
and each outside event (time, a reply, a cancellation, a timer) is one action. A
run is an arbitrary sequence of actions; an action that is not enabled does
nothing, so a statement about all runs covers every interleaving of any number
of callers and clients. Time only moves forward and the timer may fire at any
moment. The limiter's methods in `PaceObjects` are proved to change their fields
exactly as the matching transition does.

**Callers of the platform.** Servers are adversaries: a reply may depend on the
whole history of requests. Latency, oversleeping, cancellation and jitter are
parameters of each statement. The retry policy is arithmetic over the reals.

**Loops.** A loop that updates variables is a method proved equal to a recursive
function, and the promises of the source are proved of that function for all
inputs.

## Where the code is weaker than its comments

- The bucket bounds grants, not sends: retries never take a second turn
  (`PacingLimits.RetriesBypassBucket`; client.go:140, client.go:192-227). Sends
  stay within the budgets of the granted callers, and never outnumber grants
  exactly when no call may send twice (`PacingLimits.SendsPacedExactly`).
- A rate so small that its spacing does not fit a duration is accepted, and what
  its conversion yields is up to the hardware (pace/pace.go:184). A rate keeps
  ten grants per second under every possible conversion exactly when its spacing
  is representable (`PacingLimits.RateSafeExactly`), and under a given conversion
  exactly when that is at least a tenth of a second (`PacingLimits.KeepsTenExactly`).
- The first explicit limit or rate may be looser than the default: in a reachable
  state a rate or a limit can never be loosened any more exactly when one has been
  set (`PacingLimits.RateStickyExactly`, `PacingLimits.LimitStickyExactly`;
  pace/pace.go:175-197, pace/pace.go:304-313). A new limit wakes nobody
  (`PacingLimits.LateLimitWakesNobody`): a waiter is left below the limit exactly
  by a first explicit limit above the counter taken while a reader waits
  (`PacingSafety.WaitersAtLimitExactly`), so never when the limit is set before
  the first acquire.
- The circuit is checked before the slot is taken (client.go:129-140), so calls
  admitted earlier still send after it opens. An open circuit has seen its last
  rejection exactly when no call is in flight, and its last send exactly when every
  call in flight has spent its budget (`PacingOpening.LastRejectionExactly`,
  `PacingOpening.LastSendExactly`); how many can follow is exact as well.
- `secs * time.Second` wraps above 9223372036 (`Backoff.DeltaSecondsExact` and
  `Backoff.DeltaSecondsWraps`; pace/pace.go:400).
- A poll delay can exceed `MaxDelay`: by just under a second when `InitialDelay`
  is below it, and by any amount when `InitialDelay` is above it
  (`Polling.DelayOvershoots`; objects/async.go:288-290). It never does exactly when
  `InitialDelay` is at most `MaxDelay` and a whole number of seconds away
  (`Polling.DelayWithinExactly`).
- A folder id that falls into two batches has its rows returned twice; batching
  is right on every table exactly when no id does
  (`Folders.BatchingPreservesMeaning`; objects/metadata.go:63-84).
- Path escaping leaves the tilde alone, so a raw suffix, with or without slashes,
  reads like the end of the last segment, and request URLs are not injective
  (`SharedUrls.SlashFreeCollides`; request.go:60-62, request.go:106-112). A request
  shares its URL with another one exactly when it is ambiguous in the sense of
  `SharedUrls.SharedExactly`; among requests whose segments hold no tilde, as for
  components, the URL determines the request.

## Model

| member | source | states |
|---|---|---|
| PacingSafety.SlotConservation | pace/pace.go:209-302 | in every run, each gate's counter is the number of acquires not yet released, cancellations and double releases included; at most one write is ever held |
| PacingSafety.CounterFollowsSubject | pace/pace.go:275-302 | an action moves a counter exactly as it moves its caller in or out of the holders |
| PacingSafety.AcquireWithinLimit | pace/pace.go:275-294 | no acquire lifts the counter above the limit of that instant; over a full gate the counter only falls |
| PacingSafety.TighteningSticks | pace/pace.go:304-313 | once set, a read limit never rises in any continuation, and an over-limit counter never grows |
| PacingSafety.RateSticks | pace/pace.go:175-197 | once set, a rate never loosens in any continuation |
| PacingSafety.IntervalInForce | pace/pace.go:175-189 | before every action of a run the interval is the longest explicit spacing so far |
| PacingSafety.LimitInForce | pace/pace.go:304-313 | and the read limit the smallest explicit one so far |
| PacingSafety.SettingsInForce | pace/pace.go:175-313 | in every run the interval in force is the longest of the explicit spacings so far (an eighth of a second before the first) and the read limit the smallest explicit one (four before the first) |
| PacingSafety.AskedRateHolds | pace/pace.go:181-189 | every grant after an explicit rate keeps at least its spacing, whatever else is configured |
| PacingSafety.IntervalMeaning | pace/pace.go:181-184 | the spacing of a rate is the greatest whole number of nanoseconds that fits |
| PacingSafety.WaitersAlways | pace/pace.go:275-302 | every caller blocked on an open wake channel read a positive limit that the counter still reaches |
| PacingSafety.NoWaiterStranded | pace/pace.go:275-302 | a waiting caller always faces another caller that holds a slot, so a broadcast is due |
| PacingSafety.ReleaseWakesEveryone | pace/pace.go:296-302 | that broadcast lets every blocked caller of the gate try again |
| PacingSafety.AtLimitStep | pace/pace.go:304-313 | if every waiter's gate is full, it stays so under an action if and only if that is not a first explicit limit above the counter while a reader waits |
| PacingSafety.WaitersAtLimitExactly | pace/pace.go:275-313 | throughout a run waiters face the limit in force if and only if no action of the run is of that kind |
| PacingSafety.NoWaiterBelowLimit | pace/pace.go:275-313 | when a read limit precedes every acquire, whoever set it, a waiter implies the counter reaches the limit now in force |
| PacingSafety.ClientsConfigureFirst | client.go:71-82 | calls through clients always come after such a limit |
| PacingSafety.SpacingStep | pace/pace.go:240-259 | an action grants at most once, at the current time and interval, and keeps the spacing |
| PacingSafety.GrantsSpaced | pace/pace.go:175-197 | in every run, consecutive grants are at least the earlier one's interval apart |
| PacingSafety.SpacingAdds | pace/pace.go:240-259 | grants k apart are at least k smallest intervals apart |
| PacingSafety.WindowBound | pace/pace.go:240-259 | any half-open window of n smallest intervals holds at most n grants |
| PacingSafety.ClientInterval | config.go:113-123 | a rate that a client accepts spaces grants by at least a tenth of a second |
| PacingSafety.TenPerSecond | config.go:113-123 | with client configuration, no half-open second of any run holds more than ten grants |
| PacingRuns.BreakerStep | pace/pace.go:412-455 | failures never decrease, and past the threshold failures plus calls in flight never grow |
| PacingRuns.RejectionsCounted | pace/pace.go:433-455 | the counter is the number of rejected calls; each call sends within its budget and records at most one rejection |
| PacingRuns.RejectionsBounded | client.go:129-140 | after opening, total rejections are at most two plus the calls then admitted and unfinished |
| PacingRuns.SequentialRejections | client.go:129-131 | without concurrent calls there is never a third rejection |
| PacingRuns.OpenForever | pace/pace.go:423-455 | once open, no later call or download ever sends, over any continuation |
| PacingRuns.CancelledForGood | pace/pace.go:209-294 | a caller cancelled before its grant holds no slot and never sends, in any continuation |
| PacingProgress.FinishHolder | client.go:140-228 | any holder can run to its end on its own, uncancelled and not giving up, whatever it is answered; with retryable replies it spends its whole budget |
| PacingProgress.DrainGate | pace/pace.go:261-302 | all holders of a gate can finish so, everybody else staying where they are |
| PacingProgress.EnterGate | pace/pace.go:275-302 | from every sound state a caller at its gate can get a slot, only holders of that gate having ended |
| PacingProgress.EveryWaiterCanBeGranted | pace/pace.go:209-294 | from every reachable state each waiting caller has a continuation in which it is granted, with nobody cancelled and no client call given up |
| PacingOpening.FinishAll | client.go:129-228 | from every sound state all calls in flight can end, each rejected once or each spending its whole budget |
| PacingOpening.RejectionsToCome | client.go:129-140 | once open, the rejections still possible are exactly as many as the calls in flight: no continuation exceeds that and one reaches it |
| PacingOpening.LastRejectionExactly | client.go:129-140 | no continuation of an open circuit sees another rejection if and only if no call is in flight |
| PacingOpening.SendsToCome | client.go:129-227 | once open, the sends still possible are exactly those within the budgets of the calls in flight |
| PacingOpening.LastSendExactly | client.go:129-227 | no continuation of an open circuit sends again if and only if every call in flight has spent its budget |
| PacingLimits.RetriesBypassBucket | client.go:140-227 | one grant can be followed by any number of sends at one instant |
| PacingLimits.SendCounts | client.go:192-227 | the sends of a state are counted one for each send action |
| PacingLimits.SendsWithinBudgets | client.go:140-227 | in every run the callers that have sent are no more than the grants, and all sends stay within the budgets of the granted |
| PacingLimits.SendsPerGrant | client.go:140-227 | with budgets of at most b, at most b sends per grant |
| PacingLimits.SendsPacedExactly | client.go:140-227 | sends never outnumber grants in any run with budgets of at most b if and only if b is at most one |
| PacingOpening.RejectionsAttained | client.go:129-140 | for every k, a run in which k calls admitted before the opening send after it and make 2 + k rejections |
| PacingLimits.BackToBack | pace/pace.go:181-189 | at any accepted rate, any number of grants can follow at exactly the converted spacing, or at one instant if it is not positive |
| PacingLimits.KeepsTenExactly | pace/pace.go:181-189 | all runs at an accepted rate keep ten grants per half-open second if and only if its spacing converts to at least a tenth of a second |
| PacingLimits.RateSafeExactly | config.go:113-123 | they do under every permitted conversion if and only if the spacing fits a duration |
| PacingLimits.TinyRateUnpaced | config.go:113-123 | rates of at most 1e-10 per second are accepted and do not fit |
| PacingLimits.RateStickyExactly | pace/pace.go:175-197 | in every reachable state, no continuation loosens the rate if and only if one has been set |
| PacingLimits.LimitStickyExactly | pace/pace.go:304-313 | in every reachable state, no continuation raises the read limit if and only if one has been set |
| PacingLimits.LateLimitWakesNobody | pace/pace.go:304-313 | a late looser limit can leave a caller waiting at a gate that is not full |
| Registry.NormalForm | pace/pace.go:95-100 | normalisation is idempotent, leaves no capital, and forgets exactly the case of the host |
| Registry.AccountHistory | pace/pace.go:160-173 | an account's state is the outcome of exactly the actions under its key in any spelling; other accounts and fresh clients never touch it |
| Registry.EveryAccountTenPerSecond | config.go:113-123 | with any number of clients and accounts at once, no account gets more than ten grants in a half-open second |
| Registry.EveryAccountConservesSlots | pace/pace.go:160-173 | slots are conserved account by account, with at most one write each |
| Registry.NoAccountStrandsWaiters | pace/pace.go:160-173 | a waiter of any account always faces another holder of the same account |
| Registry.AccountOpenForever | pace/pace.go:412-455 | an account's open circuit stays open: no later call under its key, in any spelling and through any client, ever sends |
| PaceObjects.GateObject.OpenExactlyCurrent | pace/pace.go:261-302 | a wake channel is open exactly when it is the current one |
| PaceObjects.GateObject.TryAcquire | pace/pace.go:275-294 | takes a slot exactly when the gate is not full, and names the channel to wait on |
| PaceObjects.GateObject.Release | pace/pace.go:296-302 | the transition's release: one slot fewer, the old channel closed, a new one current |
| PaceObjects.GateObject.TightenTo | pace/pace.go:304-313 | the first explicit limit, later the smaller one, without touching the wake channel |
| PaceObjects.Permit.Release | pace/pace.go:225-235 | releases the first time only |
| PaceObjects.Limiter.constructor | pace/pace.go:152-158 | a fresh limiter stands where every run starts |
| PaceObjects.Limiter.Configure | pace/pace.go:175-197 | field by field: a positive rate sets the spacing if it is the first or longer, a positive limit the read limit if it is the first or smaller, as the transitions do; the write gate never changes |
| PaceObjects.Limiter.TryTurn | pace/pace.go:240-259 | a grant exactly when the bucket is ready, otherwise the positive time to its next instant |
| PaceObjects.Limiter.WaitTurn | pace/pace.go:240-259 | granted no earlier than the bucket allows; a cancelled wait takes nothing |
| PaceObjects.Limiter.Acquire | pace/pace.go:209-235 | exactly when a lone caller succeeds; any failure leaves the counter and the bucket as they were |
| PaceObjects.Breaker.Allow | pace/pace.go:433-444 | open exactly from the threshold on |
| PaceObjects.Breaker.RecordAuthFailure | pace/pace.go:446-455 | one more failure, never fewer |
| PaceObjects.Limiters.ForAccount | pace/pace.go:160-173 | get or create: an existing limiter is never replaced, a new one is fresh |
| Backoff.GrowthMonotone | pace/pace.go:370-378 | the uncapped curve never shrinks |
| Backoff.EnvelopeMonotone | pace/pace.go:370-378 | the envelope is non-decreasing and within the cap |
| Backoff.WaitWithin | pace/pace.go:349-383 | a pause is the server's hint exactly, within the ceiling, or lies under the jitter envelope of its attempt |
| Backoff.WaitExact | pace/pace.go:374-383 | without a hint the pause is the draw times the smaller of cap and base * multiplier^(attempt-1), cut to whole nanoseconds, for every policy |
| Backoff.WaitRefuses | pace/pace.go:360-372 | refused exactly when attempts are spent or the hint exceeds the ceiling, with the error of each; an accepted hint is the pause |
| Backoff.DeltaSecondsValue | pace/pace.go:394-401 | no positive number of seconds gives no hint; any other is a hint equal to what was asked modulo 2^64, as a signed 64-bit number |
| Backoff.DeltaSecondsExact | pace/pace.go:385-410 | the hint is exact if and only if it is at most 9223372036 seconds |
| Backoff.DeltaSecondsWraps | pace/pace.go:385-410 | a hint of centuries can be retried within a third of a second |
| Retry.SendBound | client.go:181-228 | for every server, at most max(1, MaxAttempts) sends; one for a body that cannot seek |
| Retry.EventShape | client.go:192-227 | events are Request(1) Throttled(1) Request(2) ..., one Request per send, one Throttled per pause |
| Retry.LastReplyDecides | client.go:181-395 | in terms of the inputs alone: the loop goes from send k to k + 1 exactly when the reply leads to a pause, the context lasts through it and the next send can be made, and ends at the first k where one of these fails, with the outcome that failure or reply calls for |
| Retry.PausesPriced | client.go:341-383 | each pause and its event carry the exact hint of that reply, or exactly the full jitter of that attempt, for every policy |
| Retry.TotalPause | client.go:192-227 | all pauses together are at most (MaxAttempts - 1) times the larger of cap and ceiling |
| Retry.Transport.Transmit | client.go:269-295 | a send needs an unspent permit and carries what lies beyond the cursor |
| Retry.OneAttempt | client.go:192-227 | one pass of the loop does what the trace says, from the starting offset |
| Retry.SendAll | client.go:161-228 | the loop takes exactly the trace, and every send carries the identical bytes |
| Retry.RetryLoop | client.go:181-228 | as above with the starting offset read first; the breaker moves once, on rejection |
| Calls.Client.Do | client.go:104-159 | which of the four ends a call has, exactly; sends, events, breaker and bucket in each; the slot always comes back |
| Calls.Client.DoAdmitted | client.go:140-158 | acquire, loop, release: nothing sent unless the slot and the turn were got |
| Calls.Client.LoopAndRelease | client.go:140-158 | the loop takes its trace and the slot comes back, the bucket untouched |
| Calls.Client.Download | download.go:72-108 | the same for a download, which is sent exactly once or not at all, with the result and the breaker that the reply's code calls for |
| Calls.Client.SendDownload | download.go:110-145 | one send, one event; 401 and 403 are rejections and move the breaker once, 202 and 204 are not ready, any other 2xx streams, anything else fails |
| Filter.RunEncode | internal/query/query.go:172-251 | the encoder with its loop computes the specified result |
| Filter.RunEncodeMember | internal/query/query.go:253-261 | likewise for one member, nil included |
| Filter.RunIn | internal/query/query.go:105-115 | the loop builds one equality per value, in order |
| Filter.EncodeReportsFirstFault | internal/query/query.go:182-261 | succeeds exactly without faults, and otherwise reports the first in document order |
| Filter.EncodeAcceptsWellFormed | internal/query/query.go:182-261 | succeeds if and only if no node at any depth is nil, an empty group or an empty property |
| Filter.EncodeNormal | internal/query/query.go:209-251 | the output has no one-element and no empty group |
| Filter.NormalIsFixed | internal/query/query.go:209-251 | every normal tree is a fixed point of encoding |
| Filter.EncodePreservesTruth | internal/query/query.go:172-261 | the output is true of exactly the rows the source is true of |
| Filter.CompileCorrect | internal/query/query.go:130-261 | acceptance, normal form, meaning and fixed point in one statement |
| FilterJson.CharsRoundTrip | internal/query/fuzz_test.go:26-71 | every string of Unicode characters reads back from its escaped form, whatever follows |
| FilterJson.WireRoundTrip | internal/query/query.go:182-251 | every wire tree reads back from its text, an empty argument list distinct from none |
| FilterJson.BodyRoundTrip | internal/query/query.go:138-159 | the same for whole bodies, the list-all filter included |
| FilterJson.BodyInjective | internal/query/query.go:263-273 | different filters have different bodies |
| FilterJson.MarshalRoundTrip | internal/query/fuzz_test.go:104-134 | what the body says on the wire means what the caller's expression meant |
| FilterJson.OperatorNames | internal/query/query.go:40-128 | the platform's words for the operators |
| FilterJson.LeafText | internal/query/query.go:182-207 | a comparison on the wire in full, with and without an argument |
| FilterJson.NodeText | internal/query/query.go:209-251 | a group on the wire: its operator and its members under nestedExpression |
| FilterJson.BodyText | internal/query/query.go:138-159 | the list-all body in full, and the frame around an expression |
| FilterJson.EscapedIsSafe | internal/query/query.go:138-159 | control characters, angle brackets, ampersands and line separators only appear escaped |
| FilterJson.EscapeText | internal/query/fuzz_test.go:26-71 | the escapes in full, short forms and lower-case hex included |
| Pages.Connection.QueryAll | objects/query.go:60-111 | on any platform the outcome, requests and events are those of the crawl; an error carries no rows |
| Pages.EventsArePrefixSums | objects/query.go:78-100 | each page event reports the rows so far as a prefix sum |
| Pages.QueryEvents | objects/query.go:78-100 | so event k of a query has the rows of its first k + 1 pages and the first page's total |
| Pages.RequestsFollowTokens | objects/query.go:90-104 | request k + 1 carries the token of page k, one request a page |
| Pages.QueryAllIsFetch | objects/query.go:72-111 | any list cut into token-chained pages in any way, tokens repeated or not, comes back exactly |
| Pages.RowsExactlyWhenWhole | objects/query.go:72-111 | rows if and only if the last page has no token and the counts agree with the first total; truncated if only the counts differ; otherwise failed |
| Pages.CrawlServes | objects/query.go:90-104 | from page i on, the crawl collects the rest of the list |
| Bulk.BulkChunkGet | objects/bulk.go:86-125 | the loop over one reply is one pass over its entries |
| Bulk.Connection.BulkGet | objects/bulk.go:45-84 | the chunk loop has the outcome of the chunks in order, sends nothing after the first failure, and reports each success |
| Bulk.OnePassSplits | objects/bulk.go:55-84 | one pass over a concatenation is the two passes joined |
| Bulk.ChunksInvisible | objects/bulk.go:55-84 | the outcome equals one pass over all answers, whatever the chunk boundaries |
| Bulk.DoneMeansAnswered | objects/bulk.go:86-125 | results only if every chunk was answered entry for entry |
| Bulk.OnePassPartitions | objects/bulk.go:104-125 | results and misses are an order-preserving partition of the positions, by status 200 with a result present |
| Bulk.BulkGetCorrect | objects/bulk.go:45-125 | on success: partition, counts, and ceil(n/100) requests |
| Bulk.ShortReplyYieldsNothing | objects/bulk.go:95-103 | a short, long or missing reply to any chunk leaves no results |
| Bulk.ChunkFails | objects/bulk.go:86-125 | how a chunk fails: refused, another number of entries than ids, or the first present entry that cannot be decoded |
| Bulk.EventsCountIds | objects/bulk.go:60-80 | event k reports the ids of the first k + 1 chunks, all ids, and whether a chunk is left |
| Prelude.ChunksPartition | objects/bulk.go:55-60 | chunking loses and reorders nothing, within the ceiling, in ceil(n/size) chunks |
| Prelude.ChunksFull | objects/bulk.go:55-60 | every chunk but the last is full |
| Folders.CurrentByFolders | objects/metadata.go:58-87 | query k has the compiled filter of chunk k and is fetched page by page; rows are concatenated, and the first failure is the last query and leaves none |
| Folders.ByFoldersCompiles | objects/metadata.go:46-50 | the filter of a batch always compiles |
| Folders.FilterMeaning | objects/metadata.go:46-87 | the compiled filter selects exactly the live current components of the folders |
| Folders.SelectKeeps | objects/metadata.go:58-87 | on a whole table it keeps those rows in order |
| Folders.HonestAnswers | objects/metadata.go:58-87 | from a server that pages each query's rows in any way, the folder query collects exactly those rows |
| Folders.AnswersKeep | objects/metadata.go:58-87 | the batched answers are those rows, batch by batch |
| Folders.BatchingPreservesMeaning | objects/metadata.go:63-84 | batching agrees with the single query on every table if and only if no folder id is in two batches |
| Folders.DistinctIdsPermutation | objects/metadata.go:48-87 | for distinct ids the rows returned are a permutation of the single query's, however they are paged, in ceil(n/200) queries of at most 200 ids |
| Polling.WithDefaults | objects/async.go:44-68 | all options positive; each positive option kept, each other one defaulted |
| Polling.DelayClosedForm | objects/async.go:284-291 | delays never shrink, have the stated closed form, and stay within the larger of InitialDelay and MaxDelay plus just under a second |
| Polling.DelayWithinExactly | objects/async.go:288-290 | no delay exceeds MaxDelay if and only if InitialDelay does not and is a whole number of seconds away |
| Polling.DelayOvershoots | objects/async.go:288-290 | that bound is attained; with InitialDelay above MaxDelay the excess is arbitrary |
| Polling.Poll | objects/async.go:236-292 | the loop as it runs takes the specified trace |
| Polling.PollBound | objects/async.go:252-291 | at most floor(MaxWait/InitialDelay) + 2 polls on any platform |
| Polling.WaitsAreDelays | objects/executions.go:153-186 | the pauses taken are the delays of the closed form, in order |
| Polling.LastPollDecides | objects/async.go:252-291 | the loop stops at the first poll that is settled, broken, over budget or cut off, and ends accordingly |
| Polling.AsyncPollsOn | objects/async.go:106-139 | the async loop polls on exactly over 202 replies with a status row first, or with neither rows nor a count |
| Polling.RecordPollsOn | objects/executions.go:139-215 | the record loop polls on exactly over replies without a record or with a running first one; an unreadable reply fails |
| Polling.StatusMessageMeaning | objects/async.go:106-139 | there is a progress message exactly in progress, the platform's own or a stand-in |
| Polling.EmptyAnswerSettles | objects/async.go:106-139 | a 202 without rows but with a count settles the async loop, and not the record loop |
| ExecutionLog.RunLog | objects/executions.go:251-320 | the two loops as they run take the specified calls |
| ExecutionLog.LogShape | objects/executions.go:264-320 | k posts of which only the last can be accepted, then only fetches of its location, under one budget |
| ExecutionLog.LogExactly | objects/executions.go:264-320 | the run is the one log that starts with a post, repeats after "not yet" one delay later while budget and context last, fetches an accepted location at once, and stops as the last reply, the budget or the context calls for |
| ExecutionLog.LogCallBound | objects/executions.go:264-320 | at most floor(MaxWait/InitialDelay) + 3 calls on any platform |
| ExecutionLog.AcceptedInTimeDelivers | objects/executions.go:264-320 | with instantaneous calls and sleeps of any excess, acceptance time plus generation within MaxWait delivers the archive |
| ExecutionLog.DeliversExactly | objects/executions.go:264-320 | with exact sleeps, delivered if and only if the last wait needed starts within the budget |
| Licensing.Account.Begin | objects/licensing.go:118-154 | post, clear one stuck report, post once more: the specified calls and location |
| Licensing.Account.Run | objects/licensing.go:95-112 | start and await: the specified calls and rows |
| Licensing.StartBounded | objects/licensing.go:118-191 | one post, or a post, one fetch of the named stuck location, and at most one more post |
| Licensing.ReportBounded | objects/licensing.go:95-233 | at most two posts; every later call fetches the location of the report's own accepted post, and rows come only from there |
| Licensing.FinishedMeansRows | objects/licensing.go:193-233 | rows if and only if the poll loop finished |
| Licensing.AwaitExactly | objects/licensing.go:193-233 | on the platform's own answers: fetch on exactly while generating, within budget and uncut; rows exactly when the last fetch is the file |
| Licensing.RecoveryExact | objects/licensing.go:118-191 | with one report outstanding at a time, a start succeeds if and only if the slot was free or the clearing fetch frees it |
| Properties.Persisted.Set | objects/runtimeprops.go:66-94 | the in-place update makes the whole state the specified one; an existing entry is overwritten where it is |
| Properties.Persisted.SetIn | objects/runtimeprops.go:72-90 | the same for the process that was found |
| Properties.UpsertIsMapUpdate | objects/runtimeprops.go:66-94 | under first-match lookup the key reads as the new value and every other key as before, duplicates included |
| Properties.UpsertKeepsEntries | objects/runtimeprops.go:66-94 | nothing is removed or reordered; only the first process of that id changes, and either one entry in it or one process is new, or none |
| Properties.UpsertIdempotent | objects/runtimeprops.go:66-94 | repeating an upsert changes nothing |
| Properties.SessionIsOverride | objects/runtimeprops.go:66-94 | after any sequence of upserts each key reads as its last update |
| Properties.UpsertsCommute | objects/runtimeprops.go:66-94 | updates of different keys give the same lookups in either order |
| Url.BuildUrl | request.go:77-124 | the builder's result and its three refusals, in order |
| Url.BaseText | request.go:95-105 | every URL starts with the host and /api/rest/v1/, behind /partner in partner mode |
| Url.CheckMeaning | request.go:77-93 | which requests are refused, byte by byte, and with which error first |
| Url.EscapedIsSegment | request.go:106-112 | escaping always yields a well-formed path segment of RFC 3986 |
| Url.EscapeRoundTrip | request.go:107-112 | percent-decoding undoes path escaping on every byte string |
| Url.SplitJoined | request.go:106-112 | splitting on slashes and decoding undoes escaping and joining |
| Url.UrlRoundTrip | request.go:77-124 | without a raw suffix, the account and the segments read back from the URL |
| Url.TildeRoundTrip | request.go:60-124 | for an accepted request whose segments hold no tilde, cutting at the first tilde recovers path and suffix, slashes in the suffix included |
| SharedUrls.SameUrlExactly | request.go:77-124 | two accepted requests share a URL if and only if the segments a reader sees, suffix pieces included, and the queries are the same |
| SharedUrls.SuffixCollides | request.go:60-112 | every accepted request with a suffix has the URL of a suffix-free one, which is accepted if and only if no piece of the suffix is empty |
| SharedUrls.SlashFreeCollides | request.go:60-112 | in particular every suffix without a slash collides |
| SharedUrls.SuffixedDiffer | request.go:60-112 | two accepted requests with suffixes never share a URL |
| SharedUrls.SharedExactly | request.go:60-124 | an accepted request shares its URL with another one if and only if: it has a suffix, and no piece of it is empty; or it has none, and one could start in its path |
| SharedUrls.TildeFreeInjective | request.go:60-124 | among accepted requests without tildes in segments, the URL determines path, suffix and query |
| Components.VersionSuffixValid | objects/components.go:62-81 | current and versioned requests always pass the builder's checks |
| Components.FormsAccepted | objects/components.go:33-106 | which component requests are accepted, with the suffix of each, and the error of the others |
| Components.EntityText | objects/components.go:15-16 | the entity segment is the word Component |
| Components.FormRoundTrip | objects/components.go:33-106 | cutting at the first tilde recovers id and suffix of every component request |
| Components.ComponentUrlsInjective | objects/components.go:46-106 | two accepted component requests with one URL are the same request |

## Left out

- HTTP itself: `net/http`, TLS, redirects and the transport's own resends; a send is one call of the HTTP client's `Do`.
- Bodies that also implement `io.Closer`, which the HTTP library may close after a send.
- The life of a response body: the slot is released when `Do` or `Download` returns, while the body may still be read.
- Wall clock and scheduler: time is arbitrary and non-decreasing, and no fairness is assumed or promised.
- Floating-point rounding of rates and backoff; the spacing of an unrepresentable rate is an arbitrary value.
- Registry.NormalForm: lower-casing is modelled for ASCII letters; letters outside ASCII in a host name are left out.
- Parsing of Retry-After (integer syntax and the HTTP-date form); the model starts from the parsed number.
- PaceObjects.Limiter.Acquire: describes a caller without competitors, for whom a full gate can only end in cancellation; competition is in the transition system.
- PaceObjects.Limiter.WaitTurn: describes a caller without competitors, so one sleep suffices; competition is in the transition system.
- Calls.Client.Do: its acquire is that of a caller without competitors, as above.
- Calls.Client.DoAdmitted: its acquire is that of a caller without competitors, as above.
- Calls.Client.Download: its acquire is that of a caller without competitors, and the check of the location is a flag.
- FilterJson.BodyRoundTrip: the reader accepts the printed layout only (this key order, no white space, no surrogate escapes), and replacement of invalid UTF-8 is not modelled.
- Pages.Connection.QueryAll: the code has no bound of its own on the number of pages, so the platform's script is finite (`horizon`).
- Pages and Bulk connections record one call each.
- Properties.Persisted.Set: backing arrays are unshared, and spare capacity of a slice is not modelled (an append always moves).
- JSON decoding of replies, the session id of an async result, and CSV parsing: replies are values.
- The recognition of a stuck report's location in a refusal's text: the platform's reply names it directly.
- The merging of licence reports by class, which may return partial rows without an error (objects/licensing.go:87-92).
- Url.BuildUrl: query parameters and the override account are one opaque, already encoded query string.
- Folders.CurrentByFolders: the table does not change between its queries in the results that speak of a table.
- The same-site rule for download locations (download.go:20-41), whose comment on IP addresses is not what the comparison does: a flag.
- Error texts, headers, user agent, observers beyond the event trace, and the classification of errors into kinds.
- The thin typed services, web-server configuration and component XML: one-branch guards and library behaviour.
