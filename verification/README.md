# Verified model of the nexus router's stateful core

The model covers the parts of the router whose correctness spans several calls: the idempotency
store and the handlers that drive it, the provider attempt loops and the event stream they feed,
the fair lane scheduler, the health scoreboard with the attempt order, the admission controls, and
the fuzzy cache and request windows. Each stateful object of the source is a class here; its
methods are proved against a step function on values, and lemmas then speak about every run of
steps, every provider script, or every history.

Conventions. Clocks, owner tokens, entry keys, provider behaviour and consumer behaviour are
parameters. A locked region or one SQL transaction is one step. Money, latency, tokens and time are
`real`. Python exceptions are `Raised(...)` results. Lists and dictionaries that the source mutates
are `seq` and `map` fields; `log`, `chunks` and similar ghost fields record the history a claim
speaks about and are never read by the code.

Files: `wrappers.dfy` (results), `clock.dfy` (samples), `idempotency.dfy`, `handlers.dfy`, `lifecycle.dfy`,
`inflight.dfy`, `attempts.dfy`, `engine.dfy`, `splicing.dfy`, `responses.dfy`, `event_stream.dfy`, `lane.dfy`,
`token_bucket.dfy`, `scoreboard.dfy`, `ordering.dfy`, `budget.dfy`, `breaker.dfy`,
`fuzzy_cache.dfy`, `dedup.dfy`, `stream_gate.dfy`. `dafny verify dfyconfig.toml` checks them all.

## Where the code does less than one would expect

- A provider answer moves the request to RESPONDED before its bookkeeping runs. If that
  bookkeeping raises, the loop falls back from a state with no way out, and the request can end in
  a `StateTransitionError` that neither docstring of `complete` and `complete_stream` mentions.
  `Lifecycle.TransitionFailsIff` gives the exact condition and
  `Lifecycle.UnbookedAnswerBreaksLifecycle` the smallest script.
- Clock samples are taken before the lock, so they may step back in lock order. What still holds then:
  - lazy eviction is invisible whatever the store holds iff the samples never step back
    (`Idempotency.EvictionInvisibleIff`), and for a store that starts empty iff no sample lies above both an
    earlier and a later one (`Idempotency.FreshStoreFaithfulIff`). The ownership and replay results need no order;
  - a fingerprint's own times decide duplicates iff there is no such peak (`Dedup.TimesDecideIff`); the law for
    samples in any order is `Dedup.ObservationDescribesChain`;
  - a token bucket keeps every stretch within its clock-time bound iff the samples never step back
    (`TokenBucket.ClockBoundIff`), and reads stay invisible iff they only rise or only fall
    (`TokenBucket.AdmissionsDecideIff`). Over forward clock movement its law needs no assumption
    (`TokenBucket.LevelIsTightestWindow`); the two coincide exactly for samples that never step back
    (`TokenBucket.ElapsedIsClockTime`).
- The budget cap is checked and recorded in two steps; k live requests can overrun it by k-1 estimates and no more,
  and for every k and estimate some lawful run spends that much (`Budget.OverrunBound`, `Budget.BurstReachesBound`).
  The cap itself holds iff requests come one at a time or may cost nothing (`Budget.CapHoldsIff`).
- With a failure threshold of zero or less the breaker's counters stop describing its history
  (`Breaker.SummaryIffPositiveThreshold`).

## Model

| member | source | states |
|---|---|---|
| Idempotency.StepKeepsPromise | src/safety/idempotency.py:130-358 | one locked region answers like a map whose expired entries count as absent, and leaves the same view, whatever expired rows it evicts or finds |
| Idempotency.RunKeepsPromise | src/safety/idempotency.py:130-358 | lazy eviction is invisible: over any run with ordered samples every reserve, complete, release, put and get answers like the map with deadlines |
| Idempotency.OnlyVisibleRowsMatter | src/safety/idempotency.py:130-134 | two tables that differ only in expired rows can never be told apart afterwards |
| Idempotency.EvictionInvisibleIff | src/safety/idempotency.py:130-358 | whatever rows the store starts with, every run over given samples answers like the map with deadlines if and only if the samples never step back |
| Idempotency.FreshStoreFaithfulIff | src/safety/idempotency.py:166-185 | for a store that starts empty, every run over given samples answers like the map with deadlines if and only if no sample lies above both an earlier and a later one |
| Idempotency.PeakGrantsTwice | src/safety/idempotency.py:166-185 | below such a peak, in a run that otherwise only evicts up to there, a claim evicted at the peak is granted to a second request although its lease has not ended at that request's sample |
| Idempotency.OutOfOrderSampleIsVisible | src/safety/idempotency.py:166-170 | the smallest such run: a late reader evicts a claim, and a request sampled before its expiry is granted the key, where the map with deadlines says in use |
| Idempotency.ClaimIsExclusive | src/safety/idempotency.py:165-198 | until the owner completes or releases, every step sampled before the lease ends leaves the claim in place and shuts everyone else out: reserve raises in-use, get misses, put and foreign complete store nothing |
| Idempotency.GrantIsExclusive | src/safety/idempotency.py:165-262 | a grant is given only on a free key, excludes all others for the lease, and its owner's completion is then always stored |
| Idempotency.AnswerIsStable | src/safety/idempotency.py:193-198 | a stored response survives every interleaving of steps sampled before it expires, and each of them replays it |
| Idempotency.StoredResponseIsReplayed | src/safety/idempotency.py:200-330 | after a successful complete or put with a real status, every reserve and get within the time to live returns exactly that response |
| Idempotency.CompletionStoredIff | src/safety/idempotency.py:200-262 | a completion is stored if and only if the key is free at that moment or the pending row is still the caller's |
| Idempotency.IdempotencyStore.Create | src/safety/idempotency.py:50-64 | a non-positive time to live raises, and only that |
| Idempotency.IdempotencyStore.Reserve | src/safety/idempotency.py:136-198 | the statements of `reserve` move the table and answer as the step function says |
| Idempotency.IdempotencyStore.Complete | src/safety/idempotency.py:200-262 | update of the own pending row, else evict and insert-or-ignore, as the step function says |
| Idempotency.IdempotencyStore.Release | src/safety/idempotency.py:264-284 | deletes exactly the caller's own pending row |
| Idempotency.IdempotencyStore.Put | src/safety/idempotency.py:286-330 | stores only on a free key; a refusal leaves its eviction uncommitted in file mode |
| Idempotency.IdempotencyStore.Get | src/safety/idempotency.py:332-358 | returns a stored response, treating pending and expired rows as misses |
| Idempotency.IdempotencyStore.EvictExpired | src/safety/idempotency.py:360-373 | removes exactly the expired rows and counts them |
| Handlers.ForeignersNeverClaim | src/safety/idempotency.py:165-198 | other requests' steps never create an in-flight row carrying someone else's token |
| Handlers.EndingClearsClaim | src/api/main.py:409-415 | completing or releasing leaves no in-flight row with the token, even after the lease was lost |
| Handlers.LeaseKeepsClaim | src/safety/idempotency.py:165-198 | while every other step is sampled before the lease ends, nobody takes the claim over |
| Handlers.Gateway.RouteAndStore | src/api/main.py:388-416 | on every exit of the guarded region, with any steps of other requests in between, no row carries the token; an answer on an untaken claim leaves exactly that body with status 200 for the time to live, and a failed routing adds no row |
| Handlers.Gateway.ChatCompletions | src/api/main.py:368-416 | no exit path leaks a claim; every case of key, stream and what the lookup finds has its reply, whether it routes, and the exact steps it leaves; an answer on an untaken claim is stored with status 200, a failure stores nothing |
| Handlers.Gateway.CreateResponse | src/api/main.py:466-541 | the same for the responses endpoint under its scoped key; a stream ignores the key |
| Handlers.Gateway.ChatTwice | src/api/main.py:374-416 | a keyed request answered within its lease, then another with the same key before the answer expires, streamed or not: it replays that body with status 200 and routes nothing, whatever others do during and between |
| Handlers.Gateway.ResponsesTwice | src/api/main.py:475-500 | two requests in turn on the responses endpoint: the second replays the first's body with status 200 and routes nothing |
| Handlers.RetrySeesAnswer | src/api/main.py:374-387 | a retry after a stored answer sees that answer with status 200 for the whole time to live |
| Handlers.AtMostOneDispatch | src/api/main.py:374-416 | from a grant, through its completion, to the end of the answer's life no other request is granted the key |
| Handlers.ScopesNeverMeet | src/api/main.py:246-253 | a chat key, having no line break, never equals a scoped responses key |
| Lifecycle.RoutingStateMachine.Transition | src/router/state.py:47-60 | moves exactly along the table and otherwise raises, leaving the state |
| Lifecycle.LegalMoves | src/router/state.py:25-43 | the legal moves, one by one: every unfinished state may fail, answered and failed are final |
| Lifecycle.WalkEnds | src/router/engine.py:324-426 | any sequence of attempts ends as its first decisive attempt alone determines, state and outcome |
| Lifecycle.FirstDecisiveAnswers | src/router/engine.py:324-426 | an answered request is answered by its first decisive attempt, the first neither skipped nor failed |
| Lifecycle.TransitionFailsIff | src/router/engine.py:419-426 | an illegal transition escapes if and only if the first decisive attempt is a silent answer whose bookkeeping raised and nothing later is cancelled or sends text |
| Lifecycle.UnbookedAnswerBreaksLifecycle | src/router/engine.py:622-630 | one such answer is enough |
| Lifecycle.BookedLifecycleIsLegal | src/router/engine.py:473-607 | when bookkeeping does not raise: no illegal transition, answers end RESPONDED, routing failures end FAILED |
| Lifecycle.OnlyLastTurnSpeaks | src/router/engine.py:586-607 | only the attempt the loop stops at can have sent text or been cancelled |
| Lifecycle.FailureAccounting | src/router/engine.py:385-418 | each provider's recorded failures are exactly its attempts that ended without responding; skips record nothing |
| Lifecycle.SuccessAccounting | src/router/engine.py:622-628 | each provider's recorded successes are exactly its finished answers |
| Inflight.FinishUndoesBegin | src/router/strategies.py:284-302 | a begin and its finish leave the counters as they were, absent keys included |
| Inflight.CountersAreOpenAttempts | src/router/strategies.py:277-302 | under any interleaving a counter is the number of attempts begun and not finished |
| Engine.NexusRouter.Relay | src/router/engine.py:507-523 | relays the provider's chunks, assembles their text, keeps the last report, and returns the in-flight counters to their start however the call closes |
| Engine.NexusRouter.TryProvider | src/router/engine.py:498-550 | dispatch, relay and answer of one attempt: when it answers, with which response, and which state and breaker calls it leaves |
| Engine.NexusRouter.FailAttempt | src/router/engine.py:551-600 | the failure branch: no retry after text, fall back while attempts remain, then fail |
| Engine.NexusRouter.StreamTurn | src/router/engine.py:473-600 | one pass of the streaming loop agrees with the attempt's fate in state, verdict, breaker calls and reported result; a guardrail skip sends, records and reports nothing |
| Engine.NexusRouter.CompleteStream | src/router/engine.py:428-607 | yields exactly the chunks of the attempts reached, ends as the walk says, reports one result iff it ends normally, and leaves no attempt counted in, also on abandonment; each provider's recorded failures are its reached attempts that passed the guardrails and had no adapter, raised, or answered without being accepted |
| Engine.NexusRouter.Complete | src/router/engine.py:291-426 | the one-shot loop answers with the reply of the attempt the walk stops at, with the same accounting over the calls' own fields |
| Attempts.AttemptsRecorded | src/router/engine.py:483-600 | the breaker calls of a stream in order and per provider, read off the attempts' guards, adapters, closes and bookkeeping; a guarded attempt records nothing |
| Attempts.CallsRecorded | src/router/engine.py:336-418 | the same for a one-shot request: failures are its reached calls without an adapter, that raised, or that replied without being accepted; successes its replies |
| Splicing.NoSplicing | src/router/engine.py:497-607 | every run hands over empty chunks of earlier attempts and then one attempt's chunks; an answer's content is exactly that text, and an illegal transition follows no text |
| Splicing.StreamOutcome | src/router/engine.py:473-607 | how a stream ends, over its attempts' own fields: at the first attempt that answers, is cancelled or has sent text, else at the last, and with which result or error |
| Splicing.CompletionOutcome | src/router/engine.py:324-426 | how a one-shot request ends, over its calls' own fields; an answer is the provider's reply field by field with the rationale of its position |
| Splicing.ChunksArePiecewise | src/router/engine.py:510-523 | one chunk per text item, in order and under the model attempted, none for a report |
| Splicing.RouterFeedIsCoherent | src/router/engine.py:510-550 | once text came the model stays, and a finished stream's response names it |
| Splicing.FirstReplyWins | src/router/engine.py:324-383 | a one-shot request is answered by the first attempt neither skipped nor failed, with its reply |
| Splicing.FirstAnswerStreams | src/router/engine.py:473-607 | a finished stream is answered by the first attempt neither skipped nor failed |
| Splicing.AnswerIsAttributed | src/router/engine.py:524-550 | a streamed answer holds the text sent and the model attempted, takes usage, cost and stop reason from the last report or else the estimate, and its rationale names the fallback attempt |
| Responses.CompleteResponse | src/api/responses.py:272-320 | incomplete exactly for a length stop, with the token-cap reason then and a completion time otherwise; model, delivered text or else the content, and the routed usage with its total |
| Responses.ChunkStream.Next | src/api/main.py:553-563 | the generator as pulled: each chunk once, then its one end, then nothing; the result is reported at the end only |
| Responses.EventWriter.Frame | src/api/responses.py:331-340 | numbers frames consecutively |
| Responses.PreFlight | src/api/main.py:553-564 | starts the response iff text arrives or the stream finishes; otherwise the failure is the HTTP error 429 for a rate limit, 503 when routing failed, 500 for an uncaught error |
| Responses.RelayRest | src/api/responses.py:394-406 | one delta per non-empty chunk in order, the text so far, the model of the last chunk, and the stream's end |
| Responses.StreamResponseEvents | src/api/responses.py:343-438 | the emitted events are the rendered sequence numbered 0 to n-1, for every feed, and the underlying stream is closed at every exit |
| EventStream.GrammarIff | src/api/responses.py:379-436 | the sequence follows the documented order up to its terminal event if and only if the stream was not aborted and no uncaught error ended it |
| EventStream.NothingAfterOver | src/api/responses.py:423-436 | nothing may follow a terminal event, so there is exactly one |
| EventStream.RenderedSpells | src/api/responses.py:394-406 | the concatenated deltas are the text of the feed |
| EventStream.DeltasArePiecewise | src/api/responses.py:388-399 | one delta per chunk with text, in order, none for an empty chunk |
| EventStream.RenderedIsTruthful | src/api/responses.py:370-436 | every closing event and the final object repeat the delivered text and every object names the same model |
| EventStream.IncompleteIff | src/api/responses.py:434-436 | `response.incomplete` is sent if and only if the finish reason is length |
| EventStream.RenderedIsSettled | src/api/responses.py:409-436 | status, usage and error code of every event agree with how the stream ended, and once the response started no failure is a rate-limit error |
| EventStream.StreamIntegrity | src/api/responses.py:343-438 | end to end for every script and fallback sequence, the rendered events are integral: deltas concatenate to one attempt's text, to the final snapshot and to the routed content, every object names that attempt's model, and the sequence is complete unless aborted |
| EventStream.StreamResponse | src/api/main.py:539-568 | router, pre-flight and event generator run together: the emitted events are numbered from zero and integral in that sense, a failure before output is the mapped HTTP error with no event and no text, and the router is left with no open attempt |
| EventStream.NoStartMeansNoText | src/api/main.py:563-564 | a stream that fails before the response starts has delivered no text |
| PriorityLane.RequestPriorityLane.Create | src/safety/priority_lane.py:54-85 | weights resolve over the defaults 4, 2 and 1; a non-positive one raises; every lane starts empty |
| PriorityLane.RequestPriorityLane.Enqueue | src/safety/priority_lane.py:108-124 | appends to its lane, rejecting an empty identifier |
| PriorityLane.RequestPriorityLane.Dequeue | src/safety/priority_lane.py:126-144 | serves the head of the first busy lane at or after the cursor; None if and only if every lane is empty, so the return after the scan is dead |
| PriorityLane.RequestPriorityLane.Depth | src/safety/priority_lane.py:146-152 | one lane's queue length, or the total, which is zero exactly when nothing can be dequeued |
| PriorityLane.RequestPriorityLane.Clear | src/safety/priority_lane.py:178-183 | empties the lanes and resets the cursor |
| PriorityLane.TurnFromAnywhere | src/safety/priority_lane.py:87-93 | one full turn from any slot shows each lane exactly its weight |
| PriorityLane.StopIsReady | src/safety/priority_lane.py:134-144 | a scan of one cycle finds work exactly when there is any |
| PriorityLane.Conservation | src/safety/priority_lane.py:123-144 | in every run a lane's served requests followed by its queue are its former queue followed by its arrivals |
| PriorityLane.ServiceCountsSlots | src/safety/priority_lane.py:136-143 | while a lane is busy it is served once per own slot the cursor passes, never fewer |
| PriorityLane.FairShare | src/safety/priority_lane.py:126-144 | a lane that stays busy gets at least k times its weight in k cycles of dequeues, from any cursor and under any arrivals |
| PriorityLane.FairShareOrDrained | src/safety/priority_lane.py:126-144 | without that hypothesis: its share, or everything that was waiting |
| PriorityLane.HeadWait | src/safety/priority_lane.py:126-144 | the head of a lane leaves within W - w + 1 dequeues |
| PriorityLane.HeadWaitIsTight | src/safety/priority_lane.py:87-93 | for every lane: with the cursor just past its block and more than W - w requests in every queue, W - w dequeues do not serve it and the next one serves its head |
| PriorityLane.ExactShare | src/safety/priority_lane.py:126-144 | with all lanes busy k cycles split exactly by weight |
| TokenBucket.LevelIsTightestWindow | src/safety/tenant_rate_limiter.py:57-68 | the refilled level is the minimum of the capacity and of every earlier call's window bound, for any samples |
| TokenBucket.AdmittedIffFits | src/safety/tenant_rate_limiter.py:85-90 | a call is within the level if and only if no window bound forbids it |
| TokenBucket.WindowBound | src/safety/tenant_rate_limiter.py:70-90 | any stretch of calls admits at most capacity plus rate times forward clock movement |
| TokenBucket.ElapsedIsClockTime | src/safety/tenant_rate_limiter.py:62-67 | forward movement is at least clock time, and equal to it exactly for samples that do not step back |
| TokenBucket.ClockBoundIff | src/safety/tenant_rate_limiter.py:57-90 | every lawful history over given samples keeps every stretch within capacity plus rate times clock time if and only if the samples never step back |
| TokenBucket.OutOfOrderSampleAdmitsTwice | src/safety/tenant_rate_limiter.py:62-67 | a lawful history with a late sample admits two tokens at one instant from a one-token bucket |
| TokenBucket.OnlyAdmissionsMatter | src/safety/tenant_rate_limiter.py:92-106 | rejected calls and reads never affect a later level while samples do not step back |
| TokenBucket.AdmissionsDecideIff | src/safety/tenant_rate_limiter.py:92-106 | over given samples rejected calls and reads never affect the level, for any limits and lawful history, if and only if the samples only rise or only fall |
| TokenBucket.TenantRateLimiter.Create | src/safety/tenant_rate_limiter.py:31-45 | non-positive settings raise |
| TokenBucket.TenantRateLimiter.AssertAllowed | src/safety/tenant_rate_limiter.py:70-90 | argument errors change nothing; otherwise admitted iff the tenant's whole history fits, and only an admission takes tokens, from that tenant only |
| TokenBucket.TenantRateLimiter.Remaining | src/safety/tenant_rate_limiter.py:92-106 | reports the level and takes nothing |
| TokenBucket.TokenBucketRateLimiter.AssertAllowed | src/safety/rate_limiter.py:33-53 | the same exact admission per API key, for any token count |
| Scoreboard.ScoreForm | src/router/fallback_scoreboard.py:126-133 | the score is successes over attempts plus latency in reference units, between 0 and 1 |
| Scoreboard.ScoreInIs | src/router/fallback_scoreboard.py:126-144 | an observed provider's score is successes over attempts plus latency in reference units, whatever the time of asking; none for an unobserved one |
| Scoreboard.OutcomeMovesScore | src/router/fallback_scoreboard.py:101-133 | recorded with its decay, a failure never raises the score and a success moves it towards 1/(1+latency/ref) and never past it; a first outcome sets it there, or to zero |
| Scoreboard.DecayKeepsScore | src/router/fallback_scoreboard.py:84-99 | decay alone changes no score |
| Scoreboard.IdleHalfLivesHalve | src/router/fallback_scoreboard.py:84-99 | after n idle half-lives every counter is exactly 2^n times smaller |
| Scoreboard.ReadIsInvisible | src/router/fallback_scoreboard.py:92-99 | a read between two times leaves the later counters as they would have been |
| Scoreboard.ReadsNeverMatter | src/router/fallback_scoreboard.py:84-133 | over any ordered history only recorded outcomes determine the counters every later score is computed from |
| Scoreboard.CountersAreWeighted | src/router/fallback_scoreboard.py:84-133 | after any ordered history of outcomes and reads each counter is the sum over outcomes of one half to the power of their age in half-lives |
| Scoreboard.RankingIsRight | src/router/fallback_scoreboard.py:182-191 | the ranking permutes the candidates; an unobserved one is followed by unobserved ones only, no score by a higher one, and equals keep the order given |
| Scoreboard.RankIsInvisible | src/router/fallback_scoreboard.py:170-191 | whatever a ranking decays, later counters are what they would have been |
| Scoreboard.ProviderFallbackScoreboard.RecordOutcome | src/router/fallback_scoreboard.py:101-124 | argument errors change nothing; otherwise that provider's counters decay and take the outcome |
| Scoreboard.ProviderFallbackScoreboard.Score | src/router/fallback_scoreboard.py:135-144 | the decayed score, zero for an unknown provider; only that provider's counters decay |
| Scoreboard.ProviderFallbackScoreboard.Rank | src/router/fallback_scoreboard.py:170-191 | returns that ranking and only decays what it reads |
| Ordering.FallbacksPermuteChain | src/router/engine.py:714-727 | the fallbacks are a permutation of the chain and keep the strategy's order within each provider |
| Ordering.FallbacksAreGrouped | src/router/engine.py:723-727 | the models of one provider are contiguous |
| Ordering.FallbacksAreRanked | src/router/engine.py:722-727 | an earlier fallback's provider never scores lower; an unobserved one is followed by unobserved ones only; among equals the provider first in the chain comes first |
| Ordering.GroupByProvider | src/router/engine.py:714-721 | the grouping loop lists providers by first appearance with their models in chain order |
| Ordering.OrderAttempts | src/router/engine.py:705-728 | the chosen model first, then the ranked regrouping of the chain |
| Budget.BudgetGuardrail.AssertCanSpend | src/safety/budget.py:25-37 | admits exactly when spend plus estimate is at most the cap plus 10^-9 |
| Budget.BudgetGuardrail.RecordSpend | src/safety/budget.py:39-46 | adds to that subject only |
| Budget.SpendIsRecorded | src/safety/budget.py:39-46 | over any run the spend moves by exactly the recorded costs |
| Budget.HoldsLatest | src/safety/budget.py:25-37 | a request holds its latest admitted estimate until it records or drops, and others' steps leave it |
| Budget.OverrunBound | src/router/engine.py:333-338 | with k requests between check and record, spend plus admitted estimates never passes cap + epsilon + (k-1) estimates, nor where it started |
| Budget.SequentialSpendWithinCap | src/safety/budget.py:25-46 | one request at a time never spends past cap plus epsilon |
| Budget.BurstReachesBound | src/safety/budget.py:25-46 | for every k and every estimate a lawful run reaches the bound: k requests that check before any records are all admitted, and once all have recorded the spend itself stands at the bound |
| Budget.CapHoldsIff | src/safety/budget.py:25-46 | no lawful run spends past cap plus epsilon if and only if requests come one at a time or may cost nothing |
| Breaker.HistoryOfBreaker | src/safety/circuit_breaker.py:42-107 | for a positive threshold the stored counters are the failures since the last success or recovering ask, open since the latest failure iff they reach the threshold |
| Breaker.SummaryIffPositiveThreshold | src/safety/circuit_breaker.py:98-107 | that holds for all histories if and only if the threshold is at least one |
| Breaker.FailureRestartsWindow | src/safety/circuit_breaker.py:104-107 | each failure while open restarts the recovery window |
| Breaker.RefusesIffTripped | src/safety/circuit_breaker.py:42-68 | refusal read off the history, for every history and positive threshold |
| Breaker.CircuitBreakerRegistry.AssertAvailable | src/safety/circuit_breaker.py:33-49 | raises exactly when the current run holds the threshold of failures and the latest is less than a window ago; a provider below the threshold is never refused; a recovered circuit is closed |
| Breaker.CircuitBreakerRegistry.IsAvailable | src/safety/circuit_breaker.py:51-68 | true exactly when `assert_available` then would not raise, on the same history condition; changes nothing |
| Breaker.CircuitBreakerRegistry.IsHalfOpen | src/safety/circuit_breaker.py:70-88 | true exactly when the run holds the threshold of failures and the latest is at least a window ago |
| Breaker.CircuitBreakerRegistry.RecordSuccess | src/safety/circuit_breaker.py:90-96 | starts the provider afresh |
| Breaker.CircuitBreakerRegistry.RecordFailure | src/safety/circuit_breaker.py:98-107 | appends one failure to the provider's history |
| FuzzyCache.JaccardIsSimilarity | src/cache/semantic_fuzzy_cache.py:54-61 | symmetric, between 0 and 1, and 1 exactly for equal fingerprints |
| FuzzyCache.TrigramsAreRuns | src/cache/semantic_fuzzy_cache.py:47-51 | a fingerprint holds exactly the runs of three characters of the text with two spaces on each side |
| FuzzyCache.JaccardIsOverlap | src/cache/semantic_fuzzy_cache.py:54-61 | the similarity times the number of windows in either fingerprint is the number in both |
| FuzzyCache.ReplayKeeps | src/cache/semantic_fuzzy_cache.py:122-130 | over any ordered history the table is a suffix of the stores and nothing before it could still answer |
| FuzzyCache.LookupSeesEligible | src/cache/semantic_fuzzy_cache.py:155-166 | a lookup chooses among exactly the stores that are unexpired and followed by fewer than max_entries stores |
| FuzzyCache.PurgeIsExact | src/cache/semantic_fuzzy_cache.py:122-125 | a purge keeps exactly the unexpired entries, in order |
| FuzzyCache.TrimDropsNearestExpiry | src/cache/semantic_fuzzy_cache.py:127-130 | beyond the cap the entry dropped first is the one expiring soonest, the earliest stored among equals; nothing up to the cap |
| FuzzyCache.StoredMessageIsFound | src/cache/semantic_fuzzy_cache.py:132-171 | re-querying a stored, still eligible message hits with similarity exactly one, and the answer is the key and value of an eligible store of the same namespace and trigrams |
| FuzzyCache.SemanticFuzzyCache.Get | src/cache/semantic_fuzzy_cache.py:132-171 | the earliest entry of the namespace with the greatest share of common three-character runs, if it reaches the threshold, with that share as similarity; a miss means every entry of the namespace shares less; counters move by one |
| FuzzyCache.SemanticFuzzyCache.Set | src/cache/semantic_fuzzy_cache.py:173-211 | purge, append with the runs of the text, evict beyond the cap; a disabled cache stores nothing |
| FuzzyCache.SemanticFuzzyCache.EvictOverflowLocked | src/cache/semantic_fuzzy_cache.py:127-130 | drops the first entry of smallest expiry until the cap holds |
| FuzzyCache.SemanticFuzzyCache.Create | src/cache/semantic_fuzzy_cache.py:88-102 | exactly the documented settings are accepted, and kept; counters start at zero |
| Dedup.ChainIsMaximal | src/safety/request_fingerprint.py:111-118 | the chain is linked throughout and cut off from what came before |
| Dedup.ReplayHolds | src/safety/request_fingerprint.py:120-171 | after any history a fingerprint is in the table exactly while its last sighting is kept, and then with the summary of its chain |
| Dedup.ObservationDescribesChain | src/safety/request_fingerprint.py:136-164 | any history of observations and size queries, samples in any order: duplicate iff no visit since the previous sighting was sampled more than a window after it, and hits, first sighting and age are those of the maximal chain of sightings so linked |
| Dedup.ObservationByTimes | src/safety/request_fingerprint.py:136-164 | for samples without such a peak, ordered ones included: hits, first sighting and age are those of the longest run of sightings each within a window of the one before |
| Dedup.TimesDecideIff | src/safety/request_fingerprint.py:136-164 | for every window and history over given samples a sighting is a duplicate exactly when the previous one is within the window, if and only if no sample lies above both an earlier and a later one |
| Dedup.OutOfOrderSampleHidesDuplicate | src/safety/request_fingerprint.py:138-141 | the smallest history that misses a close duplicate |
| Dedup.RequestFingerprintDeduper.Record | src/safety/request_fingerprint.py:120-164 | an empty fingerprint raises; otherwise evict, then insert or extend |
| Dedup.RequestFingerprintDeduper.Size | src/safety/request_fingerprint.py:166-171 | evicts what is stale and counts the rest |
| StreamGate.CutIsShortest | src/safety/stream_budget.py:95-108 | the cut is the shortest prefix that reaches either ceiling |
| StreamGate.ExhaustedIffReached | src/safety/stream_budget.py:95-108 | exhausted iff some prefix reaches a ceiling, with the cut prefix's totals and the ceiling it reaches, tokens before cost |
| StreamGate.ExhaustionIsFinal | src/safety/stream_budget.py:161-166 | once a ceiling is reached no later chunk changes the totals or the reason |
| StreamGate.StreamingTokenBudgetGate.ObserveChunk | src/safety/stream_budget.py:134-169 | reports the totals of the cut prefix, raising with them on a hard stop; negative usage raises and changes nothing |
| StreamGate.StreamingTokenBudgetGate.RemainingTokens | src/safety/stream_budget.py:115-120 | what is left of the ceiling, zero exactly when it is reached |
| StreamGate.StreamingTokenBudgetGate.Reset | src/safety/stream_budget.py:183-189 | forgets every chunk |
| StreamGate.StreamingTokenBudgetGate.Create | src/safety/stream_budget.py:61-73 | exactly the documented budgets are accepted |

## Left out

- FuzzyCache.ReplayKeeps: needs ordered samples and expiries that do not step back in store order.
- Scoreboard.ReadsNeverMatter: needs ordered samples; the power of one half is a parameter of which only f(0) = 1, f(1) = 1/2, f(a+b) = f(a) f(b) and 0 < f <= 1 are used.
- Engine.NexusRouter.CompleteStream: closing the generator is modelled as an attempt that ends with a BaseException at its last listed chunk; a generator that is never started does nothing.
- EventStream.StreamResponse: the router's generator runs to its end before its chunks are pulled; a consumer that stops early is an attempt that closes at its last listed chunk.
- Engine.NexusRouter.Complete: strategies, message scrubbing, rate-limit cooldowns, metrics, ledger and audit writes are not modelled beyond whether they raise.
- Responses.StreamResponseEvents: events are values; identifiers, JSON and the byte framing of server-sent events are not modelled, nor are the settings echoed into the response object.
- Handlers.Gateway.ChatCompletions: admission, the exact-match response cache and the rendering of the body are one opaque routed outcome; a failing release is not modelled.
- The chat-completions event stream (`src/api/main.py:571-629`), which forwards every chunk as it comes.
- IEEE rounding: `real` throughout, with the budget epsilon kept as a constant.
- SQLite, files, connections and locks: a transaction or a locked region is one step.
- Message normalisation, SHA-256, uuid and random tokens: texts arrive normalised, keys and tokens are given values.
- Parsing of lane and weight names from strings: lanes are typed.
- The band advisors under `src/safety`, the regular-expression guards, the classifier, `SpendLedger`, `VirtualKeyStore`, `ResponseCache` and the catalogs: they would add only easy members.
