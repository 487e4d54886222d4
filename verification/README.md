# Verified model of the memory gateway service

This project models the stateful core of the memory gateway (`internal/service`): the recall cache and
its scope-version token, the session registry that several gateways share, the outbox that keeps the
vector index in step with the records, the decision-trace sink, recall ranking and budget packing, the
idempotent mutators, and the closing of a session's working memory.

Code that changes state is modelled as classes and loops, each proved against a function of the old state.
Where several actors interleave, the protocol is a step system: a step is one touch of shared state, a run
is any sequence of enabled steps, and the theorems are about every run. The record backend is taken to do
what its fakes in the tests do (`internal/service/pin_idempotency_test.go:31-108`): versions start at 1, a
mutation applies only at the expected version and adds 1, and `GetRecord` hides deleted and disabled records.

## Files

| file | contents |
|---|---|
| `Scopes.dfy`, `RecallKeys.dfy` | the '\|'-joined session key and cache key, and exactly when they identify a scope |
| `Records.dfy`, `Backend.dfy` | records, guarded mutations, the backend as an object other callers also use |
| `RecallCaching.dfy`, `BoundedReads.dfy` | one gateway's cache; bounded reads by many gateways over one token |
| `SessionStore.dfy`, `SessionFence.dfy` | the session transitions in memory and as table rows; many gateways over one store |
| `Outbox.dfy` | publishing with version checks, and convergence of the vector index |
| `TraceSink.dfy`, `TraceSinkWriter.dfy` | the sink's protocol, and its writer's code as a refinement of it |
| `Ordering.dfy`, `HybridRecall.dfy`, `RecallSelection.dfy` | merging, ranking, hydration, scoring, budget packing |
| `Mutations.dfy`, `SessionClose.dfy` | the mutators and their replays; the promote and expire loop |
| `Origins.dfy`, `Gateway.dfy` | what an uncached recall answers; one gateway, its calls one after the other |
| `StaleAnswers.dfy` | a run of a new gateway that a refused close leaves with a wrong cached answer |

## Properties found to hold only on a condition

- A session key belongs to one scope if and only if no field of the scope contains `|` (`ScopeKeyUnique`).
  Among the scopes that name a session, the only ones that the service closes or keeps alive, it also does when
  the scope's one `|` ends its session id (`SessionOwnedExactly`). On exactly that second condition the in-memory
  and the Postgres session stores agree after the operations the service makes (`StoresAgreeInUse`), and no other
  session's close counts as a close of this one (`ForeignCloseCounts`).
- The cache key of an accepted request is built for no other scope's accepted request if and only if the scope is
  free of `|` and every `|` of the trimmed query but a last one is followed by a space (`CacheKeyOwnedInUse`): the
  query goes into the key unescaped, so the scope `t|u|p|x` asking for `a|q` shares its key with the scope whose
  session is `x|a` asking for `q` (`PipeFreeScopeSharesKey`). A last `|` does no harm, because what follows it is
  blank and a blank query is refused at `internal/service/service.go:102`; as a fact about the key alone it counts
  too (`CacheKeyOwnedByOneScope`).
- On exactly the condition of `CacheKeyOwnedInUse` a bounded hit is always the scope's own recall
  (`OwnAnswerExactly`). For any other accepted request some run serves it another scope's recall, each hit read
  again and found current. When the `|` is in the query the other scope differs in its session alone
  (`NeighbourSessionServed`). When it is in the scope, the other scope may be of another tenant; the model's
  backend finds records by id alone, while the code reads hits back with the reader's tenant
  (`internal/service/service.go:922`), so with a backend that filters by it such an answer is served only when
  the recall's budget left no hits to read back.
- Promoted records are not deleted, except by a later dedupe of the same close that lists them as losers
  (`CloseExact`).
- A cached answer to a trusted scope is the origin's. A recall costs at most one scope its trust, and only when it
  fills, under a scope with a `|`, a key that the other scope builds too (`FillKeepsCacheRight`,
  `FillCostsAtMostOne`).
- An immediate retry of a pin, unpin or enable of a deleted record, of a pin or unpin of a disabled one, or
  of a disable of a deleted one is refused as a version conflict, because the read behind the short-circuit
  does not find the record or does not take it for settled. `ReplaysSettle` is exact about this; the comment
  at `internal/service/service.go:459-466` describes the fall-through that causes it.
- The vector index never learns of a version that a promotion made. `ProjectionConverges` states
  convergence with that exact exception; `PromotedBeforeDelivery` is a run in which a record promoted before
  its creation event is delivered is never indexed. The comment at
  `internal/service/outbox_vector_publisher.go:53-56` assumes that delivery has already happened.
- Overlapping publishes for one record can leave an old version in the index (`OverlappingPublishesDiverge`).
- An expired session stays expired or closed exactly as long as no heartbeat saves a time that is still fresh
  and no gateway lets one pass on a cached state that is still fresh (`ExpiryHoldsExactly`). When each
  heartbeat's check and save are one step neither happens (`ExpiryIsAbsorbing`). When they are two steps both
  do: a heartbeat delayed after its check (`SplitHeartbeatRevives`), and two saves that arrive in the opposite
  order and take the stored heartbeat back (`OutOfOrderSavesRevive`), for every TTL and all times.
- A close that is refused after its closer has expired a record, because the next delete goes unanswered or
  because the close cannot be saved, returns before it invalidates. A cached answer with a hit that the scope
  can no longer see is wrong (`LostHitMakesCacheWrong`), and `RefusedCloseLeavesStale` makes such a close on a
  valid gateway: the cached answer was the origin's before the call and is not after it.
  `RefusedCloseLeavesWrongAnswer` gets there from a new gateway, for every pipe-free session scope.

## Model

| member | source | states |
|---|---|---|
| Scopes.ScopeKeyUnique | internal/service/session_registry.go:151-153 | a scope shares its session key with no other scope if and only if none of its fields contains a pipe |
| Scopes.SessionOwnedExactly | internal/service/session_registry.go:151-153 | among scopes that name a session it shares its key with no other if and only if it is pipe-free or its one pipe ends its session id |
| RecallKeys.CacheKeyIdentifies | internal/service/service.go:809-826 | between pipe-free scopes two cache keys are equal exactly when the scopes and all normalised request fields are, even if the query contains pipes |
| RecallKeys.TrimCutsSpace | internal/service/service.go:101-113 | trimming a query keeps a stretch of it and cuts nothing but space at either end |
| Ordering.StrLessExactly | internal/service/recall_selection.go:26-34 | the order of ids: a proper prefix first, otherwise by the first character that differs |
| RecallKeys.PrefixTestExact | internal/service/service.go:828-831 | between pipe-free scopes the prefix test accepts exactly the scope's own keys |
| RecallKeys.CacheKeyOwnedInUse | internal/service/service.go:101-113 | no other scope builds the key of this accepted request with an accepted request of its own, if and only if the scope is pipe-free and every pipe of the trimmed query but a last one is followed by a space |
| RecallKeys.CacheKeyOwnedByOneScope | internal/service/service.go:809-826 | no other scope builds the key with any request at all, accepted or not, if and only if the scope is pipe-free and every pipe of the trimmed query is followed by a space |
| RecallKeys.UnspacedPipeCollides | internal/service/service.go:809-826 | a query with an unspaced pipe shares its key with the request, of another scope, that has the text up to the pipe moved into the session; that request is accepted too unless the pipe is the last character |
| RecallKeys.PipeFreeScopeSharesKey | internal/service/service.go:809-826 | the smallest such case, between a pipe-free scope and one with a pipe |
| RecallKeys.ForeignKeysCaught | internal/service/service.go:828-831 | for every scope there is another, with a pipe in it, all of whose keys the prefix test also catches |
| RecallCaching.RecallCache.Set | internal/service/recall_cache.go:38-46 | replaces the entry under one key and no other |
| RecallCaching.RecallCache.InvalidateScope | internal/service/recall_cache.go:48-56 | the deleting loop leaves exactly the entries whose key lacks the scope's prefix, unchanged |
| RecallCaching.RecallCache.LookupEntry | internal/service/recall_cache.go:58-85 | a bounded lookup hits exactly on an entry with an equal token and an age of at most 5s, an eventual one on an age of at most 30s or with permission to be stale, any other level on any entry; only an eventual hit is flagged stale |
| RecallCaching.InvalidationExact | internal/service/recall_cache.go:48-56 | between pipe-free scopes invalidation removes all of a scope's entries and no other scope's |
| BoundedReads.BoundedHitIsFreshAndCurrent | internal/service/service.go:126-160 | in every interleaving of gateways and whatever the scopes, a bounded hit is at most 5s old and each of its hits equals what a record visible during validation shows; when no other scope's accepted request has the reader's key, it also comes from a recall of that scope that began after every mutation of the scope whose bump was done at the token read |
| BoundedReads.OwnAnswerExactly | internal/service/service.go:126-160 | a bounded hit always comes from the reader's own scope for an accepted request if and only if the scope is pipe-free and every pipe of the trimmed query but a last one is followed by a space |
| BoundedReads.ForeignRecallServed | internal/service/service.go:809-826 | whenever two scopes share a key of accepted requests, a run that validates and serves one the other's cached hits, whatever current hits those are |
| BoundedReads.NeighbourSessionServed | internal/service/service.go:126-160 | for every accepted query with an unspaced pipe before its end, a run that validates and serves the hits of the scope that differs in its session alone |
| BoundedReads.RunKeepsInv | internal/service/service.go:126-160 | every run keeps: each cached entry's recall covers all that its token accounts for |
| BoundedReads.ResponseOkPersists | internal/service/service.go:847-856 | a response that covers its token still does after any step, because later bumps land above every token already read |
| BoundedReads.StillCurrentShows | internal/service/service.go:920-934 | a hit found at its version by the validating read is exactly what that read shows |
| BoundedReads.ReadIsStepsInARow | internal/service/service.go:126-160 | a bounded read alone looks up under the token it has read, which accounts for exactly the mutations bumped so far, and validates a hit against the store as it is at the lookup or later |
| BoundedReads.ValidationIsStepsInARow | internal/service/service.go:920-934 | the validation alone serves exactly if every hit is still visible at its version |
| BoundedReads.MutationInARow | internal/service/service.go:847-856 | commit, invalidation and bump in a row add the new store, leave nothing under the scope's prefix in that gateway's cache and raise the scope's token by 1 |
| SessionStore.MemorySessionStateStore.SaveClosedSession | internal/service/session_registry.go:105-128 | the first close sets mode and time and keeps the last heartbeat; a closed session is returned as it is |
| SessionStore.MemorySessionStateStore.SaveHeartbeat | internal/service/session_registry.go:130-149 | a heartbeat makes the session active at the given time unless it is closed |
| SessionStore.SessionRegistry.Get | internal/service/session_registry.go:44-63 | answers from the cache, else from the store and caches; keeps cache and store equal if they were |
| SessionStore.SessionRegistry.Close | internal/service/session_registry.go:65-75 | stores the close and caches what the store returned, or changes nothing on a store error |
| SessionStore.SessionRegistry.Heartbeat | internal/service/session_registry.go:77-87 | stores the heartbeat and caches what the store returned, or changes nothing on a store error |
| SessionStore.LoadTellsHistory | internal/service/session_registry.go:105-149 | after any operations a load is closed exactly if one was a close, then in the mode and at the time of the first, with the last heartbeat before it; otherwise active at the last heartbeat, or unknown if there was none |
| SessionStore.TableSimulatesMemory | internal/service/postgres_session_store.go:67-86 | after any operations with none on another scope of the same key, a load gives the same from the in-memory store and from the table with its CASE upserts |
| SessionStore.StoresAgreeExactly | internal/service/postgres_session_store.go:116-137 | the two stores agree on a scope after all sequences of operations if and only if the scope is pipe-free |
| SessionStore.StoresAgreeInUse | internal/service/postgres_session_store.go:67-137 | they agree after all sequences of operations on scopes that name a session if and only if the scope is pipe-free or its one pipe ends its session id |
| SessionStore.ClosedStaysClosed | internal/service/session_registry.go:105-149 | once a load returns closed, no later operations on any scope change what it returns |
| SessionFence.CloseFencesEveryGateway | internal/service/service.go:858-918 | in every interleaving a check that starts on any gateway after a close committed at c, and validates later than c plus the idle TTL, rejects |
| SessionFence.FirstCloseWins | internal/service/session_registry.go:44-149 | after the first close the stored state never changes, and every cached closed state equals it, under all interleavings |
| SessionFence.GetIsStepsInARow | internal/service/session_registry.go:44-63 | the protocol's steps of a Get in a row answer and cache as the registry does |
| SessionFence.CloseIsStepsInARow | internal/service/session_registry.go:65-75 | those of a close store and cache the closed state as the registry does |
| SessionFence.HeartbeatIsStepsInARow | internal/service/service.go:697-735 | those of a heartbeat are the whole heartbeat: refused on what the Get answers, otherwise stored and cached |
| SessionFence.StepRevivesExactly | internal/service/service.go:697-735 | a step makes an expired session live if and only if it saves a heartbeat time that is still fresh, or is a heartbeat on a gateway whose cached state still passes the check |
| SessionFence.ExpiryHoldsExactly | internal/service/service.go:697-735 | in every interleaving, heartbeats split or whole, an expired session stays expired or closed if and only if no step of the run is such a step |
| SessionFence.ExpiryIsAbsorbing | internal/service/service.go:697-735 | with whole heartbeats no step revives: the session stays as it was or becomes closed, with the same last heartbeat |
| SessionFence.RunKeepsInv | internal/service/session_registry.go:44-87 | every run keeps: each cached or in-flight state is the closed one or an active one no newer than the close |
| SessionFence.RunKeepsCachesBehind | internal/service/session_registry.go:77-87 | while the session is active no cached heartbeat is later than the stored one, if heartbeats are whole |
| SessionFence.SplitHeartbeatRevives | internal/service/service.go:711-718 | for every TTL and all times, a heartbeat that passes its check and reads the clock only after the session went idle revives it |
| SessionFence.OutOfOrderSavesRevive | internal/service/session_registry.go:77-87 | for every TTL and all times, two saves in the opposite order take the stored heartbeat back, and the gateway that cached the later one revives the session |
| Outbox.OutboxVectorPublisher.Publish | internal/service/outbox_vector_publisher.go:26-86 | acknowledges, upserts, removes or fails as the event type, the visible record and its version decide |
| Outbox.VectorIndex.ProjectUpsert | internal/service/vector_projector.go:73-83 | replaces the chunk under the record's id by one with its category as title, its content, scope, kind, source and version |
| Outbox.VectorIndex.ProjectRemove | internal/service/vector_projector.go:85-96 | removes the chunk under the id, and succeeds if there is none |
| Outbox.PublishIsStartThenFinish | internal/service/outbox_vector_publisher.go:26-86 | a publish with nothing in between has the effect of the protocol's two steps in a row |
| Outbox.ProjectionConverges | internal/service/outbox_vector_publisher.go:26-86 | for any history, delivery order and repetition with one publish in flight per record, once all events are published the index agrees on a record exactly when it is hidden or its version did not come from a promotion |
| Outbox.IndexIsVisibleRecords | internal/service/outbox_vector_publisher.go:26-86 | without promotions the quiescent index holds exactly the visible records, each described at its current version |
| Outbox.AgreesExactlyAtVersion | internal/service/outbox_vector_publisher.go:26-86 | at every point of every run, publishes overlapping or not, the index agrees on a visible record exactly when the publish that last changed its chunk was an upsert that read it at its present version |
| Outbox.RunKeepsInv | internal/service/outbox_vector_publisher.go:26-86 | every run keeps: unless the index is right about a record, its current version was made by a promotion or an event that will put the index right is still due |
| Outbox.PromotedBeforeDelivery | internal/service/outbox_vector_publisher.go:52-58 | for every new record, a fully acknowledged run that promotes it before delivery leaves it out of the index |
| Outbox.OverlappingPublishesDiverge | internal/service/outbox_vector_publisher.go:26-86 | for every new record, a run with two overlapping publishes and no promotion leaves an old version in the index |
| TraceSink.ExactLossAccounting | internal/service/trace_sink_postgres.go:103-286 | at every point of every interleaving of producers, writer and Stop each recorded row is in exactly one place, and each counter is the size of its class |
| TraceSink.OrderAndBounds | internal/service/trace_sink_postgres.go:114-218 | inserted rows keep acceptance order, the channel is bounded, each insert call has 1 to batchSize rows, a retry repeats the call before it, and no row is in more calls than there are backoffs |
| TraceSink.DrainTerminates | internal/service/trace_sink_postgres.go:225-286 | once producers are quiet a shutdown takes at most a computed number of steps, and when nothing can move channel and batch are empty |
| TraceSink.Configured | internal/service/trace_sink_postgres.go:71-97 | positive sizes and a non-empty backoff list are used as asked, anything else falls back to 1024 rows, batches of 50 and 3 attempts |
| TraceSinkWriter.PostgresDecisionTraceSink.Record | internal/service/trace_sink_postgres.go:103-110 | never blocks: the row enters the channel or adds one to the buffer-full counter |
| TraceSinkWriter.PostgresDecisionTraceSink.TryInsert | internal/service/trace_sink_postgres.go:191-218 | inserts exactly if some attempt among those configured succeeds before the context ends in a backoff, gives up early exactly if the context ends first, and otherwise makes every attempt; each call has the whole batch, numbered from 0 |
| TraceSinkWriter.PostgresDecisionTraceSink.Flush | internal/service/trace_sink_postgres.go:121-132 | the running writer's batch is inserted exactly if an attempt succeeds in time, and otherwise adds its length to the database counter and to no other |
| TraceSinkWriter.PostgresDecisionTraceSink.FlushOne | internal/service/trace_sink_postgres.go:231-247 | the drain's batch is inserted if an attempt succeeds in time, and otherwise adds its length to the shutdown counter if the context ended in a backoff or by the end of the flush, and to the database counter if not |
| TraceSinkWriter.PostgresDecisionTraceSink.CountRemainingAsShutdownDrops | internal/service/trace_sink_postgres.go:277-286 | empties the channel and adds its length to the shutdown counter |
| TraceSinkWriter.PostgresDecisionTraceSink.DrainOnShutdown | internal/service/trace_sink_postgres.go:225-273 | flushes full batches in order, and the rest too unless it sees its deadline; what is left then is counted as shutdown drops, and each counter gains exactly the rows of the batches that met its fate |
| TraceSinkWriter.PostgresDecisionTraceSink.Wake | internal/service/trace_sink_postgres.go:134-150 | the ticker flushes what is pending, a row joins it and flushes it once full, and the batch is inserted or counted as a database drop |
| TraceSinkWriter.PostgresDecisionTraceSink.Run | internal/service/trace_sink_postgres.go:114-151 | when the writer returns, rows recorded equal rows inserted plus the three counters, and if every flush can insert in time nothing is dropped but at a full buffer |
| HybridRecall.MergeSources | internal/service/hybrid_recaller.go:60-76 | the merge loops fail as soon as a source fails and otherwise compute the merged scores |
| HybridRecall.MergedIsPointwiseMax | internal/service/hybrid_recaller.go:60-76 | the merged scores are the pointwise maximum of the offers with a non-empty id |
| HybridRecall.PointwiseMaxUnique | internal/service/hybrid_recaller.go:60-76 | the offers determine the merged scores: order and repetition do not matter |
| HybridRecall.RankedCandidateIds | internal/service/hybrid_recaller.go:93-117 | whatever order the map is walked in, the ids of the K best entries, each before those it outranks, and every id left out is outranked by all of them |
| HybridRecall.BelongsExactly | internal/service/postgres_recall_store.go:132-143 | tenant and user must agree, and project and session where both sides name one |
| HybridRecall.RankingUnique | internal/service/hybrid_recaller.go:102-107 | a score map has one ranking |
| HybridRecall.HydrateRecords | internal/service/postgres_recall_store.go:107-130 | with each id read from the store of its own time: fails on a read error, otherwise returns in id order exactly what the reads show visible and in scope, and not-found if that is nothing |
| HybridRecall.InScopeVisibleAtExact | internal/service/postgres_recall_store.go:107-143 | a record is returned exactly when one of the reads shows it, visible and in scope |
| HybridRecall.InScopeVisibleExact | internal/service/postgres_recall_store.go:107-143 | within one state of the store, exactly when it is visible, in scope and named by one of the ids |
| HybridRecall.Recall | internal/service/hybrid_recaller.go:49-91 | the recall equals its simple form: rank the pointwise maximum, cut to K, keep what the scope may see |
| HybridRecall.RecallUnique | internal/service/hybrid_recaller.go:49-91 | the set of offers, the store, the scope and K determine the answer |
| RecallSelection.BuildRecallCandidates | internal/service/recall_selection.go:15-37 | one scored candidate per record, by higher score, then smaller estimate, then smaller id |
| RecallSelection.ScoreParts | internal/service/recall_selection.go:39-54 | what each part of a record adds to its score: 2 for a pin, 1 for a user's own, its importance or 0.5, and one over its estimate |
| RecallSelection.EstimateTokenCost | internal/service/token_budget.go:5-12 | the fewest tokens of four characters that hold the content |
| RecallSelection.RankingIgnoresInputOrder | internal/service/recall_selection.go:26-34 | records with distinct ids rank the same in whatever order the backend returned them |
| RecallSelection.SelectWithinBudget | internal/service/service.go:181-215 | the hits report candidates in rank order, a candidate is reported exactly when it fits with the hits before it or there is no budget, the total is the sum of the hits' estimates, and under a positive budget that sum is at most the budget |
| RecallSelection.GreedyFits | internal/service/service.go:181-193 | under a positive budget the selected estimates sum to at most the budget |
| RecallSelection.GreedyIsSelection | internal/service/service.go:181-215 | the greedy choice is the only rule the hits follow: each candidate is in or out by what is in before it, and the estimates of the hits are the total |
| RecallSelection.GreedyMaximal | internal/service/service.go:181-193 | no dropped candidate would fit what is left of the budget at the end |
| RecallSelection.GreedyLexicographicallyFirst | internal/service/service.go:181-193 | at the first rank where another feasible subset differs, the greedy one has the candidate and the other does not |
| RecallSelection.NoLimitKeepsAll | internal/service/service.go:184-191 | a budget of zero or less drops nothing |
| Mutations.Mutator.TerminalStateShortCircuit | internal/service/service.go:467-494 | finds the record exactly when its read succeeds, it is in the wanted state and the expected version is not ahead |
| Mutations.Mutator.ToggleMemory | internal/service/service.go:421-639 | pin, unpin, disable, enable and delete answer, mutate and invalidate as the handler's decision function says |
| Mutations.Mutator.PatchMemory | internal/service/service.go:333-395 | a patch replays, conflicts or commits by its idempotency key, and a failed save does not fail it |
| Mutations.EffectIsAsked | internal/service/service.go:398-418 | a mutation that takes effect changes its record, from the expected version to the next, in exactly the fields it asks for: a patch stores each field it brings under its own name and keeps the others, a toggle sets its own flag |
| Mutations.SavesOwnSlot | internal/service/service.go:347-388 | the snapshot of a keyed patch that took effect is saved under its tenant and key, and no other entry ever changes |
| Mutations.ChecksComeFirst | internal/service/service.go:421-639 | read-only, a missing version and a closed session refuse in this order and change nothing; unpin and enable pass a closed session |
| Mutations.SettledIsAnswered | internal/service/service.go:467-494 | a toggle that can read its record and finds it settled answers its version, unless it expects a later one |
| Mutations.NoEffectNoChange | internal/service/service.go:333-639 | a request that does not invalidate changes nothing, and a refusal as not found or as a version conflict tells the truth about the record |
| Mutations.PermittedTakesEffect | internal/service/service.go:333-639 | a permitted request that is not settled or known takes effect if its record is there at the expected version, and a key used for another payload conflicts |
| Mutations.ReplaysSettle | internal/service/service.go:467-494 | any number of immediate retries of a successful toggle succeed with the same version and change nothing, exactly when the record was readable and recognisable; otherwise every one conflicts |
| Mutations.PatchReplaysSettle | internal/service/service.go:347-388 | retries of a successful patch return the stored answer exactly when its snapshot was saved, and otherwise conflict without a change |
| Mutations.AppliedAtMostOnce | internal/service/service.go:333-639 | in every interleaving, with saves of the snapshot failing at will, one request takes effect at most once |
| Mutations.HandleIsStepsInARow | internal/service/service.go:333-639 | the protocol's begin, read, commit and save in a row have the store, the keys, the answer and the effect of one call of the mutator; a call refused before its first read changes nothing |
| Mutations.VersionsCountEffects | internal/service/pin_idempotency_test.go:62-108 | every version is 1 plus the number of effective mutations of the record |
| SessionClose.DurableSessionCloser.PromoteIfEligible | internal/service/durable_session_closer.go:98-134 | handles exactly the eligible records with an event and promotes only one that wins its dedupe in the store as this call found it; a promoted record is one version on, out of working memory, not deleted and otherwise the same; an error means an unanswered call or a dedupe error that is not stale |
| SessionClose.DurableSessionCloser.ExpireWorking | internal/service/durable_session_closer.go:136-149 | the record is deleted at its listed version and otherwise the same, or left when it has moved on |
| SessionClose.DurableSessionCloser.HandleRecord | internal/service/durable_session_closer.go:55-80 | one record is promoted, having won its dedupe in the store as the turn found it, expired or left in place, which the record shows and the counters count; in a quiet backend its fate and the whole new store are those of one turn; it fails only if one of its calls does |
| SessionClose.DurableSessionCloser.CloseSession | internal/service/durable_session_closer.go:42-91 | every listed record ends as exactly one of promoted, expired or left in place, over all closes each id is settled at most once, the loop stops exactly at a turn whose calls fail, and after a close of a quiet backend each listed record is deleted, promoted, or promotable and untouched because it did not win its dedupe |
| SessionClose.DurableSessionCloser.CloseExact | internal/service/durable_session_closer.go:42-134 | in a quiet backend the turns delete exactly the records a dedupe lists as losers and those expired, promote exactly those whose fate it is, and leave every other record as it was; a listed record is expired or promoted exactly if that is its turn's path and no dedupe deleted it first |
| SessionClose.DurableSessionCloser.ExpiryRun | internal/service/durable_session_closer.go:73-87 | without promotions in a quiet backend each record handled is expired, and exactly those are deleted |
| SessionClose.EffectsExact | internal/service/durable_session_closer.go:55-80 | the promotions and expiries made are exactly those among the fates |
| SessionClose.ReportCountsFates | internal/service/durable_session_closer.go:52-90 | each reported count is the size of its class, dropped-before-use that of the expired records never accessed, and the classes are all records handled |
| Origins.OriginExists | internal/service/service.go:163-215 | an uncached recall whose services answer has a list of hits |
| Origins.OriginUnique | internal/service/service.go:163-215 | and only one |
| Origins.OriginDependsOnView | internal/service/service.go:163-215 | two stores that show a scope the same rows, access marks aside, answer every request under it with the same hits |
| Origins.HitsIgnoreMarks | internal/service/recall_selection.go:15-54 | scores, order, budget choice and hits do not depend on the access marks |
| Origins.HitsAreInView | internal/service/postgres_recall_store.go:107-143 | every hit of an uncached answer gives, field by field, a record that the scope can see and that the search found |
| Origins.OriginSelects | internal/service/service.go:163-215 | the hits of an uncached answer are a selection within the request's budget of candidates in rank order |
| Origins.RequestReachesSearch | internal/service/service.go:163-215 | the search is asked for the trimmed query and the request's top-k, by default 8, and every hit is one it found |
| Origins.OffersInViewAreHits | internal/service/service.go:163-215 | without a budget, and with no more offers than K, every offered row that the scope can see is a hit |
| Gateways.ChangeKeepsCacheRight | internal/service/service.go:847-856 | a change of the store leaves right every cached answer to a scope it does not show to |
| Gateways.InvalidationKeepsCacheRight | internal/service/recall_cache.go:48-56 | invalidating a pipe-free scope makes its cached answers right, whatever they were |
| Gateways.FillKeepsCacheRight | internal/service/service.go:269-275 | caching the origin's answer, under any scope, keeps right every cached answer to every trusted scope that does not build the same key, and to that scope itself |
| Gateways.FillCostsAtMostOne | internal/service/service.go:269-275 | a fill costs at most one pipe-free scope its trust, and none when made under a pipe-free scope |
| Gateways.FillKeepsFits | internal/service/service.go:809-826 | whatever the scopes, no cached answer exceeds the budget of a request that builds its key |
| Gateways.TrustLostExactly | internal/service/postgres_recall_store.go:132-143 | between scopes that name project and session, a mutation of a visible record makes exactly its own scope's cached answers suspect, under whatever scope it was made |
| Gateways.WriteTrustLostExactly | internal/service/postgres_recall_store.go:132-143 | the same for a write of a visible record |
| Gateways.LostHitMakesCacheWrong | internal/service/service.go:847-856 | a cached answer with a hit that the scope can no longer see is not the origin's |
| StaleAnswers.RefusedCloseLeavesWrongAnswer | internal/service/service.go:641-695 | a new gateway, one recall and one refused close later, holds a wrong cached answer, for every pipe-free session scope and every accepted eventual request with room for two hits |
| Gateways.RefusedCloseLeavesStale | internal/service/service.go:674-683 | on a valid gateway, a close refused after its closer expired a record leaves a cached answer that was the origin's before the call and is not after it |
| Gateways.ForeignCloseCounts | internal/service/session_registry.go:151-153 | the close of some other scope that names a session counts as a close of this one if and only if this one contains a pipe, and not just one that ends its session id |
| Gateways.CloseKeepsReclaimed | internal/service/service.go:674-683 | recording a close by expiry keeps closed sessions reclaimed, if nothing of that session is live |
| Gateways.WriteKeepsReclaimed | internal/service/service.go:296-324 | a write to a session that is not closed keeps closed sessions reclaimed |
| Gateways.ScopeVersionStore.BumpScopeVersion | internal/service/scope_version_store.go:30-36 | adds 1 to the scope's token, from 0 |
| Gateways.Gateway.EnsureSessionOpen | internal/service/service.go:858-891 | refuses closed sessions as closed, sessions idle for longer than the TTL as expired, and store errors, and passes everything else; a cached session is judged even when the store is down |
| Gateways.Gateway.ServeCached | internal/service/service.go:130-160 | serves the cached answer exactly when the lookup hits and, for a bounded read, every hit is still visible at its version |
| Gateways.Gateway.RecallAndFill | internal/service/service.go:163-275 | the origin's answer is cached under the token read before the recall exactly when the recall found a record, whether or not the budget left a hit of it, and the level is not strong; only then do cache and trust change, and trust only of a scope that builds the same key |
| Gateways.Gateway.InvalidateScopeState | internal/service/service.go:847-856 | removes the scope's cached answers whether or not the bump succeeds, and bumps the token if it does |
| Gateways.Gateway.ValidateBoundedCachedResponse | internal/service/service.go:920-934 | accepts exactly when every cached hit is visible at its cached version |
| Gateways.Gateway.RecallOrigin | internal/service/service.go:163-241 | the uncached recall answers with the origin's hits, marks each of their records accessed once and changes nothing a recall can see |
| Gateways.Gateway.RecallUnified | internal/service/service.go:101-278 | every answer to a trusted scope, cached or not, stale or not, has the hits the origin would return now, and no answer to any scope exceeds its budget; it is cached exactly when the lookup and validation accept it, and then marks no access, while any other answer marks its records once; it is filled, and trust lost, exactly as by the recall behind it, so a recall under a pipe-free scope costs no trust; closed and idle sessions, blank queries and a top-k beyond 50 are refused, each with its own reason |
| Gateways.Gateway.ToggleMemory | internal/service/service.go:421-639 | the mutators keep the gateway's invariant, and only scopes that the change shows to and that were not invalidated lose trust |
| Gateways.Gateway.PatchMemory | internal/service/service.go:333-395 | the same for patches |
| Gateways.Gateway.WriteMemory | internal/service/service.go:280-331 | a write to a closed or idle session stores nothing; a permitted one that is not a replay stores, under a new id and the scope, a visible unread record with the caller's kind, source, category, content, tags, importance and pin |
| Gateways.Gateway.HeartbeatSession | internal/service/service.go:697-735 | a heartbeat is refused for closed and idle sessions, each with its reason, and otherwise makes the session active now if it can be saved |
| Gateways.Gateway.CloseSession | internal/service/service.go:641-695 | in either mode the close runs the closer over the scope's live records and is answered exactly if all were handled and it can be saved; then each of them is deleted, promoted, or promotable and untouched because it did not win its dedupe, and after an expiry none is live; a refused close invalidates nothing and a repeated one changes nothing |
| Gateways.Gateway.ReapIdleSession | internal/service/service.go:900-908 | a reaped session is closed, and is reaped if everything answers; it has no live working record if this call closed it, or if it was closed by expiry and owns its session key |

## Left out

- BoundedReads.BoundedHitIsFreshAndCurrent: takes a mutation as reflected only once its bump succeeded, since bump errors are discarded at `internal/service/service.go:854`.
- Outbox.ProjectionConverges: requires at most one publish in flight per record, which the relay would have to arrange; the relay's leases and retries are not part of this model.
- SessionFence.ExpiryIsAbsorbing: takes a heartbeat's check and save as one step, because the property fails otherwise; SessionFence.ExpiryHoldsExactly is the statement for all runs.
- Gateways.Gateway.RecallUnified: is about the lexical source only, its statement being any function of the rows it can select; a row's version stands for its `updated_at`.
- Gateways.Gateway.CloseSession: closes against a backend that no other caller changes meanwhile; a write that races the close is not fenced by the code.
- TraceSinkWriter.PostgresDecisionTraceSink.Run: producers record before any round and any insert attempt, but not during the drain; the drain's interleavings with producers and Stop are covered by the protocol in `TraceSink.dfy`.
- HybridRecall.Recall: reads all records from one state of the store, where HybridRecall.HydrateRecords allows each its own.
- Backends.Backend.ResolveDedupe: the verdict and the records deleted as losers are any function of the store and the candidate, since the dedupe rules are the backend's; so is what makes a record eligible for promotion.
- Records.Changed: takes an empty patch field to keep the stored value. The gateway sends an absent field like an empty one; what the backend makes of it is not part of this model.
- Records are found by memory id alone; that a backend read also filters by tenant is not part of this model (its bearing on BoundedReads.OwnAnswerExactly is said above).
- The header authentication, which trims the scope's fields and refuses an empty tenant or user, is not part of this model: scopes are those the service itself accepts.
- The request hashes of writes and patches are taken as injective.
- The `Trace` of a cached response, which is a pointer mutated on each hit, is not modelled; the claims are about `Hits`.
- Scores are reals, so floating-point rounding is not modelled; times are integers.
- A NULL `closed_at` reads as the zero time; how the driver scans it is not part of this model.
- The closed-channel arm of the drain loop: the code never closes that channel.
- Embedding, the vector store's namespaces and its search, and the storage of the Postgres version token.
- Nil collaborators (no recaller, closer, projector or idempotency store beyond the patch path) and the merging of claimed scopes with the authenticated scope.
- The normalising of a write's kind, which the record contract defines; a write here comes with its kind.
- HTTP handlers, JSON decoding, request ids and the mapping of errors to statuses, which translate to and from the calls modelled here.
- Metrics, observers and trace stages, which only report; configuration, migrations and process wiring.
- The cron loops for reaping, storage metrics and hard deletion, which call on a timer what is modelled here or the backend alone.
