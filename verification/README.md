# Verified model of the self-healing scraping pipeline

The pipeline extracts fields from web pages with stored CSS selectors. A gateway creates a
job, asks the extraction worker, and either settles the job at once or queues it for recovery;
the recovery engine takes queued jobs from a Redis stream, lets a vision model propose new
selectors in a bounded retry graph, validates them on the live page, stores the accepted ones
and settles the job. This project models that pipeline in Dafny and proves what it guarantees,
and exactly when, over all inputs, all runs and all interleavings.

`dafny verify dfyconfig.toml` checks everything.

## The parts

**The recovery protocol.** `Protocol` is a transition system over the jobs table, the stream
with its consumer group, any number of gateway requests and any number of consumers. Each
action is one call a service makes; a request or a consumer may stop between any two of them,
and a claim may hand an entry to a second consumer while the first still works on it.
`ProtocolInvariant` has the inductive invariant; `ProtocolTheorems` reads the guarantees off
it; `ProtocolOrigins` traces every row back to the call or the recovery that decided it;
`ProtocolFinality` finds the exact condition under which a terminal row is final;
`ProtocolWitnesses` has runs for what is not guaranteed. `RecoveryQueue` has the use case and
the consumer as classes that update table and stream in place, with each of their own calls
allowed to raise, and `QueueProgress` proves that every call of theirs is a run of the protocol
and what polling and reclaiming achieve.

**The recovery graph.** `RecoveryGraph` has the merged state, the nodes, the wiring and the
run, driven by arbitrary services that may raise; `GraphSearch` defines a first-success search
without nodes or state and proves the graph equal to it. `RecoveryServices` puts the worker's
validation and the filter on the vision model's reply behind the graph; `LiveSearch` says what a
run comes to in terms of the proposer's answers and the pages.

**The selector store.** `SelectorStore` has the versioned table with its cache on values,
`SelectorRepositories` both repositories in place, `SelectorAgreement` the comparison with the
plain in-memory map over whole runs, `CacheAside` the interleavings of reads and saves that
are split into their separate calls, `CacheFreshness` exactly when a name's entry stays fresh,
`CacheKeys` the cache key.

**Extraction and validation.** `Validation` has the shared success rule, `ExtractionWorker` the
worker's use case over an abstract page, `Jobs`, `GatewayDecision` and `JobTable` the job, the
gateway's decision and the shared table. `Healing` composes all of it: after a recovery the
deterministic path works again, and goes on working over later operations that do not overlap.
`HealingOverlap` finds the exact condition under which it does among operations that do.

**The rate limiter.** `RateLimiter` has the fixed window on Redis counters, exactly which calls
of a history are let through, and the sliding bound over every timed history.

Shared vocabulary is in `Basics` (with `Text` for stripping and `Dicts` for insertion-ordered
dictionaries).

## Where the code and its documentation differ

The model follows the code.

- The job a consumer loads may already be terminal, and nothing looks at its status. A
  redelivered entry can therefore replace a SUCCESS and drop its result
  (`RedeliveryCanDropResult`). `TerminalRowFinalExactly` says when a row is final.
- `docs/adr/0014-redis-streams-migration.md` says message loss is eliminated. That holds from
  the XADD on; a request that stops, or whose enqueue raises, between the second save and the
  XADD leaves a RECOVERY_PENDING job without an entry for good (`NoJobLostExceptInWindow`,
  `WindowStrands`, `RequestIsARun`).
- `docs/adr/0007-cache-aside-selector-storage.md` calls the cache stale only transiently after
  a failed cache write. Entries have no time to live and reads stop at the cache, so a stale
  entry is served for as long as its name is not saved and its key not lost, unless an operation
  already in flight replaces it (`EntryStaysUntilSavedOrLost`). Overlap alone has the same
  effect, without any failure (`OvertakenFromStart`). `FreshUntilSavedExactly` says exactly when
  an entry stays the active row.
- Healing is not unconditional. A read that found an older selector before the recovery's save
  can write it to the cache afterwards, with neither the page nor the table changed
  (`PersistedSelectorOverwritten`); so can a save of a name that shares the cache key
  (`KnownLastsExactly`). `HealingLastsExactly` says exactly when persisted selectors are what
  later reads are told.
- The bound on attempts is max(1, max_attempts): the first attempt runs before the bound is
  looked at.

## Model

| member | source | states |
|---|---|---|
| `ProtocolInvariant.StepKeepsInv` | services/recovery-engine/src/recovery_engine/infrastructure/recovery_queue_consumer.py:52-147 | every step of any gateway request or consumer, including stopping between two steps and having an entry claimed away, keeps the invariant that ties request progress, delivery state, consumer snapshots and job rows together |
| `ProtocolInvariant.RunKeepsInv` | services/recovery-engine/src/recovery_engine/infrastructure/recovery_queue_consumer.py:52-147 | the invariant holds after any run from a state that has it, in either way of writing rows |
| `ProtocolInvariant.GraphDecision` | services/recovery-engine/src/recovery_engine/infrastructure/recovery_queue_consumer.py:138-144 | whatever services a run meets, the job it decides for a job in recovery keeps its identity, is SUCCESS or NEEDS_HUMAN_REVIEW, and is SUCCESS only with text for every required field |
| `ProtocolInvariant.UpdateEffect` | services/recovery-engine/src/recovery_engine/infrastructure/recovery_queue_consumer.py:165-176 | writing a decided job replaces exactly the row of the consumer's own entry, whether three columns or the whole row are written |
| `ProtocolTheorems.EveryEntryInOnePlace` | services/recovery-engine/src/recovery_engine/infrastructure/recovery_queue_consumer.py:52-147 | in every reachable state each enqueued entry is in exactly one of undelivered, pending and acknowledged, and an acknowledged one has a terminal row |
| `ProtocolTheorems.NoJobLostExceptInWindow` | services/api-gateway/src/api_gateway/application/use_cases/process_scrape_request_use_case.py:32-47 | in every reachable state a RECOVERY_PENDING job has an entry still to be handled if and only if its request does not stand between the second save and the enqueue; entries from before the group exists count as undelivered |
| `ProtocolTheorems.StoredJobsTellTheTruth` | libs/sentinel_shared/src/sentinel_shared/domain/extraction_validator.py:17-39 | in every reachable state a SUCCESS row has a non-blank value for every required field on both paths, and a FAILED row comes from the transport error mapping |
| `ProtocolTheorems.ErrorPathsUnreachable` | services/recovery-engine/src/recovery_engine/infrastructure/recovery_queue_consumer.py:129-136 | no consumer finds its job missing or updates an unknown row, and the gateway's non-None assertion cannot fire |
| `ProtocolTheorems.StatusesMoveForward` | libs/sentinel_shared/src/sentinel_shared/domain/job.py:38-45 | every step of either service moves a row only along PENDING to SUCCESS, RECOVERY_PENDING or FAILED, RECOVERY_PENDING to a terminal status, or between the two terminal ones, and never changes id, url, domain or required fields |
| `ProtocolTheorems.NothingGoesBack` | services/recovery-engine/src/recovery_engine/infrastructure/recovery_queue_consumer.py:129-147 | over every run, acknowledged entries stay acknowledged with a terminal row, jobs the gateway settled are never written again, and a job stranded in the window stays as it is and is never enqueued |
| `ProtocolTheorems.TerminalStaysTerminal` | services/recovery-engine/src/recovery_engine/infrastructure/recovery_queue_consumer.py:129-147 | over every run no row is lost or changes its identity, and a SUCCESS or NEEDS_HUMAN_REVIEW row stays one of the two |
| `ProtocolTheorems.ThreeColumnsSuffice` | services/api-gateway/src/api_gateway/infrastructure/sql/sqlalchemy_job_repository.py:21-31 | over every run, writing status, result and failure_reason only gives the same states as overwriting whole jobs |
| `ProtocolTheorems.ProcessingReaches` | services/recovery-engine/src/recovery_engine/infrastructure/recovery_queue_consumer.py:129-147 | load, run and update in a row are a run of the protocol with the effect of the code |
| `ProtocolOrigins.RowsSayWhatHappened` | services/recovery-engine/src/recovery_engine/infrastructure/recovery_queue_consumer.py:138-176 | over every run, some earlier action is what decided each row that is not PENDING: a SUCCESS row has the data of a call to the worker that covered its fields, or what the winning attempt of a recovery of its job read off its page; NEEDS_HUMAN_REVIEW comes from a recovery whose attempts were all rejected, RECOVERY_PENDING from a call whose data left a gap, FAILED from one that failed |
| `ProtocolOrigins.StepDecides` | services/recovery-engine/src/recovery_engine/infrastructure/recovery_queue_consumer.py:129-147 | after any step, a job found in a row, a request or a consumer that is no longer PENDING was there before, or this step decided it in one of these ways |
| `ProtocolFinality.TerminalRowFinalExactly` | services/recovery-engine/src/recovery_engine/infrastructure/recovery_queue_consumer.py:129-147 | a terminal row can never change again if and only if its entry is acknowledged and no consumer still holds that entry short of its last differing write; being terminal alone is not enough because the status of a loaded job is not looked at |
| `ProtocolFinality.QuietStep` | services/recovery-engine/src/recovery_engine/infrastructure/recovery_queue_consumer.py:129-147 | once that condition holds for an entry, no step of any request or consumer changes its row or ends the condition |
| `ProtocolFinality.SilentEscalates` | services/recovery-engine/src/recovery_engine/application/nodes/decide_next_step.py:17-24 | a proposer that never has a proposal leads any job to human review |
| `ProtocolFinality.GenerousRecovers` | services/recovery-engine/src/recovery_engine/application/nodes/validate_selectors_live.py:16-31 | for any job some proposer and page lead to recovery |
| `ProtocolWitnesses.RedeliveryCanDropResult` | services/recovery-engine/src/recovery_engine/infrastructure/recovery_queue_consumer.py:129-147 | for every request with required fields there is a run in which a stored SUCCESS becomes NEEDS_HUMAN_REVIEW without a result, after a consumer stopped between update and acknowledgement and another claimed the entry |
| `ProtocolWitnesses.WindowStrands` | services/api-gateway/src/api_gateway/application/use_cases/process_scrape_request_use_case.py:40-45 | for every request with required fields there is a run that strands its job in the window |
| `RecoveryStream.CommandsKeepBrokerOk` | services/recovery-engine/src/recovery_engine/infrastructure/recovery_queue_consumer.py:52-115 | the stream commands keep every entry before the cursor pending or acknowledged but not both, and every later one neither |
| `RecoveryQueue.RequestMeaning` | services/api-gateway/src/api_gateway/application/use_cases/process_scrape_request_use_case.py:32-47 | for a fresh job and any fault: when a request raises, which row it leaves, and that an entry is appended only for a row that already says RECOVERY_PENDING |
| `RecoveryQueue.ProcessScrapeRequestUseCase.Execute` | services/api-gateway/src/api_gateway/application/use_cases/process_scrape_request_use_case.py:32-47 | the use case in place: the new table and stream are those of the request on values, whichever of its own calls raises |
| `RecoveryQueue.RedisRecoveryQueue.Enqueue` | services/api-gateway/src/api_gateway/infrastructure/redis/redis_recovery_queue.py:20-22 | one entry with the job id at the end of the stream, or nothing if the call raises |
| `RecoveryQueue.RecoveryQueueConsumer.ProcessNextJob` | services/recovery-engine/src/recovery_engine/infrastructure/recovery_queue_consumer.py:52-76 | one poll in place: group, read of one new entry, handling; with nothing undelivered it answers None and only the group may be new |
| `RecoveryQueue.RecoveryQueueConsumer.ReclaimStaleMessages` | services/recovery-engine/src/recovery_engine/infrastructure/recovery_queue_consumer.py:78-106 | one reclaim in place: the claimed page in order, stopping at the first entry that raises; what it returns are the ids of the page's existing jobs, in order |
| `RecoveryQueue.RecoveryQueueConsumer.ProcessJob` | services/recovery-engine/src/recovery_engine/infrastructure/recovery_queue_consumer.py:129-147 | one entry in place, including every place where a call raises: when it returns the job, a SUCCESS row has what the winning attempt read off its page and any other row comes from attempts that were all rejected; the entry of a missing job is acknowledged and dropped |
| `RecoveryQueue.RecoveryQueueConsumer.ApplyFinalState` | services/recovery-engine/src/recovery_engine/infrastructure/recovery_queue_consumer.py:165-176 | exactly the row of the job changes: for a recovered run to SUCCESS with the recovered data as its result, otherwise to NEEDS_HUMAN_REVIEW with neither result nor reason; an unknown job raises and changes nothing |
| `RecoveryQueue.ProcessExactly` | services/recovery-engine/src/recovery_engine/infrastructure/recovery_queue_consumer.py:129-147 | for any proposer, pages and storage: if some attempt wins, handling an entry stores SUCCESS with the data of that attempt, if all are rejected NEEDS_HUMAN_REVIEW without data, and the entry is acknowledged unless that raises; in every other case it raises and row and pending list are what they were |
| `RecoveryQueue.ServiceDownLeavesPending` | services/recovery-engine/src/recovery_engine/infrastructure/recovery_queue_consumer.py:138-147 | when the proposer raises at the attempt reached, or the page of its confident proposal does not load, handling raises, and the row and the pending list are unchanged |
| `RecoveryQueue.HandleAllReturns` | services/recovery-engine/src/recovery_engine/infrastructure/recovery_queue_consumer.py:101-106 | a page handled without raising gives the ids of its existing jobs in the order of the page, and no row appears or disappears |
| `RecoveryQueue.HandleAllRaises` | services/recovery-engine/src/recovery_engine/infrastructure/recovery_queue_consumer.py:101-106 | once an entry raises, the rest of the page is not handled |
| `QueueProgress.HandledPrefixLeaves` | services/recovery-engine/src/recovery_engine/infrastructure/recovery_queue_consumer.py:101-106 | exactly the entries handled before one raises leave the pending list, and the call returns exactly when that is the whole page |
| `QueueProgress.ReclaimStopsAtFailure` | services/recovery-engine/src/recovery_engine/infrastructure/recovery_queue_consumer.py:78-106 | a reclaim that raises has acknowledged exactly the handled prefix; the rest of the page is pending under this consumer and can be claimed again, and other entries keep their owners |
| `QueueProgress.ReclaimStarvesExactly` | services/recovery-engine/src/recovery_engine/infrastructure/recovery_queue_consumer.py:84-106 | a reclaim takes nothing off the pending list if and only if its page is empty or handling the first entry of the page raises |
| `QueueProgress.HeadStarvesRest` | services/recovery-engine/src/recovery_engine/infrastructure/recovery_queue_consumer.py:84-106 | over any number of reclaims whose pages start with an entry that raises, nothing leaves the pending list: every reclaim starts from id 0 again |
| `QueueProgress.EffectiveRoundShrinks` | services/recovery-engine/src/recovery_engine/infrastructure/recovery_queue_consumer.py:52-106 | undelivered plus pending drops by one with a poll and by the size of the page with a reclaim in which nothing raises |
| `QueueProgress.SchedulesAreBounded` | services/recovery-engine/src/recovery_engine/infrastructure/recovery_queue_consumer.py:52-106 | no sequence of such polls and reclaims is longer than the backlog |
| `QueueProgress.Drains` | services/recovery-engine/src/recovery_engine/infrastructure/recovery_queue_consumer.py:52-106 | when services and storage answer, every alternation of polls and reclaims with as many cycles as there is backlog acknowledges every entry, whatever page each claim hands over, provided a claim hands over something when an entry is pending |
| `QueueProgress.AlternationShrinks` | services/recovery-engine/src/recovery_engine/infrastructure/recovery_queue_consumer.py:52-106 | every cycle of such an alternation takes at least one entry off the backlog until there is none, and loses no entry |
| `QueueProgress.AlternationsExist` | services/recovery-engine/src/recovery_engine/infrastructure/recovery_queue_consumer.py:52-106 | alternations of any length exist from any such table and stream |
| `QueueProgress.RecoveryCompletes` | services/recovery-engine/src/recovery_engine/infrastructure/recovery_queue_consumer.py:52-147 | from every reachable state, if one idle consumer polls and reclaims in turn as often as there is backlog and services answer, every entry ends acknowledged and its job terminal, and this is a run of the protocol |
| `QueueProgress.RecoveryCanComplete` | services/recovery-engine/src/recovery_engine/infrastructure/recovery_queue_consumer.py:52-147 | so from every reachable state with an idle consumer such an end is reachable |
| `QueueProgress.RequestIsARun` | services/api-gateway/src/api_gateway/application/use_cases/process_scrape_request_use_case.py:32-47 | a gateway request, whichever of its calls raises and also when it raises at the worker's reply, is a run of the protocol; a raising enqueue leaves the job stranded |
| `QueueProgress.BrokenReplyIsARun` | services/api-gateway/src/api_gateway/application/use_cases/process_scrape_request_use_case.py:40 | a request at whose reply the gateway raises, unreadable or a failure without a reason, is a request that stops after its first save |
| `QueueProgress.PollIsARun` | services/recovery-engine/src/recovery_engine/infrastructure/recovery_queue_consumer.py:52-76 | a poll by an idle consumer is a run of the protocol |
| `QueueProgress.ReclaimIsARun` | services/recovery-engine/src/recovery_engine/infrastructure/recovery_queue_consumer.py:78-106 | a reclaim by an idle consumer is a run of the protocol, for any page the command may return |
| `QueueProgress.AnsweringWorldFinishes` | services/recovery-engine/src/recovery_engine/application/recovery_graph.py:59-88 | services and storage that answer, whatever they answer, let every run of the graph end |
| `QueueProgress.SilentWorldFinishes` | services/recovery-engine/src/recovery_engine/application/recovery_graph.py:59-88 | even a proposer without proposals lets every run end |
| `GatewayDecision.WorkerReplyDecidesJob` | services/api-gateway/src/api_gateway/application/use_cases/process_scrape_request_use_case.py:49-58 | composed with the worker's rule every reply moves a pending job on: SUCCESS exactly when the data covers the required fields, RECOVERY_PENDING exactly when it does not, FAILED exactly when the worker could not be reached; the assertion cannot fire |
| `GatewayDecision.AssertFiresExactlyWithoutReason` | services/api-gateway/src/api_gateway/application/use_cases/process_scrape_request_use_case.py:54-58 | for an arbitrary reply the assertion fires exactly for a failure without a reason: the policy alone does not guarantee it; besides, only a reply that cannot be read raises |
| `GatewayDecision.ReplyDecidesJob` | services/api-gateway/src/api_gateway/infrastructure/http_extraction_service.py:38-56 | every other reply, whatever worker sent it, decides the job: FAILED with http_error for an unknown reason even if it claims success, SUCCESS with its data, RECOVERY_PENDING for a repairable reason, FAILED with the reason otherwise |
| `GatewayDecision.WireRoundTrip` | services/api-gateway/src/api_gateway/infrastructure/http_extraction_service.py:38-56 | verdict, data and reason of the worker's validation arrive unchanged at the gateway |
| `GatewayDecision.ReasonRoundTrip` | services/extraction-worker/src/extraction_worker/interfaces/http/schemas.py:33-39 | failure reasons survive the wire format and stay distinct and non-empty |
| `JobTable.RowRoundTrip` | services/api-gateway/src/api_gateway/infrastructure/sql/job_mapper.py:14-35 | storing any job and reading it back gives the job |
| `JobTable.WithMutableColumnsReads` | services/api-gateway/src/api_gateway/infrastructure/sql/sqlalchemy_job_repository.py:26-29 | overwriting three columns of a row reads back as the old job with the new status, result and reason |
| `JobTable.SqlAlchemyJobRepository.Save` | services/api-gateway/src/api_gateway/infrastructure/sql/sqlalchemy_job_repository.py:21-31 | inserts an unknown job, overwrites three columns of a known one, touches no other row, and changes nothing if it raises |
| `JobTable.SqlAlchemyJobRepository.Get` | services/api-gateway/src/api_gateway/infrastructure/sql/sqlalchemy_job_repository.py:33-36 | the stored job, or None; raises exactly when the session does or for a row with an unknown status or reason |
| `JobTable.SqlJobRepository.Get` | services/recovery-engine/src/recovery_engine/infrastructure/sql/sql_job_repository.py:39-52 | the same reading on the recovery side |
| `JobTable.SqlJobRepository.Update` | services/recovery-engine/src/recovery_engine/infrastructure/sql/sql_job_repository.py:54-62 | never inserts: an unknown job raises and changes nothing |
| `RecoveryGraph.Ainvoke` | services/recovery-engine/src/recovery_engine/application/recovery_graph.py:59-88 | running the wired graph ends, and gives the result of the specification |
| `RecoveryGraph.EveryBoundaryOk` | services/recovery-engine/src/recovery_engine/application/nodes/analyze_and_propose.py:16-36 | at every node boundary of every run: one rejection per finished attempt, labelled with it; the k-th proposal call saw exactly the first k - 1 rejections; at most max(1, max_attempts) proposals; the ValueError and both assertions are unreachable; nothing is saved before the persist node |
| `RecoveryGraph.VisitKeepsBoundaryOk` | services/recovery-engine/src/recovery_engine/application/recovery_graph.py:47-88 | each node visit keeps that invariant |
| `RecoveryGraph.RunOutcome` | services/recovery-engine/src/recovery_engine/application/recovery_graph.py:59-88 | a run ends recovered, for review, or stopped by a service; recovered, it saved exactly the selectors its last live validation accepted; for review, none; the job's id, url, domain and deduplicated fields are in the final state |
| `RecoveryGraph.SavesThroughBounds` | services/recovery-engine/src/recovery_engine/application/nodes/persist_selector.py:20-23 | all selectors are saved exactly when no save raises; otherwise exactly those before the first one whose save raises |
| `GraphSearch.GraphIsFirstSuccessSearch` | services/recovery-engine/src/recovery_engine/application/recovery_graph.py:59-88 | for all services the graph ends recovered if and only if some attempt within max(1, max_attempts) is accepted while all earlier ones are rejected and no save raises, for review if and only if every attempt is rejected, after exactly 2k + 2 node visits for k proposals |
| `GraphSearch.SearchDecides` | services/recovery-engine/src/recovery_engine/application/nodes/decide_next_step.py:17-24 | the deciding attempt is unique, and exists exactly when not every attempt rejects |
| `GraphSearch.OneAttempt` | services/recovery-engine/src/recovery_engine/application/nodes/validate_selectors_live.py:16-43 | two node visits from a proposal on: what an accepted, rejected or broken attempt leaves in the merged state and where it routes; a rejected proposal is cleared |
| `GraphSearch.AcceptedRun` | services/recovery-engine/src/recovery_engine/application/nodes/persist_selector.py:14-25 | a run decided by an accepted attempt k: its data, its length, and, if a save raises, exactly the selectors before the first one that does |
| `GraphSearch.BrokenRun` | services/recovery-engine/src/recovery_engine/application/recovery_graph.py:59-88 | a run whose deciding attempt breaks stops with nothing saved after k proposals |
| `GraphSearch.ExhaustedRun` | services/recovery-engine/src/recovery_engine/application/nodes/handle_no_confident_proposal.py:16-24 | a run in which every attempt rejects: for review, exact length, and its rejection history is the search's |
| `GraphSearch.NoScreenshotRun` | services/recovery-engine/src/recovery_engine/application/nodes/capture_screenshot.py:11-15 | without a screenshot the run stops at once |
| `RecoveryServices.LiveValidationMeaning` | services/recovery-engine/src/recovery_engine/infrastructure/http_worker_service.py:27-51 | a candidate is accepted exactly when the page gives text for every required field, and what the page gave comes back; otherwise with the reason of the first gap; a page that does not load raises |
| `RecoveryServices.RecoveredRunCovers` | services/recovery-engine/src/recovery_engine/application/nodes/validate_selectors_live.py:22-31 | a recovered run's data is what its saved selectors read off the page it validated on, covers every required field, and there is a saved selector for each |
| `LiveSearch.LiveRunExactly` | services/recovery-engine/src/recovery_engine/application/recovery_graph.py:59-88 | in terms of proposer and pages: a run ends recovered if and only if some attempt wins (the first one not rejected, with a confident proposal that gives text for every required field on a page that loads, and no save that raises), and hands on that attempt's data and selectors; it ends for review if and only if all are rejected; in every other case it stops |
| `LiveSearch.AllRejectedExactly` | services/recovery-engine/src/recovery_engine/application/nodes/decide_next_step.py:17-24 | all attempts are rejected if and only if each one reached has no confident proposal, or one that leaves a gap on a page that loads |
| `LiveSearch.ServiceDownStops` | services/recovery-engine/src/recovery_engine/infrastructure/http_worker_service.py:27-51 | when the proposer raises at attempt k, or the page of its confident proposal does not load, the run stops after k proposals with nothing saved |
| `RecoveryServices.ValidSelectors` | services/recovery-engine/src/recovery_engine/infrastructure/claude_vision_recovery_engine.py:119-123 | exactly the textual entries for requested fields, each traced to an item of the reply |
| `RecoveryServices.ValidSelectorsInOrder` | services/recovery-engine/src/recovery_engine/infrastructure/claude_vision_recovery_engine.py:119-123 | the filter keeps the order of the reply's items |
| `RecoveryServices.ParseReplyMeaning` | services/recovery-engine/src/recovery_engine/infrastructure/claude_vision_recovery_engine.py:105-128 | a reply is trusted exactly when it is an object with a textual entry for some requested field, and then proposes those entries and no others |
| `RecoveryServices.FilteredRecoverySavesRequiredFields` | services/recovery-engine/src/recovery_engine/infrastructure/claude_vision_recovery_engine.py:119-128 | behind this filter a recovered run saves selectors for the required fields and for nothing else |
| `RecoveryServices.PersistSelectors` | services/recovery-engine/src/recovery_engine/application/nodes/persist_selector.py:14-25 | the loop against the worker's repository: which saves went through, which one raised, and the store they leave; on a well-versioned table it stops at the first item whose cache write raises |
| `Validation.ValidateMeaning` | libs/sentinel_shared/src/sentinel_shared/domain/extraction_validator.py:17-48 | success exactly when every required field has non-blank text; the reason is that of the first gap; missing_fields has each gap as often as it was required |
| `Validation.MissingFieldsOfFromKeys` | services/recovery-engine/src/recovery_engine/infrastructure/recovery_queue_consumer.py:154 | filtering gaps and removing repetitions commute |
| `Validation.FromKeysKeepsVerdict` | services/recovery-engine/src/recovery_engine/infrastructure/recovery_queue_consumer.py:149-163 | the dict.fromkeys deduplication changes neither verdict, reason nor coverage |
| `Text.StripFacts` | libs/sentinel_shared/src/sentinel_shared/domain/extraction_validator.py:34-39 | stripping leaves nothing exactly for blank text, and stripping twice is stripping once |
| `Text.StripExactly` | services/extraction-worker/src/extraction_worker/infrastructure/playwright_browser.py:54 | the stripped text is the only one between white space that neither starts nor ends with white space |
| `ExtractionWorker.ExtractWithSelectors` | services/extraction-worker/src/extraction_worker/infrastructure/playwright_browser.py:46-55 | item by item: the extracted fields are those whose selector finds an element, each with that element's text without the white space around it, or nothing for an element without text |
| `ExtractionWorker.ExtractedExactly` | services/extraction-worker/src/extraction_worker/infrastructure/playwright_browser.py:46-55 | the same of the extraction on values, and no other text would do |
| `ExtractionWorker.UsableExactly` | services/extraction-worker/src/extraction_worker/infrastructure/playwright_browser.py:50-54 | a field has usable text exactly when its selector finds an element with non-blank text |
| `ExtractionWorker.ResolveKnownSelectors` | services/extraction-worker/src/extraction_worker/application/use_cases/extract_data_use_case.py:55-70 | the loop in place: the dictionary and the warmed cache are those of the specification, also when a read raises |
| `ExtractionWorker.ResolveMeaning` | services/extraction-worker/src/extraction_worker/application/use_cases/extract_data_use_case.py:55-70 | resolution gives exactly the required fields with a known selector, although each read may warm the cache |
| `ExtractionWorker.ReadsKeepKnown` | services/extraction-worker/src/extraction_worker/infrastructure/redis_postgres_selector_repository.py:31-41 | a read never changes which selector any field of its domain resolves to |
| `ExtractionWorker.Execute` | services/extraction-worker/src/extraction_worker/application/use_cases/extract_data_use_case.py:28-53 | the use case in place, with candidate selectors or resolved ones |
| `ExtractionWorker.ExtractionMeaning` | services/extraction-worker/src/extraction_worker/application/use_cases/extract_data_use_case.py:28-53 | an extraction raises exactly when the page does not load; candidate selectors are used as they are, without touching the repository; the verdict is about the extracted data |
| `ExtractionWorker.NominalSuccessExactly` | services/extraction-worker/src/extraction_worker/application/use_cases/extract_data_use_case.py:28-70 | the nominal path succeeds exactly when every required field has a known selector that finds non-blank text |
| `CacheKeys.KeysCollideExactly` | services/extraction-worker/src/extraction_worker/infrastructure/redis_postgres_selector_repository.py:22-23 | two names share a key exactly when they are equal or one domain continues the other past a colon that the other field contains |
| `CacheKeys.KeyInjective` | services/extraction-worker/src/extraction_worker/infrastructure/redis_postgres_selector_repository.py:22-23 | keys identify names whose fields contain no colon, and always within one domain |
| `CacheKeys.KeysCanCollide` | services/extraction-worker/src/extraction_worker/infrastructure/redis_postgres_selector_repository.py:22-23 | without that restriction two names do share a key |
| `SelectorStore.FindActiveMeaning` | services/extraction-worker/src/extraction_worker/infrastructure/redis_postgres_selector_repository.py:70-81 | the query finds the only active row of a name, none, or reports that there are several |
| `SelectorStore.LookupIsNewest` | services/extraction-worker/src/extraction_worker/infrastructure/redis_postgres_selector_repository.py:70-81 | on a well-versioned history a read gives the newest version or nothing, and never raises |
| `SelectorStore.SaveRowsExtendsHistory` | services/extraction-worker/src/extraction_worker/infrastructure/redis_postgres_selector_repository.py:83-109 | one save appends the next version as the only active row of its name, retires the previous one, leaves every other history alone, and keeps all of them well-versioned |
| `SelectorStore.SaveMeaning` | services/extraction-worker/src/extraction_worker/infrastructure/redis_postgres_selector_repository.py:43-45 | on a well-versioned table a save raises exactly when its cache write does, and either way its own history is extended by the next active version and no other is touched; the cache has the saved version, or is as before if the write raised |
| `SelectorStore.SavedIsRead` | services/extraction-worker/src/extraction_worker/infrastructure/redis_postgres_selector_repository.py:31-45 | after either, a read past the cache gives the saved selector with its new version |
| `SelectorStore.RunsOfSavesAppend` | services/extraction-worker/src/extraction_worker/infrastructure/redis_postgres_selector_repository.py:83-109 | any list of saves goes through; every name's old rows stay, changed at most in the active flag, followed by one row per save in order |
| `SelectorStore.VersionsCountSaves` | services/extraction-worker/src/extraction_worker/infrastructure/redis_postgres_selector_repository.py:83-109 | after any run from empty the versions of a name are exactly 1..n and only version n is active |
| `SelectorRepositories.RedisPostgresSelectorRepository.GetActiveSelector` | services/extraction-worker/src/extraction_worker/infrastructure/redis_postgres_selector_repository.py:31-41 | a hit is served and changes nothing; a miss on well-versioned rows gives the newest version, which it puts into the cache, or None |
| `SelectorRepositories.RedisPostgresSelectorRepository.SaveSelector` | services/extraction-worker/src/extraction_worker/infrastructure/redis_postgres_selector_repository.py:43-45 | table first, then cache: on well-versioned rows it raises exactly when the cache write does, and either way the history of its name is extended and no other touched |
| `SelectorRepositories.RedisPostgresSelectorRepository.SaveToPostgres` | services/extraction-worker/src/extraction_worker/infrastructure/redis_postgres_selector_repository.py:83-109 | the transaction in place; several active rows raise and change nothing |
| `SelectorRepositories.RedisPostgresSelectorRepository.GetFromCache` | services/extraction-worker/src/extraction_worker/infrastructure/redis_postgres_selector_repository.py:47-58 | a hit carries the asked name and the cached value, source and version |
| `SelectorRepositories.RedisPostgresSelectorRepository.GetFromPostgres` | services/extraction-worker/src/extraction_worker/infrastructure/redis_postgres_selector_repository.py:70-81 | on well-versioned rows the newest version of the name or None; in general the active row, none, or raises for several |
| `SelectorRepositories.InMemorySelectorRepository.SaveSelector` | services/extraction-worker/src/extraction_worker/infrastructure/in_memory_selector_repository.py:27-42 | after any saves the map holds, for each name, the last one numbered on from the first |
| `SelectorRepositories.InMemorySelectorRepository.GetActiveSelector` | services/extraction-worker/src/extraction_worker/infrastructure/in_memory_selector_repository.py:24-25 | the last save of the name with its number, or None if there was none |
| `SelectorAgreement.RunAgreesExactly` | services/extraction-worker/src/extraction_worker/infrastructure/in_memory_selector_repository.py:24-42 | from coupled states with collision-free names a run of saves, reads and lost cache entries gives the in-memory answers if and only if each name it reads had the default version on its first save; versions of later saves are ignored by both |
| `SelectorAgreement.CoupledRunsAgree` | services/extraction-worker/src/extraction_worker/infrastructure/redis_postgres_selector_repository.py:31-109 | so from coupled states every run in which first saves carry the default version agrees |
| `SelectorAgreement.AgreementExactly` | services/extraction-worker/src/extraction_worker/infrastructure/in_memory_selector_repository.py:24-42 | over a set of names all runs in which the first save of each name carries the default version agree with the in-memory repository, including version and source, if and only if no two names share a cache key |
| `SelectorAgreement.AgreementWithoutColons` | services/extraction-worker/src/extraction_worker/infrastructure/redis_postgres_selector_repository.py:22-23 | in particular for all names whose fields contain no colon |
| `SelectorAgreement.OverlappingSavesExactly` | services/extraction-worker/src/extraction_worker/infrastructure/redis_postgres_selector_repository.py:83-109 | two saves that both read before either commits keep the table well-versioned if and only if their names differ; otherwise later reads of that name raise |
| `CacheAside.CachedEntriesAreGenuine` | services/extraction-worker/src/extraction_worker/infrastructure/redis_postgres_selector_repository.py:31-45 | over every interleaving of split reads and saves with late, failed and lost cache writes, a cached entry is a row its name really had, with at most the active version |
| `CacheAside.NonOverlappingCacheIsFresh` | services/extraction-worker/src/extraction_worker/infrastructure/redis_postgres_selector_repository.py:31-45 | when operations do not overlap and no cache write fails, a cached entry is the active row |
| `CacheAside.AnswersAreGenuine` | services/extraction-worker/src/extraction_worker/infrastructure/redis_postgres_selector_repository.py:31-41 | over every interleaving, what a read finds is a row its name really had, no newer than the versions there were, and it finds nothing if and only if the name had no row then |
| `CacheAside.SaveIsSteps` | services/extraction-worker/src/extraction_worker/infrastructure/redis_postgres_selector_repository.py:43-45 | a save that nothing interrupts is the transaction and the cache write, or its failure, in a row: the theorems on interleavings speak of the repository's calls |
| `CacheAside.GetIsSteps` | services/extraction-worker/src/extraction_worker/infrastructure/redis_postgres_selector_repository.py:31-41 | so is a read: cache, table after a miss, cache write |
| `CacheFreshness.OvertakenReaderLeavesStaleEntry` | services/extraction-worker/src/extraction_worker/infrastructure/redis_postgres_selector_repository.py:37-41 | in any state, a reader that has read the active row and is overtaken by a complete save writes the previous version over the new one |
| `CacheFreshness.OvertakenFromStart` | services/extraction-worker/src/extraction_worker/infrastructure/redis_postgres_selector_repository.py:31-45 | for any two selectors of one name there is a run from the empty store, without a failed write or a lost key, that ends with the first version cached and the second active |
| `CacheFreshness.FailedWriteLeavesStaleEntry` | services/extraction-worker/src/extraction_worker/infrastructure/redis_postgres_selector_repository.py:43-45 | a save whose cache write fails leaves the cached entry one version behind |
| `CacheFreshness.FreshUntilSavedExactly` | services/extraction-worker/src/extraction_worker/infrastructure/redis_postgres_selector_repository.py:31-45 | in every state the interleavings reach, a name's cache entry stays the active row in every continuation without a save of that name, failed writes included, if and only if it is the active row now and every cache write in flight for the name is of it |
| `CacheFreshness.ToldUntilSavedExactly` | services/extraction-worker/src/extraction_worker/infrastructure/redis_postgres_selector_repository.py:31-45 | in every state the interleavings reach, all later reads of a name are told its active row, in every continuation without a save of it, if and only if the name is settled in that sense |
| `CacheFreshness.SavedIsToldExactly` | services/extraction-worker/src/extraction_worker/infrastructure/redis_postgres_selector_repository.py:43-45 | after a completed save all later reads of the name are told exactly the saved selector with its new version, in every continuation without another save of it, if and only if no older cache write for the name was in flight |
| `CacheFreshness.CompletedSaveSettlesExactly` | services/extraction-worker/src/extraction_worker/infrastructure/redis_postgres_selector_repository.py:43-45 | a completed save makes its name's entry the active row, and it stays so in that sense if and only if no older cache write for the name is in flight |
| `CacheFreshness.LostKeySettlesExactly` | services/extraction-worker/src/extraction_worker/infrastructure/redis_postgres_selector_repository.py:47-50 | a lost key does the same if and only if every cache write in flight for the name is of the active row |
| `CacheFreshness.ReaderReplaces` | services/extraction-worker/src/extraction_worker/infrastructure/redis_postgres_selector_repository.py:37-41 | a reader that missed before a stale entry was written repairs it |
| `CacheFreshness.EntryStaysUntilSavedOrLost` | services/extraction-worker/src/extraction_worker/infrastructure/redis_postgres_selector_repository.py:31-41 | a cached entry, stale or not, is served in every continuation that neither saves its name nor loses its key if and only if nothing in flight would write another one |
| `Healing.SaveAllSetsKnown` | services/recovery-engine/src/recovery_engine/application/nodes/persist_selector.py:20-23 | after the saves the saved selectors are the ones the nominal path resolves, whatever was stored or cached, and the rest of the domain is as before |
| `Healing.SaveAllRecords` | services/recovery-engine/src/recovery_engine/application/nodes/persist_selector.py:20-23 | each saved field gets one new active row with the next version, marked as proposed by the model; every other history is as before |
| `Healing.NominalFollowsSaved` | services/extraction-worker/src/extraction_worker/application/use_cases/extract_data_use_case.py:28-70 | if the saved selectors cover the required fields on a page, the nominal extraction succeeds with that data cut down to the required fields |
| `Healing.RecoveryHeals` | services/recovery-engine/src/recovery_engine/application/nodes/persist_selector.py:14-25 | after a recovered run has saved its selectors, and after any further reads, lost keys and saves of other names that share no cache key with a required field, the nominal extraction on an unchanged page succeeds from any well-versioned store; its data is the recovered data of the required fields, and all of it if and only if nothing else was recovered |
| `Healing.RecoveryHealsAtOnce` | services/recovery-engine/src/recovery_engine/application/nodes/persist_selector.py:14-25 | right after the saves this needs no assumption on names |
| `Healing.KnownLastsExactly` | services/extraction-worker/src/extraction_worker/infrastructure/redis_postgres_selector_repository.py:22-23 | a known selector outlasts all later reads, lost keys and saves of other names if and only if none of those names shares its cache key |
| `HealingOverlap.HealingLastsExactly` | services/extraction-worker/src/extraction_worker/infrastructure/redis_postgres_selector_repository.py:31-45 | when the selectors are persisted while other operations are in flight, all later reads of the required fields are told the persisted selectors, in every continuation without a save of the field, if and only if no older cache write for a required field was in flight |
| `HealingOverlap.RecoveryHealsAmongOthers` | services/extraction-worker/src/extraction_worker/application/use_cases/extract_data_use_case.py:28-70 | then reads made at any moments of any such continuation, lost keys and failed cache writes included, resolve to the persisted selectors and the extraction succeeds with the recovered data of the required fields |
| `HealingOverlap.SettledReadsMend` | services/extraction-worker/src/extraction_worker/application/use_cases/extract_data_use_case.py:55-70 | the same from any state, however it was reached, in which the required fields are settled on the saved selectors |
| `HealingOverlap.PersistedSelectorOverwritten` | services/extraction-worker/src/extraction_worker/infrastructure/redis_postgres_selector_repository.py:37-41 | from the empty store, without a failure or a lost key, an older read overwrites the cache entry of a persisted selector; the first selector is used again, and a page on which it finds nothing is not extracted |
| `Healing.NextRequestSucceeds` | services/api-gateway/src/api_gateway/application/use_cases/process_scrape_request_use_case.py:32-47 | after the operations of `RecoveryHeals`, a request for the same page, domain and fields is answered synchronously with SUCCESS and that data |
| `RateLimiter.RedisRateLimiter.IsAllowed` | services/api-gateway/src/api_gateway/infrastructure/redis_rate_limiter.py:21-28 | one call: counted in a live window, or opening one that ends `window` seconds after its EXPIRE; let through while the count is within the limit; no other key changes |
| `RateLimiter.AllowedExactly` | services/api-gateway/src/api_gateway/infrastructure/redis_rate_limiter.py:21-28 | over any history of calls and late or missing EXPIREs, a call is let through if and only if fewer than `limit` calls of its identifier came before it in its window, where windows are read off the history alone |
| `RateLimiter.FirstCallsAllowed` | services/api-gateway/src/api_gateway/infrastructure/redis_rate_limiter.py:21-28 | the first `limit` calls of an identifier are let through |
| `RateLimiter.WindowEnds` | services/api-gateway/src/api_gateway/infrastructure/redis_rate_limiter.py:23-28 | if the EXPIRE of the call that opened a window landed at t, the first `limit` calls after t + window are let through, at any time and whatever happened before |
| `RateLimiter.NextWindowOpens` | services/api-gateway/src/api_gateway/infrastructure/redis_rate_limiter.py:23-26 | the first call after a window has ended opens the next one |
| `RateLimiter.PotentialPays` | services/api-gateway/src/api_gateway/infrastructure/redis_rate_limiter.py:21-28 | each command pays for the call it lets through out of a bounded potential |
| `RateLimiter.SlidingBound` | services/api-gateway/src/api_gateway/infrastructure/redis_rate_limiter.py:21-28 | in any half-open interval of one window's length, over any time-ordered history with late or missing EXPIREs, one identifier is let through at most 2 * limit - 1 times, never if the limit is not positive |
| `RateLimiter.SlidingBoundIsTight` | services/api-gateway/src/api_gateway/infrastructure/redis_rate_limiter.py:21-28 | for every positive limit and window some history reaches that bound |
| `RateLimiter.BlockedUntilDeadlineExactly` | services/api-gateway/src/api_gateway/infrastructure/redis_rate_limiter.py:23-28 | an identifier that used up its limit is let through exactly when its key has a deadline and the clock is past it |
| `RateLimiter.WithoutExpireBlockedForGood` | services/api-gateway/src/api_gateway/infrastructure/redis_rate_limiter.py:25-26 | if the first caller's EXPIRE never lands, a used-up identifier is never let through again |
| `RateLimiter.CallOnceIsEvents` | services/api-gateway/src/api_gateway/infrastructure/redis_rate_limiter.py:21-28 | an undisturbed call is the two commands of the histories in a row |

## Left out

- HTTP routing, schema validation and authentication: a request reaches the model as its
  arguments. Both HTTP schemas refuse an empty list of required fields; the model allows it.
- The browser: a page is a function from a selector to an element's optional text; navigation
  errors and selectors the browser refuses are pages that raise.
- SQLAlchemy sessions and the identity map, redis-py, LangGraph's own machinery and its
  recursion limit, and the Anthropic SDK.
- The prompt, JSON text parsing, screenshots' bytes and the random mock engine: proposals are
  an arbitrary function, and the filter starts from an already parsed JSON value.
- The text of rejection reasons: an entry of the history keeps its attempt, selectors and
  reason as values.
- Metrics, tracing and cost estimates, including trace fields in stream entries.
- Time in the consumer group: a claim may return any page of at most 100 pending entries in
  order, which covers every idle time; the returned cursor is ignored as in the code.
- Trimming and deletion of stream entries: nothing in the code does either.
- Unconditional progress: no service calls the reclaim on its own, and a claim passes over
  entries that have not been idle long enough. `Drains` holds for consumers that do poll and
  reclaim in turn, with claims that hand over something whenever an entry is pending.
- Replies of a worker that does not apply the shared rule: `ReplyDecidesJob` says what the gateway
  makes of one, but the protocol has only those at which the gateway raises.
- Freshness of job ids: a request starts with an id no earlier request had.
- Other isolation levels of the save transaction: it is atomic, except in
  `OverlappingSavesExactly`, where both transactions read before either commits.
- Calls that both raise and take effect: a table write, XADD or XACK either happens or
  raises, except the selector save, whose cache write may raise after its commit.
- Selector sources other than the two the worker's router passes on.
- Redis eviction of rate-limit keys and crashes of Redis itself.
- The user interface, deployment, seeding and demo engine.
