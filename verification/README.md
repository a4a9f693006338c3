# Verified models of saivage-v3

This project models four state machines of the repository and proves what they promise. The models
follow the code's branches, constants and error conditions. Code that updates objects in place is
written as classes and loops, each proved equal to a transition function on values; what the code is
for is then proved about that function, over every input and every run.

- **The admitted-execution retry scheduler.** `AdmittedExecution` is the scheduling loop as a
  transition system: a state (records, evidence, shared availability store, clock, abort flag), one
  input per iteration (clock readings, how an attempt settles, what other invocations do to the store
  and whether the owner aborts during the await), and `Step`/`Run`. `InvocationRun.AdmittedRun` is the
  object that runs the loop. `CandidateAvailability` and `RecoveryPolicy` are the store and the failure
  policy. `AttemptLedger` reads counters, overload streaks and due times off the history alone, and
  `AdmittedRefresh`, `AdmittedExecutionSelection`, `AdmittedExecutionInvariant`, `AdmittedRecovery`,
  `AdmittedTurn`, `AdmittedEvolution`, `AdmittedOutcome`, `AdmittedDeadline` and `AdmittedTermination` prove
  the properties. `AttemptLimitWitness` shows that the attempt limit is met.
- **The streaming parser stack.** `ServerSentEvents` holds the incremental reader and the line-based
  rules of sections 9.2.5 and 9.2.6 of the WHATWG HTML Living Standard; `EventPrinting` prints and reads
  back; `CodexEvents` folds events into a completion, `CodexDemultiplexing` follows one call through any
  interleaving, `CodexStream` is the parser as an object whose pending calls are mutable objects
  reachable under two keys, and `CodexResult` says what a whole text amounts to.
- **Project oversight.** `ProjectOversight` is the timer machine and its class.
- **Card graph traversals.** `Graph`, `CardValidation` and `CardIndex`.

Where the code departs from what one might expect, the model follows the code:

- Context exhaustion is accounted without a budget check, so a record can be suspended with its four
  finite failures spent and still get the mandatory attempt of the resumed run. `AdmittedTurn.FifthFailureExactly`
  shows that a fifth failure is possible exactly then, and `AdmittedTurn.TurnIsSafe` that every other turn
  stays within four per record; `AdmittedTurn.MandatoryFailureCounts` gives both continuations of that
  attempt, of which an overload keeps the record alive with its budget spent. `AttemptLimitWitness` has a
  concrete turn for each.
- Without a local overload, one record waiting for a standard retry holds back every other ready record
  except untried ones.
- A completed item that repeats only its item id after the call was completed is emitted a second time.
  `CodexDemultiplexing.EmittedAgainExactly` shows that a further completion of a call emits it again in
  exactly this case, and `CodexEvents.ItemIdOnlyCompletionDoubles` is a concrete stream.
- An event pending at end of input is dispatched, which the standard does not do.
  `ServerSentEvents.AgreesWithStandardExactly` says for which texts that matters.

## Model

| member | source | states |
|---|---|---|
| `CandidateAvailability.ReplayRefinesHorizons` | src/agents/candidate-availability.ts:23-65 | over any call sequence the store has one entry per candidate, blocked exactly while some failure is later than the last success, with the largest of those failures' horizons; availability is exactly that all of them have passed |
| `CandidateAvailability.EntryReportsLatestCall` | src/agents/candidate-availability.ts:23-61 | over any call sequence an entry exists exactly once its candidate was marked, and carries state, reason and time of the last call about it, whichever failure its horizon comes from |
| `CandidateAvailability.PutKeepsOrder` | src/agents/candidate-availability.ts:36-61 | entries keep their places, and a new one comes last |
| `CandidateAvailability.MemoryCandidateAvailability.Failed` | src/agents/candidate-availability.ts:42-61 | marking a failure in place is the map update in which a longer existing block survives |
| `CandidateAvailability.MemoryCandidateAvailability.Succeeded` | src/agents/candidate-availability.ts:30-40 | marking a success in place replaces the candidate's entry and no other |
| `RecoveryPolicy.RateLimitHorizon` | src/agents/invocation-recovery-policy.ts:58-67 | a rate-limit block always lies ahead: for the provider's positive retry-after, else until its reset time if that lies ahead, else for the recovery delay and at least a minute |
| `RecoveryPolicy.OwnBlockIsOverWhenDue` | src/agents/invocation-recovery-policy.ts:33-99 | every retry is due in the future, and the block its own failure causes is over by then exactly when the recovery delay covers the minimal cooldown or the failure kind does not use one |
| `AdmittedExecution.OldestReadyOverload` | src/agents/invocation-service.ts:923-928 | the head of the sort: no ready overloaded record is due earlier, or equally early on an earlier route |
| `AdmittedExecutionSelection.GivesUpExactlyWhenHopeless` | src/agents/invocation-service.ts:898-1004 | the scheduler answers timeout or none if and only if every record, as it stood before the refresh, is exhausted, out of time, or untried or temporarily unavailable and blocked in the store for a reason that does not pass; the deadline decides which answer |
| `AdmittedExecutionSelection.OverloadNeverGivesUp` | src/agents/invocation-service.ts:914-957 | while a record is in local overload the answer is an attempt or a wait |
| `AdmittedExecutionSelection.WaitsAreSafe` | src/agents/invocation-service.ts:929-956 | every chosen wait is positive and ends at some record's own due time (finite ones cut at the deadline): by the deadline without overload, at the earliest such moment with one |
| `AdmittedExecutionSelection.FiniteWaitIsBounded` | src/agents/invocation-service.ts:963-1003 | without overload the wait is for the first record waiting for a standard retry, failing that for the rate limit that ends first, failing that for the first record with a block that passes, and ends exactly when that wait or block does or at the deadline if that is sooner |
| `AdmittedExecutionSelection.OverloadWaitIsTight` | src/agents/invocation-service.ts:929-956 | the wait during overload is neither too long nor too short: before it ends no record could be attempted, save one blocked for a reason that does not pass, and when it ends a wait, a block or the time of some record is over |
| `AdmittedExecutionSelection.FiniteChoiceIsBestRanked` | src/agents/invocation-service.ts:959-978 | without overload an attempt happens exactly when some record is eligible, on the first in route order of the best class: ready standard retry, available untried, ready rate limit; a pending standard retry lets only untried ones through |
| `AdmittedExecutionSelection.OverloadChoiceIsBest` | src/agents/invocation-service.ts:914-928 | during overload an attempt happens exactly when a finite record is ready and available or an overloaded one is due, finite ones first in route order |
| `AdmittedExecutionSelection.AttemptsArePermitted` | src/agents/invocation-service.ts:680-712 | an ordinary run attempts only available or locally overloaded candidates; after the deadline only untried or overloaded ones; overloaded ones oldest due first and only when no finite one is ready and available |
| `AdmittedRefresh.RefreshesExactly` | src/agents/invocation-service.ts:1006-1077 | what a refresh makes of each record, from the record before it: exhausted exactly when it was or the deadline catches it pending; withheld exactly while the store blocks it, until the store's horizon and for its reason; ready exactly when its wait or block is over, in the right wait class; otherwise unchanged, its counters always |
| `AdmittedEvolution.RecordsEvolveExactly` | src/agents/invocation-service.ts:680-712 | an iteration the run survives changes each record by its refresh and then only by its own failure (counted, waiting in the class of the failure until it is due by the history, exhausted by the fourth finite one) or by being set aside (withheld for a block that passes, exhausted by any other) |
| `AdmittedEvolution.PinnedWaitsUntilDue` | src/agents/invocation-service.ts:907-912 | a pinned run waits exactly until its record is due by the history and attempts it otherwise |
| `AdmittedOutcome.OutcomeIsExplained` | src/agents/invocation-service.ts:600-800 | every outcome of a run follows from its history: from the last attempt, with its failure and candidate; from an abort; or from giving up, with the last failure the run has met or, if none, the deadline's or the missing candidate's error |
| `AdmittedOutcome.AbortEndsRun` | src/agents/invocation-service.ts:603-604 | once the owner has aborted, the next iteration ends the run and changes nothing else |
| `AdmittedOutcome.StoreIsReplayed` | src/agents/invocation-service.ts:743-812 | after any run the shared store is what replaying other invocations' calls and the run's own publications makes of it, each publication (state, horizon and reason by failure kind and overload streak) following from the history |
| `AdmittedOutcome.WaitsForRetryables` | src/agents/invocation-service.ts:72-78 | the reasons a block is waited out for are exactly those that retryable failures publish |
| `AdmittedExecutionInvariant.RefreshKeepsInv` | src/agents/invocation-service.ts:1006-1077 | refreshing keeps every record in step with the history: counters, backoff, due times and budgets survive each reclassification (`AdmittedRefresh.RefreshesExactly` says which one happens) |
| `AdmittedExecutionInvariant.AccountedIsGood` | src/agents/invocation-service.ts:801-895 | accounting a failure leaves the invariant, or a suspension holding exactly the refused record as context-failed |
| `AdmittedExecutionInvariant.StepKeepsGood` | src/agents/invocation-service.ts:600-765 | every iteration keeps the invariant or ends with an outcome that carries all evidence; the missing-plan and lost-mandatory errors never happen |
| `AttemptLedger.BackoffDoubles` | src/agents/invocation-service.ts:815-817 | min(600000, 30000 * 2^(k-1)) is what repeated capped doubling gives, and takes six values only |
| `AdmittedTurn.StepAnatomy` | src/agents/invocation-service.ts:604-752 | an iteration dispatches at most one attempt, of a record that is untried, ready or the pending mandatory one, and otherwise adds no attempt and revives nothing |
| `AdmittedTurn.RunIsSafe` | src/agents/invocation-service.ts:600-896 | after every run: the invariant, no retry before it is due, and at most 4 attempts per record and 4n in all that are not overload failures; only a resumed run whose refused record was suspended with four finite failures may make one more, on that record |
| `AdmittedTurn.EvidenceIsConserved` | src/agents/invocation-service.ts:736-800 | success and every turn failure carry all settled exchanges in order, with index and input id; an unwrapped error is a broken integrity or means nothing had settled; the phase says whether evidence exists |
| `AdmittedTurn.FailuresAreAccounted` | src/agents/invocation-service.ts:801-895 | attempts are finite failures plus overload failures as counted in the history, and the stored backoff is the one of the current overload streak |
| `AdmittedTurn.BackoffIsWaited` | src/agents/invocation-service.ts:815-817 | after the k-th overload failure in a row a record is not attempted again before min(600000, 30000 * 2^(k-1)) ms have passed |
| `AdmittedTurn.ExhaustedIsAbsorbing` | src/agents/invocation-service.ts:873-877 | an exhausted record never changes and is never attempted again |
| `AdmittedTurn.TurnIsSafe` | src/agents/invocation-service.ts:380-487 | a whole turn: a suspension verifies; preparing it fails exactly when a record that is not exhausted no longer admits; resuming keeps deadline, records and evidence, dispatches only planned records and never suspends again; the turn makes at most 4n attempts that are not overload failures, or 4n + 1 if the refused record was suspended with its budget spent |
| `AdmittedTurn.FifthFailureExactly` | src/agents/invocation-service.ts:824-871 | some continuation of a suspended turn brings a record to a fifth attempt that is not an overload failure if and only if the refused record was suspended with four finite failures |
| `AdmittedTurn.MandatoryFailureCounts` | src/agents/invocation-service.ts:801-895 | a retryable failure of the mandatory attempt adds one to the finite failures and uses the record up exactly when there were three or more, unless it is an overload, which keeps the record alive with its count unchanged |
| `AdmittedDeadline.OneLateAttemptEach` | src/agents/invocation-service.ts:1027-1043 | from any state on, a run makes at most one attempt per record at or after its deadline that is not an overload failure |
| `AdmittedTermination.GivesUpOnlyWhenHopeless` | src/agents/invocation-service.ts:618-679 | an iteration ends a run without an attempt if and only if every record, as it stood before the refresh, is exhausted, out of time or blocked for a reason that does not pass, once no mandatory attempt is owed and the owner has not aborted |
| `AdmittedTurn.FailureLeadsTo` | src/agents/invocation-service.ts:767-896 | exactly which failures the loop survives, which suspend the run, and which use up their record |
| `AdmittedTurn.FailureIsPublished` | src/agents/invocation-service.ts:801-812 | after a failure a candidate is available exactly when it was before and, if it is the failed one and a block is published, that block has passed; a pinned run publishes overloads only |
| `AdmittedTurn.SuccessIsPublished` | src/agents/invocation-service.ts:743-743 | after a success its candidate is available and no other candidate is affected |
| `AdmittedTurn.AbortPublishesNothing` | src/agents/invocation-service.ts:743-800 | once aborted, no settlement changes the availability store |
| `AdmittedTurn.PinnedIgnoresStore` | src/agents/invocation-service.ts:907-913 | a pinned run does the same whatever the availability store holds |
| `AdmittedTurn.PinnedRetriesOverloadsOnly` | src/agents/invocation-service.ts:852-871 | a pinned run retries overloads only, so it makes at most one attempt that is not an overload, and never suspends |
| `AdmittedRecovery.OrdinaryStartIsGood` | src/agents/invocation-service.ts:347-377 | a run over the admitted candidates of a duplicate-free chain starts from the invariant |
| `AdmittedRecovery.OrdinaryStartIsComplete` | src/agents/invocation-service.ts:347-377 | the run starts with two hours' time over exactly the admitted candidates in route order, each untried and with the plan it was admitted with |
| `AdmittedRecovery.PinnedStartIsGood` | src/agents/invocation-service.ts:489-519 | so does a pinned run |
| `AdmittedRecovery.PinnedStartIsComplete` | src/agents/invocation-service.ts:489-519 | one untried record on route 0 with its plan and two hours' time |
| `AdmittedRecovery.SuspensionsVerify` | src/contracts/invocation-admission.ts:456-540 | a suspension the scheduler makes passes every structural check of its verifier, the failure phase of the context-failed record included |
| `AdmittedRecovery.VerifiesExactly` | src/contracts/invocation-admission.ts:456-540 | the verifier accepts exactly the suspensions whose records and authority are in step, in route order and without duplicates, whose counters some history accounts for, whose evidence is indexed in order under the input id, and in which one record alone, the one named, was refused by a provider |
| `AdmittedRecovery.PreparationFailsExactly` | src/agents/invocation-service.ts:397-437 | plans are rebuilt for all records that are not exhausted, or the error names the first record in order that no longer admits |
| `AdmittedRecovery.PrepareExactly` | src/agents/invocation-service.ts:380-455 | preparing succeeds if and only if the route is ordinary, the suspension intact, the bindings unchanged and every record that is not exhausted re-admits; otherwise it fails with the first of these that does not hold |
| `AdmittedRecovery.ResumedPlans` | src/agents/invocation-service.ts:397-486 | a resumed run has the plan of its readmission for every record it can attempt, and no others |
| `AdmittedRecovery.ResumeIsGood` | src/agents/invocation-service.ts:457-487 | a resumed run starts from the invariant, with a plan for every record it can attempt, and with the fifth attempt granted only to a refused record that was suspended with its budget spent |
| `AdmittedTermination.StepProgresses` | src/agents/invocation-service.ts:603-753 | every iteration ends the run, makes an attempt, or lowers the time left or the number of ready records |
| `AdmittedTermination.RunEnds` | src/agents/invocation-service.ts:600-896 | a run that meets server overload only finitely often ends, after at most 4n attempts besides the overloads (one more when it resumes a record with its budget spent) |
| `AttemptLimitWitness.FiveAttemptsHappen` | src/agents/invocation-service.ts:824-855 | one candidate, four failures, a suspension and a fifth failure: the limit 4n + 1 is met |
| `AttemptLimitWitness.OverloadKeepsSpentRecordAlive` | src/agents/invocation-service.ts:852-871 | the same turn with overload on the mandatory attempt: the record waits for another attempt with four finite failures |
| `InvocationRun.AdmittedRun.Ordinary` | src/agents/invocation-service.ts:347-377 | the loop that builds records and plans gives the start state |
| `InvocationRun.AdmittedRun.Pinned` | src/agents/invocation-service.ts:489-519 | a pinned run starts with one record at route index 0 and its plan |
| `InvocationRun.AdmittedRun.Resumed` | src/agents/invocation-service.ts:465-486 | a resumed run is built from the preparation unchanged |
| `InvocationRun.AdmittedRun.RefreshRecordStates` | src/agents/invocation-service.ts:1006-1077 | the in-place loop refreshes every record as the transition function does, which `AdmittedRefresh.RefreshesExactly` characterises |
| `InvocationRun.AdmittedRun.HandleAdmittedAttemptFailure` | src/agents/invocation-service.ts:767-896 | the failure handler changes the run and throws exactly as the transition function says |
| `InvocationRun.AdmittedRun.RunAdmittedExecution` | src/agents/invocation-service.ts:600-765 | the scheduling loop computes `Run` |
| `InvocationRun.PrepareAdmittedRecovery` | src/agents/invocation-service.ts:380-455 | the preparation loop stops at the first record that does not re-admit, and otherwise plans them all |
| `ServerSentEvents.ChunksDoNotMatter` | src/agents/llm-sse.ts:31-44 | reading chunk by chunk is reading the concatenation |
| `ServerSentEvents.FieldIsSplitAtColon` | src/agents/llm-sse.ts:46-60 | a line is a name and a value split at its first colon, one space after it dropped, or a name alone |
| `ServerSentEvents.ReaderRefinesRules` | src/agents/llm-sse.ts:18-69 | for every chunking, pushes and finish together yield what the line rules say: lines split at CRLF, LF or CR, grouped at blank lines, last event name, joined data values |
| `ServerSentEvents.AgreesWithStandardExactly` | src/agents/llm-sse.ts:18-29 | over every chunking the reader yields what the standard does followed by the unended event if there is one, so the two agree if and only if no data line follows the last blank line |
| `ServerSentEvents.UnendedEventIsRead` | src/agents/llm-sse.ts:18-29 | a one-line text that the reader turns into an event and the standard discards |
| `ServerSentEvents.FinishIsTwoLineFeeds` | src/agents/llm-sse.ts:18-29 | end of input acts as two line feeds in every reader state |
| `ServerSentEvents.IncrementalSseReader.Push` | src/agents/llm-sse.ts:13-16 | a push yields and leaves what the state function says, and fails after finish |
| `ServerSentEvents.IncrementalSseReader.FinishInput` | src/agents/llm-sse.ts:18-29 | finish yields what the state function says, once |
| `ServerSentEvents.IncrementalSseReader.EndLine` | src/agents/llm-sse.ts:46-60 | completing a line in place updates the fields or dispatches |
| `EventPrinting.PrintThenRead` | src/agents/llm-sse.ts:31-69 | events and end markers printed with any line end on each line read back unchanged, over every chunking, if and only if no blank line ended by LF follows a line ended by CR, the last line excepted |
| `EventPrinting.LinesOfPrint` | src/agents/llm-sse.ts:31-44 | lines written with any line ends are split back if and only if no blank line ended by LF follows a line ended by CR |
| `CodexEvents.FinalizedExactlyOnce` | src/agents/llm-codex-parser.ts:278-290 | for every event sequence emitted ids are pairwise distinct, are exactly the finalized ones, and the list only grows |
| `CodexEvents.ItemIdOnlyCompletionDoubles` | src/agents/llm-codex-parser.ts:186-225 | a concrete stream in which one call is emitted under both of its ids |
| `CodexDemultiplexing.ArgumentsAreDemultiplexed` | src/agents/llm-codex-parser.ts:172-225 | a completion emits exactly the arguments it states, whatever deltas came before, or when it states none the call's initial arguments followed by exactly its own deltas in order, `{}` if empty, whatever is interleaved and whichever identity each delta named; without a name it breaks the stream |
| `CodexDemultiplexing.UnannouncedCallIsEmitted` | src/agents/llm-codex-parser.ts:186-201 | a completed item whose call was never added is emitted with the arguments it states, or `{}`, and breaks the stream without a name |
| `CodexDemultiplexing.EmittedAgainExactly` | src/agents/llm-codex-parser.ts:172-225 | once a call has been completed, and after any events that leave its identities alone, it has been emitted once, and a further completion addressed to it emits it again if and only if it is a named item whose resolved identity is not the call id; under the call id the item changes nothing, and completed arguments fail as an unknown call |
| `CodexStream.CodexParser.AddPending` | src/agents/llm-codex-parser.ts:174-185 | one new object is put under both identities |
| `CodexStream.CodexParser.AppendToPending` | src/agents/llm-codex-parser.ts:205-212 | appending through one key changes the one call both keys lead to and no other |
| `CodexStream.CodexParser.CompletePending` | src/agents/llm-codex-parser.ts:213-225 | the call is finalized with the stated or gathered arguments and forgotten under both keys |
| `CodexStream.CodexParser.HandleEvent` | src/agents/llm-codex-parser.ts:156-253 | the event handler on the heap does what the fold on values does, errors included |
| `CodexStream.CodexParser.ConsumeEvents` | src/agents/llm-codex-parser.ts:124-154 | events are handled until one completes or throws |
| `CodexStream.ReadStream` | src/agents/llm-codex-parser.ts:20-122 | the result is a function of the text alone: every chunking gives the same completion or failure, early exit and truncation included |
| `CodexResult.BreaksExactly` | src/agents/llm-codex-parser.ts:156-290 | an open stream breaks at an event exactly for the fault the event has, losing nothing emitted, and completes exactly at a good `response.completed` |
| `CodexResult.TextResultExactly` | src/agents/llm-codex-parser.ts:20-154 | what `ReadStream` returns: the fault of the first event that closes the stream, or at a completing event the calls emitted by then, else the last completed assistant message, with that event's usage; without one, truncation or the end marker's error |
| `ProjectOversight.NextKeepsInv` | src/application/project-oversight.ts:83-232 | between events a timer is armed exactly when enabled, open, running and without a check; checks never overlap; a check in flight while not running or closing is cancelled; delays are within range |
| `ProjectOversight.RunIsSafe` | src/application/project-oversight.ts:152-214 | on every run a check starts only after a whole interval without status change, settlement, closing or other check, the project running throughout |
| `ProjectOversight.ChecksStartOnTime` | src/application/project-oversight.ts:152-204 | on every run an armed timeout ends at a deadline exactly one interval after the event that armed it (at once if that has passed, after 2147483647 ms if it is farther); if timeouts fire when due, every check starts exactly then |
| `ProjectOversight.ChecksAreAsNoted` | src/application/project-oversight.ts:83-232 | on every run a check exists exactly from its start to its settlement or failure, and is cancelled exactly from the moment the project stops running or oversight closes |
| `ProjectOversight.ArmsExactly` | src/application/project-oversight.ts:152-183 | only a status change or a settlement arms a timer, for one interval ahead on the monotonic and on the wall clock, and both stay until it is disarmed or has fired |
| `ProjectOversight.AttemptsAreRemembered` | src/application/project-oversight.ts:206-215 | last attempt and last success are the last settled and the last succeeded check of the run |
| `ProjectOversight.ViewAgrees` | src/application/project-oversight.ts:122-150 | `status()` says waiting, checking, eligible, why not, due, last attempt and last success exactly as timer and check have it, and a timer or a check exists whenever oversight is enabled, open and running |
| `ProjectOversight.ChangesAreAnnounced` | src/application/project-oversight.ts:83-232 | nothing `status()` shows changes without a change notification |
| `ProjectOversight.ChunkedTimeoutsFit` | src/application/project-oversight.ts:166-183 | with timers that never fire early, one arming sets at most ceil(interval / 2147483647) timeouts, each aimed at the deadline or as far towards it as one can reach |
| `ProjectOversight.Oversight.RuntimeStatusChanged` | src/application/project-oversight.ts:83-93 | the status event on the object is the machine's |
| `ProjectOversight.Oversight.Close` | src/application/project-oversight.ts:95-101 | so is closing |
| `ProjectOversight.Oversight.OnTimer` | src/application/project-oversight.ts:166-204 | so is a timer firing |
| `ProjectOversight.Oversight.OnCheckSettled` | src/application/project-oversight.ts:206-215 | so is a check settling |
| `ProjectOversight.Oversight.OnCheckRejected` | src/application/project-oversight.ts:216-232 | so is a check rejecting |
| `ProjectOversight.NewOversight` | src/application/project-oversight.ts:69-81 | only positive intervals are accepted |
| `CardValidation.DependencySearch.VisitDependencies` | src/cards/validator.ts:17-27 | the search terminates, and returns with every node it has visited off any cycle, or names a node on one |
| `CardValidation.ValidateParsedCards` | src/cards/validator.ts:8-29 | succeeds if and only if every dependency exists and the dependency graph is acyclic; an error names the first missing dependency, or a card on a cycle |
| `CardValidation.LastCardCounts` | src/cards/validator.ts:9-9 | of cards sharing an id the last one counts |
| `CardIndex.DescendantsAreReachable` | src/cards/card-index.ts:14-31 | the preorder lists exactly the nodes reachable through children, each once, on cyclic graphs too |
| `CardIndex.ChildrenAreStored` | src/cards/card-index.ts:14-17 | the children are the stored ones that exist, in stored order, repetitions included |
| `CardIndex.OnlyDescendantsAreDepthFirst` | src/cards/card-index.ts:19-31 | the list is the one order in which each node is the first unlisted child of the latest node that has one, until all children are listed |
| `CardIndex.CardIndex.DescendantsOf` | src/cards/card-index.ts:19-31 | the explicit-stack loop returns the recursive child-first preorder, which `CardIndex.OnlyDescendantsAreDepthFirst` fixes node by node |
| `CardIndex.CardIndex.Upsert` | src/cards/card-index.ts:33-35 | storing a card in place leaves the descendants of every card that is not above it as they were, and replacing a card leaves it below exactly the same cards |

## Left out

- HTTP, credentials, provider adapters, publication and diagnostics: an attempt is an input of the model, and `onData`, telemetry and redaction change no state modelled here.
- Clock detail: within one iteration the scheduler refreshes, selects and rechecks at one clock reading; the code reads the clock for each, so a millisecond may pass in between.
- `AdmittedTermination.RunEnds`: assumes that a delay that was asked for lasts at least a millisecond and that clock readings never go back.
- `AdmittedRecovery.SuspensionsVerify`: does not model the authority hash, which the verifier recomputes over fields that are opaque here.
- Authority hashes and the twelve binding fields: the authority is its list of candidates, and bindings are an input id and one opaque digest compared as a whole.
- Request building, capability matching and admission verdicts: a verdict per candidate is an input.
- Byte decoding and JSON parsing: text is a sequence of characters, and `parse` is any function from data text to an event.
- Reader errors and aborts while a stream is read, and the wrapping of parser errors as transport failures.
- Provider error classification: `response.failed` and `error` events fail with their payload.
- `CodexDemultiplexing.EmittedAgainExactly`: supposes that no event between adds the call's identities anew; the ids of such a call are still emitted once each (`CodexEvents.FinalizedExactlyOnce`).
- `CodexDemultiplexing.ArgumentsAreDemultiplexed`: supposes that no other event adds or completes a call under the call's identities; with shared identities the later call takes over the key.
- Effect admission checks, awaiting of cancelled checks and the executing-model snapshot of project oversight; `changed` and the owner-failure callback are not re-entrant.
- Other fields of cards, and the card index's plain lookups.
