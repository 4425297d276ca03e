# Nightshift evidence and dispatch model

Nightshift's foreman reads recorded evidence about an AI-provider request, decides whether that
request was refused, admitted, interrupted or completed, and then decides whether the work may be
parked and dispatched again. This project models the code that makes those decisions, and the
read-only projections and the service-investigation tool beside it, and proves what they promise.

## Components

| files | what they hold |
|---|---|
| Wire, Evidence | JSON values, wire methods, normalized records, acquisition lanes |
| Replay | the ordered-evidence state machine: raw replay, kind and lane rules, the transition of each record |
| ReplayInvariant, ReplayTrace, ReplayClosure, CleanCut | what every accepted prefix keeps, the trace language of requests, steps, refusals and completions, request/response pairing, the meaning of a clean cut |
| ReplayHistory | the replay state read off the accepted records, field by field |
| Reasons, ReasonLaw, UnframedRecords | which reason a discrepancy must carry: ordered rules stated on frame, binding and records |
| UniqueReading, FrameReading | every ordered frame has one reading: each provider boundary, and then notifications, server requests and both client lanes |
| Rounds, UnreadableFrames | accepted provider rounds for arbitrary identities, times and sizes, and the frames that have no admissible record |
| EchoJoin, TwoReadings | the echo replay and the raw replay together: at most one echo refusal, and exactly which frames have two admissible records |
| SnapshotLaw, DispositionMeaning | acceptance of a snapshot stated on its records and cut alone, and what a valid disposition commits to |
| Admission, DispositionLaw | snapshot validation as a loop over records, and the three evidence families of a disposition |
| Dispatch, DispatchHistory, DispatchSafety, DispatchCheck | the deferred-dispatch graph, its history, its safety, its loop, and the derivation of a deferral |
| RecordedRuns, Progress, QualificationProgress | runs of every mechanism state can be recorded, and what the graph always admits after a valid history, for each evidence family |
| Echo, EchoSelectors, EchoLaws, EchoReplay | selectors and lifecycle of the bounded turn echo, its language, and its replay as a mutable state |
| Scheduler, SchedulerOrder, SchedulerClaims, SchedulerItems | journal replay, commutation of events, provenance of claims and item fields, readiness on the journal |
| Schema, SchemaLaws | the JSON Schema walk over an arbitrary schema, and its acceptance keyword by keyword |
| Investigation, InvestigationSafety, InvestigationProgress | submitters, workers, crashes and files of one occurrence directory |
| Alignment, AlignmentRows, Capacity, CapacityProjection, Framing | casework projections: journal/history alignment, capacity decisions and their matching, length-prefixed framings |

Times are integers (nanoseconds, or milliseconds where the wire carries milliseconds), fractions are
reals, and digests are function parameters: a theorem holds for every digest function. A rejected
input is `None`, `false` or an unmet predicate; the many error messages are one outcome.
Records are typed, so a `Record` stands for one that the vendored schema accepts.

## Findings

Where the code falls short of the expected law, the model keeps the code and states the exact condition.

- A provider-boundary frame in order can have no admissible record. There are two families: a first
  response whose id is outside the foreman's identifier alphabet or that answers a request other than
  the one the disposition names, and a completion with no open response whose response id is not a
  string. `FrameReading.EveryFrameHasOneReading` shows that no other ordered frame is without a record;
  `UnreadableFrames.ForeignResponseHasNoRecord`, `UnreadableFrames.OtherRequestHasNoRecord` and
  `UnreadableFrames.NullCompletionHasNoRecord` are reachable instances of each cause.
- With the echo replay beside the raw replay, a frame can have two admissible records, because a raw
  discrepancy keeps a frame out of the echo replay and an echo failure keeps it out of the raw one.
  `TwoReadings.TwoReadingsIff` shows that this happens exactly when the provider side is open and both
  replays refuse the frame; `TwoReadings.TwoReadingsOccur` is a reachable instance.
- The disposition validator accepts a clean refusal that is reported as indeterminate and so permits no
  park: `RecordedRuns.RefusalMayBeIndeterminate`, with `DispatchSafety.ParkIffTransient` as the exact park
  condition. Only the graph's search for an observed discrepancy keeps it out:
  `DispositionMeaning.IndeterminateHasDiscrepancy` and `DispositionMeaning.DeferredIffOvercomable`.
- One reason and one test of the source are dead: `ReasonLaw.MultiplePreAdmissionIsDead` shows that no
  request is ever refused as a multiple request before admission, and `DispositionMeaning.ResumeLawIsImplied`
  that the closing resume-only test of the graph never decides.
- The graph never compares the occurrence id of the current dispatch with earlier ones, only the
  history check does: `Progress.UsedOccurrenceIsAccepted` gives accepted graphs that reuse an id, and
  `Progress.GrowsIffFresh` and `DispatchSafety.HistoryIsStepwise` show that freshness is exactly what is missing.
- Derivation of a deferral fails on a dispatch beyond the backoff schedule even when the provider gave
  a retry time and the graph accepts the deferral: `DispatchCheck.DeriveIsExact` is the exact condition,
  `Progress.DeriveStopsAtSchedule` the failing family, and `Progress.DerivationGapExists` shows that
  every attempt whose policy allows more than its schedule uses has such a graph.
- `reopen_rows` compares only the primary list of each kind for length: `Alignment.ParallelListsMayExceed`
  and `Alignment.SpareWakeAttemptIsAccepted` give histories with elements that no row carries, and
  `Alignment.NothingOverIffParallel` shows that nothing is left over exactly when each parallel list has
  its primary's length.
- In the schema walk `additionalProperties: false` is looked at only beside a `properties` object:
  `Schema.AdditionalPropertiesEffect` states its whole effect, `Schema.AdditionalCloses` when an accepted
  object is closed by it, and `Schema.AdditionalWithoutProperties` an object that it fails to close.

## Model

| member | source | states |
|---|---|---|
| `UniqueReading.UniqueAdmissibleRecord` | crates/nightshift-foreman/src/execution_availability.rs:3016-3202 | after any accepted prefix and echo progress, a record of a next-in-order provider-boundary notification is admissible, with the verdict that the echo replay derives for it, if and only if the frame is readable and the record is its one reading: the frame's transition, or a discrepancy with the one derived reason |
| `UniqueReading.AdmissibleIffReading` | crates/nightshift-foreman/src/execution_availability.rs:4331-4592 | the same in every state that satisfies the replay invariant |
| `UniqueReading.RequestReading` | crates/nightshift-foreman/src/execution_availability.rs:3017-3057 | the two separately written halves agree on requests: the transition is admissible exactly when no fault is derived, and its content is then determined |
| `UniqueReading.RefusalReading` | crates/nightshift-foreman/src/execution_availability.rs:3143-3179 | the same for refusals |
| `UniqueReading.CompletionReading` | crates/nightshift-foreman/src/execution_availability.rs:3180-3202 | the same for completions, outside the unreadable family |
| `UniqueReading.StepAdmitted` | crates/nightshift-foreman/src/execution_availability.rs:3058-3142 | an admissible execution step has no derived fault, is readable and is the one determined by the frame |
| `UniqueReading.StepAdmissible` | crates/nightshift-foreman/src/execution_availability.rs:3058-3142 | conversely, a readable step frame without a fault is admissible |
| `UniqueReading.EchoIsSilent` | crates/nightshift-foreman/src/bounded_turn_echo.rs:269-358 | the echo replay never derives a failure for a provider-boundary frame, whatever name its record gives it |
| `UniqueReading.EchoPassesBoundary` | crates/nightshift-foreman/src/bounded_turn_echo.rs:269-358 | and passes every record named after such a frame that claims no echo failure |
| `FrameReading.EveryFrameHasOneReading` | crates/nightshift-foreman/src/execution_availability.rs:3596-4608 | after any accepted prefix, a record of a next-in-order frame of any of the four wire lanes is accepted if and only if its name fits, the frame is readable and its evidence is the one reading of the frame |
| `FrameReading.FrameHasOneReading` | crates/nightshift-foreman/src/execution_availability.rs:3596-4608 | the same in every state that satisfies the replay and client invariants |
| `FrameReading.NotificationMoves` | crates/nightshift-foreman/src/execution_availability.rs:4170-4205 | the two halves agree on local facts and watermarks: the transition is admissible exactly when no discrepancy is derived |
| `FrameReading.ServerRequestMoves` | crates/nightshift-foreman/src/execution_availability.rs:4151-4169 | the same for approvals and other server requests |
| `FrameReading.ClientRequestMoves` | crates/nightshift-foreman/src/execution_availability.rs:3936-3996 | the same for client requests |
| `FrameReading.ClientResponseMoves` | crates/nightshift-foreman/src/execution_availability.rs:3886-3933 | the same for client responses, whose params digest is that of the outstanding request |
| `FrameReading.DiscrepancyReading` | crates/nightshift-foreman/src/execution_availability.rs:3748-3884 | a discrepancy is admissible exactly as the derived detail with the execution known so far |
| `TwoReadings.TwoReadingsIff` | crates/nightshift-foreman/src/execution_availability.rs:3737-3746 | every admissible evidence of a frame is its raw reading or the derived echo failure, and a frame has two exactly when the provider side is open and both replays refuse it |
| `TwoReadings.TwoReadingsOccur` | crates/nightshift-foreman/src/execution_availability.rs:3737-3746 | a reachable state and a client request that is admissible both as a duplicate and as an echo input failure |
| `TwoReadings.EchoReadingIff` | crates/nightshift-foreman/src/bounded_turn_echo.rs:327-356 | a known echo failure is admissible exactly when the frame takes part, the failure is the derived one, its wire is bound and the provider side is open |
| `EchoJoin.OneEchoRefusal` | crates/nightshift-foreman/src/execution_availability.rs:2925-2938 | an accepted snapshot carries at most one echo refusal, and it is its first discrepancy |
| `EchoJoin.EnrolledAgrees` | crates/nightshift-foreman/src/bounded_turn_echo.rs:248-268 | when the enrolled replay accepts, it derives the same verdicts as the structural one |
| `UnreadableFrames.ForeignResponseHasNoRecord` | crates/nightshift-foreman/src/execution_availability.rs:3088-3110 | a reachable state and a first response for which every record is refused |
| `UnreadableFrames.OtherRequestHasNoRecord` | crates/nightshift-foreman/src/execution_availability.rs:3088-3110 | a reachable state with a request that the disposition does not name, and a first response to it for which every record is refused |
| `UnreadableFrames.NullCompletionHasNoRecord` | crates/nightshift-foreman/src/execution_availability.rs:4573-4592 | a reachable state and a completion for which every record is refused |
| `ReasonLaw.DiscrepancyHasFirstReason` | crates/nightshift-foreman/src/execution_availability.rs:4206-4608 | after any accepted prefix a discrepancy over a next-in-order frame is admissible exactly when its name fits and its reason is that of the first rule the frame breaks, each rule stated on frame, binding and records, with the execution bound so far |
| `ReasonLaw.TransitionBreaksNothing` | crates/nightshift-foreman/src/execution_availability.rs:4020-4205 | a frame recorded as its transition breaks no rule |
| `Reasons.FirstBreachIff` | crates/nightshift-foreman/src/execution_availability.rs:4225-4602 | a reason is given exactly when its own rule is broken and no rule before it is |
| `ReasonLaw.PositionDecides` | crates/nightshift-foreman/src/execution_availability.rs:4380-4385 | a well-bound request in time hides a pending request iff the last move is a request, precedes a completion iff it is a step, and follows a closed dispatch iff it is a refusal |
| `ReasonLaw.MultiplePreAdmissionIsDead` | crates/nightshift-foreman/src/execution_availability.rs:4397-4402 | the last reason of a request is never the first breach |
| `UnframedRecords.UnframedIff` | crates/nightshift-foreman/src/execution_availability.rs:3646-3734 | a record without a wire frame is accepted exactly as a discrepancy of its lane with a reason of the closed list, in order or naming the gap, and carrying the execution known so far |
| `ReplayHistory.RunMirrors` | crates/nightshift-foreman/src/execution_availability.rs:3016-3202 | pending request, open response, refusal, answered and completed sets, execution and time boundary are those of the moves recorded so far |
| `ReplayHistory.RunReflects` | crates/nightshift-foreman/src/execution_availability.rs:3203-3360 | discrepancy, approval and turn flags, execution, refusal and open client requests are those of the records so far |
| `ReplayHistory.GapIsNamed` | crates/nightshift-foreman/src/execution_availability.rs:2960-2990 | an accepted record whose ordinal is not the high water mark of its predecessors is the discrepancy that names the gap |
| `ReplayInvariant.RunKeeps` | crates/nightshift-foreman/src/execution_availability.rs:2865-3202 | every accepted prefix keeps the invariant: execution and refusal never coexist, nor pending request and open response; the pending request has the next ordinal and a new occurrence |
| `ReplayInvariant.StepChecksAreImplied` | crates/nightshift-foreman/src/execution_availability.rs:3058-3142 | in every reachable state the tests on the open response, the time boundary and used occurrences can never be the reason for refusing a step |
| `ReplayInvariant.RunFreezes` | crates/nightshift-foreman/src/execution_availability.rs:2925-2938 | after the first discrepancy, or the completed turn of an execution, the provider side of the state never changes |
| `ReplayInvariant.RunKeepsIdentity` | crates/nightshift-foreman/src/execution_availability.rs:3016-3202 | an execution identity or a refusal, once bound, is that of every later prefix |
| `ReplayTrace.RunLinks` | crates/nightshift-foreman/src/execution_availability.rs:3016-3202 | the moves of any accepted run form (request step completion)* with one open tail, or one refused request; the k-th request has ordinal k, occurrences and response ids are distinct, times never run backwards |
| `ReplayClosure.RunOrders` | crates/nightshift-foreman/src/execution_availability.rs:2960-3015 | acquisition ordinals of an accepted run without a discrepancy are 0, 1, ... in record order |
| `ReplayClosure.RunPairs` | crates/nightshift-foreman/src/execution_availability.rs:3300-3351 | every client response answers the latest request with its id, method and params digest, and every client request is answered or still outstanding |
| `CleanCut.CleanCutIsCompleteRun` | crates/nightshift-foreman/src/execution_availability.rs:3364-3421 | an accepted snapshot with a clean cut is a complete run: ordinals 0..n-1, no discrepancy, each client request with exactly one matching response, nothing open, and either one refused request without a step or every request stepped and completed |
| `CleanCut.ExecutionIffStep` | crates/nightshift-foreman/src/execution_availability.rs:3058-3142 | a run ends with an execution identity exactly when some record is an execution step |
| `CleanCut.DispositionShowsExecution` | crates/nightshift-foreman/src/execution_availability.rs:3364-3437 | an accepted snapshot's disposition carries an execution exactly when its records hold a step |
| `Admission.ReplayRecords` | crates/nightshift-foreman/src/execution_availability.rs:2845-3351 | the record loop computes the replay of the records before a terminal cut, and refuses any other position of the cut |
| `Admission.ValidateSnapshotComplete` | crates/nightshift-foreman/src/execution_availability.rs:2845-3521 | the validator decides the snapshot law: structure, replay, cut, mechanism and refusal together |
| `SnapshotLaw.AcceptedIffAgrees` | crates/nightshift-foreman/src/execution_availability.rs:3364-3521 | a snapshot whose records replay is accepted if and only if it agrees with what records and cut alone say: identities, cut and its cleanness, mechanism state, execution, retry time and kind |
| `DispositionMeaning.DispositionMeans` | crates/nightshift-foreman/src/execution_availability.rs:1656-1841 | a valid disposition claims no authority, fits its kind, and reports exactly its evidence in each of the three families |
| `DispatchSafety.AtMostOneExecution` | crates/nightshift-foreman/src/execution_availability.rs:4723-5019 | in an accepted graph every earlier dispatch is proven not admitted and shows no execution in any of the three evidence families; only the current one can, and then it has no deferral |
| `DispatchSafety.ParkNeedsNonAdmission` | crates/nightshift-foreman/src/execution_availability.rs:1778-1841 | a valid disposition that permits an automatic park is a proven non-admission |
| `DispatchSafety.ParkIffTransient` | crates/nightshift-foreman/src/execution_availability.rs:1831-1841 | a valid disposition permits a park if and only if its evidence is a transient refusal: a clean outright refusal not reported as indeterminate, a rate limit or unavailable provider, or an uncompleted second-version outcome |
| `DispatchSafety.NothingIsSubstituted` | crates/nightshift-foreman/src/execution_availability.rs:4723-4820 | in an accepted graph every dispatch, earlier or current, belongs to the attempt, and the evidence that decides it is of its adapter family and names it |
| `DispositionMeaning.ObservationMeans` | crates/nightshift-foreman/src/execution_availability.rs:4797-4860 | the observation has the availability of the kind, the time of the evidence, and the receipt, retry time and selection of the dispatch |
| `DispositionMeaning.RefusalIsObservedThen` | crates/nightshift-foreman/src/execution_availability.rs:5029-5085 | a capacity refusal is observed at the time of a recorded refusal |
| `DispositionMeaning.DeferredIffOvercomable` | crates/nightshift-foreman/src/execution_availability.rs:4970-5006 | an accepted graph has a deferral if and only if the owner evidence is a clean outright refusal, a rate limit or unavailable provider, or an uncompleted second-version outcome |
| `DispositionMeaning.IndeterminateHasDiscrepancy` | crates/nightshift-foreman/src/execution_availability.rs:5029-5085 | an accepted graph over an indeterminate app-server outcome has a recorded discrepancy |
| `DispositionMeaning.ResumeLawIsImplied` | crates/nightshift-foreman/src/execution_availability.rs:5007-5016 | the resume-only test of the graph follows from its other laws |
| `DispositionMeaning.EnrolledGraphIsLawful` | crates/nightshift-foreman/src/execution_availability.rs:4737-4756 | with the bounded echo enrolled, an accepted graph over app-server evidence has a lawful echo trace |
| `DispatchSafety.ExecutionIsShown` | crates/nightshift-foreman/src/execution_availability.rs:1656-1841 | a valid disposition carries an execution identity exactly when its owner evidence shows one |
| `DispatchSafety.HistoryIsStepwise` | crates/nightshift-foreman/src/execution_availability.rs:4861-5006 | a history with one more entry is valid exactly when the shorter one is, the entry is admitted as a current dispatch with its deferral, and its occurrence id is fresh |
| `DispatchSafety.HistoryIsPrefixClosed` | crates/nightshift-foreman/src/execution_availability.rs:4861-4968 | every prefix of a valid history is valid |
| `DispatchSafety.AcceptedStepExtendsHistory` | crates/nightshift-foreman/src/execution_availability.rs:4970-5006 | an accepted dispatch with a deferral and a fresh id makes a valid history for the next ordinal |
| `DispatchSafety.AttemptTimeline` | crates/nightshift-foreman/src/execution_availability.rs:4868-4968 | over the whole attempt wakes and dispatches strictly advance, the receipt covers the first receipt plus all deferrals, the budget holds, model ordinals rise by 0 or 1 and stay 0 without fallback |
| `DispatchHistory.ExactSecondsMeaning` | crates/nightshift-foreman/src/execution_availability.rs:4647-4692 | an exact deferral lasts its seconds and less than a millisecond more, and its basis is forced by the provider's retry time |
| `DispatchHistory.WakesAdvance` | crates/nightshift-foreman/src/execution_availability.rs:4868-4968 | each wake of a valid history lies strictly before every later one |
| `DispatchHistory.WakeCoversDeferrals` | crates/nightshift-foreman/src/execution_availability.rs:4868-4968 | the last wake is at least the first receipt plus the sum of all deferral seconds |
| `DispatchHistory.BackoffNeverExceedsBudget` | crates/nightshift-foreman/src/execution_availability.rs:716-745 | when only policy backoff is used, the cumulative limit of a valid policy never refuses a history |
| `DispatchHistory.BackoffNeverExceedsBudgetNext` | crates/nightshift-foreman/src/execution_availability.rs:5000-5006 | nor the deferral that follows it |
| `DispatchHistory.OccurrenceIsFree` | crates/nightshift-foreman/src/execution_availability.rs:4970-5006 | the history-dependent half of the current step admits any identifier as occurrence id, used or not |
| `DispatchCheck.WalkHistory` | crates/nightshift-foreman/src/execution_availability.rs:4868-4952 | the loop with its id set, last wake, last refusal, last model and running total decides the history links and returns their sum |
| `DispatchCheck.CheckHistory` | crates/nightshift-foreman/src/execution_availability.rs:4868-4968 | with the budget test it decides the valid-history predicate |
| `DispatchCheck.DeferralIsUnique` | crates/nightshift-foreman/src/execution_availability.rs:1953-2020 | the graph accepts at most one deferral outcome for given inputs |
| `DispatchCheck.DeriveIsExact` | crates/nightshift-foreman/src/provider_snapshot_translation.rs:6-89 | derivation returns an outcome exactly when the graph accepts it and, if it parks, the dispatch lies inside the backoff schedule |
| `RecordedRuns.RefusalIsRecordable` | crates/nightshift-foreman/src/execution_availability.rs:2845-3521 | for all usable identities, times, sizes, diagnostics and retry times the snapshot of a capacity refusal is accepted with a clean cut, and permits a park |
| `RecordedRuns.ExecutionIsRecordable` | crates/nightshift-foreman/src/execution_availability.rs:2845-3521 | likewise the snapshot of a completed execution is accepted with a clean cut |
| `RecordedRuns.AdmissionIsRecordable` | crates/nightshift-foreman/src/execution_availability.rs:3496-3501 | an admitted run before its cut is accepted |
| `RecordedRuns.ApprovalIsRecordable` | crates/nightshift-foreman/src/execution_availability.rs:3484-3488 | a run waiting for an approval is accepted without a cut |
| `RecordedRuns.InterruptionIsRecordable` | crates/nightshift-foreman/src/execution_availability.rs:3477-3483 | an admitted run that then fails is accepted as interrupted, with a cut that is not clean |
| `RecordedRuns.IndeterminacyIsRecordable` | crates/nightshift-foreman/src/execution_availability.rs:3489-3495 | a request that fails before any answer is accepted as indeterminate |
| `RecordedRuns.RefusalMayBeIndeterminate` | crates/nightshift-foreman/src/execution_availability.rs:3489-3495 | a clean refusal is also accepted as indeterminate, and then permits no park |
| `Progress.RefusalIsAccepted` | crates/nightshift-foreman/src/execution_availability.rs:4723-5019 | after any valid history a refused dispatch with an exact wait inside the budget, from the provider or from the schedule, is accepted with its deferral |
| `Progress.CompletionIsAccepted` | crates/nightshift-foreman/src/execution_availability.rs:4723-5019 | after any valid history a completed dispatch is accepted with its execution and without a deferral, and derivation agrees |
| `QualificationProgress.TransientOutcomeParks` | crates/nightshift-foreman/src/execution_availability.rs:1708-1760 | after any valid history a first-version rate limit or unavailable provider is accepted with its deferral |
| `QualificationProgress.FinalOutcomeEnds` | crates/nightshift-foreman/src/execution_availability.rs:1708-1760 | refused authentication and transport or protocol failures are accepted without a deferral, and derivation agrees |
| `QualificationProgress.UnavailableParks` | crates/nightshift-foreman/src/execution_availability.rs:1844-1891 | a second-version unavailable provider is accepted with the deferral it asks for |
| `QualificationProgress.QualifiedExecutionEnds` | crates/nightshift-foreman/src/execution_availability.rs:1844-1891 | a second-version completed execution is accepted without a deferral |
| `Progress.RefusalParks` | crates/nightshift-foreman/src/execution_availability.rs:4723-5019 | inside the backoff schedule and with a fresh occurrence id a refused dispatch is accepted, derivation returns its deferral, and the grown history is valid |
| `Progress.UsedOccurrenceIsAccepted` | crates/nightshift-foreman/src/execution_availability.rs:4970-5006 | with a used occurrence id the graph still accepts it, and the grown history is not valid |
| `Progress.GrowsIffFresh` | crates/nightshift-foreman/src/execution_availability.rs:4861-5006 | so an accepted dispatch grows the history exactly when its occurrence id is unused |
| `Progress.DeriveStopsAtSchedule` | crates/nightshift-foreman/src/provider_snapshot_translation.rs:18-40 | beyond the schedule a refusal with a provider retry time is accepted with its deferral, and derivation fails |
| `Progress.DerivationGapExists` | crates/nightshift-foreman/src/provider_snapshot_translation.rs:18-40 | every open attempt whose policy allows more dispatches and seconds than its schedule uses has such a graph |
| `Progress.EveryLengthIsReached` | crates/nightshift-foreman/src/execution_availability.rs:4861-5006 | for every open attempt, every length up to its backoff schedule is the length of a valid history |
| `EchoLaws.AcceptedIffLawful` | crates/nightshift-foreman/src/bounded_turn_echo.rs:165-243 | an event list replays without a refusal if and only if its agent events are (start deltas complete)* with one open tail and distinct ids, the user item starts and completes at most once, each summary repeats the item completed last, and completed text stays within 32768 bytes |
| `EchoLaws.FitsIffAccepted` | crates/nightshift-foreman/src/bounded_turn_echo.rs:178-243 | one transition is accepted exactly when the event fits the language at that point |
| `EchoLaws.RefusalIsBreach` | crates/nightshift-foreman/src/bounded_turn_echo.rs:178-243 | an event that leaves the language is refused with the failure of its own breach, read off the events so far |
| `EchoSelectors.AgentItemIff` | crates/nightshift-foreman/src/bounded_turn_echo.rs:79-90 | the agent items are exactly those made from an identity, a bounded text and a phase |
| `EchoSelectors.UserEchoIff` | crates/nightshift-foreman/src/bounded_turn_echo.rs:92-109 | a user echo is exactly an item notification of the bound turn whose item repeats the captured input |
| `EchoSelectors.AgentNotificationIff` | crates/nightshift-foreman/src/bounded_turn_echo.rs:111-130 | agent starts and completions are exactly item notifications of the bound turn with an agent item |
| `EchoSelectors.DeltaIff` | crates/nightshift-foreman/src/bounded_turn_echo.rs:127-132 | a delta is exactly the bound turn, an item id and a bounded text |
| `EchoSelectors.SummaryIff` | crates/nightshift-foreman/src/bounded_turn_echo.rs:133-160 | a selected summary is exactly a completed turn with one agent item |
| `EchoSelectors.NormalizeInputIff` | crates/nightshift-foreman/src/bounded_turn_echo.rs:67-77 | the input that can be captured is exactly one text element, and its normal form adds empty text elements |
| `EchoReplay.AcceptedTraceIsLawful` | crates/nightshift-foreman/src/bounded_turn_echo.rs:269-358 | in every accepted snapshot the accepted events are in that language, unselected completions included in the byte bound |
| `EchoReplay.CleanSnapshotIsLawful` | crates/nightshift-foreman/src/bounded_turn_echo.rs:248-358 | in an enrolled snapshot without a discrepancy all carried events are |
| `EchoReplay.RefusedIffUnlawful` | crates/nightshift-foreman/src/bounded_turn_echo.rs:269-358 | after a run without refusals a frame is refused exactly when its event would leave the language |
| `EchoReplay.RefusalNamesBreach` | crates/nightshift-foreman/src/bounded_turn_echo.rs:269-358 | and the failure it is refused for is the breach |
| `EchoReplay.InputProvenance` | crates/nightshift-foreman/src/bounded_turn_echo.rs:282-300 | at most one input is captured, and it is the one that user items are compared with |
| `EchoReplay.EchoState.Transition` | crates/nightshift-foreman/src/bounded_turn_echo.rs:178-243 | the mutable state advances as the lifecycle function says, and a refusal changes nothing |
| `EchoReplay.EchoState.ConsumeRecord` | crates/nightshift-foreman/src/bounded_turn_echo.rs:282-326 | input capture, selection, and the charge of unselected completions |
| `EchoReplay.CheckRecord` | crates/nightshift-foreman/src/bounded_turn_echo.rs:327-356 | a record is accepted exactly when its retained failure is the derived one, bound to its wire |
| `EchoReplay.ValidateSnapshot` | crates/nightshift-foreman/src/bounded_turn_echo.rs:248-358 | the loop computes the verdict of every record, or rejects |
| `Scheduler.Replay` | crates/nightshift-foreman/src/scheduler.rs:112-309 | the event loop computes the fold of the journal, and the readiness loop its projection |
| `Scheduler.Acquire` | crates/nightshift-foreman/src/scheduler.rs:165-223 | after the loop each of the keys is held by the claim, and every other key is held as before |
| `Scheduler.DeriveReadiness` | crates/nightshift-foreman/src/scheduler.rs:275-309 | the second loop rewrites every item to its readiness projection |
| `SchedulerOrder.CommuteIffDisjoint` | crates/nightshift-foreman/src/scheduler.rs:157-273 | events of different known items, not both closing the run, commute exactly when they claim no common key |
| `SchedulerOrder.SameOrderSameWorld` | crates/nightshift-foreman/src/scheduler.rs:157-273 | journals with the same per-item and per-closing order and no shared claims fold to the same items, claims and closing |
| `SchedulerOrder.InterleavingIsIrrelevant` | crates/nightshift-foreman/src/scheduler.rs:112-309 | so their projections are equal |
| `SchedulerClaims.ClaimProvenance` | crates/nightshift-foreman/src/scheduler.rs:165-223 | a key is held by (item, attempt) exactly when the last known event claiming it was theirs and no item-wide or attempt-matched release followed |
| `SchedulerClaims.ReadyIff` | crates/nightshift-foreman/src/scheduler.rs:275-309 | an item is shown READY exactly when it has no attempt, is not terminal, refused or indeterminate, its dependencies are shown terminal and none of its keys is held |
| `SchedulerClaims.SomeItemIsReady` | crates/nightshift-foreman/src/scheduler.rs:275-309 | over an acyclic packet with no claims and only unstarted unfinished items, some item is READY |
| `SchedulerItems.StateProvenance` | crates/nightshift-foreman/src/scheduler.rs:164-265 | after a replay an item is in the state that its last state-setting event sets, by a table of events per state, or waits for dependencies when there is none |
| `SchedulerItems.FieldProvenance` | crates/nightshift-foreman/src/scheduler.rs:164-206 | active attempt, outcome, result presence, sequence and digest are those of the last event that carries them |
| `SchedulerItems.IdentityProvenance` | crates/nightshift-foreman/src/scheduler.rs:327-345 | each identity is the last one that an adapter event or a disposition showed |
| `SchedulerItems.QuestionProvenance` | crates/nightshift-foreman/src/scheduler.rs:357-367 | the questions are the first of each id, in journal order |
| `SchedulerItems.ClosedProvenance` | crates/nightshift-foreman/src/scheduler.rs:267-272 | the run is closed with the digest of its last effective closing event |
| `SchedulerItems.ClaimFromJournal` | crates/nightshift-foreman/src/scheduler.rs:165-223 | a key is held by an item and attempt exactly when they took it last and neither gave it up since |
| `SchedulerItems.ShownFromJournal` | crates/nightshift-foreman/src/scheduler.rs:275-309 | what every item is shown as, and the terminality of its dependencies, as a property of the journal alone |
| `Schema.Walk` | crates/nightshift-foreman/src/execution_availability.rs:2481-2650 | the recursive walk with its growing name set terminates on every schema and value and computes the evaluated names |
| `Schema.EvaluatedIffDeclared` | crates/nightshift-foreman/src/execution_availability.rs:2481-2650 | in an accepted object a name is evaluated exactly when a subschema applied to that same object through $ref, allOf or the single matching oneOf branch declares it, as section 11.3 of JSON Schema Core 2020-12 intends |
| `Schema.ObjectsAreClosed` | crates/nightshift-foreman/src/execution_availability.rs:2641-2647 | under `unevaluatedProperties: false` every key of an accepted object is declared in that way |
| `Schema.AdditionalPropertiesEffect` | crates/nightshift-foreman/src/execution_availability.rs:2626-2640 | the whole effect of additionalProperties: beside a properties object the value false refuses keys outside it, and in every other schema removing the keyword changes no outcome |
| `Schema.AdditionalCloses` | crates/nightshift-foreman/src/execution_availability.rs:2626-2640 | under additionalProperties: false an accepted object stays inside the declared properties exactly when there is a properties object or the object is empty |
| `Schema.AdditionalWithoutProperties` | crates/nightshift-foreman/src/execution_availability.rs:2626-2640 | a schema with only additionalProperties: false accepts an object with a key |
| `Schema.OneMatch` | crates/nightshift-foreman/src/execution_availability.rs:2510-2519 | the names of a oneOf come from the only branch that accepts the value |
| `Schema.CycleIsRefused` | crates/nightshift-foreman/src/execution_availability.rs:2487-2509 | a node that leads back to itself through references and allOf branches accepts no value |
| `SchemaLaws.AcceptsIff` | crates/nightshift-foreman/src/execution_availability.rs:2481-2650 | a node accepts a value within the depth limit if and only if the value obeys every keyword read off the schema, its subschemas and those of items and members accept, exactly one oneOf branch does, and no key of a closed object is undeclared |
| `SchemaLaws.AcceptedObeys` | crates/nightshift-foreman/src/execution_availability.rs:2481-2650 | an accepted value obeys the keywords of every subschema that applies to it, and so do its items and declared members |
| `SchemaLaws.LeafAcceptsIff` | crates/nightshift-foreman/src/execution_availability.rs:2520-2625 | a leaf schema accepts exactly the values that obey its keywords |
| `SchemaLaws.RefIs` | crates/nightshift-foreman/src/execution_availability.rs:2495-2504 | a reference resolves exactly to the root definition that it names |
| `InvestigationSafety.RunKeeps` | tools/nightshift_service_investigation.py:163-307 | every interleaving of submitters, workers, crashes and failed commands keeps the protocol invariant |
| `InvestigationSafety.AtMostOnce` | tools/nightshift_service_investigation.py:163-222 | at most one launch is issued, at most one worker ever passes the lock, and each diagnostic is acquired at most once and in order |
| `InvestigationSafety.OneRunId` | tools/nightshift_service_investigation.py:163-222 | every receipt ever returned has the same run id, which state, receipt and record on disk share |
| `InvestigationSafety.CompletedHasRecord` | tools/nightshift_service_investigation.py:279-307 | a completed state is always accompanied by the record with both findings in order |
| `InvestigationProgress.InvestigationCompletes` | tools/nightshift_service_investigation.py:163-307 | an undisturbed submission and worker end with one launch, one receipt, both diagnostics in order and a complete record |
| `InvestigationProgress.FirstSubmission` | tools/nightshift_service_investigation.py:163-222 | a first submission returns a receipt with its fresh run id, or records that nothing was started |
| `InvestigationProgress.WorkerCompletes` | tools/nightshift_service_investigation.py:279-307 | an undisturbed worker completes from every submitted occurrence |
| `InvestigationProgress.FailureIsIndeterminate` | tools/nightshift_service_investigation.py:300-307 | a failed diagnostic leaves an indeterminate state and no record |
| `InvestigationProgress.LaterSubmitterAdoptsRun` | tools/nightshift_service_investigation.py:176-188 | a later submitter of the same handoff adopts the recorded run id and launches nothing |
| `Alignment.ReopenRows` | crates/nightshift-casework/src/live_execution.rs:564-685 | the walk accepts exactly when there is one requirement row, each kind's rows in journal order match the retained list with no primary list left over, and each released or reacquired row follows the record it names; it projects the values in journal order |
| `AlignmentRows.AcceptedRowIsRetained` | crates/nightshift-casework/src/live_execution.rs:199-388 | every row of an accepted journal equals, field by field, the retained elements at its own position |
| `AlignmentRows.AcceptedRowRestsOnEarlier` | crates/nightshift-casework/src/live_execution.rs:342-360 | a release follows the disposition it names for its dispatch, a reacquisition the deferral it names |
| `AlignmentRows.OneOfEachIsAccepted` | crates/nightshift-casework/src/live_execution.rs:564-685 | a journal with a row of every kind is accepted |
| `Alignment.PrecededIff` | crates/nightshift-casework/src/live_execution.rs:290-388 | the search among projected values finds a record exactly when an earlier row carries it |
| `Alignment.ParallelListsMayExceed` | crates/nightshift-casework/src/live_execution.rs:674-682 | an accepted history stays accepted whatever any of its ten parallel lists carries beyond the journal |
| `Alignment.NothingOverIffParallel` | crates/nightshift-casework/src/live_execution.rs:674-682 | an accepted journal outruns no retained list, and uses up every one exactly when each parallel list has its primary length |
| `Alignment.SpareWakeAttemptIsAccepted` | crates/nightshift-casework/src/live_execution.rs:217-227 | any accepted history stays accepted with a spare wake attempt that no row carries |
| `Capacity.OrdinaryIff` | crates/nightshift-provider-capacity/src/model.rs:368-466 | ordinary and expensive work is admitted exactly when the observation is current, all required windows are present and every fractional window is at or above the normal threshold; speculative work needs the abundant one |
| `Capacity.DecisionLaw` | crates/nightshift-provider-capacity/src/model.rs:368-466 | every state and every admission, each exactly by currency, thresholds and the policy for unknown capacity |
| `Capacity.ReasonNamesObstacle` | crates/nightshift-provider-capacity/src/model.rs:372-420 | the reason of an untrusted observation names the first obstacle |
| `Capacity.TrustedReason` | crates/nightshift-provider-capacity/src/model.rs:372-435 | a trusted observation is refused exactly for its missing windows or absent fractions, and otherwise names its state |
| `Capacity.GradedIffCurrent` | crates/nightshift-provider-capacity/src/model.rs:368-466 | a capacity is known exactly when the observation is current, and is then graded by the least fraction |
| `Capacity.RaisingIsMonotone` | crates/nightshift-provider-capacity/src/model.rs:368-466 | raising fractions never makes a decision stricter |
| `CapacityProjection.IndexAdmissions` | crates/nightshift-casework/src/live_capacity.rs:116-151 | the first loop accepts exactly bounded records with distinct attempts and indexes them all |
| `CapacityProjection.MatchRows` | crates/nightshift-casework/src/live_capacity.rs:152-316 | the second loop accepts exactly when journal rows and retained admissions match one-to-one, each bound to run, work item and evidence and admitted by its replayed decision, and projects them in journal order |
| `CapacityProjection.ProjectCapacity` | crates/nightshift-casework/src/live_capacity.rs:22-316 | both loops together: without a requirement only an empty journal projects, and with one exactly the bounded, distinct and aligned histories do |
| `CapacityProjection.ExpensiveRestsOnCapacity` | crates/nightshift-casework/src/live_capacity.rs:215-316 | each expensive attempt has the cost class of its packet model, and rests on the decision replayed at its time from the run's provider, inside the observation's life, before every reset and with every fractional window at or above the normal threshold |
| `CapacityProjection.AttemptsAreBound` | crates/nightshift-casework/src/live_capacity.rs:215-258 | every projected attempt is bound to the run, to its own work item and to exactly the evidence retained beside it |
| `CapacityProjection.EveryAdmissionIsProjected` | crates/nightshift-casework/src/live_capacity.rs:152-181 | every retained admission has its row |
| `Framing.DecodeRoundTrip` | crates/nightshift-casework/src/live_loader.rs:400-438 | a decoder recovers every sequence number, key and payload from the framed bytes |
| `Framing.JournalFramingInjective` | crates/nightshift-casework/src/live_loader.rs:400-417 | different journals never frame to the same bytes |
| `Framing.ReceiptsFramingInjective` | crates/nightshift-casework/src/live_loader.rs:419-438 | different receipt maps never frame to the same bytes |
| `Framing.FramingsAreSeparate` | crates/nightshift-casework/src/live_loader.rs:400-438 | a journal framing is never a receipts framing |
| `Framing.Frame` | crates/nightshift-casework/src/live_loader.rs:400-438 | the buffer loop computes the framing |

## Left out

- Admission.ValidateSnapshotComplete: does not decide snapshot, binding and evidence digests, canonical bytes and owner heads, because digests are parameters; structure, identities, replay and cut are decided.
- DispatchHistory.OccurrenceIsFree: speaks of the history-dependent half of the step alone; `Progress.UsedOccurrenceIsAccepted` states the same of the whole graph.
- RecordedRuns.RefusalIsRecordable: shows one record list per refusal, without client requests, because it is an existence result.
- CapacityProjection.MatchRows: takes record digests as given labels and does not decide canonical bytes.
- SHA-256, RFC 8785 canonical JSON, hex custody of raw bytes and the digests that seal records are function parameters or equalities already decided; only the seal of a deferral is modelled, because derivation computes it.
- The vendored schemas and their selection by owner pins: records are typed, and the schema walk is proved over an arbitrary schema instead.
- The bootstrap graph, prelaunch closure, worker-start V3 binding, owner pins and casework's requirement identity tests: each is settled by reading one branch.
- The exact evidence bytes, identity and version of an observation source; the model keeps its times, selection, state and retry time.
- Overflow of calendar arithmetic and of the unsigned cumulative sum: integers are unbounded here, and valid records are far below those limits.
- Provider retry times below a millisecond: the source truncates them, and `DispatchHistory.ExactSecondsMeaning` states the resulting inequality.
- Distinct error messages and the order in which a validator finds several faults: rejection is one outcome, except for discrepancy reasons, which are modelled exactly.
- The SQLite store, packet parsing, HTTP server, static UI, report rendering and subprocess supervisor; acyclic dependencies and fresh occurrence ids enter as hypotheses.
- Mutual exclusion of lock claims: replay overwrites claims without a test, so the scheduler does not decide it.
- Adapter identifiers, labels and other display fields of scheduler items, and the casework metadata projected beside the aligned values.
- The contents of diagnostics, signing commands and file modes in the investigation tool: commands are nondeterministic outcomes, and submitters and workers are steps of one state machine over files rather than objects, so that every interleaving and crash is covered.
