// Ordered acquisition evidence: wire frames, the records retained about them, and the
// closed vocabulary of discrepancy details.
module Evidence {
  import opened Wire

  // Field names that the replay inspects.  Every other name falls under `Named`.
  datatype Key =
    | KMethod | KParams | KId | KResult | KError | KEmittedAtMs
    | KThreadId | KTurnId | KRequestOccurrenceId | KSamplingOrdinal | KRequestOrder
    | KProvider | KModel | KStartedAtMs | KCompletedAtMs | KObservedAtMs | KResponseId
    | KResponseCreated | KWillRetry | KRefusalKind | KCodexErrorInfo | KRetryAfterMs
    | KDiagnostic | KUsage | KThread | KTurn | KItem | KItemId | KItems | KItemsView
    | KType | KText | KTextElements | KContent | KClientId | KPhase | KMemoryCitation
    | KDelivery | KDelta | KInput | KStatus | KStartedAt | KCompletedAt | KDurationMs
    | Named(name: string)

  type Frame = Json<Key>
  type Fields = map<Key, Frame>

  datatype MethodClass =
    | ProviderRequestStarted
    | RawResponseStarted
    | ProviderAdmissionRefused
    | RawResponseCompleted
    | OtherProviderBoundary
    | ApprovalMethod
    | ThreadStartedMethod
    | TurnStartedMethod
    | TurnCompletedMethod
    | ErrorMethod
    | OtherMethod

  function Classify(name: string): MethodClass {
    if name == "providerRequest/started" then ProviderRequestStarted
    else if name == "rawResponse/started" then RawResponseStarted
    else if name == "providerAdmission/refused" then ProviderAdmissionRefused
    else if name == "rawResponse/completed" then RawResponseCompleted
    else if name == "item/commandExecution/requestApproval" || name == "item/fileChange/requestApproval" then ApprovalMethod
    else if name == "thread/started" then ThreadStartedMethod
    else if name == "turn/started" then TurnStartedMethod
    else if name == "turn/completed" then TurnCompletedMethod
    else if name == "error" then ErrorMethod
    else if HasPrefix(name, "providerAdmission/") || HasPrefix(name, "providerRequest/") || HasPrefix(name, "rawResponse/") then OtherProviderBoundary
    else OtherMethod
  }

  predicate ProviderBoundary(m: MethodClass) {
    m.ProviderRequestStarted? || m.RawResponseStarted? || m.ProviderAdmissionRefused?
    || m.RawResponseCompleted? || m.OtherProviderBoundary?
  }

  // The four notifications that move the provider-side state.
  predicate BoundaryMethod(m: MethodClass) {
    ProviderBoundary(m) && !m.OtherProviderBoundary?
  }

  predicate LocalMethod(m: MethodClass) {
    m.ThreadStartedMethod? || m.TurnStartedMethod? || m.TurnCompletedMethod?
  }

  datatype RequestClass = Initialize | ThreadStart | TurnStart | ThreadRead | ThreadResume | Fixture | OtherRequest

  function ClassifyRequest(name: string): RequestClass {
    if name == "initialize" then Initialize
    else if name == "thread/start" then ThreadStart
    else if name == "turn/start" then TurnStart
    else if name == "thread/read" then ThreadRead
    else if name == "thread/resume" then ThreadResume
    else if name == "fixture/provider-admission-positive"
         || name == "fixture/provider-order-approval-before-created"
         || name == "fixture/provider-order-loss-before-created"
         || name == "fixture/provider-order-duplicate-key"
         || name == "fixture/provider-order-nested-duplicate-key" then Fixture
    else OtherRequest
  }

  // A discrepancy's `detail` text.  `Free` is any text outside the closed vocabulary.
  datatype Detail =
    // acquisition
    | OrdinalGap | EnvelopeShape | UnexpectedRequestMethod | ClientRequestMethodMissing
    | ClientResponseMethodMissing | UnknownEnvelopeKind
    | WireBytesRequired | WireBytesExceedBound | WireBytesUnterminated | WireBytesDiffer
    | InvalidRetainedJson(rest: string)
    // client lane
    | InvalidClientRequestId | ClientRequestShape | ClientRequestParams | FixtureNotPermitted
    | UnknownClientRequest | ClientRequestThread | DuplicateClientRequest
    | InvalidClientResponseId | ClientResponseIdentity | ClientResponseShape
    | ClientRequestReturnedError | ClientResultNotObject
    | ThreadStartThread | ThreadReadThread | ThreadResumeThread | TurnStartTurn
    // ordered provider stream
    | MethodNotString | MethodExceedsBound
    | FollowedInterruption | FollowedIndeterminate | FollowedCompletedTurn | FollowedApproval
    | CoarseError | UnknownServerRequest | ApprovalIdentity | ApprovalBeforeAdmission
    | ApprovalBeforeCompletion
    | LocalThread | LocalTurn | TurnWithoutExecution | TurnBeforeClosed
    | ClosedFields | SubstitutedThread | SubstitutedTurn | SubstitutedProvider | SubstitutedModel
    | InvalidOccurrence | InvalidSamplingOrdinal | InvalidRequestOrder | InvalidStartedAt
    | StartBeforeBoundary | HidesPendingRequest | BeforeResponseCompletion | FollowsClosedDispatch
    | RequestOrdering | DuplicateOccurrence | MultiplePreAdmission
    | NoPendingRequest | InvalidResponseId | InvalidObservedAt | ResponseBeforeStart
    | DuplicateResponse
    | RefusalAfterExecution | RefusalNotTerminal | UnknownRefusalKind | RefusalTypedError
    | InvalidRetryAfter | DiagnosticExceedsBound | RefusalBeforeStart
    | CompletionFields | CompletionWithoutExecution | CompletionIdentity | CompletionResponse
    | UnknownBoundaryNotification
    // bounded turn echo
    | InputShape | InputDuplicate | ItemShape | UserStart | UserComplete | UserDuplicate
    | AgentStart | AgentComplete | AgentDelta | AgentSummary | AgentTotal
    | Free(text: string)

  datatype Identity = Identity(
    provider: string, model: string, session: string, thread: string, turn: string, firstResponse: string)

  datatype StepIdentity = StepIdentity(
    provider: string, model: string, thread: string, turn: string,
    occurrence: string, samplingOrdinal: int, requestOrder: int, response: string)

  datatype ProcessState = ProcessUnknown | ProcessAbsent | ProcessRunning | Exited | ExitedAfterTerminate | ExitedAfterKill | ExitUnconfirmed

  datatype Cut = Cut(
    adapterProcess: string, session: string, streamQuiesced: bool, lossGeneration: int, process: ProcessState,
    orderedHighWater: int, consumedOrdinals: int, outstandingClientRequests: int, clean: bool)

  // A record's kind together with its normalized payload.  Payload members that the
  // evidence schema fixes to one constant are not repeated here.
  datatype Evidence =
    | RequestStarted(occurrence: string, samplingOrdinal: int, requestOrder: int, startedAtMs: int)
    | ExecutionStep(execution: Identity, step: StepIdentity, firstBoundary: bool, observedAtMs: int)
    | AdmissionRefused(occurrence: string, samplingOrdinal: int, requestOrder: int,
                       retryAfterMs: Option<int>, diagnostic: string, observedAtMs: int)
    | ResponseCompleted(response: string)
    | WaitingApproval(approved: Identity)
    | LocalTurnFact
    | Discrepancy(detail: Detail, admitted: Option<Identity>, resumeSameAttemptOnly: bool)
    | ClientRequestIssued(requestId: int, requestMethod: string, paramsDigest: string)
    | ClientResponseRetained(requestId: int, requestMethod: string, paramsDigest: string, resultDigest: string)
    | Watermark
    | AcquisitionCut(cut: Cut)

  datatype Lane = LossLane | NotificationLane | ServerRequestLane | ClientRequestLane | ClientResponseLane | UnknownLane

  datatype Representation = AcquiredFrameBytes | WireBytes

  // `wire` is None when the retained bytes are not one JSON value free of duplicate keys.
  datatype Raw = Raw(representation: Representation, byteLength: nat, wire: Option<Frame>)

  datatype Record = Record(evidence: Evidence, name: string, ordinal: Option<int>, lane: Option<Lane>, raw: Option<Raw>)

  const MAXIMUM_EVIDENCE_BYTES: nat := 16 * 1024
  const MAXIMUM_TURN_EVIDENCE_BYTES: nat := 256 * 1024

  function RawBound(rec: Record): nat {
    if (rec.lane == Some(ClientRequestLane) && rec.name == "client-request/turn/start")
       || (rec.lane == Some(NotificationLane)
           && rec.name in ["item/started", "item/completed", "item/agentMessage/delta", "turn/completed"])
    then MAXIMUM_TURN_EVIDENCE_BYTES
    else MAXIMUM_EVIDENCE_BYTES
  }

  // ---- what the evidence schema demands of identities and numbers ----

  predicate BoundedId(text: string) { 1 <= |text| <= 512 }
  predicate SafeInt(n: int) { -SAFE <= n <= SAFE }
  predicate U32(n: int) { 0 <= n <= U32_MAX }
  predicate U53(n: int) { 0 <= n <= SAFE }

  predicate BoundedIdentity(i: Identity) {
    BoundedId(i.provider) && BoundedId(i.model) && BoundedId(i.session) && BoundedId(i.thread)
    && BoundedId(i.turn) && BoundedId(i.firstResponse)
  }

  predicate BoundedEvidence(e: Evidence) {
    match e
    case RequestStarted(occurrence, ordinal, order, at) =>
      BoundedId(occurrence) && U32(ordinal) && U32(order) && SafeInt(at)
    case ExecutionStep(execution, step, _, at) =>
      BoundedIdentity(execution) && SafeInt(at)
      && BoundedId(step.provider) && BoundedId(step.model) && BoundedId(step.thread) && BoundedId(step.turn)
      && BoundedId(step.occurrence) && U32(step.samplingOrdinal) && U32(step.requestOrder) && BoundedId(step.response)
    case AdmissionRefused(occurrence, ordinal, order, retry, diagnostic, at) =>
      BoundedId(occurrence) && U32(ordinal) && U32(order) && (retry.Some? ==> U53(retry.value))
      && |diagnostic| <= 4096 && SafeInt(at)
    case ResponseCompleted(response) => BoundedId(response)
    case WaitingApproval(execution) => BoundedIdentity(execution)
    case Discrepancy(detail, admitted, _) =>
      (admitted.Some? ==> BoundedIdentity(admitted.value)) && (detail.Free? ==> |detail.text| <= 4096)
    case ClientRequestIssued(id, name, _) => U53(id) && BoundedId(name)
    case ClientResponseRetained(id, name, _, _) => U53(id) && BoundedId(name)
    case AcquisitionCut(cut) =>
      BoundedId(cut.adapterProcess) && BoundedId(cut.session) && U53(cut.lossGeneration)
      && U53(cut.orderedHighWater) && U53(cut.consumedOrdinals) && U53(cut.outstandingClientRequests)
    case LocalTurnFact => true
    case Watermark => true
  }

  // The only unordered record a decision may carry besides the cut: a rawless local loss.
  predicate LocalLoss(rec: Record) {
    rec.evidence.Discrepancy? && rec.name == "adapter/acquisition" && rec.raw.None? && rec.ordinal.None? && rec.lane.None?
  }

  predicate WellFormed(rec: Record) {
    && BoundedEvidence(rec.evidence)
    && 1 <= |rec.name| <= 512
    && (rec.ordinal.Some? ==> U53(rec.ordinal.value))
    && (rec.raw.Some? ==> 1 <= rec.raw.value.byteLength <= RawBound(rec))
    && (rec.evidence.AcquisitionCut? || LocalLoss(rec) || (rec.ordinal.Some? && rec.lane.Some?))
  }
}
