// Ordered replay of acquisition evidence: every record is either the transition that its raw
// frame makes, or a discrepancy whose detail is derived from the same frame and state.
module Replay {
  import opened Wire
  import opened Evidence

  // What a disposition and its snapshot binding fix before any record is read.
  // `sha256` stands for the digest of a value's canonical form.
  datatype Binding = Binding(
    provider: string, model: string, session: string, thread: string, turn: string,
    deterministicFixture: bool, requestOccurrence: string, sha256: Frame -> string)

  datatype Pending = Pending(occurrence: string, samplingOrdinal: int, requestOrder: int, startedAtMs: int)

  datatype Refusal = Refusal(occurrence: string, retryAfterMs: Option<int>, observedAtMs: int)

  datatype State = State(
    next: int,
    pending: Option<Pending>,
    completedRequests: set<string>,
    lastBoundaryMs: Option<int>,
    clientRequests: map<int, (string, string)>,
    execution: Option<Identity>,
    openResponse: Option<string>,
    completedResponses: set<string>,
    refusal: Option<Refusal>,
    turnCompleted: bool,
    approval: bool,
    discrepancy: bool)

  const INIT := State(0, None, {}, None, map[], None, None, {}, None, false, false, false)

  // ---- identities and frames ----

  predicate IdChar(c: char) {
    'a' <= c <= 'z' || 'A' <= c <= 'Z' || '0' <= c <= '9' || c == '.' || c == '_' || c == '-' || c == ':' || c == '/'
  }

  // The closed identifier alphabet of owner records.
  predicate IsId(text: string) {
    BoundedId(text) && forall i | 0 <= i < |text| :: IdChar(text[i])
  }

  predicate IdentityIsId(i: Identity) {
    IsId(i.provider) && IsId(i.model) && IsId(i.session) && IsId(i.thread) && IsId(i.turn) && IsId(i.firstResponse)
  }

  function FrameMethod(wire: Frame): Option<string> {
    if wire.Obj? then StrAt(wire.fields, KMethod) else None
  }

  function Params(wire: Frame): Fields {
    if wire.Obj? then ObjAt(wire.fields, KParams) else map[]
  }

  const REQUEST_FIELDS: set<Key> :=
    {KThreadId, KTurnId, KRequestOccurrenceId, KSamplingOrdinal, KRequestOrder, KProvider, KModel, KStartedAtMs}
  const STEP_FIELDS: set<Key> :=
    {KThreadId, KTurnId, KRequestOccurrenceId, KSamplingOrdinal, KRequestOrder, KProvider, KModel, KResponseId, KObservedAtMs}
  const REFUSAL_FIELDS: set<Key> :=
    {KThreadId, KTurnId, KRequestOccurrenceId, KSamplingOrdinal, KRequestOrder, KProvider, KModel, KResponseCreated,
     KWillRetry, KRefusalKind, KCodexErrorInfo, KRetryAfterMs, KDiagnostic, KObservedAtMs}
  const COMPLETION_FIELDS: set<Key> := {KThreadId, KTurnId, KResponseId, KUsage}

  predicate ThreadMatches(b: Binding, p: Fields) { StrAt(p, KThreadId) == Some(b.thread) }
  predicate TurnMatches(b: Binding, p: Fields) { StrAt(p, KTurnId) == Some(b.turn) }

  predicate CommonMatches(b: Binding, p: Fields) {
    ThreadMatches(b, p) && TurnMatches(b, p) && StrAt(p, KProvider) == Some(b.provider) && StrAt(p, KModel) == Some(b.model)
  }

  predicate BoundedIdAt(p: Fields, key: Key) { StrAt(p, key).Some? && BoundedId(StrAt(p, key).value) }
  predicate U32At(p: Fields, key: Key) { IntAt(p, key).Some? && U32(IntAt(p, key).value) }
  predicate SafeAt(p: Fields, key: Key) { IntAt(p, key).Some? && SafeInt(IntAt(p, key).value) }

  // The identity that an execution step binds: the current one, or the one its first response creates.
  function StepExecution(b: Binding, s: State, response: string): Identity {
    if s.execution.Some? then s.execution.value
    else Identity(b.provider, b.model, b.session, b.thread, b.turn, response)
  }

  predicate Closed(s: State) { s.discrepancy || (s.turnCompleted && s.execution.Some?) }

  // ---- transitions replayed from raw frames ----

  predicate RequestReplay(b: Binding, p: Fields, e: Evidence) {
    && e.RequestStarted?
    && p.Keys == REQUEST_FIELDS && CommonMatches(b, p)
    && StrAt(p, KRequestOccurrenceId) == Some(e.occurrence)
    && IntAt(p, KSamplingOrdinal) == Some(e.samplingOrdinal)
    && IntAt(p, KRequestOrder) == Some(e.requestOrder)
    && IntAt(p, KStartedAtMs) == Some(e.startedAtMs)
  }

  predicate StepReplay(b: Binding, s: State, p: Fields, e: Evidence) {
    && e.ExecutionStep?
    && p.Keys == STEP_FIELDS && CommonMatches(b, p)
    && StrAt(p, KResponseId) == Some(e.step.response)
    && e.execution == StepExecution(b, s, e.step.response)
    && e.step.provider == b.provider && e.step.model == b.model
    && e.step.thread == b.thread && e.step.turn == b.turn
    && StrAt(p, KRequestOccurrenceId) == Some(e.step.occurrence)
    && IntAt(p, KSamplingOrdinal) == Some(e.step.samplingOrdinal)
    && IntAt(p, KRequestOrder) == Some(e.step.requestOrder)
    && e.firstBoundary == s.execution.None?
    && IntAt(p, KObservedAtMs) == Some(e.observedAtMs)
  }

  predicate RetryReplay(retry: Frame, e: Option<int>) {
    (retry.Null? && e.None?) || (retry.Int? && e == Some(retry.n))
  }

  predicate RefusalReplay(b: Binding, p: Fields, e: Evidence) {
    && e.AdmissionRefused?
    && p.Keys == REFUSAL_FIELDS && CommonMatches(b, p)
    && StrAt(p, KRequestOccurrenceId) == Some(e.occurrence)
    && IntAt(p, KSamplingOrdinal) == Some(e.samplingOrdinal)
    && IntAt(p, KRequestOrder) == Some(e.requestOrder)
    && Get(p, KResponseCreated) == Some(Bool(false)) && Get(p, KWillRetry) == Some(Bool(false))
    && StrAt(p, KRefusalKind) == Some("modelAtCapacity") && StrAt(p, KCodexErrorInfo) == Some("serverOverloaded")
    && KRetryAfterMs in p && RetryReplay(p[KRetryAfterMs], e.retryAfterMs)
    && StrAt(p, KDiagnostic) == Some(e.diagnostic)
    && IntAt(p, KObservedAtMs) == Some(e.observedAtMs)
  }

  predicate CompletionReplay(b: Binding, p: Fields, e: Evidence) {
    && e.ResponseCompleted?
    && p.Keys == COMPLETION_FIELDS && ThreadMatches(b, p) && TurnMatches(b, p)
    && StrAt(p, KResponseId) == Some(e.response)
  }

  predicate LocalThreadMatches(b: Binding, name: string, p: Fields) {
    if Classify(name).ThreadStartedMethod? then StrAt(ObjAt(p, KThread), KId) == Some(b.thread) else ThreadMatches(b, p)
  }

  predicate LocalTurnMatches(b: Binding, name: string, p: Fields) {
    Classify(name).ThreadStartedMethod? || StrAt(ObjAt(p, KTurn), KId) == Some(b.turn)
  }

  // A frame of the ordered provider stream recorded as the transition it makes.
  predicate TransitionReplay(b: Binding, s: State, rec: Record, wire: Frame) {
    var p := Params(wire);
    FrameMethod(wire) == Some(rec.name) &&
    match rec.evidence
    case RequestStarted(_, _, _, _) => RequestReplay(b, p, rec.evidence)
    case ExecutionStep(_, _, _, _) => StepReplay(b, s, p, rec.evidence)
    case AdmissionRefused(_, _, _, _, _, _) => RefusalReplay(b, p, rec.evidence)
    case ResponseCompleted(_) => CompletionReplay(b, p, rec.evidence)
    case WaitingApproval(execution) =>
      Classify(rec.name).ApprovalMethod? && ThreadMatches(b, p) && TurnMatches(b, p) && s.execution == Some(execution)
    case LocalTurnFact =>
      LocalMethod(Classify(rec.name)) && LocalThreadMatches(b, rec.name, p) && LocalTurnMatches(b, rec.name, p)
    case Watermark =>
      var m := Classify(rec.name); !m.ErrorMethod? && !LocalMethod(m) && !ProviderBoundary(m)
    case _ => false
  }

  // ---- details derived from raw frames ----
  // None means that the frame makes a valid transition, so no discrepancy may be recorded for it.

  // The first of two reasons.
  function Either(first: Option<Detail>, second: Option<Detail>): Option<Detail> { if first.Some? then first else second }

  // The checks shared by the three notifications that carry a request occurrence.
  function CommonDetail(b: Binding, p: Fields, fields: set<Key>): Option<Detail> {
    if p.Keys != fields then Some(ClosedFields)
    else if !ThreadMatches(b, p) then Some(SubstitutedThread)
    else if !TurnMatches(b, p) then Some(SubstitutedTurn)
    else if StrAt(p, KProvider) != Some(b.provider) then Some(SubstitutedProvider)
    else if StrAt(p, KModel) != Some(b.model) then Some(SubstitutedModel)
    else if !BoundedIdAt(p, KRequestOccurrenceId) then Some(InvalidOccurrence)
    else if !U32At(p, KSamplingOrdinal) then Some(InvalidSamplingOrdinal)
    else if !U32At(p, KRequestOrder) then Some(InvalidRequestOrder)
    else None
  }

  // What the position of the replay asks of a well-formed request.
  function RequestOrderDetail(s: State, p: Fields): Option<Detail> {
    var count := |s.completedRequests|;
    if !SafeAt(p, KStartedAtMs) then Some(InvalidStartedAt)
    else if s.lastBoundaryMs.Some? && IntAt(p, KStartedAtMs).value < s.lastBoundaryMs.value then Some(StartBeforeBoundary)
    else if s.pending.Some? then Some(HidesPendingRequest)
    else if s.openResponse.Some? then Some(BeforeResponseCompletion)
    else if s.refusal.Some? then Some(FollowsClosedDispatch)
    else if IntAt(p, KSamplingOrdinal) != Some(count) || IntAt(p, KRequestOrder) != Some(count) then Some(RequestOrdering)
    else if StrAt(p, KRequestOccurrenceId).Some? && StrAt(p, KRequestOccurrenceId).value in s.completedRequests then Some(DuplicateOccurrence)
    else if IntAt(p, KSamplingOrdinal).value > 0 && s.execution.None? then Some(MultiplePreAdmission)
    else None
  }

  function RequestDetail(b: Binding, s: State, p: Fields): Option<Detail> {
    Either(CommonDetail(b, p, REQUEST_FIELDS), RequestOrderDetail(s, p))
  }

  // The prefix of checks shared by the two notifications that close a pending request.
  function BoundaryDetail(b: Binding, s: State, p: Fields, fields: set<Key>): Option<Detail> {
    Either(CommonDetail(b, p, fields), if s.pending.None? || !PendingMatches(s.pending.value, p) then Some(NoPendingRequest) else None)
  }

  predicate PendingMatches(pending: Pending, p: Fields) {
    StrAt(p, KRequestOccurrenceId) == Some(pending.occurrence)
    && IntAt(p, KSamplingOrdinal) == Some(pending.samplingOrdinal)
    && IntAt(p, KRequestOrder) == Some(pending.requestOrder)
  }

  function StepAnswerDetail(s: State, p: Fields): Option<Detail> {
    if !BoundedIdAt(p, KResponseId) then Some(InvalidResponseId)
    else if !SafeAt(p, KObservedAtMs) then Some(InvalidObservedAt)
    else if s.pending.Some? && IntAt(p, KObservedAtMs).value < s.pending.value.startedAtMs then Some(ResponseBeforeStart)
    else if StrAt(p, KResponseId).value in s.completedResponses || s.openResponse == StrAt(p, KResponseId) then Some(DuplicateResponse)
    else None
  }

  function StepDetail(b: Binding, s: State, p: Fields): Option<Detail> {
    Either(BoundaryDetail(b, s, p, STEP_FIELDS), StepAnswerDetail(s, p))
  }

  function RefusalAnswerDetail(s: State, p: Fields): Option<Detail> {
    if s.execution.Some? then Some(RefusalAfterExecution)
    else if Get(p, KResponseCreated) != Some(Bool(false)) || Get(p, KWillRetry) != Some(Bool(false)) then Some(RefusalNotTerminal)
    else if StrAt(p, KRefusalKind) != Some("modelAtCapacity") then Some(UnknownRefusalKind)
    else if StrAt(p, KCodexErrorInfo) != Some("serverOverloaded") then Some(RefusalTypedError)
    else if Get(p, KRetryAfterMs) != Some(Null) && !(IntAt(p, KRetryAfterMs).Some? && U53(IntAt(p, KRetryAfterMs).value)) then Some(InvalidRetryAfter)
    else if StrAt(p, KDiagnostic).None? || |StrAt(p, KDiagnostic).value| > 4096 then Some(DiagnosticExceedsBound)
    else if !SafeAt(p, KObservedAtMs) then Some(InvalidObservedAt)
    else if s.pending.Some? && IntAt(p, KObservedAtMs).value < s.pending.value.startedAtMs then Some(RefusalBeforeStart)
    else None
  }

  function RefusalDetail(b: Binding, s: State, p: Fields): Option<Detail> {
    Either(BoundaryDetail(b, s, p, REFUSAL_FIELDS), RefusalAnswerDetail(s, p))
  }

  function CompletionDetail(b: Binding, s: State, p: Fields): Option<Detail> {
    if p.Keys != COMPLETION_FIELDS then Some(CompletionFields)
    else if s.execution.None? then Some(CompletionWithoutExecution)
    else if !ThreadMatches(b, p) || !TurnMatches(b, p) then Some(CompletionIdentity)
    else if StrAt(p, KResponseId) != s.openResponse then Some(CompletionResponse)
    else None
  }

  function ServerRequestDetail(b: Binding, s: State, rec: Record, p: Fields): Option<Detail> {
    if !Classify(rec.name).ApprovalMethod? then Some(UnknownServerRequest)
    else if !ThreadMatches(b, p) || !TurnMatches(b, p) then Some(ApprovalIdentity)
    else if s.execution.None? then Some(ApprovalBeforeAdmission)
    else if s.openResponse.Some? then Some(ApprovalBeforeCompletion)
    else None
  }

  function LocalDetail(b: Binding, s: State, name: string, p: Fields): Option<Detail> {
    if !LocalThreadMatches(b, name, p) then Some(LocalThread)
    else if !LocalTurnMatches(b, name, p) then Some(LocalTurn)
    else if !Classify(name).TurnCompletedMethod? then None
    else if s.execution.None? && !(s.refusal.Some? && s.pending.None? && s.openResponse.None?) then Some(TurnWithoutExecution)
    else if s.execution.Some? && (s.pending.Some? || s.openResponse.Some? || s.approval) then Some(TurnBeforeClosed)
    else None
  }

  function NotificationDetail(b: Binding, s: State, name: string, p: Fields): Option<Detail> {
    match Classify(name)
    case ProviderRequestStarted => RequestDetail(b, s, p)
    case RawResponseStarted => StepDetail(b, s, p)
    case ProviderAdmissionRefused => RefusalDetail(b, s, p)
    case RawResponseCompleted => CompletionDetail(b, s, p)
    case OtherProviderBoundary => Some(UnknownBoundaryNotification)
    case ThreadStartedMethod => LocalDetail(b, s, name, p)
    case TurnStartedMethod => LocalDetail(b, s, name, p)
    case TurnCompletedMethod => LocalDetail(b, s, name, p)
    case _ => None
  }

  predicate ServerRequestLike(rec: Record) {
    rec.lane == Some(ServerRequestLane)
    || (rec.lane.None? && Classify(rec.name).ApprovalMethod?)
    || (rec.lane.None? && rec.evidence.Discrepancy? && rec.evidence.detail.UnknownServerRequest?)
  }

  // Detail of a discrepancy on the ordered provider stream.
  function StreamDetail(b: Binding, s: State, rec: Record, wire: Frame): Option<Detail> {
    var named := FrameMethod(wire);
    var p := Params(wire);
    if named.None? then (if rec.name == "unknown" then Some(MethodNotString) else None)
    else if |named.value| > 512 then (if rec.name == "unknown" then Some(MethodExceedsBound) else None)
    else if named.value != rec.name then None
    else if s.discrepancy then Some(if s.execution.Some? then FollowedInterruption else FollowedIndeterminate)
    else if s.turnCompleted && s.execution.Some? then Some(FollowedCompletedTurn)
    else if s.approval && (rec.lane == Some(ServerRequestLane) || ProviderBoundary(Classify(rec.name))) then Some(FollowedApproval)
    else if Classify(rec.name).ErrorMethod? then Some(CoarseError)
    else if ServerRequestLike(rec) then ServerRequestDetail(b, s, rec, p)
    else NotificationDetail(b, s, rec.name, p)
  }

  // ---- client lane ----

  const REQUEST_PREFIX := "client-request/"
  const RESPONSE_PREFIX := "client-response/"

  predicate BindsThread(m: RequestClass) { m.TurnStart? || m.ThreadRead? || m.ThreadResume? }
  predicate AnswersThread(m: RequestClass) { m.ThreadStart? || m.ThreadRead? || m.ThreadResume? }

  predicate RequestShape(wire: Fields) {
    wire.Keys == if KParams in wire then {KId, KMethod, KParams} else {KId, KMethod}
  }

  predicate RequestParams(wire: Fields) { KParams in wire ==> wire[KParams].Null? || wire[KParams].Obj? }

  function ClientRequestDetail(b: Binding, s: State, request: string, wire: Fields): Option<Detail> {
    var id := IntAt(wire, KId);
    var m := ClassifyRequest(request);
    if id.None? || !U53(id.value) then Some(InvalidClientRequestId)
    else if !RequestShape(wire) || StrAt(wire, KMethod) != Some(request) then Some(ClientRequestShape)
    else if !RequestParams(wire) then Some(ClientRequestParams)
    else if m.Fixture? && !b.deterministicFixture then Some(FixtureNotPermitted)
    else if m.OtherRequest? then Some(UnknownClientRequest)
    else if BindsThread(m) && StrAt(ObjAt(wire, KParams), KThreadId) != Some(b.thread) then Some(ClientRequestThread)
    else if id.value in s.clientRequests then Some(DuplicateClientRequest)
    else None
  }

  function ClientResponseDetail(b: Binding, s: State, request: string, wire: Fields): Option<Detail> {
    var id := IntAt(wire, KId);
    var m := ClassifyRequest(request);
    if id.None? || !U53(id.value) then Some(InvalidClientResponseId)
    else if id.value !in s.clientRequests || s.clientRequests[id.value].0 != request then Some(ClientResponseIdentity)
    else if wire.Keys != {KId, KResult} && wire.Keys != {KId, KError} then Some(ClientResponseShape)
    else if KError in wire then Some(ClientRequestReturnedError)
    else if !wire[KResult].Obj? then Some(ClientResultNotObject)
    else if AnswersThread(m) && StrAt(ObjAt(wire[KResult].fields, KThread), KId) != Some(b.thread) then
      Some(if m.ThreadStart? then ThreadStartThread else if m.ThreadRead? then ThreadReadThread else ThreadResumeThread)
    else if m.TurnStart? && StrAt(ObjAt(wire[KResult].fields, KTurn), KId) != Some(b.turn) then Some(TurnStartTurn)
    else None
  }

  function ClientDetail(b: Binding, s: State, rec: Record, wire: Fields): Option<Detail> {
    if rec.lane == Some(ClientRequestLane) then
      if HasPrefix(rec.name, REQUEST_PREFIX) then ClientRequestDetail(b, s, rec.name[|REQUEST_PREFIX|..], wire) else None
    else
      if HasPrefix(rec.name, RESPONSE_PREFIX) then ClientResponseDetail(b, s, rec.name[|RESPONSE_PREFIX|..], wire) else None
  }

  predicate ClientRequestReplay(b: Binding, rec: Record, wire: Fields)
    requires rec.evidence.ClientRequestIssued?
  {
    var request := rec.evidence.requestMethod;
    var m := ClassifyRequest(request);
    && rec.name == REQUEST_PREFIX + request
    && !m.OtherRequest? && (m.Fixture? ==> b.deterministicFixture)
    && StrAt(wire, KMethod) == Some(request)
    && RequestShape(wire) && RequestParams(wire)
    && (BindsThread(m) ==> StrAt(ObjAt(wire, KParams), KThreadId) == Some(b.thread))
    && IntAt(wire, KId) == Some(rec.evidence.requestId)
    && b.sha256(if KParams in wire then wire[KParams] else Null) == rec.evidence.paramsDigest
  }

  predicate ClientResponseReplay(b: Binding, rec: Record, wire: Fields)
    requires rec.evidence.ClientResponseRetained?
  {
    var m := ClassifyRequest(rec.evidence.requestMethod);
    && wire.Keys == {KId, KResult}
    && IntAt(wire, KId) == Some(rec.evidence.requestId)
    && wire[KResult].Obj?
    && b.sha256(wire[KResult]) == rec.evidence.resultDigest
    && rec.name == RESPONSE_PREFIX + rec.evidence.requestMethod
    && (AnswersThread(m) ==> StrAt(ObjAt(wire[KResult].fields, KThread), KId) == Some(b.thread))
    && (m.TurnStart? ==> StrAt(ObjAt(wire[KResult].fields, KTurn), KId) == Some(b.turn))
  }

  // ---- one record ----

  // A discrepancy binds the execution known so far; `detail` is the text it must carry.
  predicate DiscrepancyReplay(s: State, e: Evidence, detail: Option<Detail>) {
    && e.Discrepancy?
    && e.detail != Free("")
    && (detail.Some? ==> e.detail == detail.value)
    && e.admitted == s.execution
    && e.resumeSameAttemptOnly == s.execution.Some?
  }

  predicate OrderedRawlessDetail(d: Detail) {
    d.OrdinalGap? || d.EnvelopeShape? || d.UnexpectedRequestMethod? || d.ClientRequestMethodMissing? || d.ClientResponseMethodMissing?
  }

  predicate CustodyDetail(d: Detail) {
    d.WireBytesRequired? || d.WireBytesExceedBound? || d.WireBytesUnterminated? || d.WireBytesDiffer? || d.InvalidRetainedJson?
  }

  const ACQUISITION := "adapter/acquisition"

  predicate RawlessReplay(s: State, rec: Record) {
    if rec.evidence.Discrepancy? && rec.lane == Some(UnknownLane) && rec.name == ACQUISITION then
      DiscrepancyReplay(s, rec.evidence, Some(UnknownEnvelopeKind))
    else if rec.evidence.LocalTurnFact? then
      rec.ordinal.None? && rec.lane.None? && rec.name in ["thread/start", "turn/start", "turn/started", "worker_started"]
    else
      && rec.evidence.Discrepancy?
      && (rec.lane.Some? ==>
            && !rec.lane.value.UnknownLane? && !rec.lane.value.LossLane?
            && ((rec.name == ACQUISITION && OrderedRawlessDetail(rec.evidence.detail))
                || ((rec.lane.value.NotificationLane? || rec.lane.value.ServerRequestLane?) && rec.name != ACQUISITION
                    && CustodyDetail(rec.evidence.detail))))
      && DiscrepancyReplay(s, rec.evidence, None)
  }

  // validate_switchyard_raw_replay
  predicate RawReplay(b: Binding, s: State, rec: Record, echo: Option<Detail>) {
    if rec.lane == Some(LossLane) then
      && rec.evidence.Discrepancy? && rec.name == ACQUISITION
      && (rec.raw.Some? ==> rec.raw.value.representation.AcquiredFrameBytes?)
      && DiscrepancyReplay(s, rec.evidence, None)
    else if rec.raw.None? then RawlessReplay(s, rec)
    else if rec.raw.value.wire.None? || !rec.raw.value.wire.value.Obj? then false
    else
      var wire := rec.raw.value.wire.value;
      if echo.Some? then !Closed(s) && DiscrepancyReplay(s, rec.evidence, echo)
      else if rec.evidence.Discrepancy? then
        var detail := if rec.lane == Some(ClientRequestLane) || rec.lane == Some(ClientResponseLane)
                      then ClientDetail(b, s, rec, wire.fields) else StreamDetail(b, s, rec, wire);
        detail.Some? && DiscrepancyReplay(s, rec.evidence, detail)
      else if rec.evidence.ClientResponseRetained? then ClientResponseReplay(b, rec, wire.fields)
      else if rec.evidence.ClientRequestIssued? then ClientRequestReplay(b, rec, wire.fields)
      else TransitionReplay(b, s, rec, wire)
  }

  // validate_kind_lane
  predicate KindLane(rec: Record, lane: Lane) {
    var m := Classify(rec.name);
    match rec.evidence
    case ClientRequestIssued(_, _, _) => lane.ClientRequestLane? && HasPrefix(rec.name, REQUEST_PREFIX)
    case ClientResponseRetained(_, _, _, _) => lane.ClientResponseLane? && HasPrefix(rec.name, RESPONSE_PREFIX)
    case RequestStarted(_, _, _, _) => lane.NotificationLane? && m.ProviderRequestStarted?
    case ExecutionStep(_, _, _, _) => lane.NotificationLane? && m.RawResponseStarted?
    case AdmissionRefused(_, _, _, _, _, _) => lane.NotificationLane? && m.ProviderAdmissionRefused?
    case ResponseCompleted(_) => lane.NotificationLane? && m.RawResponseCompleted?
    case WaitingApproval(_) => lane.ServerRequestLane? && m.ApprovalMethod?
    case LocalTurnFact => lane.NotificationLane?
    case Watermark => lane.NotificationLane?
    case Discrepancy(_, _, _) => true
    case AcquisitionCut(_) => false
  }

  // Ordinal continuity: a break is admissible only as the discrepancy that names it.
  predicate OrdinalAdmits(s: State, rec: Record) {
    rec.ordinal.Some? && rec.ordinal.value != s.next ==>
      rec.evidence.Discrepancy? && rec.name == ACQUISITION && rec.evidence.detail.OrdinalGap?
  }

  function NextOrdinal(s: State, rec: Record): int {
    if rec.ordinal.None? then s.next
    else if rec.ordinal.value != s.next then (if s.next >= rec.ordinal.value + 1 then s.next else rec.ordinal.value + 1)
    else s.next + 1
  }

  predicate LaneAdmits(rec: Record) {
    if rec.ordinal.None? then rec.lane.None?
    else
      && rec.lane.Some?
      && KindLane(rec, rec.lane.value)
      && (if rec.raw.Some? then rec.raw.value.representation == (if rec.lane.value.LossLane? then AcquiredFrameBytes else WireBytes)
          else rec.lane.value.LossLane? || rec.lane.value.UnknownLane? || rec.evidence.Discrepancy?)
  }

  predicate ClientLane(rec: Record) { rec.lane == Some(ClientRequestLane) || rec.lane == Some(ClientResponseLane) }

  // ---- state transitions by kind ----

  function ApplyRequest(s: State, e: Evidence): Option<State>
    requires e.RequestStarted?
  {
    var count := |s.completedRequests|;
    if s.pending.Some? || s.openResponse.Some? || s.approval || s.refusal.Some? then None
    else if e.samplingOrdinal != count || e.requestOrder != count || e.occurrence in s.completedRequests
         || (s.lastBoundaryMs.Some? && e.startedAtMs < s.lastBoundaryMs.value)
         || (e.samplingOrdinal > 0 && s.execution.None?) then None
    else Some(s.(pending := Some(Pending(e.occurrence, e.samplingOrdinal, e.requestOrder, e.startedAtMs))))
  }

  function ApplyStep(b: Binding, s: State, e: Evidence): Option<State>
    requires e.ExecutionStep?
  {
    if s.approval || s.pending.None? then None
    else
      var pending := s.pending.value;
      if e.step.occurrence != pending.occurrence || e.step.samplingOrdinal != pending.samplingOrdinal
         || e.step.requestOrder != pending.requestOrder
         || e.step.provider != b.provider || e.step.model != b.model || e.step.thread != b.thread || e.step.turn != b.turn then None
      else if s.execution.None? && pending.occurrence != b.requestOccurrence then None
      else if !IdentityIsId(e.execution) then None
      else if (s.execution.Some? && s.execution.value != e.execution) || s.openResponse.Some? then None
      else if s.execution.None? && e.step.response != e.execution.firstResponse then None
      else if e.observedAtMs < pending.startedAtMs
           || (s.lastBoundaryMs.Some? && e.observedAtMs < s.lastBoundaryMs.value)
           || e.step.response in s.completedResponses || pending.occurrence in s.completedRequests then None
      else Some(s.(pending := None, completedRequests := s.completedRequests + {pending.occurrence},
                   lastBoundaryMs := Some(e.observedAtMs), execution := Some(e.execution), openResponse := Some(e.step.response)))
  }

  function ApplyRefusal(s: State, e: Evidence): Option<State>
    requires e.AdmissionRefused?
  {
    if s.refusal.Some? || s.execution.Some? || s.pending.None? then None
    else
      var pending := s.pending.value;
      if e.occurrence != pending.occurrence || e.samplingOrdinal != pending.samplingOrdinal || e.requestOrder != pending.requestOrder then None
      else if e.observedAtMs < pending.startedAtMs
           || (s.lastBoundaryMs.Some? && e.observedAtMs < s.lastBoundaryMs.value)
           || e.occurrence in s.completedRequests then None
      else Some(s.(pending := None, completedRequests := s.completedRequests + {e.occurrence}, lastBoundaryMs := Some(e.observedAtMs),
                   refusal := Some(Refusal(e.occurrence, e.retryAfterMs, e.observedAtMs))))
  }

  predicate TurnCloses(s: State) {
    s.openResponse.None? && s.pending.None? && (if s.execution.None? then s.refusal.Some? else !s.approval)
  }

  function Transition(b: Binding, s: State, rec: Record): Option<State> {
    var e := rec.evidence;
    match e
    case RequestStarted(_, _, _, _) => ApplyRequest(s, e)
    case ExecutionStep(_, _, _, _) => ApplyStep(b, s, e)
    case AdmissionRefused(_, _, _, _, _, _) => ApplyRefusal(s, e)
    case ResponseCompleted(response) =>
      if s.openResponse != Some(response) || response in s.completedResponses then None
      else Some(s.(completedResponses := s.completedResponses + {response}, openResponse := None))
    case WaitingApproval(execution) =>
      if s.execution != Some(execution) || s.openResponse.Some? || s.approval then None else Some(s.(approval := true))
    case LocalTurnFact =>
      if !Classify(rec.name).TurnCompletedMethod? then Some(s)
      else if TurnCloses(s) then Some(s.(turnCompleted := true)) else None
    case Discrepancy(_, admitted, resume) =>
      if resume != s.execution.Some? || admitted != s.execution then None else Some(s.(discrepancy := true))
    case ClientRequestIssued(id, name, digest) =>
      if id in s.clientRequests then None else Some(s.(clientRequests := s.clientRequests[id := (name, digest)]))
    case ClientResponseRetained(id, name, digest, _) =>
      if id !in s.clientRequests || s.clientRequests[id] != (name, digest) then None
      else Some(s.(clientRequests := s.clientRequests - {id}))
    case Watermark => Some(s)
    case AcquisitionCut(_) => None
  }

  // One record before the cut.  None is a rejected snapshot.
  function Step(b: Binding, s: State, rec: Record, echo: Option<Detail>): Option<State> {
    if !WellFormed(rec) then None
    else if Closed(s) && !rec.evidence.Discrepancy? && !ClientLane(rec) then None
    else if !RawReplay(b, s, rec, echo) || !OrdinalAdmits(s, rec) || !LaneAdmits(rec) then None
    else
      var t := Transition(b, s, rec);
      if t.None? then None else Some(t.value.(next := NextOrdinal(s, rec)))
  }

  // State after all records, none of which is the cut.
  function Run(b: Binding, records: seq<Record>, echo: seq<Option<Detail>>): Option<State>
    requires |records| == |echo|
  {
    if records == [] then Some(INIT)
    else
      var last := |records| - 1;
      var prior := Run(b, records[..last], echo[..last]);
      if prior.None? then None else Step(b, prior.value, records[last], echo[last])
  }
}
