// The deferred-dispatch graph: one attempt's history of refused dispatches and the dispatch that
// follows it.
module Dispatch {
  import opened Wire
  import opened Evidence
  import opened Admission
  import opened DispositionLaw
  import opened Replay
  import Echo

  const SECOND: int := 1_000_000_000
  const MAXIMUM_DISPATCHES: int := 16
  const MAXIMUM_TOTAL_SECONDS: int := 7 * 24 * 60 * 60
  const MAXIMUM_DEFERRAL_SECONDS: int := 86_400

  datatype LockPolicy = ReleaseAndReacquire | RetainWhileParked

  datatype Policy = Policy(
    digest: string, id: string, maximumDispatches: int, backoffSeconds: seq<int>, maximumTotalSeconds: int, lockPolicy: LockPolicy,
    capacityReleasedWhileParked: bool, reconcileIndeterminate: bool, allowFallback: bool, semanticRetry: bool, approvalAuthorized: bool)

  datatype Selection = Selection(provider: string, model: string, modelClass: string)

  datatype Adapter = Adapter(id: string, version: string, protocol: string)

  datatype Requirement = Requirement(
    scope: Scope, adapter: Adapter, policyId: string, selections: map<string, seq<Selection>>, admittedAt: int, boundedEcho: bool)

  datatype DispatchRecord = DispatchRecord(
    digest: string, scope: Scope, workItem: string, attempt: string, occurrence: string, ordinal: int, modelOrdinal: int,
    selection: Selection, adapter: Adapter, adapterProcess: string, session: string, openedAt: int,
    internalRetries: int, executionId: Option<string>)

  datatype Availability = Available | ModelAtCapacity | Unavailable | Limited | Unauthenticated | TransportFailed | ProtocolFailed | UnknownAvailability

  datatype Observation = Observation(
    selection: Selection, observedAt: int, receivedAt: int, expiresAt: int, state: Availability, retryAfter: Option<int>)

  datatype WakeBasis = ProviderRetryAfter | PolicyBackoff

  datatype Deferred = Deferred(
    digest: string, scope: Scope, dispositionDigest: string, workItem: string, attempt: string, lastDispatch: string,
    provider: string, model: string, modelOrdinal: int, remaining: seq<int>, refusalReceivedAt: int, basis: WakeBasis,
    backoffOrdinal: int, backoffSeconds: int, retryAfter: Option<int>, wakeAt: int, lockPolicy: LockPolicy,
    capacityReleased: bool, semanticRetry: bool)

  datatype Entry = Entry(dispatch: DispatchRecord, disposition: Disposition, deferred: Deferred)

  // Digest functions of the canonical forms of raw values and of deferral records.
  datatype Digests = Digests(sha256: Frame -> string, seal: Deferred -> string)

  // What one attempt's whole history shares.
  datatype Attempt = Attempt(requirement: Requirement, policy: Policy, workItem: string, attempt: string, selections: seq<Selection>)

  // ---- record validity ----

  function Sum(values: seq<int>): int { if values == [] then 0 else Sum(values[..|values| - 1]) + values[|values| - 1] }

  predicate ValidPolicy(p: Policy) {
    && IsId(p.id)
    && 1 <= p.maximumDispatches <= MAXIMUM_DISPATCHES
    && 1 <= |p.backoffSeconds| <= p.maximumDispatches
    && (forall i | 0 <= i < |p.backoffSeconds| :: 1 <= p.backoffSeconds[i] <= MAXIMUM_DEFERRAL_SECONDS)
    && 1 <= p.maximumTotalSeconds <= MAXIMUM_TOTAL_SECONDS
    && Sum(p.backoffSeconds) <= p.maximumTotalSeconds
    && p.capacityReleasedWhileParked && p.reconcileIndeterminate && !p.semanticRetry && !p.approvalAuthorized
  }

  predicate ValidSelection(s: Selection) { IsId(s.provider) && IsId(s.model) && IsId(s.modelClass) }

  predicate ValidSelections(s: seq<Selection>) {
    1 <= |s| <= 16 && (forall i | 0 <= i < |s| :: ValidSelection(s[i])) && (forall i, j | 0 <= i < j < |s| :: s[i] != s[j])
  }

  predicate ValidRequirement(r: Requirement) {
    IsId(r.scope.runId) && IsId(r.adapter.id) && IsId(r.adapter.version) && IsId(r.adapter.protocol) && IsId(r.policyId)
    && 1 <= |r.selections| <= 1024 && (forall w | w in r.selections :: IsId(w) && ValidSelections(r.selections[w]))
  }

  predicate ValidDispatch(d: DispatchRecord) {
    && IsId(d.workItem) && IsId(d.attempt) && IsId(d.occurrence) && IsId(d.adapterProcess) && IsId(d.session)
    && ValidSelection(d.selection)
    && 1 <= d.ordinal <= MAXIMUM_DISPATCHES && 0 <= d.modelOrdinal < 16
    && d.internalRetries == 0 && d.executionId.None?
  }

  predicate ValidDeferred(d: Deferred, seal: Deferred -> string) {
    && d.digest == seal(d.(digest := ""))
    && IsId(d.workItem) && IsId(d.attempt) && IsId(d.lastDispatch) && IsId(d.provider) && IsId(d.model)
    && 0 <= d.modelOrdinal < 16 && 0 <= d.backoffOrdinal < MAXIMUM_DISPATCHES
    && 1 <= d.backoffSeconds <= MAXIMUM_DEFERRAL_SECONDS
    && |d.remaining| <= 16
    && (forall i | 0 <= i < |d.remaining| :: d.modelOrdinal < d.remaining[i] < 16)
    && (forall i | 0 < i < |d.remaining| :: d.remaining[i - 1] < d.remaining[i])
    && d.capacityReleased && !d.semanticRetry
    && (match d.basis
        case ProviderRetryAfter => d.retryAfter == Some(d.wakeAt)
        case PolicyBackoff => d.retryAfter.None? && d.wakeAt == d.refusalReceivedAt + d.backoffSeconds * SECOND)
    && d.refusalReceivedAt < d.wakeAt
  }

  predicate ValidObservation(o: Observation) {
    ValidSelection(o.selection) && o.observedAt <= o.receivedAt < o.expiresAt && (o.retryAfter.Some? ==> o.receivedAt <= o.retryAfter.value)
  }

  // validate_dispatch_disposition_owner_family
  predicate OwnerFamily(dispatch: DispatchRecord, d: Disposition) {
    var qualification := dispatch.adapter.id == "nightshift:holding-pattern-deterministic-fake-adapter";
    match d.evidence
    case Switchyard(_) => !qualification && dispatch.adapter.protocol == "switchyard.codex-app-server/v2"
    case FirstWatch(_) =>
      qualification && dispatch.adapter.version == "v1"
      && dispatch.adapter.protocol == "nightshift.holding-deterministic-provider-admission-evidence/v1"
    case SecondWatch(_) =>
      qualification && dispatch.adapter.version == "v2"
      && dispatch.adapter.protocol == "nightshift.holding-deterministic-provider-admission-evidence/v2"
  }

  // ---- wake derivation ----

  // exact_deferral_seconds; None is a refused deferral.
  function ExactSeconds(policy: Policy, d: Disposition, deferred: Deferred): Option<int> {
    if deferred.refusalReceivedAt != d.receivedAt || deferred.retryAfter != d.retryAfter then None
    else match deferred.basis
      case ProviderRetryAfter =>
        if d.retryAfter.None? then None
        else
          var milliseconds := (d.retryAfter.value - d.receivedAt) / MILLISECOND;
          if milliseconds <= 0 || milliseconds % 1000 != 0 then None
          else if deferred.wakeAt != d.retryAfter.value || deferred.backoffSeconds != milliseconds / 1000 then None
          else Some(milliseconds / 1000)
      case PolicyBackoff =>
        if d.retryAfter.Some? || !(0 <= deferred.backoffOrdinal < |policy.backoffSeconds|) then None
        else
          var seconds := policy.backoffSeconds[deferred.backoffOrdinal];
          if deferred.wakeAt != d.receivedAt + seconds * SECOND || deferred.backoffSeconds != seconds then None
          else Some(seconds)
  }

  // The model ordinals still open after `ordinal`.
  function Remaining(a: Attempt, ordinal: int): seq<int> {
    if a.policy.allowFallback && ordinal + 1 < |a.selections| then seq(|a.selections| - ordinal - 1, i => ordinal + 1 + i) else []
  }

  // ---- one dispatch after a history ----

  predicate BoundRecords(a: Attempt, dispatch: DispatchRecord, d: Disposition) {
    && dispatch.scope == a.requirement.scope && dispatch.workItem == a.workItem && dispatch.attempt == a.attempt
    && dispatch.adapter == a.requirement.adapter
    && 0 <= dispatch.modelOrdinal < |a.selections| && dispatch.selection == a.selections[dispatch.modelOrdinal]
    && d.dispatchDigest == dispatch.digest && d.scope == a.requirement.scope && d.workItem == a.workItem && d.attempt == a.attempt
    && d.dispatchOccurrence == dispatch.occurrence
    && d.provider == dispatch.selection.provider && d.model == dispatch.selection.model
    && d.adapterProcess == dispatch.adapterProcess && d.session == dispatch.session
    && OwnerFamily(dispatch, d)
    && a.requirement.admittedAt <= dispatch.openedAt <= d.receivedAt
  }

  predicate BoundDeferral(a: Attempt, dispatch: DispatchRecord, d: Disposition, deferred: Deferred) {
    && deferred.scope == a.requirement.scope && deferred.dispositionDigest == d.digest
    && deferred.workItem == a.workItem && deferred.attempt == a.attempt && deferred.lastDispatch == dispatch.occurrence
    && deferred.provider == dispatch.selection.provider && deferred.model == dispatch.selection.model
    && deferred.modelOrdinal == dispatch.modelOrdinal
    && deferred.backoffOrdinal + 1 == dispatch.ordinal
    && deferred.remaining == Remaining(a, dispatch.modelOrdinal)
    && deferred.lockPolicy == a.policy.lockPolicy
  }

  // The dispatch continues the history: after its last wake, with the same model or the next one.
  predicate Continues(a: Attempt, history: seq<Entry>, dispatch: DispatchRecord, d: Disposition) {
    && dispatch.ordinal == |history| + 1
    && (!a.policy.allowFallback ==> dispatch.modelOrdinal == 0)
    && (history != [] ==>
          var prior := history[|history| - 1].deferred;
          && prior.wakeAt <= dispatch.openedAt && prior.wakeAt <= d.receivedAt
          && prior.modelOrdinal <= dispatch.modelOrdinal <= prior.modelOrdinal + 1)
  }

  function Seconds(history: seq<Entry>): seq<int> { seq(|history|, i requires 0 <= i < |history| => history[i].deferred.backoffSeconds) }

  // Cumulative deferral of a history.
  function Cumulative(history: seq<Entry>): int { Sum(Seconds(history)) }

  predicate Fresh(history: seq<Entry>, occurrence: string) {
    forall i | 0 <= i < |history| :: history[i].deferred.lastDispatch != occurrence
  }

  // ---- the retained history ----

  // Conditions on one entry that relate it to the entries before it.
  predicate EntryLinks(a: Attempt, front: seq<Entry>, e: Entry) {
    && BoundRecords(a, e.dispatch, e.disposition)
    && BoundDeferral(a, e.dispatch, e.disposition, e.deferred)
    && Continues(a, front, e.dispatch, e.disposition)
    && Fresh(front, e.deferred.lastDispatch)
    && (front != [] ==> front[|front| - 1].deferred.refusalReceivedAt <= e.deferred.refusalReceivedAt)
    && PermitsPark(e.disposition)
    && ExactSeconds(a.policy, e.disposition, e.deferred).Some?
  }

  predicate ValidEntry(e: Entry, g: Digests) {
    ValidDispatch(e.dispatch) && ValidDisposition(e.disposition, g.sha256) && ValidDeferred(e.deferred, g.seal)
  }

  predicate LinksAt(a: Attempt, history: seq<Entry>, i: nat)
    requires i < |history|
  {
    EntryLinks(a, history[..i], history[i])
  }

  predicate HistoryLinks(a: Attempt, history: seq<Entry>) { forall i | 0 <= i < |history| :: LinksAt(a, history, i) }

  predicate ValidEntries(history: seq<Entry>, g: Digests) { forall i | 0 <= i < |history| :: ValidEntry(history[i], g) }

  // A history that the graph accepts before a further dispatch.
  predicate ValidHistory(a: Attempt, history: seq<Entry>, g: Digests) {
    ValidEntries(history, g) && HistoryLinks(a, history) && Cumulative(history) <= a.policy.maximumTotalSeconds
  }

  // ---- the graph ----

  function FirstStep(records: seq<Record>, kind: DispositionKind): Option<Record> {
    if records == [] then None
    else if (kind.NotAdmittedModelAtCapacity? && records[0].evidence.AdmissionRefused?)
         || (kind.ExecutionAdmitted? && records[0].evidence.ExecutionStep?)
         || (kind.AdmissionIndeterminate? && records[0].evidence.Discrepancy?) then Some(records[0])
    else FirstStep(records[1..], kind)
  }

  // disposition_source_observation: when the owner evidence was observed.
  function SourceObservedAt(d: Disposition): Option<int> {
    match d.evidence
    case FirstWatch(e) => Some(e.observedAt)
    case SecondWatch(e) => Some(e.observedAt)
    case Switchyard(snapshot) =>
      if d.kind.NotAdmittedModelAtCapacity? || d.kind.ExecutionAdmitted? || d.kind.AdmissionIndeterminate? then
        var first := FirstStep(snapshot.records, d.kind);
        if first.None? then None
        else match first.value.evidence
          case AdmissionRefused(_, _, _, _, _, at) => Some(at * MILLISECOND)
          case ExecutionStep(_, _, _, at) => Some(at * MILLISECOND)
          case _ => Some(d.receivedAt)
      else Some(d.receivedAt)
  }

  predicate ObservationAgrees(o: Observation, dispatch: DispatchRecord, d: Disposition) {
    && o.selection == dispatch.selection && o.receivedAt == d.receivedAt && SourceObservedAt(d) == Some(o.observedAt)
    && o.retryAfter == d.retryAfter && o.receivedAt <= d.receivedAt < o.expiresAt
    && match d.kind
       case NotAdmittedModelAtCapacity => o.state.ModelAtCapacity?
       case NotAdmittedProviderUnavailable => o.state.Unavailable?
       case NotAdmittedRateLimited => o.state.Limited?
       case AuthenticationRefused => o.state.Unauthenticated?
       case AdmissionIndeterminate => o.state.UnknownAvailability? || o.state.TransportFailed? || o.state.ProtocolFailed?
       case ExecutionAdmitted => o.state.Available?
       case QuotaExhaustedFuelOwned => false
  }

  // A park record exists exactly when the disposition permits one, and is then exact and in budget.
  predicate ParkLaw(a: Attempt, history: seq<Entry>, dispatch: DispatchRecord, d: Disposition, deferred: Option<Deferred>, seal: Deferred -> string) {
    if PermitsPark(d) then
      && deferred.Some?
      && ValidDeferred(deferred.value, seal)
      && BoundDeferral(a, dispatch, d, deferred.value)
      && ExactSeconds(a.policy, d, deferred.value).Some?
      && Cumulative(history) + deferred.value.backoffSeconds <= a.policy.maximumTotalSeconds
    else deferred.None?
  }

  predicate ResumeLaw(d: Disposition, deferred: Option<Deferred>) {
    d.mechanism.PostAdmissionInterrupted? ==> d.execution.Some? && deferred.None?
  }

  predicate EchoEnrolled(r: Requirement, d: Disposition) {
    r.boundedEcho && d.evidence.Switchyard? ==> Echo.EchoVerdicts(Echo.Scope(d.thread, d.turn), d.evidence.snapshot.records, true).Some?
  }

  // What does not depend on the history or the park record.
  predicate ValidInputs(a: Attempt, dispatch: DispatchRecord, o: Observation, d: Disposition, g: Digests) {
    && ValidRequirement(a.requirement) && ValidPolicy(a.policy) && ValidDispatch(dispatch) && ValidObservation(o)
    && ValidDisposition(d, g.sha256)
    && EchoEnrolled(a.requirement, d)
    && a.requirement.policyId == a.policy.id && a.requirement.scope.policyDigest == a.policy.digest
    && a.workItem in a.requirement.selections && a.selections == a.requirement.selections[a.workItem]
    && ObservationAgrees(o, dispatch, d)
  }

  // The history-dependent half of one dispatch.
  predicate StepAdmits(a: Attempt, history: seq<Entry>, dispatch: DispatchRecord, d: Disposition, deferred: Option<Deferred>, seal: Deferred -> string) {
    && BoundRecords(a, dispatch, d)
    && Continues(a, history, dispatch, d)
    && |history| < a.policy.maximumDispatches && dispatch.ordinal <= a.policy.maximumDispatches
    && ParkLaw(a, history, dispatch, d, deferred, seal)
    && ResumeLaw(d, deferred)
  }

  // validate_execution_availability_graph
  predicate Graph(a: Attempt, dispatch: DispatchRecord, o: Observation, d: Disposition, history: seq<Entry>, deferred: Option<Deferred>, g: Digests) {
    ValidInputs(a, dispatch, o, d, g) && ValidHistory(a, history, g) && StepAdmits(a, history, dispatch, d, deferred, g.seal)
  }
}
