// Validity of a disposition record over its evidence family, and the automatic park rule.
module DispositionLaw {
  import opened Wire
  import opened Evidence
  import opened Replay
  import opened Admission

  predicate OutcomeLawV1(e: QualificationV1) {
    e.observedAt <= e.receivedAt && (e.retryAfter.Some? ==> e.receivedAt <= e.retryAfter.value) &&
    match e.outcome
    case RateLimited => !e.responseCreated && e.nonAdmissionProven
    case ProviderUnavailable => !e.responseCreated && e.nonAdmissionProven
    case AuthRefused => !e.responseCreated && e.nonAdmissionProven && e.retryAfter.None?
    case _ => !e.nonAdmissionProven && e.retryAfter.None?
  }

  function OutcomeV1(o: QualificationOutcome): (DispositionKind, MechanismState) {
    match o
    case RateLimited => (NotAdmittedRateLimited, ParkedNotAdmitted)
    case ProviderUnavailable => (NotAdmittedProviderUnavailable, ParkedNotAdmitted)
    case AuthRefused => (AuthenticationRefused, MechanismIndeterminate)
    case _ => (AdmissionIndeterminate, MechanismIndeterminate)
  }

  predicate ValidFirstWatch(d: Disposition, e: QualificationV1) {
    && OutcomeLawV1(e)
    && d.attempt == e.attempt && d.dispatchOccurrence == e.dispatchOccurrence && d.requestOccurrence == e.requestOccurrence
    && d.provider == e.provider && d.model == e.model && d.receivedAt == e.receivedAt
    && d.responseCreated == e.responseCreated && d.retryAfter == e.retryAfter && d.execution.None? && d.acquisitionComplete
    && (d.kind, d.mechanism) == OutcomeV1(e.outcome)
  }

  predicate OutcomeLawV2(e: QualificationV2) {
    e.observedAt <= e.receivedAt && (e.retryAfter.Some? ==> e.receivedAt <= e.retryAfter.value) &&
    if e.completed then
      && e.execution.Some? && IdentityIsId(e.execution.value)
      && e.responseCreated && !e.nonAdmissionProven && e.retryAfter.None?
      && e.execution.value.provider == e.provider && e.execution.value.model == e.model
    else
      !e.responseCreated && e.nonAdmissionProven && e.execution.None? && e.retryAfter.Some?
  }

  predicate ValidSecondWatch(d: Disposition, e: QualificationV2) {
    && OutcomeLawV2(e)
    && d.attempt == e.attempt && d.dispatchOccurrence == e.dispatchOccurrence && d.requestOccurrence == e.requestOccurrence
    && d.provider == e.provider && d.model == e.model && d.receivedAt == e.receivedAt
    && d.responseCreated == e.responseCreated && d.retryAfter == e.retryAfter && d.execution == e.execution && d.acquisitionComplete
    && (d.kind, d.mechanism) == (if e.completed then (ExecutionAdmitted, ProviderCompleted)
                                 else (NotAdmittedProviderUnavailable, ParkedNotAdmitted))
  }

  predicate ValidEvidence(d: Disposition, sha256: Frame -> string) {
    match d.evidence
    case Switchyard(snapshot) => SnapshotComplete(d, snapshot, sha256)
    case FirstWatch(e) => ValidFirstWatch(d, e)
    case SecondWatch(e) => ValidSecondWatch(d, e)
  }

  predicate DispositionIds(d: Disposition) {
    IsId(d.scope.runId) && IsId(d.workItem) && IsId(d.attempt) && IsId(d.dispatchOccurrence) && IsId(d.provider) && IsId(d.model)
    && IsId(d.requestOccurrence) && IsId(d.adapterProcess) && IsId(d.session) && IsId(d.thread) && IsId(d.turn)
  }

  predicate KindLaw(d: Disposition) {
    match d.kind
    case ExecutionAdmitted =>
      && d.execution.Some? && IdentityIsId(d.execution.value) && d.responseCreated
      && d.execution.value.provider == d.provider && d.execution.value.model == d.model
      && d.execution.value.session == d.session && d.execution.value.thread == d.thread && d.execution.value.turn == d.turn
    case QuotaExhaustedFuelOwned => false
    case AdmissionIndeterminate => d.execution.Some? ==> d.responseCreated
    case _ => d.execution.None? && !d.responseCreated && d.acquisitionComplete
  }

  // ProviderAdmissionDispositionV1::validate
  predicate ValidDisposition(d: Disposition, sha256: Frame -> string) {
    && DispositionIds(d)
    && ValidEvidence(d, sha256)
    && !d.willRetry && !d.approvalResponseSent && d.protectedEffectAbsent
    && KindLaw(d)
    && (d.retryAfter.Some? ==> d.receivedAt <= d.retryAfter.value)
  }

  // ProviderAdmissionDispositionV1::permits_automatic_park
  predicate PermitsPark(d: Disposition) {
    d.kind.NotAdmittedModelAtCapacity?
    || (!d.evidence.Switchyard? && (d.kind.NotAdmittedProviderUnavailable? || d.kind.NotAdmittedRateLimited?))
  }
}
