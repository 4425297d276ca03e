// What a valid disposition and an accepted graph commit to, kind by kind and family by family.
module DispositionMeaning {
  import opened Wire
  import opened Evidence
  import opened Replay
  import opened ReplayTrace
  import opened ReplayHistory
  import opened Admission
  import opened DispositionLaw
  import opened SnapshotLaw
  import opened Dispatch
  import opened DispatchSafety
  import Echo
  import EchoLaws
  import EchoReplay

  // An admitted execution is the disposition's own, identity by identity.
  predicate OwnExecution(d: Disposition) {
    d.execution.Some? &&
    var x := d.execution.value;
    x.provider == d.provider && x.model == d.model && x.session == d.session && x.thread == d.thread && x.turn == d.turn
  }

  predicate Refused(kind: DispositionKind) {
    kind == NotAdmittedModelAtCapacity || kind == NotAdmittedProviderUnavailable || kind == NotAdmittedRateLimited || kind == AuthenticationRefused
  }

  // Kind and mechanism state of a first-version outcome.
  predicate FirstReports(outcome: QualificationOutcome, kind: DispositionKind, m: MechanismState) {
    match outcome
    case RateLimited => kind == NotAdmittedRateLimited && m == ParkedNotAdmitted
    case ProviderUnavailable => kind == NotAdmittedProviderUnavailable && m == ParkedNotAdmitted
    case AuthRefused => kind == AuthenticationRefused && m == MechanismIndeterminate
    case _ => kind == AdmissionIndeterminate && m == MechanismIndeterminate
  }

  ghost predicate EvidenceReports(d: Disposition) {
    match d.evidence
    case Switchyard(snap) => SnapshotAgrees(d, snap)
    case FirstWatch(e) =>
      && FirstReports(e.outcome, d.kind, d.mechanism) && e.requestOccurrence == d.requestOccurrence
      && e.receivedAt == d.receivedAt && e.observedAt <= e.receivedAt && e.retryAfter == d.retryAfter && e.responseCreated == d.responseCreated
      && (e.nonAdmissionProven <==> Refused(d.kind)) && d.execution.None?
      && (e.retryAfter.Some? ==> d.mechanism == ParkedNotAdmitted)
      && (Refused(d.kind) ==> !e.responseCreated)
    case SecondWatch(e) =>
      && e.requestOccurrence == d.requestOccurrence && e.receivedAt == d.receivedAt && e.observedAt <= e.receivedAt && e.retryAfter == d.retryAfter
      && e.execution == d.execution && e.responseCreated == d.responseCreated
      && (if e.completed then d.kind == ExecutionAdmitted && d.mechanism == ProviderCompleted && e.responseCreated && !e.nonAdmissionProven
          else d.kind == NotAdmittedProviderUnavailable && d.mechanism == ParkedNotAdmitted && !e.responseCreated && e.nonAdmissionProven && e.retryAfter.Some?)
  }

  // A valid disposition claims no authority, agrees with its kind, and reports exactly its evidence.
  lemma DispositionMeans(d: Disposition, sha256: Frame -> string)
    requires ValidDisposition(d, sha256)
    ensures !d.willRetry && !d.approvalResponseSent && d.protectedEffectAbsent && (d.retryAfter.Some? ==> d.receivedAt <= d.retryAfter.value)
    ensures d.kind != QuotaExhaustedFuelOwned
    ensures d.kind == ExecutionAdmitted ==> OwnExecution(d) && d.responseCreated
    ensures Refused(d.kind) ==> d.execution.None? && !d.responseCreated && d.acquisitionComplete
    ensures EvidenceReports(d)
  {
    hide SnapshotComplete, SnapshotAgrees, DispositionIds;
    if d.evidence.Switchyard? { SnapshotAgreesWhenComplete(d, d.evidence.snapshot, sha256); }
  }

  lemma SnapshotAgreesWhenComplete(d: Disposition, snap: Snapshot, sha256: Frame -> string)
    requires SnapshotComplete(d, snap, sha256)
    ensures SnapshotAgrees(d, snap)
  {
    hide SnapshotAgrees, SnapshotStructure, Finish;
    AcceptedIffAgrees(d, snap, sha256);
  }

  // ---- the observation of an accepted graph ----

  // Availability that a kind is observed as.
  predicate ObservedAs(kind: DispositionKind, state: Availability) {
    match state
    case ModelAtCapacity => kind == NotAdmittedModelAtCapacity
    case Unavailable => kind == NotAdmittedProviderUnavailable
    case Limited => kind == NotAdmittedRateLimited
    case Unauthenticated => kind == AuthenticationRefused
    case Available => kind == ExecutionAdmitted
    case _ => kind == AdmissionIndeterminate
  }

  // The time at which the evidence was observed, for the families that carry one of their own.
  predicate ObservedWhen(d: Disposition, at: int) {
    match d.evidence
    case FirstWatch(e) => at == e.observedAt
    case SecondWatch(e) => at == e.observedAt
    case Switchyard(_) => true
  }

  lemma ObservationMeans(a: Attempt, dispatch: DispatchRecord, o: Observation, d: Disposition, history: seq<Entry>, deferred: Option<Deferred>, g: Digests)
    requires Graph(a, dispatch, o, d, history, deferred, g)
    ensures ObservedAs(d.kind, o.state) && ObservedWhen(d, o.observedAt)
    ensures o.observedAt <= o.receivedAt == d.receivedAt < o.expiresAt && o.retryAfter == d.retryAfter && o.selection == dispatch.selection
  {
    hide ValidDisposition, ValidHistory, StepAdmits, ValidRequirement, ValidPolicy, ValidDispatch, FirstStep;
  }

  // A capacity refusal is observed when its refusal was.
  lemma RefusalIsObservedThen(a: Attempt, dispatch: DispatchRecord, o: Observation, d: Disposition, history: seq<Entry>, deferred: Option<Deferred>, g: Digests)
    requires Graph(a, dispatch, o, d, history, deferred, g) && d.kind == NotAdmittedModelAtCapacity && d.evidence.Switchyard?
    ensures exists i :: 0 <= i < |d.evidence.snapshot.records| && d.evidence.snapshot.records[i].evidence.AdmissionRefused?
                        && o.observedAt == d.evidence.snapshot.records[i].evidence.observedAtMs * MILLISECOND
  {
    hide ValidDisposition, ValidHistory, StepAdmits, ValidRequirement, ValidPolicy, ValidDispatch, FirstStep;
    var i := FirstStepIsRecord(d.evidence.snapshot.records, d.kind);
  }

  lemma {:induction false} FirstStepIsRecord(records: seq<Record>, kind: DispositionKind) returns (i: nat)
    requires FirstStep(records, kind).Some?
    ensures i < |records| && FirstStep(records, kind) == Some(records[i])
    ensures kind.NotAdmittedModelAtCapacity? ==> records[i].evidence.AdmissionRefused?
    ensures kind.ExecutionAdmitted? ==> records[i].evidence.ExecutionStep?
    ensures kind.AdmissionIndeterminate? ==> records[i].evidence.Discrepancy?
  {
    if FirstStep(records, kind) == Some(records[0])
       && ((kind.NotAdmittedModelAtCapacity? && records[0].evidence.AdmissionRefused?) || (kind.ExecutionAdmitted? && records[0].evidence.ExecutionStep?)
           || (kind.AdmissionIndeterminate? && records[0].evidence.Discrepancy?)) {
      i := 0;
    } else {
      var k := FirstStepIsRecord(records[1..], kind);
      i := k + 1;
    }
  }

  // An indeterminate outcome needs a discrepancy to be observed by, so a clean refusal that is reported
  // as indeterminate makes a valid disposition but no graph.
  lemma IndeterminateHasDiscrepancy(a: Attempt, dispatch: DispatchRecord, o: Observation, d: Disposition, history: seq<Entry>, deferred: Option<Deferred>, g: Digests)
    requires Graph(a, dispatch, o, d, history, deferred, g) && d.kind == AdmissionIndeterminate && d.evidence.Switchyard?
    ensures AnyDiscrepancy(Body(d.evidence.snapshot.records))
  {
    hide ValidDisposition, ValidHistory, StepAdmits, ValidRequirement, ValidPolicy, ValidDispatch, FirstStep;
    var records := d.evidence.snapshot.records;
    var i := FirstStepIsRecord(records, d.kind);
    assert Body(records)[i] == records[i];
  }

  // The evidence is a refusal that a later dispatch may overcome, said without the reported kind.
  ghost predicate Overcomable(d: Disposition) {
    match d.evidence
    case Switchyard(snap) => RefusedOutright(Moves(Body(snap.records))) && snap.cut.Some? && snap.cut.value.clean
    case FirstWatch(e) => e.outcome == RateLimited || e.outcome == ProviderUnavailable
    case SecondWatch(e) => !e.completed
  }

  // In an accepted graph there is a deferral if and only if the owner evidence is such a refusal.
  lemma DeferredIffOvercomable(a: Attempt, dispatch: DispatchRecord, o: Observation, d: Disposition, history: seq<Entry>, deferred: Option<Deferred>, g: Digests)
    requires Graph(a, dispatch, o, d, history, deferred, g)
    ensures deferred.Some? <==> Overcomable(d)
  {
    hide SnapshotComplete, ValidHistory, ValidRequirement, ValidPolicy, ValidDispatch, BoundRecords, Continues, ValidDeferred, BoundDeferral, ExactSeconds,
      PermitsPark, SnapshotAgrees;
    ParkIffTransient(d, g.sha256);
    if d.evidence.Switchyard? {
      SnapshotAgreesWhenComplete(d, d.evidence.snapshot, g.sha256);
      if d.kind == AdmissionIndeterminate {
        IndeterminateHasDiscrepancy(a, dispatch, o, d, history, deferred, g);
      }
      CleanOrIndeterminate(d, d.evidence.snapshot);
    }
  }

  lemma CleanOrIndeterminate(d: Disposition, snap: Snapshot)
    requires SnapshotAgrees(d, snap)
    ensures snap.admission == SnapshotIndeterminate <==> d.kind == AdmissionIndeterminate
    ensures snap.cut.Some? && snap.cut.value.clean ==> !AnyDiscrepancy(Body(snap.records))
  {
    hide HighWater, OpenIds, RetryAgrees, MechanismFits, AnyStepped, StepIdentityOf, RefusalIn, AnyDiscrepancy, AnyApproval, AnyTurnEnd;
  }

  // ---- what the graph gets for free, and what enrollment adds ----

  // The closing resume-only test of the graph follows from the other laws.
  lemma ResumeLawIsImplied(a: Attempt, dispatch: DispatchRecord, d: Disposition, history: seq<Entry>, deferred: Option<Deferred>, g: Digests)
    requires ValidDisposition(d, g.sha256) && ParkLaw(a, history, dispatch, d, deferred, g.seal)
    ensures ResumeLaw(d, deferred)
  {
    hide SnapshotComplete, SnapshotAgrees, ValidDeferred, BoundDeferral, ExactSeconds, ValidDisposition, PermitsPark, AnyStepped, StepIdentityOf;
    DispositionMeans(d, g.sha256);
    if d.mechanism == PostAdmissionInterrupted { InterruptedHasExecution(d); }
    if PermitsPark(d) { ParkNeedsNonAdmission(d, g.sha256); }
  }

  lemma InterruptedHasExecution(d: Disposition)
    requires EvidenceReports(d) && d.mechanism == PostAdmissionInterrupted
    ensures d.execution.Some?
  {
    hide HighWater, OpenIds, RetryAgrees, KindFits;
    if d.evidence.Switchyard? && AnyStepped(Moves(Body(d.evidence.snapshot.records))) { SteppedHasIdentity(Body(d.evidence.snapshot.records)); }
  }

  lemma {:induction false} SteppedHasIdentity(records: seq<Record>)
    requires AnyStepped(Moves(records))
    ensures StepIdentityOf(records).Some?
  {
    if records != [] && !records[|records| - 1].evidence.ExecutionStep? {
      var front := records[..|records| - 1];
      var i :| 0 <= i < |Moves(records)| && Moves(records)[i].Stepped?;
      assert i < |Moves(front)| && Moves(front)[i].Stepped?;
      SteppedHasIdentity(front);
    }
  }

  // With the bounded echo enrolled, an accepted graph over app-server evidence has a lawful echo trace.
  lemma EnrolledGraphIsLawful(a: Attempt, dispatch: DispatchRecord, o: Observation, d: Disposition, history: seq<Entry>, deferred: Option<Deferred>, g: Digests)
    requires Graph(a, dispatch, o, d, history, deferred, g) && a.requirement.boundedEcho && d.evidence.Switchyard?
    ensures var scope, records := Echo.Scope(d.thread, d.turn), d.evidence.snapshot.records;
            Echo.EchoRun(scope, records).Some? && EchoLaws.Lawful(EchoReplay.Trace(scope, records, false))
  {
    hide ValidDisposition, ValidHistory, StepAdmits, ValidRequirement, ValidPolicy, ValidDispatch, ObservationAgrees;
    EchoReplay.AcceptedTraceIsLawful(Echo.Scope(d.thread, d.turn), d.evidence.snapshot.records);
  }
}
