// The two qualification families: which refusals park, and which outcomes end the attempt.
module QualificationProgress {
  import opened Wire
  import opened Evidence
  import opened Replay
  import opened Admission
  import opened DispositionLaw
  import opened Dispatch
  import opened DispatchCheck
  import opened RecordedRuns
  import opened Progress

  // Dispatches of the attempt go to the qualification adapter in this version.
  predicate Qualifies(a: Attempt, version: string, protocol: string) {
    a.requirement.adapter == Adapter("nightshift:holding-pattern-deterministic-fake-adapter", version, protocol)
  }

  predicate FirstAdapter(a: Attempt) { Qualifies(a, "v1", "nightshift.holding-deterministic-provider-admission-evidence/v1") }
  predicate SecondAdapter(a: Attempt) { Qualifies(a, "v2", "nightshift.holding-deterministic-provider-admission-evidence/v2") }

  // ---- first version ----

  function FirstEvidence(dispatch: DispatchRecord, f: Tokens, outcome: QualificationOutcome, proven: bool, at: int, t: int, delay: Option<int>): OwnerEvidence {
    FirstWatch(QualificationV1(dispatch.attempt, dispatch.occurrence, f.request, dispatch.selection.provider, dispatch.selection.model,
                               outcome, false, proven, RetryAt(delay, t), at, t))
  }

  function FirstDisposition(dispatch: DispatchRecord, f: Tokens, outcome: QualificationOutcome, proven: bool, kind: DispositionKind, m: MechanismState,
                            at: int, t: int, delay: Option<int>): Disposition {
    DispositionFor(dispatch, f, t, kind, m, delay, None, FirstEvidence(dispatch, f, outcome, proven, at, t, delay))
  }

  // Kind, mechanism state and availability that a proven transient refusal is reported as.
  predicate Refuses(outcome: QualificationOutcome, kind: DispositionKind, state: Availability) {
    (outcome == RateLimited && kind == NotAdmittedRateLimited && state == Limited)
    || (outcome == ProviderUnavailable && kind == NotAdmittedProviderUnavailable && state == Unavailable)
  }

  lemma FirstIsValid(a: Attempt, history: seq<Entry>, f: Tokens, outcome: QualificationOutcome, proven: bool, kind: DispositionKind, m: MechanismState,
                     at: int, t: int, delay: Option<int>, g: Digests)
    requires Ready(a, history, f, t, g) && at <= t && (delay.Some? ==> delay.value >= 0)
    requires proven == (outcome == RateLimited || outcome == ProviderUnavailable || outcome == AuthRefused)
    requires delay.Some? ==> outcome == RateLimited || outcome == ProviderUnavailable
    requires (kind, m) == OutcomeV1(outcome)
    ensures ValidDisposition(FirstDisposition(NextDispatch(a, history, f, t), f, outcome, proven, kind, m, at, t, delay), g.sha256)
  {
    hide ValidHistory, LastModel, ModelOf, SnapshotComplete;
    DispatchIsValid(a, history, f, t, g);
  }

  // A rate limit or an unavailable provider parks, for the time that the provider or the schedule asks for.
  lemma TransientOutcomeParks(a: Attempt, history: seq<Entry>, f: Tokens, outcome: QualificationOutcome, kind: DispositionKind, state: Availability,
                              at: int, t: int, delay: Option<int>, g: Digests)
    requires Ready(a, history, f, t, g) && FirstAdapter(a) && at <= t && Refuses(outcome, kind, state)
    requires InBudget(a, history, delay)
    ensures var dispatch := NextDispatch(a, history, f, t);
            Graph(a, dispatch, ObservationOf(dispatch, state, at, t, RetryAt(delay, t)),
                  FirstDisposition(dispatch, f, outcome, true, kind, ParkedNotAdmitted, at, t, delay), history,
                  Some(ParkRecord(a, history, f, delay, t, g.seal)), g)
  {
    hide ValidHistory, ValidDisposition, ValidRequirement, ValidPolicy, ModelOf, LastModel, ParkRecord, Graph, BoundRecords, Continues, ValidDispatch,
      ValidSelection;
    var dispatch := NextDispatch(a, history, f, t);
    var d := FirstDisposition(dispatch, f, outcome, true, kind, ParkedNotAdmitted, at, t, delay);
    FirstIsValid(a, history, f, outcome, true, kind, ParkedNotAdmitted, at, t, delay, g);
    DispatchIsValid(a, history, f, t, g);
    ModelIsValid(a, history, g);
    RecordsAreBound(a, history, f, t, g, kind, ParkedNotAdmitted, delay, None, d.evidence);
    ParkIsAccepted(a, history, f, delay, t, g, ObservationOf(dispatch, state, at, t, RetryAt(delay, t)), d);
  }

  // Kind, mechanism state and availability of an outcome that does not park.
  predicate Ends(outcome: QualificationOutcome, kind: DispositionKind, state: Availability) {
    (outcome == AuthRefused && kind == AuthenticationRefused && state == Unauthenticated)
    || ((outcome == TransportError || outcome == ProtocolError) && kind == AdmissionIndeterminate
        && (state == TransportFailed || state == ProtocolFailed || state == UnknownAvailability))
  }

  // Refused authentication and unproven failures are accepted without a deferral.
  lemma FinalOutcomeEnds(a: Attempt, history: seq<Entry>, f: Tokens, outcome: QualificationOutcome, kind: DispositionKind, state: Availability,
                         at: int, t: int, g: Digests)
    requires Ready(a, history, f, t, g) && FirstAdapter(a) && at <= t && Ends(outcome, kind, state)
    ensures var dispatch := NextDispatch(a, history, f, t);
            var d := FirstDisposition(dispatch, f, outcome, outcome == AuthRefused, kind, MechanismIndeterminate, at, t, None);
            var o := ObservationOf(dispatch, state, at, t, None);
            Graph(a, dispatch, o, d, history, None, g) && Derive(a, dispatch, o, d, history, g) == Some(None)
  {
    hide ValidHistory, ValidDisposition, ValidRequirement, ValidPolicy, ModelOf, LastModel, Derive, Graph, BoundRecords, Continues, ValidDispatch,
      ValidSelection;
    var dispatch := NextDispatch(a, history, f, t);
    var d := FirstDisposition(dispatch, f, outcome, outcome == AuthRefused, kind, MechanismIndeterminate, at, t, None);
    FirstIsValid(a, history, f, outcome, outcome == AuthRefused, kind, MechanismIndeterminate, at, t, None, g);
    DispatchIsValid(a, history, f, t, g);
    ModelIsValid(a, history, g);
    RecordsAreBound(a, history, f, t, g, kind, MechanismIndeterminate, None, None, d.evidence);
    EndIsAccepted(a, history, f, t, g, ObservationOf(dispatch, state, at, t, None), d);
  }

  // ---- second version ----

  function SecondEvidence(dispatch: DispatchRecord, f: Tokens, execution: Option<Identity>, at: int, t: int, delay: Option<int>): OwnerEvidence {
    SecondWatch(QualificationV2(dispatch.attempt, dispatch.occurrence, f.request, dispatch.selection.provider, dispatch.selection.model,
                                execution.Some?, execution.Some?, execution.None?, RetryAt(delay, t), at, t, execution))
  }

  function SecondDisposition(dispatch: DispatchRecord, f: Tokens, execution: Option<Identity>, at: int, t: int, delay: Option<int>): Disposition {
    DispositionFor(dispatch, f, t, if execution.Some? then ExecutionAdmitted else NotAdmittedProviderUnavailable,
                   if execution.Some? then ProviderCompleted else ParkedNotAdmitted, delay, execution,
                   SecondEvidence(dispatch, f, execution, at, t, delay))
  }

  lemma SecondIsValid(a: Attempt, history: seq<Entry>, f: Tokens, execution: Option<Identity>, at: int, t: int, delay: Option<int>, g: Digests)
    requires Ready(a, history, f, t, g) && at <= t && (delay.Some? ==> delay.value >= 0) && (delay.Some? <==> execution.None?)
    requires execution.Some? ==> IsId(execution.value.firstResponse)
                                 && execution.value == IdentityFor(OwnerFor(NextDispatch(a, history, f, t), f), execution.value.firstResponse)
    ensures ValidDisposition(SecondDisposition(NextDispatch(a, history, f, t), f, execution, at, t, delay), g.sha256)
  {
    hide ValidHistory, LastModel, ModelOf, SnapshotComplete;
    DispatchIsValid(a, history, f, t, g);
  }

  // An unavailable provider parks for the time it asks for.
  lemma UnavailableParks(a: Attempt, history: seq<Entry>, f: Tokens, at: int, t: int, delay: Option<int>, g: Digests)
    requires Ready(a, history, f, t, g) && SecondAdapter(a) && at <= t && delay.Some? && InBudget(a, history, delay)
    ensures var dispatch := NextDispatch(a, history, f, t);
            Graph(a, dispatch, ObservationOf(dispatch, Unavailable, at, t, RetryAt(delay, t)), SecondDisposition(dispatch, f, None, at, t, delay), history,
                  Some(ParkRecord(a, history, f, delay, t, g.seal)), g)
  {
    hide ValidHistory, ValidDisposition, ValidRequirement, ValidPolicy, ModelOf, LastModel, ParkRecord, Graph, BoundRecords, Continues, ValidDispatch,
      ValidSelection;
    var dispatch := NextDispatch(a, history, f, t);
    var d := SecondDisposition(dispatch, f, None, at, t, delay);
    SecondIsValid(a, history, f, None, at, t, delay, g);
    DispatchIsValid(a, history, f, t, g);
    ModelIsValid(a, history, g);
    RecordsAreBound(a, history, f, t, g, NotAdmittedProviderUnavailable, ParkedNotAdmitted, delay, None, d.evidence);
    ParkIsAccepted(a, history, f, delay, t, g, ObservationOf(dispatch, Unavailable, at, t, RetryAt(delay, t)), d);
  }

  // A completed execution ends the attempt.
  lemma QualifiedExecutionEnds(a: Attempt, history: seq<Entry>, f: Tokens, response: string, at: int, t: int, g: Digests)
    requires Ready(a, history, f, t, g) && SecondAdapter(a) && at <= t && IsId(response)
    ensures var dispatch := NextDispatch(a, history, f, t);
            var d := SecondDisposition(dispatch, f, Some(IdentityFor(OwnerFor(dispatch, f), response)), at, t, None);
            var o := ObservationOf(dispatch, Available, at, t, None);
            Graph(a, dispatch, o, d, history, None, g) && Derive(a, dispatch, o, d, history, g) == Some(None)
  {
    hide ValidHistory, ValidDisposition, ValidRequirement, ValidPolicy, ModelOf, LastModel, Derive, Graph, BoundRecords, Continues, ValidDispatch,
      ValidSelection;
    var dispatch := NextDispatch(a, history, f, t);
    var identity := IdentityFor(OwnerFor(dispatch, f), response);
    var d := SecondDisposition(dispatch, f, Some(identity), at, t, None);
    SecondIsValid(a, history, f, Some(identity), at, t, None, g);
    DispatchIsValid(a, history, f, t, g);
    ModelIsValid(a, history, g);
    RecordsAreBound(a, history, f, t, g, ExecutionAdmitted, ProviderCompleted, None, Some(identity), d.evidence);
    EndIsAccepted(a, history, f, t, g, ObservationOf(dispatch, Available, at, t, None), d);
  }
}
