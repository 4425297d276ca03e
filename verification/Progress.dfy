// What the graph always admits: inside the backoff schedule a refused dispatch parks and the history
// grows, a provider retry time parks beyond the schedule too, and a completed dispatch ends the attempt.
module Progress {
  import opened Wire
  import opened Evidence
  import opened Replay
  import opened Admission
  import opened DispositionLaw
  import opened Dispatch
  import opened DispatchHistory
  import opened DispatchSafety
  import opened DispatchCheck
  import opened Rounds
  import opened RecordedRuns
  import Echo

  // An admitted attempt.
  predicate Admitted(a: Attempt) {
    && ValidRequirement(a.requirement) && ValidPolicy(a.policy) && IsId(a.attempt)
    && a.requirement.policyId == a.policy.id && a.requirement.scope.policyDigest == a.policy.digest
    && a.workItem in a.requirement.selections && a.selections == a.requirement.selections[a.workItem]
  }

  // ... whose dispatches go to the app-server adapter.
  predicate Open(a: Attempt) {
    && Admitted(a)
    && a.requirement.adapter.id != "nightshift:holding-pattern-deterministic-fake-adapter"
    && a.requirement.adapter.protocol == "switchyard.codex-app-server/v2"
  }

  // Identities for the next dispatch.
  datatype Tokens = Tokens(occurrence: string, request: string, adapterProcess: string, session: string, thread: string, turn: string)

  predicate TokensAreIds(f: Tokens) {
    IsId(f.occurrence) && IsId(f.request) && IsId(f.adapterProcess) && IsId(f.session) && IsId(f.thread) && IsId(f.turn)
  }

  predicate BackoffOnly(history: seq<Entry>) { forall i | 0 <= i < |history| :: history[i].deferred.basis.PolicyBackoff? }

  function LastModel(history: seq<Entry>): int { if history == [] then 0 else history[|history| - 1].deferred.modelOrdinal }

  // The model of the last dispatch is still one of the attempt's models.
  lemma LastModelIsListed(a: Attempt, history: seq<Entry>)
    requires HistoryLinks(a, history) && |a.selections| > 0
    ensures 0 <= LastModel(history) < |a.selections| && (!a.policy.allowFallback ==> LastModel(history) == 0)
  {
    hide ExactSeconds, PermitsPark, OwnerFamily;
    if history != [] { assert LinksAt(a, history, |history| - 1); }
  }

  // The next dispatch comes at time t, after the last wake.
  predicate Timely(a: Attempt, history: seq<Entry>, t: int) {
    a.requirement.admittedAt <= t && (history != [] ==> history[|history| - 1].deferred.wakeAt <= t)
  }

  predicate Ready(a: Attempt, history: seq<Entry>, f: Tokens, t: int, g: Digests) {
    Admitted(a) && ValidHistory(a, history, g) && |history| < a.policy.maximumDispatches && TokensAreIds(f) && Timely(a, history, t)
  }

  // ... with app-server frames observed by then.
  predicate MayDispatch(a: Attempt, history: seq<Entry>, f: Tokens, c: Capture, t: int, g: Digests) {
    Ready(a, history, f, t, g) && Open(a) && ValidCapture(c) && c.observedAt * MILLISECOND <= t
  }

  // ---- the records of a dispatch opened and answered at time t ----

  function ModelOf(a: Attempt, history: seq<Entry>): Selection {
    if 0 <= LastModel(history) < |a.selections| then a.selections[LastModel(history)] else Selection("", "", "")
  }

  function NextDispatch(a: Attempt, history: seq<Entry>, f: Tokens, t: int): DispatchRecord {
    DispatchRecord("", a.requirement.scope, a.workItem, a.attempt, f.occurrence, |history| + 1, LastModel(history),
                   ModelOf(a, history), a.requirement.adapter, f.adapterProcess, f.session, t, 0, None)
  }

  function OwnerFor(dispatch: DispatchRecord, f: Tokens): Owner {
    Owner(dispatch.attempt, dispatch.occurrence, dispatch.adapterProcess, dispatch.session, f.thread, f.turn,
          dispatch.selection.provider, dispatch.selection.model)
  }

  // The retry time that a delay in milliseconds asks for.
  function RetryAt(delay: Option<int>, t: int): Option<int> { if delay.Some? then Some(t + delay.value * MILLISECOND) else None }

  function DispositionFor(dispatch: DispatchRecord, f: Tokens, t: int, kind: DispositionKind, m: MechanismState, delay: Option<int>,
                          execution: Option<Identity>, evidence: OwnerEvidence): Disposition {
    Disposition("", dispatch.digest, dispatch.scope, dispatch.workItem, dispatch.attempt, dispatch.occurrence,
                dispatch.selection.provider, dispatch.selection.model, f.request, dispatch.adapterProcess, dispatch.session, f.thread, f.turn,
                kind, m, t, execution.Some?, false, true, RetryAt(delay, t), execution, evidence, false, true)
  }

  function RefusedDisposition(dispatch: DispatchRecord, f: Tokens, c: Capture, t: int, sha256: Frame -> string): Disposition {
    DispositionFor(dispatch, f, t, NotAdmittedModelAtCapacity, ParkedNotAdmitted, c.retry, None,
                   Switchyard(RefusedSnapshot(OwnerFor(dispatch, f), f.request, c, sha256)))
  }

  function CompletedDisposition(dispatch: DispatchRecord, f: Tokens, response: string, c: Capture, t: int, sha256: Frame -> string): Disposition {
    DispositionFor(dispatch, f, t, ExecutionAdmitted, ProviderCompleted, None, Some(IdentityFor(OwnerFor(dispatch, f), response)),
                   Switchyard(ExecutedSnapshot(OwnerFor(dispatch, f), f.request, response, c, sha256)))
  }

  function ObservationOf(dispatch: DispatchRecord, state: Availability, observedAt: int, t: int, retry: Option<int>): Observation {
    Observation(dispatch.selection, observedAt, t, t + 1, state, retry)
  }

  // ---- each part of the graph accepts them ----

  lemma ModelIsValid(a: Attempt, history: seq<Entry>, g: Digests)
    requires Admitted(a) && ValidHistory(a, history, g)
    ensures 0 <= LastModel(history) < |a.selections| <= 16 && (!a.policy.allowFallback ==> LastModel(history) == 0)
    ensures ModelOf(a, history) == a.selections[LastModel(history)] && ValidSelection(ModelOf(a, history)) && IsId(a.workItem)
  {
    hide ValidEntries, LastModel, ValidPolicy;
    assert ValidSelections(a.selections);
    LastModelIsListed(a, history);
  }

  lemma DispatchIsValid(a: Attempt, history: seq<Entry>, f: Tokens, t: int, g: Digests)
    requires Ready(a, history, f, t, g)
    ensures ValidDispatch(NextDispatch(a, history, f, t))
  {
    hide ValidHistory, LastModel, ModelOf, ValidRequirement;
    ModelIsValid(a, history, g);
  }

  lemma RefusalIsValid(a: Attempt, history: seq<Entry>, f: Tokens, c: Capture, t: int, g: Digests)
    requires MayDispatch(a, history, f, c, t, g)
    ensures var d := RefusedDisposition(NextDispatch(a, history, f, t), f, c, t, g.sha256);
            ValidDisposition(d, g.sha256) && PermitsPark(d)
  {
    hide ValidHistory, LastModel, ModelOf, SnapshotComplete, RefusedSnapshot;
    DispatchIsValid(a, history, f, t, g);
    RefusalIsRecordable(RefusedDisposition(NextDispatch(a, history, f, t), f, c, t, g.sha256), c, g.sha256);
  }

  lemma CompletionIsValid(a: Attempt, history: seq<Entry>, f: Tokens, response: string, c: Capture, t: int, g: Digests)
    requires MayDispatch(a, history, f, c, t, g) && IsId(response)
    ensures var d := CompletedDisposition(NextDispatch(a, history, f, t), f, response, c, t, g.sha256);
            ValidDisposition(d, g.sha256) && !PermitsPark(d)
  {
    hide ValidHistory, LastModel, ModelOf, SnapshotComplete, ExecutedSnapshot;
    DispatchIsValid(a, history, f, t, g);
    ExecutionIsRecordable(CompletedDisposition(NextDispatch(a, history, f, t), f, response, c, t, g.sha256), response, c, g.sha256);
  }

  // The first record of the kind that a disposition reports.
  lemma FirstOf(records: seq<Record>, kind: DispositionKind, e: Record)
    requires |records| >= 2 && records[0].evidence.RequestStarted? && records[1] == e
    requires (kind.NotAdmittedModelAtCapacity? && e.evidence.AdmissionRefused?) || (kind.ExecutionAdmitted? && e.evidence.ExecutionStep?)
    ensures FirstStep(records, kind) == Some(e)
  {
    assert records[1..][0] == e;
  }

  lemma RefusalIsObserved(a: Attempt, history: seq<Entry>, f: Tokens, c: Capture, t: int, g: Digests)
    requires ValidCapture(c)
    ensures SourceObservedAt(RefusedDisposition(NextDispatch(a, history, f, t), f, c, t, g.sha256)) == Some(c.observedAt * MILLISECOND)
  {
    hide FirstStep, Refused, Plain, RefusalRecord;
    var dispatch := NextDispatch(a, history, f, t);
    var b := BindingFor(OwnerFor(dispatch, f), f.request, g.sha256);
    RefusedBody(b, c);
    FirstOf(RefusedSnapshot(OwnerFor(dispatch, f), f.request, c, g.sha256).records, NotAdmittedModelAtCapacity, RefusalRecord(b, c));
  }

  lemma CompletionIsObserved(a: Attempt, history: seq<Entry>, f: Tokens, response: string, c: Capture, t: int, g: Digests)
    requires ValidCapture(c)
    ensures SourceObservedAt(CompletedDisposition(NextDispatch(a, history, f, t), f, response, c, t, g.sha256)) == Some(c.observedAt * MILLISECOND)
  {
    hide FirstStep, Executed, Plain, StepRecord;
    var dispatch := NextDispatch(a, history, f, t);
    var b := BindingFor(OwnerFor(dispatch, f), f.request, g.sha256);
    ExecutedBody(b, response, c);
    FirstOf(ExecutedSnapshot(OwnerFor(dispatch, f), f.request, response, c, g.sha256).records, ExecutionAdmitted, StepRecord(b, response, c));
  }

  lemma RefusedSnapshotIsPlain(o: Owner, request: string, c: Capture, sha256: Frame -> string, scope: Echo.Scope)
    requires ValidCapture(c)
    ensures Echo.EchoVerdicts(scope, RefusedSnapshot(o, request, c, sha256).records, true).Some?
  {
    hide Refused, Plain, Echo.EchoVerdicts, CutRecord;
    RefusedBody(BindingFor(o, request, sha256), c);
    CutIsPlain(o, 2, true);
    EchoAccepts(scope, RefusedSnapshot(o, request, c, sha256).records, true);
  }

  lemma ExecutedSnapshotIsPlain(o: Owner, request: string, response: string, c: Capture, sha256: Frame -> string, scope: Echo.Scope)
    requires ValidCapture(c)
    ensures Echo.EchoVerdicts(scope, ExecutedSnapshot(o, request, response, c, sha256).records, true).Some?
  {
    hide Executed, Plain, Echo.EchoVerdicts, CutRecord;
    ExecutedBody(BindingFor(o, request, sha256), response, c);
    CutIsPlain(o, 4, true);
    EchoAccepts(scope, ExecutedSnapshot(o, request, response, c, sha256).records, true);
  }

  function RefusalObservation(dispatch: DispatchRecord, c: Capture, t: int): Observation {
    ObservationOf(dispatch, ModelAtCapacity, c.observedAt * MILLISECOND, t, RetryAt(c.retry, t))
  }

  function CompletionObservation(dispatch: DispatchRecord, c: Capture, t: int): Observation {
    ObservationOf(dispatch, Available, c.observedAt * MILLISECOND, t, None)
  }

  lemma RefusalInputs(a: Attempt, history: seq<Entry>, f: Tokens, c: Capture, t: int, g: Digests)
    requires MayDispatch(a, history, f, c, t, g)
    ensures var dispatch := NextDispatch(a, history, f, t);
            ValidInputs(a, dispatch, RefusalObservation(dispatch, c, t), RefusedDisposition(dispatch, f, c, t, g.sha256), g)
  {
    hide ValidHistory, LastModel, ModelOf, ValidDisposition, ValidDispatch, RefusedSnapshot, ValidPolicy, ValidRequirement, SourceObservedAt,
      Echo.EchoVerdicts, ValidSelection;
    DispatchIsValid(a, history, f, t, g);
    ModelIsValid(a, history, g);
    RefusalIsValid(a, history, f, c, t, g);
    RefusalIsObserved(a, history, f, c, t, g);
    RefusedSnapshotIsPlain(OwnerFor(NextDispatch(a, history, f, t), f), f.request, c, g.sha256, Echo.Scope(f.thread, f.turn));
  }

  lemma CompletionInputs(a: Attempt, history: seq<Entry>, f: Tokens, response: string, c: Capture, t: int, g: Digests)
    requires MayDispatch(a, history, f, c, t, g) && IsId(response)
    ensures var dispatch := NextDispatch(a, history, f, t);
            ValidInputs(a, dispatch, CompletionObservation(dispatch, c, t), CompletedDisposition(dispatch, f, response, c, t, g.sha256), g)
  {
    hide ValidHistory, LastModel, ModelOf, ValidDisposition, ValidDispatch, ExecutedSnapshot, ValidPolicy, ValidRequirement, SourceObservedAt,
      Echo.EchoVerdicts, ValidSelection;
    DispatchIsValid(a, history, f, t, g);
    ModelIsValid(a, history, g);
    CompletionIsValid(a, history, f, response, c, t, g);
    CompletionIsObserved(a, history, f, response, c, t, g);
    ExecutedSnapshotIsPlain(OwnerFor(NextDispatch(a, history, f, t), f), f.request, response, c, g.sha256, Echo.Scope(f.thread, f.turn));
  }

  lemma RecordsAreBound(a: Attempt, history: seq<Entry>, f: Tokens, t: int, g: Digests, kind: DispositionKind, m: MechanismState,
                        delay: Option<int>, execution: Option<Identity>, evidence: OwnerEvidence)
    requires Ready(a, history, f, t, g)
    requires var dispatch := NextDispatch(a, history, f, t);
             OwnerFamily(dispatch, DispositionFor(dispatch, f, t, kind, m, delay, execution, evidence))
    ensures var dispatch := NextDispatch(a, history, f, t);
            var d := DispositionFor(dispatch, f, t, kind, m, delay, execution, evidence);
            BoundRecords(a, dispatch, d) && Continues(a, history, dispatch, d)
  {
    hide ValidHistory, ValidPolicy, ValidRequirement, ValidSelection, OwnerFamily;
    ModelIsValid(a, history, g);
  }

  // ---- the deferral ----

  // Seconds to wait: the provider's, or those of the schedule.
  function WaitSeconds(a: Attempt, history: seq<Entry>, delay: Option<int>): int {
    if delay.Some? then delay.value / 1000
    else if |history| < |a.policy.backoffSeconds| then a.policy.backoffSeconds[|history|] else 0
  }

  // A wait of whole seconds within the limits of one deferral.
  predicate Waits(a: Attempt, history: seq<Entry>, delay: Option<int>) {
    && (delay.Some? ==> delay.value % 1000 == 0)
    && 1 <= WaitSeconds(a, history, delay) <= MAXIMUM_DEFERRAL_SECONDS
  }

  predicate InBudget(a: Attempt, history: seq<Entry>, delay: Option<int>) {
    Waits(a, history, delay) && Cumulative(history) + WaitSeconds(a, history, delay) <= a.policy.maximumTotalSeconds
  }

  function ParkRecord(a: Attempt, history: seq<Entry>, f: Tokens, delay: Option<int>, t: int, seal: Deferred -> string): Deferred {
    var blank := Deferred(
      "", a.requirement.scope, "", a.workItem, a.attempt, f.occurrence, ModelOf(a, history).provider, ModelOf(a, history).model,
      LastModel(history), Remaining(a, LastModel(history)), t, if delay.Some? then ProviderRetryAfter else PolicyBackoff,
      |history|, WaitSeconds(a, history, delay), RetryAt(delay, t), t + WaitSeconds(a, history, delay) * SECOND, a.policy.lockPolicy, true, false);
    blank.(digest := seal(blank))
  }

  lemma ParkIsExact(a: Attempt, history: seq<Entry>, f: Tokens, delay: Option<int>, t: int, seal: Deferred -> string, d: Disposition)
    requires Waits(a, history, delay) && d.receivedAt == t && d.retryAfter == RetryAt(delay, t)
    ensures ExactSeconds(a.policy, d, ParkRecord(a, history, f, delay, t, seal)) == Some(WaitSeconds(a, history, delay))
  {
    hide ModelOf, Remaining;
    if delay.Some? {
      assert RetryAt(delay, t).value - t == delay.value * MILLISECOND;
      assert delay.value == WaitSeconds(a, history, delay) * 1000;
    }
  }

  lemma ParkIsValid(a: Attempt, history: seq<Entry>, f: Tokens, delay: Option<int>, t: int, g: Digests)
    requires Ready(a, history, f, t, g) && Waits(a, history, delay)
    ensures ValidDeferred(ParkRecord(a, history, f, delay, t, g.seal), g.seal)
  {
    hide ValidHistory, LastModel, ModelOf, ValidRequirement, Timely;
    ModelIsValid(a, history, g);
    var x := ParkRecord(a, history, f, delay, t, g.seal);
    assert x.(digest := "").(digest := x.digest) == x;
    if delay.Some? { assert delay.value == WaitSeconds(a, history, delay) * 1000; }
  }

  lemma ParkIsBound(a: Attempt, history: seq<Entry>, f: Tokens, delay: Option<int>, t: int, seal: Deferred -> string, d: Disposition)
    requires d.digest == ""
    ensures BoundDeferral(a, NextDispatch(a, history, f, t), d, ParkRecord(a, history, f, delay, t, seal))
  {
    hide Remaining;
  }

  // The graph accepts a parked dispatch once its inputs and bindings hold.
  lemma ParkIsAccepted(a: Attempt, history: seq<Entry>, f: Tokens, delay: Option<int>, t: int, g: Digests, o: Observation, d: Disposition)
    requires Ready(a, history, f, t, g) && InBudget(a, history, delay)
    requires d.digest == "" && d.receivedAt == t && d.retryAfter == RetryAt(delay, t) && PermitsPark(d) && !d.mechanism.PostAdmissionInterrupted?
    requires var dispatch := NextDispatch(a, history, f, t);
             ValidInputs(a, dispatch, o, d, g) && BoundRecords(a, dispatch, d) && Continues(a, history, dispatch, d)
    ensures Graph(a, NextDispatch(a, history, f, t), o, d, history, Some(ParkRecord(a, history, f, delay, t, g.seal)), g)
  {
    hide ValidInputs, ValidHistory, ValidDeferred, BoundRecords, BoundDeferral, ExactSeconds, ValidRequirement, ValidPolicy, PermitsPark;
    ParkIsExact(a, history, f, delay, t, g.seal, d);
    ParkIsValid(a, history, f, delay, t, g);
    ParkIsBound(a, history, f, delay, t, g.seal, d);
  }

  // ... and a dispatch that does not park, without a deferral.
  lemma EndIsAccepted(a: Attempt, history: seq<Entry>, f: Tokens, t: int, g: Digests, o: Observation, d: Disposition)
    requires Ready(a, history, f, t, g) && !PermitsPark(d) && !d.mechanism.PostAdmissionInterrupted?
    requires var dispatch := NextDispatch(a, history, f, t);
             ValidInputs(a, dispatch, o, d, g) && BoundRecords(a, dispatch, d) && Continues(a, history, dispatch, d)
    ensures var dispatch := NextDispatch(a, history, f, t);
            Graph(a, dispatch, o, d, history, None, g) && Derive(a, dispatch, o, d, history, g) == Some(None)
  {
    hide ValidInputs, ValidHistory, BoundRecords, ValidRequirement, ValidPolicy, PermitsPark, Derive;
    var dispatch := NextDispatch(a, history, f, t);
    assert Graph(a, dispatch, o, d, history, None, g);
    DeriveIsExact(a, dispatch, o, d, history, g, None);
  }

  // ---- main results ----

  // A refused dispatch with an exact wait inside the budget is accepted, with its deferral.
  lemma RefusalIsAccepted(a: Attempt, history: seq<Entry>, f: Tokens, c: Capture, t: int, g: Digests)
    requires MayDispatch(a, history, f, c, t, g) && InBudget(a, history, c.retry)
    ensures var dispatch := NextDispatch(a, history, f, t);
            Graph(a, dispatch, RefusalObservation(dispatch, c, t), RefusedDisposition(dispatch, f, c, t, g.sha256), history,
                  Some(ParkRecord(a, history, f, c.retry, t, g.seal)), g)
  {
    hide RefusedSnapshot, ValidInputs, ValidHistory, ValidDisposition, BoundRecords, Continues, ValidRequirement, ValidPolicy, ModelOf, LastModel, ParkRecord,
      Graph;
    var dispatch := NextDispatch(a, history, f, t);
    var evidence := Switchyard(RefusedSnapshot(OwnerFor(dispatch, f), f.request, c, g.sha256));
    RefusalInputs(a, history, f, c, t, g);
    RecordsAreBound(a, history, f, t, g, NotAdmittedModelAtCapacity, ParkedNotAdmitted, c.retry, None, evidence);
    ParkIsAccepted(a, history, f, c.retry, t, g, RefusalObservation(dispatch, c, t), RefusedDisposition(dispatch, f, c, t, g.sha256));
  }

  // A completed dispatch is accepted after every history, without a deferral, and derivation agrees.
  lemma CompletionIsAccepted(a: Attempt, history: seq<Entry>, f: Tokens, response: string, c: Capture, t: int, g: Digests)
    requires MayDispatch(a, history, f, c, t, g) && IsId(response)
    ensures var dispatch := NextDispatch(a, history, f, t);
            var o, d := CompletionObservation(dispatch, c, t), CompletedDisposition(dispatch, f, response, c, t, g.sha256);
            Graph(a, dispatch, o, d, history, None, g) && d.execution.Some? && Derive(a, dispatch, o, d, history, g) == Some(None)
  {
    hide ExecutedSnapshot, ValidInputs, ValidHistory, ValidDisposition, BoundRecords, Continues, ValidRequirement, ValidPolicy, Derive, ModelOf, LastModel,
      Graph;
    var dispatch := NextDispatch(a, history, f, t);
    var identity := IdentityFor(OwnerFor(dispatch, f), response);
    CompletionInputs(a, history, f, response, c, t, g);
    CompletionIsValid(a, history, f, response, c, t, g);
    RecordsAreBound(a, history, f, t, g, ExecutionAdmitted, ProviderCompleted, None, Some(identity),
                    Switchyard(ExecutedSnapshot(OwnerFor(dispatch, f), f.request, response, c, g.sha256)));
    EndIsAccepted(a, history, f, t, g, CompletionObservation(dispatch, c, t), CompletedDisposition(dispatch, f, response, c, t, g.sha256));
  }

  lemma LinksOf(a: Attempt, history: seq<Entry>, g: Digests)
    requires ValidHistory(a, history, g)
    ensures HistoryLinks(a, history)
  {
  }

  function NextEntry(a: Attempt, history: seq<Entry>, f: Tokens, c: Capture, t: int, g: Digests): Entry {
    var dispatch := NextDispatch(a, history, f, t);
    Entry(dispatch, RefusedDisposition(dispatch, f, c, t, g.sha256), ParkRecord(a, history, f, c.retry, t, g.seal))
  }

  // A refused dispatch without a retry time, inside the schedule.
  predicate InSchedule(a: Attempt, history: seq<Entry>, c: Capture) {
    BackoffOnly(history) && |history| < |a.policy.backoffSeconds| && c.retry.None?
  }

  lemma ScheduleIsInBudget(a: Attempt, history: seq<Entry>, f: Tokens, c: Capture, t: int, g: Digests)
    requires MayDispatch(a, history, f, c, t, g) && InSchedule(a, history, c)
    ensures InBudget(a, history, c.retry)
  {
    hide ValidHistory, RefusedSnapshot, BoundRecords, ValidRequirement, ExactSeconds, ModelOf, LastModel, OwnerFamily;
    LinksOf(a, history, g);
    var e := NextEntry(a, history, f, c, t, g);
    AppServerFamily(a, history, f, c, t, g);
    RecordsAreBound(a, history, f, t, g, NotAdmittedModelAtCapacity, ParkedNotAdmitted, c.retry, None, e.disposition.evidence);
    ParkIsExact(a, history, f, c.retry, t, g.seal, e.disposition);
    ParkIsBound(a, history, f, c.retry, t, g.seal, e.disposition);
    BackoffNeverExceedsBudgetNext(a, history, e.dispatch, e.disposition, e.deferred);
  }

  lemma AppServerFamily(a: Attempt, history: seq<Entry>, f: Tokens, c: Capture, t: int, g: Digests)
    requires Open(a)
    ensures OwnerFamily(NextDispatch(a, history, f, t), NextEntry(a, history, f, c, t, g).disposition)
  {
  }

  // Inside the backoff schedule a refused dispatch is accepted, derivation finds its deferral, and
  // with an unused occurrence id the grown history is valid again.
  lemma RefusalParks(a: Attempt, history: seq<Entry>, f: Tokens, c: Capture, t: int, g: Digests)
    requires MayDispatch(a, history, f, c, t, g) && InSchedule(a, history, c) && Fresh(history, f.occurrence)
    ensures var e := NextEntry(a, history, f, c, t, g);
            && Derive(a, e.dispatch, RefusalObservation(e.dispatch, c, t), e.disposition, history, g) == Some(Some(e.deferred))
            && ValidHistory(a, history + [e], g) && BackoffOnly(history + [e])
  {
    hide RefusedSnapshot, Graph, ValidHistory, ValidRequirement, ValidPolicy, Derive, Remaining, ModelOf, LastModel;
    var e := NextEntry(a, history, f, c, t, g);
    ScheduleIsInBudget(a, history, f, c, t, g);
    RefusalIsAccepted(a, history, f, c, t, g);
    DeriveIsExact(a, e.dispatch, RefusalObservation(e.dispatch, c, t), e.disposition, history, g, Some(e.deferred));
    AcceptedStepExtendsHistory(a, e.dispatch, RefusalObservation(e.dispatch, c, t), e.disposition, history, e.deferred, g);
  }

  // The graph admits a dispatch whose occurrence id an earlier one already used, and then no valid
  // history can hold it: the current dispatch is never compared with the history's ids.
  lemma UsedOccurrenceIsAccepted(a: Attempt, history: seq<Entry>, f: Tokens, c: Capture, t: int, g: Digests)
    requires MayDispatch(a, history, f, c, t, g) && InSchedule(a, history, c) && !Fresh(history, f.occurrence)
    ensures var e := NextEntry(a, history, f, c, t, g);
            && Graph(a, e.dispatch, RefusalObservation(e.dispatch, c, t), e.disposition, history, Some(e.deferred), g)
            && !ValidHistory(a, history + [e], g)
  {
    hide RefusedSnapshot, Graph, ValidHistory, ValidRequirement, ValidPolicy, Remaining, ModelOf, LastModel;
    ScheduleIsInBudget(a, history, f, c, t, g);
    RefusalIsAccepted(a, history, f, c, t, g);
    HistoryIsStepwise(a, history, NextEntry(a, history, f, c, t, g), g);
  }

  // ... so an accepted dispatch grows the history if and only if its occurrence id is unused.
  lemma GrowsIffFresh(a: Attempt, history: seq<Entry>, f: Tokens, c: Capture, t: int, g: Digests)
    requires MayDispatch(a, history, f, c, t, g) && InSchedule(a, history, c)
    ensures ValidHistory(a, history + [NextEntry(a, history, f, c, t, g)], g) <==> Fresh(history, f.occurrence)
  {
    hide RefusedSnapshot, ValidHistory, NextEntry, MayDispatch;
    if Fresh(history, f.occurrence) { RefusalParks(a, history, f, c, t, g); } else { UsedOccurrenceIsAccepted(a, history, f, c, t, g); }
  }

  // Beyond the schedule a provider retry time still parks, and derivation fails.
  lemma DeriveStopsAtSchedule(a: Attempt, history: seq<Entry>, f: Tokens, c: Capture, t: int, g: Digests)
    requires MayDispatch(a, history, f, c, t, g) && |a.policy.backoffSeconds| <= |history|
    requires c.retry.Some? && InBudget(a, history, c.retry)
    ensures var e := NextEntry(a, history, f, c, t, g);
            var o := RefusalObservation(e.dispatch, c, t);
            && Graph(a, e.dispatch, o, e.disposition, history, Some(e.deferred), g)
            && Derive(a, e.dispatch, o, e.disposition, history, g).None?
  {
    hide RefusedSnapshot, Graph, ValidHistory, ValidRequirement, ValidPolicy, Remaining, ModelOf, LastModel;
    RefusalIsAccepted(a, history, f, c, t, g);
  }

  // ---- such histories exist ----

  // An identifier of n letters.
  function Letters(n: nat): string { seq(n, i => 'a') }

  function Lettered(n: nat): Tokens { var id := Letters(n); Tokens(id, id, id, id, id, id) }

  predicate OccurrencesLettered(history: seq<Entry>) { forall i | 0 <= i < |history| :: history[i].deferred.lastDispatch == Letters(i + 1) }

  const EARLY := Capture(1, -SAFE, -SAFE, None, "")

  function NextTime(a: Attempt, history: seq<Entry>): int {
    var wake := if history == [] then -SAFE * MILLISECOND else history[|history| - 1].deferred.wakeAt;
    var due := if wake < a.requirement.admittedAt then a.requirement.admittedAt else wake;
    if due < -SAFE * MILLISECOND then -SAFE * MILLISECOND else due
  }

  lemma LettersAreIds(n: nat)
    requires 1 <= n <= 16
    ensures IsId(Letters(n)) && TokensAreIds(Lettered(n))
  {
  }

  // Every length up to the backoff schedule is the length of a valid history: no attempt is refused
  // for want of an acceptable next step.
  lemma {:induction false} EveryLengthIsReached(a: Attempt, n: nat, g: Digests) returns (history: seq<Entry>)
    requires Open(a) && n <= |a.policy.backoffSeconds|
    ensures |history| == n && ValidHistory(a, history, g) && BackoffOnly(history) && OccurrencesLettered(history)
  {
    hide ValidEntry, LinksAt, RefusedSnapshot, Derive, ValidRequirement, Lettered;
    if n == 0 {
      history := [];
    } else {
      var prior := EveryLengthIsReached(a, n - 1, g);
      LettersAreIds(n);
      assert Lettered(n).occurrence == Letters(n) by { LetteredOccurrence(n); }
      assert Fresh(prior, Letters(n)) by { LettersAreFresh(prior); }
      RefusalParks(a, prior, Lettered(n), EARLY, NextTime(a, prior), g);
      history := prior + [NextEntry(a, prior, Lettered(n), EARLY, NextTime(a, prior), g)];
    }
  }

  lemma LetteredOccurrence(n: nat)
    ensures Lettered(n).occurrence == Letters(n)
  {
  }

  lemma LettersAreFresh(history: seq<Entry>)
    requires OccurrencesLettered(history)
    ensures Fresh(history, Letters(|history| + 1))
  {
    forall i | 0 <= i < |history| ensures history[i].deferred.lastDispatch != Letters(|history| + 1) {
      assert |Letters(i + 1)| == i + 1 < |Letters(|history| + 1)|;
    }
  }

  // Every open attempt whose policy allows more dispatches and seconds than its schedule uses has an
  // accepted graph on which derivation fails.
  lemma DerivationGapExists(a: Attempt, g: Digests) returns (history: seq<Entry>, e: Entry, o: Observation)
    requires Open(a) && |a.policy.backoffSeconds| < a.policy.maximumDispatches && Sum(a.policy.backoffSeconds) < a.policy.maximumTotalSeconds
    ensures Graph(a, e.dispatch, o, e.disposition, history, Some(e.deferred), g)
    ensures Derive(a, e.dispatch, o, e.disposition, history, g).None?
  {
    hide ValidHistory, RefusedSnapshot, ValidRequirement, Lettered, Graph, Derive;
    history := EveryLengthIsReached(a, |a.policy.backoffSeconds|, g);
    var f, c, t := Lettered(|history| + 1), EARLY.(retry := Some(1000)), NextTime(a, history);
    LettersAreIds(|history| + 1);
    LinksOf(a, history, g);
    ScheduleSum(a, history);
    DeriveStopsAtSchedule(a, history, f, c, t, g);
    e := NextEntry(a, history, f, c, t, g);
    o := RefusalObservation(e.dispatch, c, t);
  }

  // The deferrals of a backoff-only history add up to the schedule it used.
  lemma ScheduleSum(a: Attempt, history: seq<Entry>)
    requires HistoryLinks(a, history) && BackoffOnly(history) && |history| == |a.policy.backoffSeconds|
    ensures Cumulative(history) == Sum(a.policy.backoffSeconds)
  {
    BackoffSeconds(a, history);
    assert a.policy.backoffSeconds[..|history|] == a.policy.backoffSeconds;
  }
}
