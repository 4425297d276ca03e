// Runs of every kind can be recorded: for all usable identities, times and sizes there are snapshots,
// one for each mechanism state, that the foreman accepts.
module RecordedRuns {
  import opened Wire
  import opened Evidence
  import opened Replay
  import opened UniqueReading
  import opened FrameReading
  import opened ReplayHistory
  import opened Rounds
  import opened Admission
  import opened DispositionLaw
  import opened SnapshotLaw
  import Echo

  // ---- a completed turn ----

  const TURN := "turn/completed"

  function TurnParams(b: Binding): Fields { map[KThreadId := Str(b.thread), KTurn := Obj(map[KId := Str(b.turn)])] }

  function TurnRecord(b: Binding, c: Capture): Record { Notify(c, LocalTurnFact, TURN, 3, TurnParams(b)) }

  function AfterTurn(b: Binding, response: string, c: Capture): State { AfterCompletion(b, response, c).(next := 4, turnCompleted := true) }

  lemma TurnAccepted(b: Binding, response: string, c: Capture)
    requires ValidCapture(c)
    ensures Step(b, AfterCompletion(b, response, c), TurnRecord(b, c), None) == Some(AfterTurn(b, response, c))
  {
    hide RequestReplay, StepReplay, RefusalReplay, CompletionReplay;
    assert |TURN| == 14 && Classify(TURN).TurnCompletedMethod?;
    assert LocalThreadMatches(b, TURN, TurnParams(b)) && LocalTurnMatches(b, TURN, TurnParams(b));
  }

  function Executed(b: Binding, response: string, c: Capture): seq<Record> { Completed(b, response, c) + [TurnRecord(b, c)] }

  lemma ExecutionRuns(b: Binding, response: string, c: Capture)
    requires Usable(b) && IsId(response) && ValidCapture(c)
    ensures Run(b, Executed(b, response, c), Silent(4)) == Some(AfterTurn(b, response, c))
  {
    hide Step, Run;
    CompletedRuns(b, response, c);
    TurnAccepted(b, response, c);
    RunsOn(b, Completed(b, response, c), TurnRecord(b, c), AfterCompletion(b, response, c), AfterTurn(b, response, c));
  }

  // ---- the echo has nothing to say about these records ----

  predicate Plain(rec: Record) {
    && Echo.RetainedError(rec).None? && rec.name != "client-request/turn/start"
    && (rec.raw.Some? ==>
          && rec.raw.value.wire.Some? && rec.raw.value.byteLength <= MAXIMUM_EVIDENCE_BYTES
          && !Echo.NotificationWire(rec.raw.value.wire.value) && !Echo.ItemClass(rec.name).ItemCompleted?)
  }

  lemma EchoPasses(scope: Echo.Scope, p: Echo.Progress, rec: Record)
    requires Plain(rec)
    ensures Echo.EchoStep(scope, p, rec) == Some((p, None)) && !Echo.Enables(rec)
  {
    hide Echo.NotificationWire, Echo.ItemClass, Echo.UserEcho, Echo.AgentOutput;
  }

  lemma {:induction false} EchoRunPasses(scope: Echo.Scope, records: seq<Record>)
    requires forall i | 0 <= i < |records| :: Plain(records[i])
    ensures Echo.EchoRun(scope, records) == Some((Echo.START, Silent(|records|)))
  {
    hide Plain, Echo.EchoStep;
    if records != [] {
      var last := |records| - 1;
      EchoRunPasses(scope, records[..last]);
      EchoPasses(scope, Echo.START, records[last]);
      assert Silent(last) + [None] == Silent(|records|);
    }
  }

  lemma EchoAccepts(scope: Echo.Scope, records: seq<Record>, enrolled: bool)
    requires forall i | 0 <= i < |records| :: Plain(records[i])
    ensures Echo.EchoVerdicts(scope, records, enrolled) == Some(Silent(|records|))
  {
    hide Plain, Echo.Enables, Echo.EchoRun;
    EchoRunPasses(scope, records);
  }

  lemma NotifyIsPlain(c: Capture, e: Evidence, name: string, ordinal: int, p: Fields)
    requires ValidCapture(c) && (e.Discrepancy? ==> !Echo.KnownError(e.detail)) && name != "client-request/turn/start" && name != "item/completed"
    ensures Plain(Notify(c, e, name, ordinal, p))
  {
    assert KEmittedAtMs !in Call(name, p).fields;
  }

  // ---- other ends of a run ----

  const ERROR := "error"
  const APPROVAL := "item/fileChange/requestApproval"

  function Failed(s: State): State { s.(next := s.next + 1, discrepancy := true) }

  // A coarse error, which can only be recorded as a discrepancy.
  function ErrorRecord(s: State, c: Capture): Record {
    Notify(c, Discrepancy(CoarseError, s.execution, s.execution.Some?), ERROR, s.next, map[])
  }

  lemma ErrorAccepted(b: Binding, s: State, c: Capture)
    requires BindingIds(b) && ReplayInvariant.Inv(s) && ClientInv(s) && ValidCapture(c) && !Closed(s) && U53(s.next)
    ensures Step(b, s, ErrorRecord(s, c), None) == Some(Failed(s))
  {
    hide ReplayInvariant.Inv, ClientInv, RawReplay, NotificationDetail;
    var rec := ErrorRecord(s, c);
    assert |ERROR| == 5 && Classify(ERROR).ErrorMethod?;
    FrameHasOneReading(b, s, rec, rec.raw.value.wire.value);
  }

  function ApprovalParams(b: Binding): Fields { map[KThreadId := Str(b.thread), KTurnId := Str(b.turn)] }

  function ApprovalRecord(b: Binding, response: string, c: Capture): Record {
    Record(WaitingApproval(AfterCompletion(b, response, c).execution.value), APPROVAL, Some(3), Some(ServerRequestLane),
           Some(Raw(WireBytes, c.bytes, Some(Call(APPROVAL, ApprovalParams(b))))))
  }

  lemma ApprovalFaultless(b: Binding, response: string, c: Capture)
    ensures var s, rec := AfterCompletion(b, response, c), ApprovalRecord(b, response, c);
            StreamDetail(b, s, rec, rec.raw.value.wire.value).None? && FrameMethod(rec.raw.value.wire.value) == Some(APPROVAL)
  {
    hide NotificationDetail;
    assert |APPROVAL| == 31 && Classify(APPROVAL).ApprovalMethod?;
  }

  lemma ApprovalAccepted(b: Binding, response: string, c: Capture)
    requires BindingIds(b) && IsId(response) && ValidCapture(c)
    ensures Step(b, AfterCompletion(b, response, c), ApprovalRecord(b, response, c), None)
         == Some(AfterCompletion(b, response, c).(next := 4, approval := true))
  {
    hide StreamDetail, FrameMethod, RawReplay, Classify;
    var s, rec := AfterCompletion(b, response, c), ApprovalRecord(b, response, c);
    assert |APPROVAL| == 31;
    ApprovalFaultless(b, response, c);
    FrameHasOneReading(b, s, rec, rec.raw.value.wire.value);
  }

  // ---- snapshots: a body of records and how it ends ----

  datatype Ending = CleanEnd | DirtyEnd | OpenEnd

  function CutAt(o: Owner, n: int, clean: bool): Cut { Cut(o.adapterProcess, o.session, true, 0, Exited, n, n, 0, clean) }

  function CutRecord(o: Owner, n: int, clean: bool): Record {
    Record(AcquisitionCut(CutAt(o, n, clean)), "adapter/acquisition-cut", None, None, None)
  }

  function Ends(o: Owner, n: int, ending: Ending): seq<Record> { if ending.OpenEnd? then [] else [CutRecord(o, n, ending.CleanEnd?)] }

  function EndCut(o: Owner, n: int, ending: Ending): Option<Cut> { if ending.OpenEnd? then None else Some(CutAt(o, n, ending.CleanEnd?)) }

  function SnapshotOf(o: Owner, body: seq<Record>, ending: Ending, admission: SnapshotAdmission, m: MechanismState, execution: Option<Identity>): Snapshot {
    var records := body + Ends(o, |body|, ending);
    Snapshot(o, seq(|records|, i => o), records, EndCut(o, |body|, ending), admission, Mechanism(m), execution, false)
  }

  function BindingFor(o: Owner, request: string, sha256: Frame -> string): Binding {
    Binding(o.provider, o.model, o.session, o.thread, o.turn, false, request, sha256)
  }

  predicate OwnerIds(o: Owner) {
    IsId(o.provider) && IsId(o.model) && IsId(o.adapterProcess) && IsId(o.session) && IsId(o.thread) && IsId(o.turn)
  }

  lemma CutIsPlain(o: Owner, n: int, clean: bool)
    ensures Plain(CutRecord(o, n, clean))
  {
    assert |"adapter/acquisition-cut"| == 23 && |"client-request/turn/start"| == 25;
  }

  predicate PlainBody(body: seq<Record>) {
    0 < |body| <= 4 && forall i | 0 <= i < |body| :: Plain(body[i]) && !body[i].evidence.AcquisitionCut?
  }

  lemma EndsBody(o: Owner, body: seq<Record>, ending: Ending)
    requires OwnerIds(o) && PlainBody(body)
    ensures var records := body + Ends(o, |body|, ending);
            && Body(records) == body && CutOf(records) == EndCut(o, |body|, ending)
            && (ending.OpenEnd? || CutShape(records[|records| - 1]))
  {
    hide Plain;
    if ending.OpenEnd? { assert body + Ends(o, |body|, ending) == body; }
  }

  // A snapshot replays to the state of its body.
  lemma SnapshotReplays(d: Disposition, snap: Snapshot, body: seq<Record>, ending: Ending, sha256: Frame -> string)
    requires OwnerIds(snap.owner) && PlainBody(body) && OwnerOf(d) == snap.owner && !snap.deterministicFixture
    requires snap.records == body + Ends(snap.owner, |body|, ending)
    ensures Replayed(d, snap, sha256) == Run(BindingFor(snap.owner, d.requestOccurrence, sha256), body, Silent(|body|))
    ensures Body(snap.records) == body && CutOf(snap.records) == EndCut(snap.owner, |body|, ending)
  {
    hide Plain, Run, Echo.EchoVerdicts, CutShape, CutOf, Body, CutRecord;
    CutIsPlain(snap.owner, |body|, ending.CleanEnd?);
    EchoAccepts(Echo.Scope(d.thread, d.turn), snap.records, false);
    EndsBody(snap.owner, body, ending);
    CutNeedsShape(snap.owner, body, ending);
    assert Silent(|snap.records|)[..|body|] == Silent(|body|);
  }

  lemma CutNeedsShape(o: Owner, body: seq<Record>, ending: Ending)
    requires OwnerIds(o) && PlainBody(body)
    ensures var records := body + Ends(o, |body|, ending); CutOf(records).Some? ==> CutShape(records[|records| - 1])
  {
    hide Plain;
    EndsBody(o, body, ending);
  }

  // What the final state of a run must show for its kind, mechanism state and ending.
  predicate StateFits(d: Disposition, admission: SnapshotAdmission, ending: Ending, s: State) {
    && (match d.kind
        case ExecutionAdmitted => admission == SnapshotAdmitted && s.execution.Some?
        case NotAdmittedModelAtCapacity => admission == SnapshotAtCapacity && s.refusal.Some? && s.execution.None?
        case AdmissionIndeterminate => admission == SnapshotIndeterminate
        case _ => false)
    && (match ending
        case CleanEnd => SemanticClosed(s)
        case DirtyEnd => !SemanticClosed(s)
        case OpenEnd => s.execution.Some? && s.refusal.None? && (d.mechanism == MechanismAdmitted || d.mechanism == MechanismWaitingApproval))
    && (match d.mechanism
        case ParkedNotAdmitted => ending.CleanEnd? && s.refusal.Some? && s.execution.None?
        case ProviderCompleted => ending.CleanEnd? && s.execution.Some?
        case PostAdmissionInterrupted => ending.DirtyEnd? && s.execution.Some?
        case MechanismWaitingApproval => ending.OpenEnd? && s.approval
        case MechanismAdmitted => ending.OpenEnd? && s.execution.Some?
        case MechanismIndeterminate => s.execution.None?)
  }

  // A disposition that reports such a run.
  predicate Reports(d: Disposition, s: State) {
    && d.execution == s.execution && d.responseCreated == s.execution.Some?
    && (if s.refusal.None? then d.retryAfter.None?
        else
          && s.refusal.value.occurrence == d.requestOccurrence && s.refusal.value.observedAtMs * MILLISECOND <= d.receivedAt
          && d.retryAfter == (if s.refusal.value.retryAfterMs.Some? then Some(d.receivedAt + s.refusal.value.retryAfterMs.value * MILLISECOND) else None))
  }

  lemma Assembles(d: Disposition, body: seq<Record>, ending: Ending, admission: SnapshotAdmission, s: State, sha256: Frame -> string)
    requires OwnerIds(OwnerOf(d)) && PlainBody(body)
    requires Run(BindingFor(OwnerOf(d), d.requestOccurrence, sha256), body, Silent(|body|)) == Some(s)
    requires s.next == |body| && s.clientRequests == map[] && d.acquisitionComplete == ending.CleanEnd?
    requires StateFits(d, admission, ending, s) && Reports(d, s)
    ensures SnapshotComplete(d, SnapshotOf(OwnerOf(d), body, ending, admission, d.mechanism, s.execution), sha256)
  {
    hide Run, Replayed, Plain, ReadOff, Body, CutOf, SnapshotStructure, Finish, StateFits, Reports, SnapshotOf;
    var snap := SnapshotOf(OwnerOf(d), body, ending, admission, d.mechanism, s.execution);
    SnapshotHas(OwnerOf(d), body, ending, admission, d.mechanism, s.execution);
    SnapshotReplays(d, snap, body, ending, sha256);
    StructureHolds(d, body, ending, admission, s, sha256);
    FinishHolds(d, snap, body, ending, admission, s);
  }

  lemma SnapshotHas(o: Owner, body: seq<Record>, ending: Ending, admission: SnapshotAdmission, m: MechanismState, execution: Option<Identity>)
    ensures var snap := SnapshotOf(o, body, ending, admission, m, execution);
            && snap.owner == o && !snap.deterministicFixture && snap.records == body + Ends(o, |body|, ending)
            && snap.cut == EndCut(o, |body|, ending) && snap.mechanism == Mechanism(m) && snap.execution == execution && snap.admission == admission
            && |snap.stamps| == |snap.records| <= |body| + 1 && forall i | 0 <= i < |snap.stamps| :: snap.stamps[i] == o
  {
  }

  lemma FinishHolds(d: Disposition, snap: Snapshot, body: seq<Record>, ending: Ending, admission: SnapshotAdmission, s: State)
    requires s.next == |body| && s.clientRequests == map[] && d.acquisitionComplete == ending.CleanEnd?
    requires StateFits(d, admission, ending, s) && Reports(d, s)
    requires snap.cut == EndCut(OwnerOf(d), |body|, ending) && snap.mechanism == Mechanism(d.mechanism) && snap.execution == s.execution
    ensures Finish(d, snap, s, EndCut(OwnerOf(d), |body|, ending))
  {
    hide SemanticClosed;
  }

  lemma StructureHolds(d: Disposition, body: seq<Record>, ending: Ending, admission: SnapshotAdmission, s: State, sha256: Frame -> string)
    requires OwnerIds(OwnerOf(d)) && PlainBody(body)
    requires Run(BindingFor(OwnerOf(d), d.requestOccurrence, sha256), body, Silent(|body|)) == Some(s)
    requires d.acquisitionComplete == ending.CleanEnd? && StateFits(d, admission, ending, s) && Reports(d, s)
    ensures SnapshotStructure(d, SnapshotOf(OwnerOf(d), body, ending, admission, d.mechanism, s.execution))
  {
    hide Run, Replayed, Plain, OneExecution, StepIdentityOf, RefusalIn, ReadOff, Body, CutOf, CutRecord, Ends, SemanticClosed, SnapshotOf;
    var snap := SnapshotOf(OwnerOf(d), body, ending, admission, d.mechanism, s.execution);
    SnapshotHas(OwnerOf(d), body, ending, admission, d.mechanism, s.execution);
    SnapshotReplays(d, snap, body, ending, sha256);
    ReplayedIsReadOff(d, snap, sha256);
    ReadOffFacts(body, s);
    StructureReads(d, snap, sha256);
    CutChangesNothing(snap.records);
  }

  // ---- refused ----

  function RefusedSnapshot(o: Owner, request: string, c: Capture, sha256: Frame -> string): Snapshot {
    SnapshotOf(o, Refused(BindingFor(o, request, sha256), c), CleanEnd, SnapshotAtCapacity, ParkedNotAdmitted, None)
  }

  lemma RefusedBody(b: Binding, c: Capture)
    requires ValidCapture(c)
    ensures var body := Refused(b, c);
            && |body| == 2 && body[0].evidence.RequestStarted? && body[1] == RefusalRecord(b, c)
            && body[1].evidence.AdmissionRefused? && body[1].evidence.observedAtMs == c.observedAt
            && PlainBody(body)
  {
    hide Plain, StartParams, RefusalParams;
    RefusalContents(b, c);
    NotifyIsPlain(c, RequestOf(StartParams(b, b.requestOccurrence, c)), STARTED, 0, StartParams(b, b.requestOccurrence, c));
    NotifyIsPlain(c, RefusalOf(RefusalParams(b, c)), REFUSED, 1, RefusalParams(b, c));
  }

  // A disposition that reports this refusal.
  predicate ReportsRefusal(d: Disposition, c: Capture) {
    && d.acquisitionComplete && !d.responseCreated && d.execution.None? && c.observedAt * MILLISECOND <= d.receivedAt
    && d.retryAfter == (if c.retry.Some? then Some(d.receivedAt + c.retry.value * MILLISECOND) else None)
  }

  // The snapshot of a capacity refusal is accepted, with a clean cut, and permits a park.
  lemma RefusalIsRecordable(d: Disposition, c: Capture, sha256: Frame -> string)
    requires ReportsRefusal(d, c) && d.kind == NotAdmittedModelAtCapacity && d.mechanism == ParkedNotAdmitted
    requires OwnerIds(OwnerOf(d)) && IsId(d.requestOccurrence) && ValidCapture(c)
    ensures SnapshotComplete(d, RefusedSnapshot(OwnerOf(d), d.requestOccurrence, c, sha256), sha256) && PermitsPark(d)
  {
    hide SnapshotComplete, Refused, Run, PlainBody, SnapshotOf;
    var b := BindingFor(OwnerOf(d), d.requestOccurrence, sha256);
    RefusedBody(b, c);
    RefusalRuns(b, c);
    Assembles(d, Refused(b, c), CleanEnd, SnapshotAtCapacity, AfterRefusal(b, c), sha256);
  }

  // The same clean refusal is accepted when it is reported as indeterminate, and then permits no park.
  lemma RefusalMayBeIndeterminate(d: Disposition, c: Capture, sha256: Frame -> string)
    requires ReportsRefusal(d, c) && d.kind == AdmissionIndeterminate && d.mechanism == MechanismIndeterminate
    requires OwnerIds(OwnerOf(d)) && IsId(d.requestOccurrence) && ValidCapture(c)
    ensures var b := BindingFor(OwnerOf(d), d.requestOccurrence, sha256);
            SnapshotComplete(d, SnapshotOf(OwnerOf(d), Refused(b, c), CleanEnd, SnapshotIndeterminate, MechanismIndeterminate, None), sha256)
            && !PermitsPark(d)
  {
    hide SnapshotComplete, Refused, Run, PlainBody, SnapshotOf;
    var b := BindingFor(OwnerOf(d), d.requestOccurrence, sha256);
    RefusedBody(b, c);
    RefusalRuns(b, c);
    Assembles(d, Refused(b, c), CleanEnd, SnapshotIndeterminate, AfterRefusal(b, c), sha256);
  }

  // ---- admitted ----

  function IdentityFor(o: Owner, response: string): Identity { Identity(o.provider, o.model, o.session, o.thread, o.turn, response) }

  function ExecutedSnapshot(o: Owner, request: string, response: string, c: Capture, sha256: Frame -> string): Snapshot {
    SnapshotOf(o, Executed(BindingFor(o, request, sha256), response, c), CleanEnd, SnapshotAdmitted, ProviderCompleted, Some(IdentityFor(o, response)))
  }

  lemma ExecutedBody(b: Binding, response: string, c: Capture)
    requires ValidCapture(c)
    ensures var body := Executed(b, response, c);
            && |body| == 4 && body[0].evidence.RequestStarted? && body[1] == StepRecord(b, response, c)
            && body[1].evidence.ExecutionStep? && body[1].evidence.observedAtMs == c.observedAt
            && body[..2] == Created(b, response, c) && body[..3] == Completed(b, response, c)
            && PlainBody(body) && PlainBody(body[..2]) && PlainBody(body[..3])
  {
    hide Plain, StartParams, StepParams, CompletionParams, TurnParams, StepOf;
    StepEvidence(b, response, c);
    var p, q := StartParams(b, b.requestOccurrence, c), StepParams(b, b.requestOccurrence, response, c);
    NotifyIsPlain(c, RequestOf(p), STARTED, 0, p);
    NotifyIsPlain(c, StepOf(b, AfterRequest(b.requestOccurrence, c), q), CREATED, 1, q);
    NotifyIsPlain(c, ResponseCompleted(response), COMPLETED, 2, CompletionParams(b, Str(response)));
    NotifyIsPlain(c, LocalTurnFact, TURN, 3, TurnParams(b));
  }

  // A disposition that reports an admitted execution.
  predicate ReportsExecution(d: Disposition, response: string) {
    && d.kind == ExecutionAdmitted && d.responseCreated && d.execution == Some(IdentityFor(OwnerOf(d), response)) && d.retryAfter.None?
    && OwnerIds(OwnerOf(d)) && IsId(d.requestOccurrence) && IsId(response)
  }

  // The snapshot of a completed execution is accepted, with a clean cut.
  lemma ExecutionIsRecordable(d: Disposition, response: string, c: Capture, sha256: Frame -> string)
    requires ReportsExecution(d, response) && d.mechanism == ProviderCompleted && d.acquisitionComplete && ValidCapture(c)
    ensures SnapshotComplete(d, ExecutedSnapshot(OwnerOf(d), d.requestOccurrence, response, c, sha256), sha256)
  {
    hide SnapshotComplete, Executed, Run, PlainBody, SnapshotOf;
    var b := BindingFor(OwnerOf(d), d.requestOccurrence, sha256);
    ExecutedBody(b, response, c);
    ExecutionRuns(b, response, c);
    Assembles(d, Executed(b, response, c), CleanEnd, SnapshotAdmitted, AfterTurn(b, response, c), sha256);
  }

  // A run admitted and not yet cut.
  lemma AdmissionIsRecordable(d: Disposition, response: string, c: Capture, sha256: Frame -> string)
    requires ReportsExecution(d, response) && d.mechanism == MechanismAdmitted && !d.acquisitionComplete && ValidCapture(c)
    ensures var b := BindingFor(OwnerOf(d), d.requestOccurrence, sha256);
            SnapshotComplete(d, SnapshotOf(OwnerOf(d), Created(b, response, c), OpenEnd, SnapshotAdmitted, MechanismAdmitted, d.execution), sha256)
  {
    hide SnapshotComplete, Executed, Created, Completed, Run, PlainBody, SnapshotOf;
    var b := BindingFor(OwnerOf(d), d.requestOccurrence, sha256);
    ExecutedBody(b, response, c);
    CreatedRuns(b, response, c);
    Assembles(d, Created(b, response, c), OpenEnd, SnapshotAdmitted, AfterStep(b, response, c), sha256);
  }

  // A run that waits for an approval.
  lemma ApprovalIsRecordable(d: Disposition, response: string, c: Capture, sha256: Frame -> string)
    requires ReportsExecution(d, response) && d.mechanism == MechanismWaitingApproval && !d.acquisitionComplete && ValidCapture(c)
    ensures var b := BindingFor(OwnerOf(d), d.requestOccurrence, sha256);
            var body := Completed(b, response, c) + [ApprovalRecord(b, response, c)];
            SnapshotComplete(d, SnapshotOf(OwnerOf(d), body, OpenEnd, SnapshotAdmitted, MechanismWaitingApproval, d.execution), sha256)
  {
    hide SnapshotComplete, Executed, Created, Completed, Run, Step, SnapshotOf, Plain;
    var b := BindingFor(OwnerOf(d), d.requestOccurrence, sha256);
    var s := AfterCompletion(b, response, c);
    ExecutedBody(b, response, c);
    CompletedRuns(b, response, c);
    ApprovalAccepted(b, response, c);
    RunsOn(b, Completed(b, response, c), ApprovalRecord(b, response, c), s, s.(next := 4, approval := true));
    ApprovalIsPlain(b, response, c);
    Assembles(d, Completed(b, response, c) + [ApprovalRecord(b, response, c)], OpenEnd, SnapshotAdmitted, s.(next := 4, approval := true), sha256);
  }

  lemma ApprovalIsPlain(b: Binding, response: string, c: Capture)
    requires ValidCapture(c)
    ensures Plain(ApprovalRecord(b, response, c))
  {
    assert |APPROVAL| == 31 && KEmittedAtMs !in Call(APPROVAL, ApprovalParams(b)).fields;
  }

  // ---- interrupted ----

  lemma ErrorIsPlain(s: State, c: Capture)
    requires ValidCapture(c)
    ensures Plain(ErrorRecord(s, c))
  {
    assert |ERROR| == 5;
    NotifyIsPlain(c, Discrepancy(CoarseError, s.execution, s.execution.Some?), ERROR, s.next, map[]);
  }

  // An admitted run that fails before it is complete.
  lemma InterruptionIsRecordable(d: Disposition, response: string, c: Capture, sha256: Frame -> string)
    requires ReportsExecution(d, response) && d.mechanism == PostAdmissionInterrupted && !d.acquisitionComplete && ValidCapture(c)
    ensures var b := BindingFor(OwnerOf(d), d.requestOccurrence, sha256);
            var body := Created(b, response, c) + [ErrorRecord(AfterStep(b, response, c), c)];
            SnapshotComplete(d, SnapshotOf(OwnerOf(d), body, DirtyEnd, SnapshotAdmitted, PostAdmissionInterrupted, d.execution), sha256)
  {
    hide SnapshotComplete, Executed, Created, Completed, Run, Step, SnapshotOf, Plain;
    var b := BindingFor(OwnerOf(d), d.requestOccurrence, sha256);
    var s := AfterStep(b, response, c);
    ExecutedBody(b, response, c);
    CreatedRuns(b, response, c);
    ErrorAccepted(b, s, c);
    RunsOn(b, Created(b, response, c), ErrorRecord(s, c), s, Failed(s));
    ErrorIsPlain(s, c);
    Assembles(d, Created(b, response, c) + [ErrorRecord(s, c)], DirtyEnd, SnapshotAdmitted, Failed(s), sha256);
  }

  // A request that fails before any answer.
  lemma IndeterminacyIsRecordable(d: Disposition, c: Capture, sha256: Frame -> string)
    requires d.kind == AdmissionIndeterminate && d.mechanism == MechanismIndeterminate && !d.acquisitionComplete
    requires !d.responseCreated && d.execution.None? && d.retryAfter.None?
    requires OwnerIds(OwnerOf(d)) && IsId(d.requestOccurrence) && ValidCapture(c)
    ensures var b := BindingFor(OwnerOf(d), d.requestOccurrence, sha256);
            var body := Requested(b, d.requestOccurrence, c) + [ErrorRecord(AfterRequest(d.requestOccurrence, c), c)];
            SnapshotComplete(d, SnapshotOf(OwnerOf(d), body, DirtyEnd, SnapshotIndeterminate, MechanismIndeterminate, None), sha256)
  {
    hide SnapshotComplete, Run, Step, SnapshotOf, Plain, RefusalRecord;
    var b := BindingFor(OwnerOf(d), d.requestOccurrence, sha256);
    var s := AfterRequest(d.requestOccurrence, c);
    RefusedBody(b, c);
    RequestRuns(b, d.requestOccurrence, c);
    ErrorAccepted(b, s, c);
    RunsOn(b, Requested(b, d.requestOccurrence, c), ErrorRecord(s, c), s, Failed(s));
    ErrorIsPlain(s, c);
    assert Requested(b, d.requestOccurrence, c)[0] == Refused(b, c)[0];
    Assembles(d, Requested(b, d.requestOccurrence, c) + [ErrorRecord(s, c)], DirtyEnd, SnapshotIndeterminate, Failed(s), sha256);
  }
}
