// Provider admission dispositions and mapper snapshots: the records, and what the replay of a
// snapshot must show before a disposition may rest on it.
module Admission {
  import opened Wire
  import opened Evidence
  import opened Replay
  import opened ReplayInvariant
  import opened ReplayHistory
  import Echo

  // Nanoseconds in a millisecond; all times are in nanoseconds unless named otherwise.
  const MILLISECOND: int := 1_000_000

  datatype DispositionKind =
    | NotAdmittedModelAtCapacity | NotAdmittedProviderUnavailable | NotAdmittedRateLimited
    | AuthenticationRefused | QuotaExhaustedFuelOwned | AdmissionIndeterminate | ExecutionAdmitted

  datatype MechanismState =
    | ParkedNotAdmitted | MechanismIndeterminate | MechanismAdmitted | PostAdmissionInterrupted
    | MechanismWaitingApproval | ProviderCompleted

  datatype SnapshotState = Dispatching | Running | Mechanism(state: MechanismState)

  datatype SnapshotAdmission = Unresolved | SnapshotAdmitted | SnapshotAtCapacity | SnapshotIndeterminate

  // The identities that a snapshot's binding and each of its records repeat.
  datatype Owner = Owner(
    attempt: string, dispatchOccurrence: string, adapterProcess: string, session: string, thread: string, turn: string,
    provider: string, model: string)

  // `stamps` are the identities on the records, in order.
  datatype Snapshot = Snapshot(
    owner: Owner, stamps: seq<Owner>, records: seq<Record>, cut: Option<Cut>, admission: SnapshotAdmission, mechanism: SnapshotState,
    execution: Option<Identity>, deterministicFixture: bool)

  datatype QualificationOutcome = RateLimited | ProviderUnavailable | AuthRefused | TransportError | ProtocolError

  // Evidence of the deterministic qualification producer, first version: it never carries an execution.
  datatype QualificationV1 = QualificationV1(
    attempt: string, dispatchOccurrence: string, requestOccurrence: string, provider: string, model: string,
    outcome: QualificationOutcome, responseCreated: bool, nonAdmissionProven: bool, retryAfter: Option<int>,
    observedAt: int, receivedAt: int)

  datatype QualificationV2 = QualificationV2(
    attempt: string, dispatchOccurrence: string, requestOccurrence: string, provider: string, model: string,
    completed: bool, responseCreated: bool, nonAdmissionProven: bool, retryAfter: Option<int>,
    observedAt: int, receivedAt: int, execution: Option<Identity>)

  datatype OwnerEvidence = Switchyard(snapshot: Snapshot) | FirstWatch(v1: QualificationV1) | SecondWatch(v2: QualificationV2)

  // Requirement, policy, packet and run to which every record of an attempt is bound.
  datatype Scope = Scope(requirementDigest: string, policyDigest: string, packetDigest: string, runId: string)

  datatype Disposition = Disposition(
    digest: string, dispatchDigest: string, scope: Scope, workItem: string, attempt: string, dispatchOccurrence: string,
    provider: string, model: string, requestOccurrence: string, adapterProcess: string, session: string, thread: string, turn: string,
    kind: DispositionKind, mechanism: MechanismState, receivedAt: int, responseCreated: bool, willRetry: bool,
    acquisitionComplete: bool, retryAfter: Option<int>, execution: Option<Identity>, evidence: OwnerEvidence,
    approvalResponseSent: bool, protectedEffectAbsent: bool)

  // ---- structure of a mapper snapshot ----

  function CutOf(records: seq<Record>): Option<Cut> {
    if records != [] && records[|records| - 1].evidence.AcquisitionCut? then Some(records[|records| - 1].evidence.cut) else None
  }

  // The records before the terminal cut.
  function Body(records: seq<Record>): seq<Record> {
    if CutOf(records).Some? then records[..|records| - 1] else records
  }

  predicate CutShape(rec: Record) {
    WellFormed(rec) && rec.evidence.AcquisitionCut? && rec.ordinal.None? && rec.lane.None? && rec.raw.None?
    && rec.name == "adapter/acquisition-cut"
  }

  function LastRefusal(records: seq<Record>): Option<string> {
    var refusal := RefusalIn(records);
    if refusal.Some? then Some(refusal.value.occurrence) else None
  }

  predicate OneExecution(records: seq<Record>) {
    forall i | 0 <= i < |records| && records[i].evidence.ExecutionStep? :: StepIdentityOf(records) == Some(records[i].evidence.execution)
  }

  function OwnerOf(d: Disposition): Owner {
    Owner(d.attempt, d.dispatchOccurrence, d.adapterProcess, d.session, d.thread, d.turn, d.provider, d.model)
  }

  // Neither the binding nor any record substitutes an identity of the disposition.
  predicate OwnerAgrees(d: Disposition, snap: Snapshot) {
    snap.owner == OwnerOf(d) && |snap.stamps| == |snap.records| && forall i | 0 <= i < |snap.stamps| :: snap.stamps[i] == OwnerOf(d)
  }

  // The part of validate_switchyard_snapshot that looks at records and disposition together.
  predicate SnapshotStructure(d: Disposition, snap: Snapshot) {
    && 1 <= |snap.records| <= 4096
    && OwnerAgrees(d, snap)
    && OneExecution(snap.records)
    && (snap.cut.Some? && snap.cut.value.clean) == d.acquisitionComplete
    && match d.kind
       case ExecutionAdmitted => snap.admission.SnapshotAdmitted? && StepIdentityOf(snap.records) == d.execution && snap.execution.Some?
       case NotAdmittedModelAtCapacity =>
         snap.admission.SnapshotAtCapacity? && LastRefusal(snap.records) == Some(d.requestOccurrence)
         && StepIdentityOf(snap.records).None? && snap.execution.None?
       case AdmissionIndeterminate => snap.admission.SnapshotIndeterminate?
       case _ => false
  }

  // ---- what the end of the replay must show ----

  predicate SemanticClosed(s: State) {
    (s.refusal.Some? && !s.discrepancy)
    || (s.execution.Some? && s.openResponse.None? && s.turnCompleted && !s.approval && !s.discrepancy)
  }

  predicate ProcessClosed(p: ProcessState) { p.Exited? || p.ExitedAfterTerminate? || p.ExitedAfterKill? }

  predicate CleanLaw(cut: Cut, s: State) {
    cut.streamQuiesced && ProcessClosed(cut.process) && cut.lossGeneration == 0 && cut.orderedHighWater == s.next
    && cut.outstandingClientRequests == 0 && SemanticClosed(s)
  }

  predicate CutFinish(d: Disposition, snap: Snapshot, s: State, cut: Option<Cut>) {
    snap.cut == cut &&
    if cut.Some? then
      && cut.value.adapterProcess == d.adapterProcess && cut.value.session == d.session
      && cut.value.consumedOrdinals == s.next
      && cut.value.outstandingClientRequests == |s.clientRequests|
      && cut.value.clean == CleanLaw(cut.value, s) == d.acquisitionComplete
    else
      && |s.clientRequests| == 0 && !d.acquisitionComplete
      && (d.mechanism.MechanismAdmitted? || d.mechanism.MechanismWaitingApproval?)
      && s.execution.Some? && s.refusal.None?
  }

  predicate MechanismFinish(d: Disposition, s: State, cut: Option<Cut>) {
    var clean := cut.Some? && CleanLaw(cut.value, s);
    match d.mechanism
    case ParkedNotAdmitted => s.refusal.Some? && clean && s.execution.None?
    case ProviderCompleted => s.execution.Some? && clean
    case PostAdmissionInterrupted => s.execution.Some? && !clean
    case MechanismWaitingApproval => s.approval && cut.None?
    case MechanismIndeterminate => s.execution.None?
    case MechanismAdmitted => s.execution.Some? && cut.None?
  }

  predicate RefusalFinish(d: Disposition, s: State) {
    if s.refusal.None? then d.retryAfter.None?
    else
      var r := s.refusal.value;
      && r.occurrence == d.requestOccurrence
      && r.observedAtMs <= d.receivedAt / MILLISECOND
      && d.retryAfter == if r.retryAfterMs.Some? then Some(d.receivedAt + r.retryAfterMs.value * MILLISECOND) else None
  }

  predicate Finish(d: Disposition, snap: Snapshot, s: State, cut: Option<Cut>) {
    && CutFinish(d, snap, s, cut)
    && snap.mechanism == Mechanism(d.mechanism)
    && snap.execution == s.execution == d.execution && d.responseCreated == d.execution.Some?
    && MechanismFinish(d, s, cut)
    && RefusalFinish(d, s)
  }

  function BindingOf(d: Disposition, snap: Snapshot, sha256: Frame -> string): Binding {
    Binding(d.provider, d.model, d.session, d.thread, d.turn, snap.deterministicFixture, d.requestOccurrence, sha256)
  }

  function Verdicts(d: Disposition, snap: Snapshot): (v: Option<seq<Option<Detail>>>)
    ensures v.Some? ==> |v.value| == |snap.records|
  {
    Echo.EchoVerdicts(Echo.Scope(d.thread, d.turn), snap.records, false)
  }

  // State after all records; None when a record is refused or the cut is not terminal.
  function RunAll(b: Binding, records: seq<Record>, echo: seq<Option<Detail>>): Option<State>
    requires |records| == |echo|
  {
    if CutOf(records).Some? && !CutShape(records[|records| - 1]) then None
    else Run(b, Body(records), echo[..|Body(records)|])
  }

  function Replayed(d: Disposition, snap: Snapshot, sha256: Frame -> string): Option<State> {
    var v := Verdicts(d, snap);
    if v.None? then None else RunAll(BindingOf(d, snap, sha256), snap.records, v.value)
  }

  predicate SnapshotComplete(d: Disposition, snap: Snapshot, sha256: Frame -> string) {
    && SnapshotStructure(d, snap)
    && Replayed(d, snap, sha256).Some?
    && Finish(d, snap, Replayed(d, snap, sha256).value, CutOf(snap.records))
  }

  // ---- the replay loop ----

  lemma CutHasNoStep(b: Binding, s: State, rec: Record, echo: Option<Detail>)
    requires rec.evidence.AcquisitionCut?
    ensures Step(b, s, rec, echo).None?
  {
  }

  lemma PrefixRejects(b: Binding, records: seq<Record>, echo: seq<Option<Detail>>, k: nat)
    requires k <= |records| == |echo| && Run(b, records[..k], echo[..k]).None?
    ensures Run(b, records, echo).None?
  {
    if Run(b, records, echo).Some? {
      RunFreezes(b, records, echo, k);
    }
  }

  lemma PrefixOfBody(records: seq<Record>, echo: seq<Option<Detail>>, k: nat)
    requires k <= |Body(records)| && |records| == |echo|
    ensures Body(records)[..k] == records[..k] && echo[..|Body(records)|][..k] == echo[..k]
  {
  }

  lemma RunStep(b: Binding, records: seq<Record>, echo: seq<Option<Detail>>, k: nat, s: State)
    requires k < |records| == |echo| && Run(b, records[..k], echo[..k]) == Some(s)
    ensures Run(b, records[..k + 1], echo[..k + 1]) == Step(b, s, records[k], echo[k])
  {
    assert records[..k + 1][..k] == records[..k] && echo[..k + 1][..k] == echo[..k];
  }

  lemma RejectedAt(b: Binding, records: seq<Record>, echo: seq<Option<Detail>>, k: nat, s: State)
    requires |records| == |echo| && k < |Body(records)|
    requires Run(b, records[..k], echo[..k]) == Some(s) && Step(b, s, records[k], echo[k]).None?
    ensures RunAll(b, records, echo).None?
  {
    RunStep(b, records, echo, k, s);
    PrefixOfBody(records, echo, k + 1);
    PrefixRejects(b, Body(records), echo[..|Body(records)|], k + 1);
  }

  // The record loop of validate_switchyard_snapshot_complete.
  method ReplayRecords(b: Binding, records: seq<Record>, echo: seq<Option<Detail>>) returns (end: Option<State>, cut: Option<Cut>)
    requires |records| == |echo|
    ensures end == RunAll(b, records, echo)
    ensures end.Some? ==> cut == CutOf(records)
  {
    var s := INIT;
    cut := None;
    for index := 0 to |records|
      invariant cut.None? ==> index <= |Body(records)| && Run(b, records[..index], echo[..index]) == Some(s)
      invariant cut.Some? ==> index == |records| && cut == CutOf(records) && RunAll(b, records, echo) == Some(s)
    {
      var rec := records[index];
      if rec.evidence.AcquisitionCut? {
        if index + 1 != |records| {
          CutHasNoStep(b, s, rec, echo[index]);
          RejectedAt(b, records, echo, index, s);
          return None, cut;
        } else if !CutShape(rec) {
          return None, cut;
        }
        assert Body(records) == records[..index];
        cut := Some(rec.evidence.cut);
      } else {
        var next := Step(b, s, rec, echo[index]);
        if next.None? {
          RejectedAt(b, records, echo, index, s);
          return None, cut;
        }
        RunStep(b, records, echo, index, s);
        s := next.value;
      }
    }
    assert records[..|records|] == records && echo[..|records|] == echo;
    end := Some(s);
  }

  // validate_switchyard_snapshot_complete
  method ValidateSnapshotComplete(d: Disposition, snap: Snapshot, sha256: Frame -> string) returns (ok: bool)
    ensures ok == SnapshotComplete(d, snap, sha256)
  {
    var verdicts := Verdicts(d, snap);
    if verdicts.None? || !SnapshotStructure(d, snap) { return false; }
    var end, cut := ReplayRecords(BindingOf(d, snap, sha256), snap.records, verdicts.value);
    ok := end.Some? && Finish(d, snap, end.value, cut);
  }
}
