// What an accepted snapshot says, stated on its records and cut alone.
module SnapshotLaw {
  import opened Wire
  import opened Evidence
  import opened Replay
  import opened ReplayInvariant
  import opened ReplayTrace
  import opened ReplayHistory
  import opened Reasons
  import opened ReasonLaw
  import opened Admission

  // Nothing of the provider's turn is left open: it was refused, or its last response was completed and
  // its turn ended without a waiting approval.
  ghost predicate TurnClosed(body: seq<Record>) {
    var t := Moves(body);
    !AnyDiscrepancy(body) && (LastRefused(t) || (AnyStepped(t) && !LastStepped(t) && AnyTurnEnd(body) && !AnyApproval(body)))
  }

  // When a cut may call itself clean.
  ghost predicate CutIsClean(cut: Cut, body: seq<Record>) {
    && cut.streamQuiesced && (cut.process == Exited || cut.process == ExitedAfterTerminate || cut.process == ExitedAfterKill)
    && cut.lossGeneration == 0 && cut.orderedHighWater == HighWater(body) && OpenIds(body) == {}
    && TurnClosed(body)
  }

  ghost predicate CutAgrees(d: Disposition, cut: Option<Cut>, body: seq<Record>) {
    if cut.Some? then
      && cut.value.adapterProcess == d.adapterProcess && cut.value.session == d.session
      && cut.value.consumedOrdinals == HighWater(body) && cut.value.outstandingClientRequests == |OpenIds(body)|
      && cut.value.clean == d.acquisitionComplete && (cut.value.clean <==> CutIsClean(cut.value, body))
    else OpenIds(body) == {} && !d.acquisitionComplete && AnyStepped(Moves(body))
  }

  // The mechanism state that records and cut allow.
  ghost predicate MechanismFits(m: MechanismState, cut: Option<Cut>, body: seq<Record>) {
    var t, clean := Moves(body), cut.Some? && cut.value.clean;
    match m
    case ParkedNotAdmitted => clean && LastRefused(t)
    case ProviderCompleted => clean && AnyStepped(t)
    case PostAdmissionInterrupted => cut.Some? && !clean && AnyStepped(t)
    case MechanismWaitingApproval => cut.None? && AnyApproval(body)
    case MechanismAdmitted => cut.None? && AnyStepped(t)
    case MechanismIndeterminate => cut.Some? && !AnyStepped(t)
  }

  // The retry time is the one that the refusal asked for, counted from its receipt.
  predicate RetryAgrees(d: Disposition, refusal: Option<Refusal>) {
    if refusal.None? then d.retryAfter.None?
    else
      && refusal.value.occurrence == d.requestOccurrence
      && refusal.value.observedAtMs * MILLISECOND <= d.receivedAt
      && (if refusal.value.retryAfterMs.None? then d.retryAfter.None?
          else d.retryAfter == Some(d.receivedAt + refusal.value.retryAfterMs.value * MILLISECOND))
  }

  ghost predicate KindFits(d: Disposition, snap: Snapshot, body: seq<Record>) {
    match d.kind
    case ExecutionAdmitted => snap.admission == SnapshotAdmitted && AnyStepped(Moves(body))
    case NotAdmittedModelAtCapacity => snap.admission == SnapshotAtCapacity && LastRefused(Moves(body))
    case AdmissionIndeterminate => snap.admission == SnapshotIndeterminate
    case _ => false
  }

  ghost predicate SnapshotAgrees(d: Disposition, snap: Snapshot) {
    var body, cut := Body(snap.records), CutOf(snap.records);
    && 1 <= |snap.records| <= 4096
    && snap.owner == OwnerOf(d) && |snap.stamps| == |snap.records| && (forall i | 0 <= i < |snap.stamps| :: snap.stamps[i] == OwnerOf(d))
    && snap.cut == cut && CutAgrees(d, cut, body)
    && snap.mechanism == Mechanism(d.mechanism) && MechanismFits(d.mechanism, cut, body)
    && d.execution == StepIdentityOf(body) && snap.execution == StepIdentityOf(body) && (d.responseCreated <==> StepIdentityOf(body).Some?)
    && RetryAgrees(d, RefusalIn(body))
    && KindFits(d, snap, body)
  }

  // ---- the replayed state, read off the body ----

  ghost predicate ReadOff(body: seq<Record>, s: State) { Known(body, s) && s.next == HighWater(body) && |s.clientRequests| == |OpenIds(body)| }

  lemma ReplayedIsReadOff(d: Disposition, snap: Snapshot, sha256: Frame -> string)
    requires Replayed(d, snap, sha256).Some?
    ensures ReadOff(Body(snap.records), Replayed(d, snap, sha256).value)
  {
    hide Run, Known, HighWater, OpenIds;
    var b, body := BindingOf(d, snap, sha256), Body(snap.records);
    var echo := Verdicts(d, snap).value[..|body|];
    assert Replayed(d, snap, sha256) == Run(b, body, echo);
    RunIsKnown(b, body, echo);
    RunHighWater(b, body, echo);
    KnownClients(body, Run(b, body, echo).value);
  }

  lemma KnownClients(body: seq<Record>, s: State)
    requires Known(body, s)
    ensures |s.clientRequests| == |OpenIds(body)|
  {
    OpenIdsAre(body, s);
  }

  // The facts about a read-off state that the laws use.
  lemma ReadOffFacts(body: seq<Record>, s: State)
    requires ReadOff(body, s)
    ensures var t := Moves(body);
            && (s.refusal.Some? <==> LastRefused(t)) && (s.openResponse.Some? <==> LastStepped(t)) && (s.execution.Some? <==> AnyStepped(t))
            && (s.refusal.Some? ==> s.execution.None?)
            && (s.discrepancy <==> AnyDiscrepancy(body)) && (s.approval <==> AnyApproval(body)) && (s.turnCompleted <==> AnyTurnEnd(body))
            && s.execution == StepIdentityOf(body) && s.refusal == RefusalIn(body)
            && (s.approval ==> s.execution.Some?)
            && (|s.clientRequests| == 0 <==> OpenIds(body) == {})
  {
    hide Linked, AnyStepped, Answered, Finished, StepIdentityOf, RefusalIn, OpenIds, AnyDiscrepancy, AnyApproval, AnyTurnEnd;
  }

  lemma CleanReads(body: seq<Record>, s: State, cut: Cut)
    requires ReadOff(body, s) && cut.outstandingClientRequests == |s.clientRequests|
    ensures CleanLaw(cut, s) <==> CutIsClean(cut, body)
  {
    hide ReadOff, HighWater, OpenIds, AnyStepped, AnyDiscrepancy, AnyApproval, AnyTurnEnd, LastRefused, LastStepped, StepIdentityOf, RefusalIn;
    ReadOffFacts(body, s);
    assert s.next == HighWater(body) by { NextReads(body, s); }
  }

  lemma NextReads(body: seq<Record>, s: State)
    requires ReadOff(body, s)
    ensures s.next == HighWater(body) && |s.clientRequests| == |OpenIds(body)|
  {
  }

  lemma CutReads(d: Disposition, snap: Snapshot, body: seq<Record>, s: State, cut: Option<Cut>)
    requires ReadOff(body, s)
    ensures CutFinish(d, snap, s, cut) && MechanismFinish(d, s, cut)
       <==> snap.cut == cut && CutAgrees(d, cut, body) && MechanismFits(d.mechanism, cut, body)
  {
    hide ReadOff, HighWater, OpenIds, AnyStepped, AnyDiscrepancy, AnyApproval, AnyTurnEnd, LastRefused, LastStepped, StepIdentityOf, RefusalIn, CleanLaw,
      CutIsClean;
    ReadOffFacts(body, s);
    NextReads(body, s);
    if cut.Some? && cut.value.outstandingClientRequests == |s.clientRequests| { CleanReads(body, s, cut.value); }
  }

  lemma RetryReads(d: Disposition, s: State)
    ensures RefusalFinish(d, s) <==> RetryAgrees(d, s.refusal)
  {
  }

  // ---- the steps agree ----

  lemma {:induction false} StepsAgree(b: Binding, records: seq<Record>, echo: seq<Option<Detail>>, i: nat)
    requires |records| == |echo| && Run(b, records, echo).Some? && i < |records| && records[i].evidence.ExecutionStep?
    ensures StepIdentityOf(records) == Some(records[i].evidence.execution)
  {
    hide Run, FlagsReflect, ClientsReflect;
    RunKeepsIdentity(b, records, echo, i + 1);
    RunReflects(b, records[..i + 1], echo[..i + 1]);
    RunReflects(b, records, echo);
    assert records[..i + 1][i] == records[i];
  }

  lemma CutChangesNothing(records: seq<Record>)
    ensures StepIdentityOf(records) == StepIdentityOf(Body(records)) && RefusalIn(records) == RefusalIn(Body(records))
  {
  }

  lemma StructureReads(d: Disposition, snap: Snapshot, sha256: Frame -> string)
    requires Replayed(d, snap, sha256).Some?
    ensures OneExecution(snap.records)
  {
    hide Run;
    var b, body := BindingOf(d, snap, sha256), Body(snap.records);
    var echo := Verdicts(d, snap).value[..|body|];
    CutChangesNothing(snap.records);
    forall i | 0 <= i < |snap.records| && snap.records[i].evidence.ExecutionStep?
      ensures StepIdentityOf(snap.records) == Some(snap.records[i].evidence.execution) {
      assert body[i] == snap.records[i];
      StepsAgree(b, body, echo, i);
    }
  }

  // ---- main result ----

  // A snapshot whose records replay is accepted if and only if it agrees with what its records and its
  // cut say: identities, cut, mechanism state, execution, retry time and kind.
  lemma AcceptedIffAgrees(d: Disposition, snap: Snapshot, sha256: Frame -> string)
    requires Replayed(d, snap, sha256).Some?
    ensures SnapshotComplete(d, snap, sha256) <==> SnapshotAgrees(d, snap)
  {
    hide Replayed, ReadOff, HighWater, OpenIds, AnyStepped, LastRefused, StepIdentityOf, RefusalIn, CutFinish, MechanismFinish, RefusalFinish, CutAgrees,
      MechanismFits, OneExecution, Body, CutOf;
    var s, body, cut := Replayed(d, snap, sha256).value, Body(snap.records), CutOf(snap.records);
    ReplayedIsReadOff(d, snap, sha256);
    ReadOffFacts(body, s);
    CutReads(d, snap, body, s, cut);
    RetryReads(d, s);
    StructureReads(d, snap, sha256);
    CutChangesNothing(snap.records);
    if CutAgrees(d, cut, body) { CleanAgrees(d, cut, body); }
  }

  lemma CleanAgrees(d: Disposition, cut: Option<Cut>, body: seq<Record>)
    requires CutAgrees(d, cut, body)
    ensures (cut.Some? && cut.value.clean) == d.acquisitionComplete
  {
  }
}
