// With the echo replay beside it, a frame can have two admissible records: exactly when it is open to
// both replays and both refuse it.
module TwoReadings {
  import opened Wire
  import opened Evidence
  import opened Replay
  import opened ReplayInvariant
  import opened UniqueReading
  import opened FrameReading
  import Echo

  // The record of the same frame with other evidence.
  function With(rec: Record, e: Evidence): Record { rec.(evidence := e) }

  predicate AdmissibleAs(b: Binding, s: State, scope: Echo.Scope, p: Echo.Progress, rec: Record, e: Evidence) {
    Admissible(b, s, scope, p, With(rec, e))
  }

  function Failure(s: State, d: Detail): Evidence { Discrepancy(d, s.execution, s.execution.Some?) }

  // The failure that the echo replay derives for the frame when it takes part.
  function EchoFailure(scope: Echo.Scope, p: Echo.Progress, rec: Record, wire: Frame): Option<Detail> {
    Echo.Consume(scope, p, With(rec, Discrepancy(ItemShape, None, false)), wire).1
  }

  // The frame may be recorded as an echo failure.
  predicate EchoRefuses(s: State, scope: Echo.Scope, p: Echo.Progress, rec: Record, wire: Frame) {
    && !Closed(s) && EchoFailure(scope, p, rec, wire).Some?
    && Echo.FailureWire(scope, rec, wire) && Echo.SelectorAdmits(scope, p, With(rec, Discrepancy(ItemShape, None, false)), wire)
  }

  // ---- what the echo replay makes of each kind of evidence ----

  lemma FailuresAreKnown(scope: Echo.Scope, p: Echo.Progress, rec: Record, wire: Frame)
    ensures Echo.Consume(scope, p, rec, wire).1.Some? ==> Echo.KnownError(Echo.Consume(scope, p, rec, wire).1.value)
  {
    hide Echo.UserEcho, Echo.AgentOutput, Echo.NotificationWire, Echo.LooseCompletion, Echo.NormalizeInput, Echo.InputRecord, Echo.ItemClass,
      Echo.TextBytes, Echo.Participates;
  }

  // Records of known failures all take part alike.
  lemma KnownFailuresAlike(scope: Echo.Scope, p: Echo.Progress, rec: Record, wire: Frame, e: Evidence)
    requires e.Discrepancy? && Echo.KnownError(e.detail)
    ensures Echo.Consume(scope, p, With(rec, e), wire).1 == EchoFailure(scope, p, rec, wire)
    ensures Echo.SelectorAdmits(scope, p, With(rec, e), wire) == Echo.SelectorAdmits(scope, p, With(rec, Discrepancy(ItemShape, None, false)), wire)
    ensures Echo.FailureWire(scope, With(rec, e), wire) == Echo.FailureWire(scope, rec, wire)
  {
    hide Echo.UserEcho, Echo.AgentOutput, Echo.NotificationWire, Echo.LooseCompletion, Echo.NormalizeInput, Echo.ItemClass, Echo.Advance,
      Echo.Selected, Echo.KeysAre;
  }

  // Other discrepancies take no part.
  lemma OtherFailuresAbstain(scope: Echo.Scope, p: Echo.Progress, rec: Record, wire: Frame, e: Evidence)
    requires e.Discrepancy? && !Echo.KnownError(e.detail)
    ensures Echo.Consume(scope, p, With(rec, e), wire) == (p, None)
  {
    hide Echo.UserEcho, Echo.AgentOutput, Echo.NotificationWire, Echo.LooseCompletion, Echo.NormalizeInput, Echo.ItemClass, Echo.Advance,
      Echo.Selected;
  }

  // A transition takes part like a known failure, on the frames that can be recorded as one.
  lemma MovesTakePart(scope: Echo.Scope, p: Echo.Progress, rec: Record, wire: Frame, e: Evidence)
    requires !e.Discrepancy? && Echo.FailureWire(scope, rec, wire)
    requires rec.lane == Some(ClientRequestLane) ==> e.ClientRequestIssued?
    ensures Echo.Consume(scope, p, With(rec, e), wire).1 == EchoFailure(scope, p, rec, wire)
  {
    hide Echo.UserEcho, Echo.AgentOutput, Echo.NotificationWire, Echo.LooseCompletion, Echo.NormalizeInput, Echo.ItemClass, Echo.Advance,
      Echo.Selected, Echo.KeysAre;
  }

  // ---- the two kinds of reading ----

  // The raw replay takes a derived echo failure as it is, before the provider side is closed.
  lemma FailureAccepted(b: Binding, s: State, rec: Record, wire: Frame, d: Detail)
    requires Inv(s) && RecordsFrame(rec, s, wire) && Echo.KnownError(d)
    requires rec.lane == Some(ClientRequestLane) || rec.lane == Some(NotificationLane)
    ensures Step(b, s, rec, Some(d)).Some? <==> !Closed(s) && rec.evidence == Failure(s, d)
  {
    hide StreamDetail, ClientDetail, TransitionReplay, ClientRequestReplay, ClientResponseReplay, RawBound, Classify, ApplyRequest, ApplyStep,
      ApplyRefusal, BoundedEvidence, Inv;
    FailureIsBounded(s, d);
  }

  lemma FailureIsBounded(s: State, d: Detail)
    requires Inv(s) && Echo.KnownError(d)
    ensures BoundedEvidence(Failure(s, d)) && d != Free("")
  {
  }

  lemma EchoReadingIff(b: Binding, s: State, scope: Echo.Scope, p: Echo.Progress, rec: Record, wire: Frame, e: Evidence)
    requires Inv(s) && RecordsFrame(rec, s, wire) && e.Discrepancy? && Echo.KnownError(e.detail)
    ensures AdmissibleAs(b, s, scope, p, rec, e)
       <==> EchoRefuses(s, scope, p, rec, wire) && e == Failure(s, EchoFailure(scope, p, rec, wire).value)
  {
    hide Step, Inv, Echo.Consume, Echo.SelectorAdmits, Echo.FailureWire, Echo.KnownError, EchoFailure, Closed, RawBound;
    KnownFailuresAlike(scope, p, rec, wire, e);
    DetailIgnoresEvidence(b, s, rec, wire, e);
    var d := EchoFailure(scope, p, rec, wire);
    if d.Some? && Echo.FailureWire(scope, rec, wire) {
      FailureLane(scope, rec, wire);
      FailuresAreKnown(scope, p, With(rec, e), wire);
      FailureAccepted(b, s, With(rec, e), wire, d.value);
    }
  }

  lemma FailureLane(scope: Echo.Scope, rec: Record, wire: Frame)
    requires Echo.FailureWire(scope, rec, wire)
    ensures rec.lane == Some(ClientRequestLane) || rec.lane == Some(NotificationLane)
  {
  }

  lemma DetailIgnoresEvidence(b: Binding, s: State, rec: Record, wire: Frame, e: Evidence)
    requires RecordsFrame(rec, s, wire)
    ensures RecordsFrame(With(rec, e), s, wire) && FrameDetail(b, s, With(rec, e), wire) == FrameDetail(b, s, rec, wire)
  {
    hide NotificationDetail, Classify, ClientRequestDetail, ClientResponseDetail, FrameMethod, ThreadMatches, TurnMatches;
  }

  // Evidence other than a known echo failure is admissible only as the raw reading.
  lemma RawReadingOnly(b: Binding, s: State, scope: Echo.Scope, p: Echo.Progress, rec: Record, wire: Frame, e: Evidence)
    requires BindingIds(b) && Inv(s) && ClientInv(s) && RecordsFrame(rec, s, wire) && AdmissibleAs(b, s, scope, p, rec, e)
    requires !(e.Discrepancy? && Echo.KnownError(e.detail))
    ensures e == ReadingOfFrame(b, s, rec, wire) && Step(b, s, With(rec, e), None).Some?
    ensures Echo.Consume(scope, p, With(rec, e), wire).1.None?
  {
    hide Step, Inv, ClientInv, Echo.Consume, Echo.SelectorAdmits, Echo.FailureWire, FrameDetail, MoveOfFrame, NameFits, UnreadableFrame, RawBound;
    DetailIgnoresEvidence(b, s, rec, wire, e);
    FrameHasOneReading(b, s, With(rec, e), wire);
  }

  // A raw discrepancy of a frame that can be recorded as an echo failure is admissible.
  lemma RawDiscrepancyAdmits(b: Binding, s: State, scope: Echo.Scope, p: Echo.Progress, rec: Record, wire: Frame)
    requires BindingIds(b) && Inv(s) && ClientInv(s) && RecordsFrame(rec, s, wire)
    requires EchoRefuses(s, scope, p, rec, wire) && FrameDetail(b, s, rec, wire).Some?
    ensures AdmissibleAs(b, s, scope, p, rec, ReadingOfFrame(b, s, rec, wire))
    ensures !Echo.KnownError(ReadingOfFrame(b, s, rec, wire).detail)
  {
    hide Step, Inv, ClientInv, Echo.Consume, Echo.FailureWire, Echo.KnownError, FrameDetail, NameFits, UnreadableFrame, RawBound, EchoFailure;
    var e := ReadingOfFrame(b, s, rec, wire);
    FrameVocabulary(b, s, rec, wire);
    DetailIgnoresEvidence(b, s, rec, wire, e);
    DetailFits(b, s, rec, wire);
    FaultIsReadableFrame(b, s, rec, wire);
    FrameHasOneReading(b, s, With(rec, e), wire);
    OtherFailuresAbstain(scope, p, rec, wire, e);
    SelectorSurvives(scope, p, rec, wire, e);
  }

  lemma SelectorSurvives(scope: Echo.Scope, p: Echo.Progress, rec: Record, wire: Frame, e: Evidence)
    requires Echo.FailureWire(scope, rec, wire) && Echo.SelectorAdmits(scope, p, With(rec, Discrepancy(ItemShape, None, false)), wire)
    ensures Echo.SelectorAdmits(scope, p, With(rec, e), wire)
  {
    hide Echo.UserEcho, Echo.AgentOutput, Echo.NotificationWire, Echo.KeysAre, Echo.ItemClass;
  }

  lemma FaultIsReadableFrame(b: Binding, s: State, rec: Record, wire: Frame)
    requires RecordsFrame(rec, s, wire) && FrameDetail(b, s, rec, wire).Some?
    ensures !UnreadableFrame(b, s, rec, wire) && !UnreadableFrame(b, s, With(rec, ReadingOfFrame(b, s, rec, wire)), wire)
  {
    hide FrameDetail, Unreadable, Classify, RawBound;
    BrokenIsReadable(b, s, rec, wire);
  }

  lemma MoveBlocked(b: Binding, s: State, scope: Echo.Scope, p: Echo.Progress, rec: Record, wire: Frame)
    requires RecordsFrame(rec, s, wire) && EchoRefuses(s, scope, p, rec, wire) && FrameDetail(b, s, rec, wire).None?
    ensures Echo.Consume(scope, p, With(rec, ReadingOfFrame(b, s, rec, wire)), wire).1.Some?
  {
    hide FrameDetail, Echo.Consume, Echo.SelectorAdmits, Echo.FailureWire, Classify, RawBound, TransitionOf;
    var e := ReadingOfFrame(b, s, rec, wire);
    FailureLane(scope, rec, wire);
    MoveIsNoDiscrepancy(b, s, rec, wire);
    MovesTakePart(scope, p, rec, wire, e);
  }

  // ---- main result ----

  // Every admissible evidence of a frame is its raw reading or the echo's failure; the frame has two
  // if and only if both replays refuse it while the provider side is open.
  lemma TwoReadingsIff(b: Binding, s: State, scope: Echo.Scope, p: Echo.Progress, rec: Record, wire: Frame)
    requires BindingIds(b) && Inv(s) && ClientInv(s) && RecordsFrame(rec, s, wire)
    ensures forall e | AdmissibleAs(b, s, scope, p, rec, e) ::
              || e == ReadingOfFrame(b, s, rec, wire)
              || (EchoRefuses(s, scope, p, rec, wire) && e == Failure(s, EchoFailure(scope, p, rec, wire).value))
    ensures (exists e, f :: e != f && AdmissibleAs(b, s, scope, p, rec, e) && AdmissibleAs(b, s, scope, p, rec, f))
       <==> EchoRefuses(s, scope, p, rec, wire) && FrameDetail(b, s, rec, wire).Some?
  {
    hide AdmissibleAs, Inv, ClientInv, EchoFailure, FrameDetail, RecordsFrame, Echo.Consume, ReadingOfFrame, Echo.KnownError, Echo.FailureWire,
      Echo.SelectorAdmits, Closed;
    FrameShape(rec, s, wire);
    forall e | AdmissibleAs(b, s, scope, p, rec, e)
      ensures e == ReadingOfFrame(b, s, rec, wire)
              || (EchoRefuses(s, scope, p, rec, wire) && e == Failure(s, EchoFailure(scope, p, rec, wire).value)) {
      if e.Discrepancy? && Echo.KnownError(e.detail) {
        EchoReadingIff(b, s, scope, p, rec, wire, e);
      } else {
        RawReadingOnly(b, s, scope, p, rec, wire, e);
      }
    }
    if EchoRefuses(s, scope, p, rec, wire) && FrameDetail(b, s, rec, wire).Some? {
      BothAdmit(b, s, scope, p, rec, wire);
    }
    if e, f :| e != f && AdmissibleAs(b, s, scope, p, rec, e) && AdmissibleAs(b, s, scope, p, rec, f) {
      ClashMeansBoth(b, s, scope, p, rec, wire, e, f);
    }
  }

  lemma BothAdmit(b: Binding, s: State, scope: Echo.Scope, p: Echo.Progress, rec: Record, wire: Frame)
    requires BindingIds(b) && Inv(s) && ClientInv(s) && RecordsFrame(rec, s, wire)
    requires EchoRefuses(s, scope, p, rec, wire) && FrameDetail(b, s, rec, wire).Some?
    ensures AdmissibleAs(b, s, scope, p, rec, ReadingOfFrame(b, s, rec, wire))
    ensures AdmissibleAs(b, s, scope, p, rec, Failure(s, EchoFailure(scope, p, rec, wire).value))
    ensures ReadingOfFrame(b, s, rec, wire) != Failure(s, EchoFailure(scope, p, rec, wire).value)
  {
    hide AdmissibleAs, Inv, ClientInv, FrameDetail, RecordsFrame, Echo.Consume, Echo.KnownError, Echo.FailureWire, Echo.SelectorAdmits;
    RawDiscrepancyAdmits(b, s, scope, p, rec, wire);
    FailuresAreKnown(scope, p, With(rec, Discrepancy(ItemShape, None, false)), wire);
    EchoReadingIff(b, s, scope, p, rec, wire, Failure(s, EchoFailure(scope, p, rec, wire).value));
  }

  lemma ClashMeansBoth(b: Binding, s: State, scope: Echo.Scope, p: Echo.Progress, rec: Record, wire: Frame, e: Evidence, f: Evidence)
    requires BindingIds(b) && Inv(s) && ClientInv(s) && RecordsFrame(rec, s, wire)
    requires e != f && AdmissibleAs(b, s, scope, p, rec, e) && AdmissibleAs(b, s, scope, p, rec, f)
    ensures EchoRefuses(s, scope, p, rec, wire) && FrameDetail(b, s, rec, wire).Some?
  {
    hide AdmissibleAs, Inv, ClientInv, EchoRefuses, EchoFailure, FrameDetail, RecordsFrame, Echo.Consume, ReadingOfFrame, Echo.KnownError;
    FrameShape(rec, s, wire);
    if e.Discrepancy? && Echo.KnownError(e.detail) {
      EchoReadingIff(b, s, scope, p, rec, wire, e);
      if f.Discrepancy? && Echo.KnownError(f.detail) { EchoReadingIff(b, s, scope, p, rec, wire, f); } else { RawReadingOnly(b, s, scope, p, rec, wire, f); }
    } else {
      RawReadingOnly(b, s, scope, p, rec, wire, e);
      if f.Discrepancy? && Echo.KnownError(f.detail) { EchoReadingIff(b, s, scope, p, rec, wire, f); } else { RawReadingOnly(b, s, scope, p, rec, wire, f); }
    }
    if FrameDetail(b, s, rec, wire).None? { MoveBlocked(b, s, scope, p, rec, wire); }
  }

  // ---- such a frame, in a reachable state ----

  const INITIALIZE := "initialize"
  const TURN_START := "turn/start"

  function ClientRecord(request: string, ordinal: int, wire: Frame, e: Evidence): Record {
    Record(e, REQUEST_PREFIX + request, Some(ordinal), Some(ClientRequestLane), Some(Raw(WireBytes, 1, Some(wire))))
  }

  function InitializeWire(): Frame { Obj(map[KId := Int(0), KMethod := Str(INITIALIZE)]) }

  function Initialize(b: Binding): Record {
    ClientRecord(INITIALIZE, 0, InitializeWire(), ClientRequestIssued(0, INITIALIZE, b.sha256(Null)))
  }

  function AfterInitialize(b: Binding): State { INIT.(next := 1, clientRequests := map[0 := (INITIALIZE, b.sha256(Null))]) }

  // A turn/start that reuses the id of an outstanding request and has no input.
  function TurnStartWire(b: Binding): Frame {
    Obj(map[KId := Int(0), KMethod := Str(TURN_START), KParams := Obj(map[KThreadId := Str(b.thread)])])
  }

  function TurnStart(b: Binding): Record { ClientRecord(TURN_START, 1, TurnStartWire(b), Watermark) }

  lemma PrefixedName(request: string)
    ensures HasPrefix(REQUEST_PREFIX + request, REQUEST_PREFIX) && (REQUEST_PREFIX + request)[|REQUEST_PREFIX|..] == request
  {
  }

  lemma InitializeFaultless(b: Binding)
    ensures ClientRequestDetail(b, INIT, INITIALIZE, InitializeWire().fields).None?
  {
    assert InitializeWire().fields.Keys == {KId, KMethod};
  }

  lemma InitializeAccepted(b: Binding)
    requires BindingIds(b)
    ensures Step(b, INIT, Initialize(b), None) == Some(AfterInitialize(b))
  {
    hide ClientRequestDetail, StreamDetail, ClientResponseDetail, Classify, RawReplay;
    PrefixedName(INITIALIZE);
    InitializeFaultless(b);
    FrameHasOneReading(b, INIT, Initialize(b), InitializeWire());
    assert INIT.clientRequests[0 := (INITIALIZE, b.sha256(Null))] == map[0 := (INITIALIZE, b.sha256(Null))];
  }

  lemma TurnStartFault(b: Binding)
    ensures ClientRequestDetail(b, AfterInitialize(b), TURN_START, TurnStartWire(b).fields) == Some(DuplicateClientRequest)
  {
    assert TurnStartWire(b).fields.Keys == {KId, KMethod, KParams};
  }

  lemma TurnStartRefused(b: Binding, scope: Echo.Scope)
    requires scope.thread == b.thread
    ensures EchoFailure(scope, Echo.START, TurnStart(b), TurnStartWire(b)) == Some(InputShape)
    ensures EchoRefuses(AfterInitialize(b), scope, Echo.START, TurnStart(b), TurnStartWire(b))
  {
    assert REQUEST_PREFIX + TURN_START == "client-request/turn/start";
    assert TurnStartWire(b).fields.Keys == {KId, KMethod, KParams};
    assert Echo.At(Echo.At(TurnStartWire(b), KParams), KInput).Null?;
  }

  // After one accepted request, a client request that reuses its id and carries no input is
  // admissible both as a duplicate request and as an echo input failure.
  lemma TwoReadingsOccur(b: Binding, scope: Echo.Scope)
    requires BindingIds(b) && scope == Echo.Scope(b.thread, b.turn)
    ensures Run(b, [Initialize(b)], [None]) == Some(AfterInitialize(b))
    ensures Echo.EchoRun(scope, [Initialize(b)]) == Some((Echo.START, [None]))
    ensures var s := AfterInitialize(b);
            && AdmissibleAs(b, s, scope, Echo.START, TurnStart(b), Failure(s, DuplicateClientRequest))
            && AdmissibleAs(b, s, scope, Echo.START, TurnStart(b), Failure(s, InputShape))
  {
    hide Step, Echo.EchoStep, ClientRequestDetail, AdmissibleAs, EchoRefuses, EchoFailure, Classify, StreamDetail;
    var s := AfterInitialize(b);
    InitializeAccepted(b);
    InitializeEchoes(b, scope);
    OneRecordEchoes(scope, Initialize(b));
    PrefixedName(TURN_START);
    TurnStartFault(b);
    TurnStartRefused(b, scope);
    BothAdmit(b, s, scope, Echo.START, TurnStart(b), TurnStartWire(b));
  }

  lemma OneRecordEchoes(scope: Echo.Scope, rec: Record)
    requires Echo.EchoStep(scope, Echo.START, rec) == Some((Echo.START, None))
    ensures Echo.EchoRun(scope, [rec]) == Some((Echo.START, [None]))
  {
    hide Echo.EchoStep;
    assert [rec][..0] == [];
    var before: seq<Option<Detail>> := [];
    assert Echo.EchoRun(scope, []) == Some((Echo.START, before));
    assert before + [None] == [None];
  }

  lemma InitializeEchoes(b: Binding, scope: Echo.Scope)
    ensures Echo.EchoStep(scope, Echo.START, Initialize(b)) == Some((Echo.START, None))
  {
    assert REQUEST_PREFIX + INITIALIZE == "client-request/initialize";
    assert |"client-request/initialize"| == 25 && "client-request/initialize"[15] == 'i' && "client-request/turn/start"[15] == 't';
  }
}
