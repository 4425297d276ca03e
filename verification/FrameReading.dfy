// Unique reading of every ordered frame: notifications, server requests, client requests and client
// responses each have one admissible evidence, and only a provider boundary can have none.
module FrameReading {
  import opened Wire
  import opened Evidence
  import opened Replay
  import opened ReplayInvariant
  import opened UniqueReading
  import Echo

  // `rec` records the retained frame `wire`, next in order, on one of the four wire lanes.
  predicate RecordsFrame(rec: Record, s: State, wire: Frame) {
    && rec.ordinal == Some(s.next) && U53(s.next)
    && rec.lane.Some? && !rec.lane.value.LossLane? && !rec.lane.value.UnknownLane?
    && rec.raw.Some? && rec.raw.value.wire == Some(wire) && wire.Obj?
    && rec.raw.value.representation.WireBytes? && 1 <= rec.raw.value.byteLength <= RawBound(rec)
    && 1 <= |rec.name| <= 512
  }

  // The name that a frame may be recorded under.  A client response carries none of its own.
  predicate NameFits(lane: Lane, name: string, wire: Frame) {
    match lane
    case ClientRequestLane => HasPrefix(name, REQUEST_PREFIX)
    case ClientResponseLane => HasPrefix(name, RESPONSE_PREFIX)
    case _ =>
      var named := FrameMethod(wire);
      if named.None? || |named.value| > 512 then name == "unknown" else name == named.value
  }

  // Why a frame is not the transition it names; None when it is.
  function FrameDetail(b: Binding, s: State, rec: Record, wire: Frame): Option<Detail>
    requires wire.Obj?
  {
    if ClientLane(rec) then ClientDetail(b, s, rec, wire.fields) else StreamDetail(b, s, rec, wire)
  }

  function ClientId(wire: Frame): int { if wire.Obj? && IntAt(wire.fields, KId).Some? then IntAt(wire.fields, KId).value else 0 }

  function ParamsOf(wire: Frame): Frame { if wire.Obj? && KParams in wire.fields then wire.fields[KParams] else Null }

  function ResultOf(wire: Frame): Frame { if wire.Obj? && KResult in wire.fields then wire.fields[KResult] else Null }

  // The transition of a frame without a fault.
  function MoveOfFrame(b: Binding, s: State, lane: Lane, name: string, wire: Frame): Evidence {
    match lane
    case ClientRequestLane =>
      ClientRequestIssued(ClientId(wire), if HasPrefix(name, REQUEST_PREFIX) then name[|REQUEST_PREFIX|..] else "", b.sha256(ParamsOf(wire)))
    case ClientResponseLane =>
      var id := ClientId(wire);
      ClientResponseRetained(id, if HasPrefix(name, RESPONSE_PREFIX) then name[|RESPONSE_PREFIX|..] else "",
                             if id in s.clientRequests then s.clientRequests[id].1 else "", b.sha256(ResultOf(wire)))
    case ServerRequestLane => if s.execution.Some? then WaitingApproval(s.execution.value) else Watermark
    case _ =>
      if BoundaryMethod(Classify(name)) then TransitionOf(b, s, name, Params(wire))
      else if LocalMethod(Classify(name)) then LocalTurnFact
      else Watermark
  }

  // The one reading of a frame.
  function ReadingOfFrame(b: Binding, s: State, rec: Record, wire: Frame): Evidence
    requires wire.Obj? && rec.lane.Some?
  {
    var detail := FrameDetail(b, s, rec, wire);
    if detail.Some? then Discrepancy(detail.value, s.execution, s.execution.Some?)
    else MoveOfFrame(b, s, rec.lane.value, rec.name, wire)
  }

  predicate UnreadableFrame(b: Binding, s: State, rec: Record, wire: Frame) {
    rec.lane == Some(NotificationLane) && BoundaryMethod(Classify(rec.name)) && Unreadable(b, s, rec.name, Params(wire))
  }

  // ---- outstanding client requests are bounded ----

  ghost predicate ClientInv(s: State) { forall id | id in s.clientRequests :: U53(id) && BoundedId(s.clientRequests[id].0) }

  lemma TransitionKeepsClients(b: Binding, s: State, rec: Record)
    requires ClientInv(s) && BoundedEvidence(rec.evidence) && Transition(b, s, rec).Some?
    ensures ClientInv(Transition(b, s, rec).value)
  {
  }

  lemma {:induction false} RunKeepsClients(b: Binding, records: seq<Record>, echo: seq<Option<Detail>>)
    requires |records| == |echo| && Run(b, records, echo).Some?
    ensures ClientInv(Run(b, records, echo).value)
  {
    if records != [] {
      var last := |records| - 1;
      RunKeepsClients(b, records[..last], echo[..last]);
      TransitionKeepsClients(b, Run(b, records[..last], echo[..last]).value, records[last]);
    }
  }

  // ---- acceptance over a frame ----

  // A non-discrepancy record as the raw replay sees it.
  predicate MoveReplay(b: Binding, s: State, rec: Record, wire: Frame)
    requires wire.Obj?
  {
    if rec.evidence.ClientResponseRetained? then ClientResponseReplay(b, rec, wire.fields)
    else if rec.evidence.ClientRequestIssued? then ClientRequestReplay(b, rec, wire.fields)
    else TransitionReplay(b, s, rec, wire)
  }

  lemma AcceptanceOfFrame(b: Binding, s: State, rec: Record, wire: Frame)
    requires RecordsFrame(rec, s, wire)
    ensures Step(b, s, rec, None).Some? <==>
            && BoundedEvidence(rec.evidence) && (Closed(s) ==> rec.evidence.Discrepancy? || ClientLane(rec))
            && (if rec.evidence.Discrepancy?
                then FrameDetail(b, s, rec, wire).Some? && DiscrepancyReplay(s, rec.evidence, FrameDetail(b, s, rec, wire))
                else MoveReplay(b, s, rec, wire) && KindLane(rec, rec.lane.value) && Transition(b, s, rec).Some?)
  {
    hide StreamDetail, ClientDetail, TransitionReplay, ClientRequestReplay, ClientResponseReplay, BoundedEvidence, ApplyRequest, ApplyStep,
      ApplyRefusal, Classify, RawBound;
  }

  // ---- discrepancies ----

  lemma ClientVocabulary(b: Binding, s: State, request: string, wire: Fields)
    ensures InVocabulary(ClientRequestDetail(b, s, request, wire)) && InVocabulary(ClientResponseDetail(b, s, request, wire))
  {
    hide ClientRequestDetail, ClientResponseDetail, InVocabulary;
    ClientRequestVocabulary(b, s, request, wire);
    ClientResponseVocabulary(b, s, request, wire);
  }

  lemma ClientRequestVocabulary(b: Binding, s: State, request: string, wire: Fields)
    ensures InVocabulary(ClientRequestDetail(b, s, request, wire))
  {
    hide StrAt, IntAt, ClassifyRequest, RequestShape, RequestParams, BindsThread, ObjAt;
  }

  lemma ClientResponseVocabulary(b: Binding, s: State, request: string, wire: Fields)
    ensures InVocabulary(ClientResponseDetail(b, s, request, wire))
  {
    hide StrAt, IntAt, ClassifyRequest, AnswersThread, ObjAt;
  }

  lemma StreamVocabulary(b: Binding, s: State, rec: Record, wire: Frame)
    ensures InVocabulary(StreamDetail(b, s, rec, wire))
  {
    hide RequestDetail, StepDetail, RefusalDetail, CompletionDetail, LocalDetail, Classify, FrameMethod, ServerRequestLike, ThreadMatches,
      TurnMatches;
    RequestVocabulary(b, s, Params(wire));
    AnswerVocabulary(b, s, Params(wire));
    OtherVocabulary(b, s, rec.name, Params(wire));
  }

  lemma FrameVocabulary(b: Binding, s: State, rec: Record, wire: Frame)
    requires wire.Obj?
    ensures InVocabulary(FrameDetail(b, s, rec, wire))
  {
    hide StreamDetail, ClientRequestDetail, ClientResponseDetail, InVocabulary;
    StreamVocabulary(b, s, rec, wire);
    NoneInVocabulary();
    if HasPrefix(rec.name, REQUEST_PREFIX) { ClientVocabulary(b, s, rec.name[|REQUEST_PREFIX|..], wire.fields); }
    if HasPrefix(rec.name, RESPONSE_PREFIX) { ClientVocabulary(b, s, rec.name[|RESPONSE_PREFIX|..], wire.fields); }
  }

  lemma NoneInVocabulary()
    ensures InVocabulary(None)
  {
  }

  lemma DiscrepancyReading(b: Binding, s: State, rec: Record, wire: Frame)
    requires Inv(s) && wire.Obj? && rec.evidence.Discrepancy? && FrameDetail(b, s, rec, wire).Some?
    ensures BoundedEvidence(rec.evidence) && DiscrepancyReplay(s, rec.evidence, FrameDetail(b, s, rec, wire))
       <==> rec.evidence == Discrepancy(FrameDetail(b, s, rec, wire).value, s.execution, s.execution.Some?)
  {
    hide FrameDetail;
    FrameVocabulary(b, s, rec, wire);
  }

  // ---- moves, lane by lane ----

  // What acceptance asks of a record that is not a discrepancy.
  predicate MoveAdmits(b: Binding, s: State, rec: Record, wire: Frame)
    requires wire.Obj? && rec.lane.Some?
  {
    BoundedEvidence(rec.evidence) && (Closed(s) ==> ClientLane(rec))
    && MoveReplay(b, s, rec, wire) && KindLane(rec, rec.lane.value) && Transition(b, s, rec).Some?
  }

  predicate MoveReads(b: Binding, s: State, rec: Record, wire: Frame)
    requires wire.Obj? && rec.lane.Some?
  {
    NameFits(rec.lane.value, rec.name, wire) && FrameDetail(b, s, rec, wire).None?
    && rec.evidence == MoveOfFrame(b, s, rec.lane.value, rec.name, wire)
  }

  lemma KnownRequestIsBounded(request: string)
    requires !ClassifyRequest(request).OtherRequest?
    ensures BoundedId(request)
  {
  }

  lemma ClientRequestMoves(b: Binding, s: State, rec: Record, wire: Frame)
    requires RecordsFrame(rec, s, wire) && rec.lane == Some(ClientRequestLane) && !rec.evidence.Discrepancy?
    ensures MoveAdmits(b, s, rec, wire) <==> MoveReads(b, s, rec, wire)
  {
    hide Classify, ClassifyRequest, TransitionReplay, StreamDetail, RawBound;
    if HasPrefix(rec.name, REQUEST_PREFIX) {
      var request := rec.name[|REQUEST_PREFIX|..];
      assert rec.name == REQUEST_PREFIX + request;
      if !ClassifyRequest(request).OtherRequest? { KnownRequestIsBounded(request); }
      if rec.evidence.ClientRequestIssued? && rec.name == REQUEST_PREFIX + rec.evidence.requestMethod {
        assert rec.evidence.requestMethod == request;
      }
    }
  }

  lemma ClientResponseMoves(b: Binding, s: State, rec: Record, wire: Frame)
    requires RecordsFrame(rec, s, wire) && rec.lane == Some(ClientResponseLane) && !rec.evidence.Discrepancy? && ClientInv(s)
    ensures MoveAdmits(b, s, rec, wire) <==> MoveReads(b, s, rec, wire)
  {
    hide Classify, ClassifyRequest, TransitionReplay, StreamDetail, RawBound;
    if HasPrefix(rec.name, RESPONSE_PREFIX) {
      var request := rec.name[|RESPONSE_PREFIX|..];
      assert rec.name == RESPONSE_PREFIX + request;
      if rec.evidence.ClientResponseRetained? && rec.name == RESPONSE_PREFIX + rec.evidence.requestMethod {
        assert rec.evidence.requestMethod == request;
      }
    }
  }

  lemma ServerRequestMoves(b: Binding, s: State, rec: Record, wire: Frame)
    requires RecordsFrame(rec, s, wire) && rec.lane == Some(ServerRequestLane) && !rec.evidence.Discrepancy? && Inv(s)
    ensures MoveAdmits(b, s, rec, wire) <==> MoveReads(b, s, rec, wire)
  {
    hide RequestReplay, StepReplay, RefusalReplay, CompletionReplay, NotificationDetail, RawBound, ClientDetail, Classify, FrameMethod, ThreadMatches,
      TurnMatches;
    UnknownIsOther(rec.name);
  }

  lemma UnknownIsOther(name: string)
    ensures name == "unknown" ==> Classify(name).OtherMethod?
  {
  }

  lemma NotificationMoves(b: Binding, s: State, rec: Record, wire: Frame)
    requires RecordsFrame(rec, s, wire) && rec.lane == Some(NotificationLane) && !rec.evidence.Discrepancy? && Inv(s)
    requires !BoundaryMethod(Classify(rec.name))
    ensures MoveAdmits(b, s, rec, wire) <==> MoveReads(b, s, rec, wire)
  {
    hide RequestReplay, StepReplay, RefusalReplay, CompletionReplay, RequestDetail, StepDetail, RefusalDetail, CompletionDetail, RawBound,
      ClientDetail, Classify, FrameMethod, LocalThreadMatches, LocalTurnMatches, ApplyRequest, ApplyStep, ApplyRefusal;
    UnknownIsOther(rec.name);
  }

  lemma BoundaryBound(rec: Record)
    requires rec.lane == Some(NotificationLane) && BoundaryMethod(Classify(rec.name))
    ensures RawBound(rec) == MAXIMUM_EVIDENCE_BYTES
  {
  }

  // ---- one reading ----

  lemma BoundaryFrame(b: Binding, s: State, rec: Record, wire: Frame)
    requires BindingIds(b) && Inv(s) && RecordsFrame(rec, s, wire) && rec.lane == Some(NotificationLane) && BoundaryMethod(Classify(rec.name))
    ensures Step(b, s, rec, None).Some? <==>
            NameFits(NotificationLane, rec.name, wire) && !UnreadableFrame(b, s, rec, wire) && rec.evidence == ReadingOfFrame(b, s, rec, wire)
  {
    hide Step, StreamDetail, Classify, Unreadable, Inv, RawBound, TransitionOf, Fault;
    BoundaryNames(rec.name);
    if NameFits(NotificationLane, rec.name, wire) {
      BoundaryBound(rec);
      AdmissibleIffReading(b, s, rec, rec.raw.value, wire, rec.name);
      DetailOverFrame(b, s, rec, rec.raw.value, wire);
    } else {
      MisnamedIsRefused(b, s, rec, wire);
    }
  }

  lemma MisnamedIsRefused(b: Binding, s: State, rec: Record, wire: Frame)
    requires RecordsFrame(rec, s, wire) && rec.lane == Some(NotificationLane) && !NameFits(NotificationLane, rec.name, wire)
    ensures Step(b, s, rec, None).None?
  {
    hide Step, FrameDetail, Classify, Transition, BoundedEvidence, RequestReplay, StepReplay, RefusalReplay, CompletionReplay, ClientRequestReplay,
      ClientResponseReplay, DiscrepancyReplay, FrameMethod;
    AcceptanceOfFrame(b, s, rec, wire);
    DetailFits(b, s, rec, wire);
  }

  // A frame with a fault is readable.
  lemma BrokenIsReadable(b: Binding, s: State, rec: Record, wire: Frame)
    requires RecordsFrame(rec, s, wire) && FrameDetail(b, s, rec, wire).Some?
    ensures !UnreadableFrame(b, s, rec, wire)
  {
    hide StreamDetail, ClientDetail, Unreadable, Classify, Fault, RawBound;
    if rec.lane == Some(NotificationLane) && BoundaryMethod(Classify(rec.name)) {
      BoundaryNames(rec.name);
      BoundaryBound(rec);
      DetailFits(b, s, rec, wire);
      DetailOverFrame(b, s, rec, rec.raw.value, wire);
      FaultIsReadable(b, s, rec.name, Params(wire));
    }
  }

  // In every state that keeps the invariants, the evidence of an ordered frame is its one reading.
  lemma FrameHasOneReading(b: Binding, s: State, rec: Record, wire: Frame)
    requires BindingIds(b) && Inv(s) && ClientInv(s) && RecordsFrame(rec, s, wire)
    ensures Step(b, s, rec, None).Some? <==>
            && NameFits(rec.lane.value, rec.name, wire) && !UnreadableFrame(b, s, rec, wire)
            && rec.evidence == ReadingOfFrame(b, s, rec, wire)
  {
    hide Step, FrameDetail, MoveReplay, KindLane, Transition, BoundedEvidence, Inv, Classify, DiscrepancyReplay, MoveOfFrame, NameFits, Unreadable;
    if rec.lane == Some(NotificationLane) && BoundaryMethod(Classify(rec.name)) {
      BoundaryFrame(b, s, rec, wire);
    } else {
      AcceptanceOfFrame(b, s, rec, wire);
      DetailFits(b, s, rec, wire);
      if rec.evidence.Discrepancy? {
        if FrameDetail(b, s, rec, wire).Some? { DiscrepancyReading(b, s, rec, wire); } else { MoveIsNoDiscrepancy(b, s, rec, wire); }
      } else {
        match rec.lane.value
        case ClientRequestLane => ClientRequestMoves(b, s, rec, wire);
        case ClientResponseLane => ClientResponseMoves(b, s, rec, wire);
        case ServerRequestLane => ServerRequestMoves(b, s, rec, wire);
        case NotificationLane => NotificationMoves(b, s, rec, wire);
      }
    }
  }

  lemma MoveIsNoDiscrepancy(b: Binding, s: State, rec: Record, wire: Frame)
    requires rec.lane.Some?
    ensures !MoveOfFrame(b, s, rec.lane.value, rec.name, wire).Discrepancy?
  {
    hide Classify;
  }

  // A frame with a fault was recorded under a name that fits.
  lemma DetailFits(b: Binding, s: State, rec: Record, wire: Frame)
    requires RecordsFrame(rec, s, wire)
    ensures FrameDetail(b, s, rec, wire).Some? ==> NameFits(rec.lane.value, rec.name, wire)
  {
    hide NotificationDetail, ServerRequestDetail, Classify, ClientRequestDetail, ClientResponseDetail;
  }

  // After every accepted prefix, a next-in-order frame has at most one admissible evidence, and
  // exactly one unless it is an unreadable provider boundary.
  lemma EveryFrameHasOneReading(b: Binding, records: seq<Record>, echo: seq<Option<Detail>>, rec: Record, wire: Frame)
    requires BindingIds(b) && |records| == |echo| && Run(b, records, echo).Some? && RecordsFrame(rec, Run(b, records, echo).value, wire)
    ensures var s := Run(b, records, echo).value;
            Step(b, s, rec, None).Some? <==>
              && NameFits(rec.lane.value, rec.name, wire) && !UnreadableFrame(b, s, rec, wire)
              && rec.evidence == ReadingOfFrame(b, s, rec, wire)
  {
    hide Step, Run, NameFits, UnreadableFrame, ReadingOfFrame, RecordsFrame;
    RunKeeps(b, records, echo);
    RunKeepsClients(b, records, echo);
    assert rec.lane.Some? && wire.Obj? by { FrameShape(rec, Run(b, records, echo).value, wire); }
    FrameHasOneReading(b, Run(b, records, echo).value, rec, wire);
  }

  lemma FrameShape(rec: Record, s: State, wire: Frame)
    requires RecordsFrame(rec, s, wire)
    ensures rec.lane.Some? && wire.Obj?
  {
  }
}
