// The two halves of the replay agree: in every reachable state, a next-in-order notification for
// a provider boundary has exactly one admissible record, or a described kind of none at all.
module UniqueReading {
  import opened Wire
  import opened Evidence
  import opened Replay
  import opened ReplayInvariant
  import Echo

  // A disposition's identities satisfy the owner alphabet before its snapshot is replayed.
  predicate BindingIds(b: Binding) {
    IsId(b.provider) && IsId(b.model) && IsId(b.session) && IsId(b.thread) && IsId(b.turn)
  }

  function Text(p: Fields, key: Key): string { if StrAt(p, key).Some? then StrAt(p, key).value else "" }
  function Number(p: Fields, key: Key): int { if IntAt(p, key).Some? then IntAt(p, key).value else 0 }

  // ---- the transition a frame makes when it is valid ----

  function RequestOf(p: Fields): Evidence {
    RequestStarted(Text(p, KRequestOccurrenceId), Number(p, KSamplingOrdinal), Number(p, KRequestOrder), Number(p, KStartedAtMs))
  }

  function StepOf(b: Binding, s: State, p: Fields): Evidence {
    ExecutionStep(
      StepExecution(b, s, Text(p, KResponseId)),
      StepIdentity(b.provider, b.model, b.thread, b.turn, Text(p, KRequestOccurrenceId),
                   Number(p, KSamplingOrdinal), Number(p, KRequestOrder), Text(p, KResponseId)),
      s.execution.None?, Number(p, KObservedAtMs))
  }

  function RefusalOf(p: Fields): Evidence {
    AdmissionRefused(Text(p, KRequestOccurrenceId), Number(p, KSamplingOrdinal), Number(p, KRequestOrder),
                     IntAt(p, KRetryAfterMs), Text(p, KDiagnostic), Number(p, KObservedAtMs))
  }

  function TransitionOf(b: Binding, s: State, name: string, p: Fields): Evidence {
    match Classify(name)
    case ProviderRequestStarted => RequestOf(p)
    case RawResponseStarted => StepOf(b, s, p)
    case ProviderAdmissionRefused => RefusalOf(p)
    case _ => ResponseCompleted(Text(p, KResponseId))
  }

  // Why a boundary notification is not the transition it names.
  function Fault(b: Binding, s: State, name: string, p: Fields): Option<Detail> {
    if s.discrepancy then Some(if s.execution.Some? then FollowedInterruption else FollowedIndeterminate)
    else if s.turnCompleted && s.execution.Some? then Some(FollowedCompletedTurn)
    else if s.approval then Some(FollowedApproval)
    else NotificationDetail(b, s, name, p)
  }

  // The one reading of a boundary notification.
  function Reading(b: Binding, s: State, name: string, p: Fields): Evidence {
    var fault := Fault(b, s, name, p);
    if fault.Some? then Discrepancy(fault.value, s.execution, s.execution.Some?) else TransitionOf(b, s, name, p)
  }

  // The first response of an attempt, otherwise in order, has an id outside the owner alphabet or
  // answers a request other than the one the disposition names.
  predicate UnreadableStep(b: Binding, s: State, p: Fields) {
    s.execution.None? && StepDetail(b, s, p).None?
    && (!IsId(Text(p, KResponseId)) || s.pending.value.occurrence != b.requestOccurrence)
  }

  // A completion in order of identity and shape, with no open response and a response id that is
  // not a string.
  predicate UnreadableCompletion(b: Binding, s: State, p: Fields) {
    s.execution.Some? && p.Keys == COMPLETION_FIELDS && ThreadMatches(b, p) && TurnMatches(b, p)
    && s.openResponse.None? && StrAt(p, KResponseId).None?
  }

  predicate Unreadable(b: Binding, s: State, name: string, p: Fields) {
    !Closed(s) && !s.approval
    && ((Classify(name).RawResponseStarted? && UnreadableStep(b, s, p))
        || (Classify(name).RawResponseCompleted? && UnreadableCompletion(b, s, p)))
  }

  // ---- method by method: the transition is admissible exactly when no fault is derived ----

  lemma RequestReading(b: Binding, s: State, p: Fields, e: Evidence)
    requires e.RequestStarted? && !s.approval
    ensures RequestReplay(b, p, e) && BoundedEvidence(e) && ApplyRequest(s, e).Some?
       <==> RequestDetail(b, s, p).None? && e == RequestOf(p)
  {
  }

  lemma StepAdmitted(b: Binding, s: State, p: Fields, e: Evidence)
    requires e.ExecutionStep? && Inv(s)
    requires StepReplay(b, s, p, e) && BoundedEvidence(e) && ApplyStep(b, s, e).Some?
    ensures StepDetail(b, s, p).None? && !UnreadableStep(b, s, p) && e == StepOf(b, s, p)
  {
  }

  lemma StepAdmissible(b: Binding, s: State, p: Fields)
    requires Inv(s) && BindingIds(b) && !s.approval
    requires StepDetail(b, s, p).None? && !UnreadableStep(b, s, p)
    ensures var e := StepOf(b, s, p); StepReplay(b, s, p, e) && BoundedEvidence(e) && ApplyStep(b, s, e).Some?
  {
  }

  lemma RefusalReading(b: Binding, s: State, p: Fields, e: Evidence)
    requires e.AdmissionRefused? && Inv(s)
    ensures RefusalReplay(b, p, e) && BoundedEvidence(e) && ApplyRefusal(s, e).Some?
       <==> RefusalDetail(b, s, p).None? && e == RefusalOf(p)
  {
  }

  lemma CompletionReading(b: Binding, s: State, rec: Record, p: Fields)
    requires rec.evidence.ResponseCompleted? && Inv(s)
    ensures CompletionReplay(b, p, rec.evidence) && BoundedEvidence(rec.evidence) && Transition(b, s, rec).Some?
       <==> CompletionDetail(b, s, p).None? && !UnreadableCompletion(b, s, p)
            && rec.evidence == ResponseCompleted(Text(p, KResponseId))
  {
  }

  // ---- records over one frame ----

  // `rec` records the retained notification `raw`, whose decoded frame is `wire`, next in order.
  predicate Records(rec: Record, s: State, raw: Raw, wire: Frame) {
    && rec.ordinal == Some(s.next) && rec.lane == Some(NotificationLane) && rec.raw == Some(raw)
    && raw.wire == Some(wire) && wire.Obj? && raw.representation.WireBytes? && 1 <= raw.byteLength <= MAXIMUM_EVIDENCE_BYTES
    && U53(s.next)
  }

  lemma BoundaryNames(name: string)
    requires BoundaryMethod(Classify(name))
    ensures 1 <= |name| <= 512
    ensures Echo.ItemClass(name).OtherItem? && name != "client-request/turn/start" && name != "unknown"
  {
  }

  lemma QuietName(scope: Echo.Scope, progress: Echo.Progress, rec: Record, wire: Frame)
    requires Echo.ItemClass(rec.name).OtherItem? && rec.name != "client-request/turn/start"
    ensures Echo.Consume(scope, progress, rec, wire) == (progress, None)
  {
    hide Echo.NotificationWire;
  }

  // The bounded-echo replay never derives a failure for a provider boundary frame, whatever name the
  // record gives it ...
  lemma EchoIsSilent(scope: Echo.Scope, progress: Echo.Progress, rec: Record, wire: Frame, name: string)
    requires rec.lane == Some(NotificationLane) && rec.raw.Some? && rec.raw.value.wire == Some(wire)
    requires FrameMethod(wire) == Some(name) && BoundaryMethod(Classify(name))
    requires Echo.EchoStep(scope, progress, rec).Some?
    ensures Echo.EchoStep(scope, progress, rec).value.1.None?
  {
    hide Echo.Consume, Echo.NotificationWire, Classify;
    BoundaryNames(name);
    if Echo.EchoStep(scope, progress, rec).value.1.Some? {
      assert Echo.FailureWire(scope, rec, wire);
      assert rec.name == name;
      QuietName(scope, progress, rec, wire);
    }
  }

  // ... and accepts every record named after its frame that does not claim an echo failure.
  lemma EchoPassesBoundary(scope: Echo.Scope, progress: Echo.Progress, rec: Record)
    requires rec.lane == Some(NotificationLane) && BoundaryMethod(Classify(rec.name)) && Echo.RetainedError(rec).None?
    requires rec.raw.Some? && rec.raw.value.wire.Some? && rec.raw.value.byteLength <= MAXIMUM_EVIDENCE_BYTES
    ensures Echo.EchoStep(scope, progress, rec) == Some((progress, None))
  {
    hide Classify, Echo.NotificationWire;
    BoundaryNames(rec.name);
  }

  lemma NameOverFrame(b: Binding, s: State, rec: Record, raw: Raw, wire: Frame, name: string)
    requires Records(rec, s, raw, wire) && FrameMethod(wire) == Some(name) && BoundaryMethod(Classify(name))
    requires Step(b, s, rec, None).Some?
    ensures rec.name == name
  {
    hide Transition, BoundedEvidence, NotificationDetail, StepReplay, RequestReplay, RefusalReplay, CompletionReplay;
    BoundaryNames(name);
  }

  // What acceptance of such a record amounts to.
  lemma AcceptanceOverFrame(b: Binding, s: State, rec: Record, raw: Raw, wire: Frame, name: string)
    requires Records(rec, s, raw, wire) && FrameMethod(wire) == Some(name) && BoundaryMethod(Classify(name))
    ensures Step(b, s, rec, None).Some? <==>
            && rec.name == name && BoundedEvidence(rec.evidence) && (Closed(s) ==> rec.evidence.Discrepancy?)
            && (if rec.evidence.Discrepancy? then
                  StreamDetail(b, s, rec, wire).Some? && DiscrepancyReplay(s, rec.evidence, StreamDetail(b, s, rec, wire))
                else TransitionReplay(b, s, rec, wire) && KindLane(rec, NotificationLane) && Transition(b, s, rec).Some?)
  {
    hide StreamDetail, TransitionReplay, BoundedEvidence, ApplyRequest, ApplyStep, ApplyRefusal, Classify;
    BoundaryNames(name);
    if Step(b, s, rec, None).Some? { NameOverFrame(b, s, rec, raw, wire, name); }
  }

  lemma DetailOverFrame(b: Binding, s: State, rec: Record, raw: Raw, wire: Frame)
    requires Records(rec, s, raw, wire) && FrameMethod(wire) == Some(rec.name) && BoundaryMethod(Classify(rec.name))
    ensures StreamDetail(b, s, rec, wire) == Fault(b, s, rec.name, Params(wire))
  {
    BoundaryNames(rec.name);
  }

  // A record that is not a discrepancy is the transition of the frame's own method.
  lemma TransitionOverFrame(b: Binding, s: State, rec: Record, wire: Frame)
    requires Inv(s) && BindingIds(b) && !Closed(s) && !rec.evidence.Discrepancy? && BoundedEvidence(rec.evidence)
    requires FrameMethod(wire) == Some(rec.name) && BoundaryMethod(Classify(rec.name))
    requires TransitionReplay(b, s, rec, wire) && KindLane(rec, NotificationLane) && Transition(b, s, rec).Some?
    ensures !s.approval && NotificationDetail(b, s, rec.name, Params(wire)).None?
    ensures !Unreadable(b, s, rec.name, Params(wire)) && rec.evidence == TransitionOf(b, s, rec.name, Params(wire))
  {
    var p := Params(wire);
    if rec.evidence.RequestStarted? {
      RequestReading(b, s, p, rec.evidence);
    } else if rec.evidence.ExecutionStep? {
      StepAdmitted(b, s, p, rec.evidence);
    } else if rec.evidence.AdmissionRefused? {
      RefusalReading(b, s, p, rec.evidence);
    } else if rec.evidence.ResponseCompleted? {
      CompletionReading(b, s, rec, p);
    }
  }

  lemma TransitionExists(b: Binding, s: State, rec: Record, wire: Frame)
    requires Inv(s) && BindingIds(b) && !Closed(s) && !s.approval
    requires FrameMethod(wire) == Some(rec.name) && BoundaryMethod(Classify(rec.name))
    requires NotificationDetail(b, s, rec.name, Params(wire)).None? && !Unreadable(b, s, rec.name, Params(wire))
    requires rec.evidence == TransitionOf(b, s, rec.name, Params(wire))
    ensures TransitionReplay(b, s, rec, wire) && KindLane(rec, NotificationLane) && Transition(b, s, rec).Some? && BoundedEvidence(rec.evidence)
  {
    var p := Params(wire);
    match Classify(rec.name)
    case ProviderRequestStarted => RequestReading(b, s, p, rec.evidence);
    case RawResponseStarted => StepAdmissible(b, s, p);
    case ProviderAdmissionRefused => RefusalReading(b, s, p, rec.evidence);
    case RawResponseCompleted => CompletionReading(b, s, rec, p);
  }

  // A record is admissible when the echo replay passes it and the raw replay accepts it with the
  // verdict that the echo replay derived.
  predicate Admissible(b: Binding, s: State, scope: Echo.Scope, progress: Echo.Progress, rec: Record) {
    var echo := Echo.EchoStep(scope, progress, rec);
    echo.Some? && Step(b, s, rec, echo.value.1).Some?
  }

  // In every state that an accepted prefix reaches, a record of a next-in-order provider boundary
  // notification is admissible if and only if the frame is readable and the record is its reading;
  // the same without an echo replay, when every verdict is None.
  lemma UniqueAdmissibleRecord(b: Binding, records: seq<Record>, echo: seq<Option<Detail>>, scope: Echo.Scope, progress: Echo.Progress,
                               rec: Record, raw: Raw, wire: Frame, name: string)
    requires BindingIds(b) && |records| == |echo| && Run(b, records, echo).Some?
    requires Records(rec, Run(b, records, echo).value, raw, wire)
    requires FrameMethod(wire) == Some(name) && BoundaryMethod(Classify(name))
    ensures var s := Run(b, records, echo).value;
            var read := !Unreadable(b, s, name, Params(wire)) && rec.name == name && rec.evidence == Reading(b, s, name, Params(wire));
            (Admissible(b, s, scope, progress, rec) <==> read) && (Step(b, s, rec, None).Some? <==> read)
  {
    hide Step, Echo.EchoStep, Unreadable, Reading, Inv, Classify;
    var s := Run(b, records, echo).value;
    RunKeeps(b, records, echo);
    AdmissibleIffReading(b, s, rec, raw, wire, name);
    if Echo.EchoStep(scope, progress, rec).Some? {
      EchoIsSilent(scope, progress, rec, wire, name);
    } else if Step(b, s, rec, None).Some? {
      ReadingIsNoEchoFailure(b, s, name, Params(wire));
      EchoPassesBoundary(scope, progress, rec);
    }
  }

  lemma FaultIsNoEchoFailure(b: Binding, s: State, name: string, p: Fields)
    requires BoundaryMethod(Classify(name)) && Fault(b, s, name, p).Some?
    ensures !Echo.KnownError(Fault(b, s, name, p).value)
  {
    hide RequestDetail, StepDetail, RefusalDetail, CompletionDetail, LocalDetail, Classify;
    RequestVocabulary(b, s, p);
    AnswerVocabulary(b, s, p);
    OtherVocabulary(b, s, name, p);
  }

  lemma ReadingIsNoEchoFailure(b: Binding, s: State, name: string, p: Fields)
    requires BoundaryMethod(Classify(name))
    ensures var e := Reading(b, s, name, p); e.Discrepancy? ==> !Echo.KnownError(e.detail)
  {
    hide Fault, Classify;
    if Fault(b, s, name, p).Some? { FaultIsNoEchoFailure(b, s, name, p); }
  }

  lemma AdmissibleIffReading(b: Binding, s: State, rec: Record, raw: Raw, wire: Frame, name: string)
    requires BindingIds(b) && Inv(s) && Records(rec, s, raw, wire)
    requires FrameMethod(wire) == Some(name) && BoundaryMethod(Classify(name))
    ensures Step(b, s, rec, None).Some? <==>
            !Unreadable(b, s, name, Params(wire)) && rec.name == name && rec.evidence == Reading(b, s, name, Params(wire))
  {
    hide Step, StreamDetail, TransitionReplay, Transition, KindLane, BoundedEvidence, NotificationDetail, TransitionOf, Unreadable, Inv;
    AcceptanceOverFrame(b, s, rec, raw, wire, name);
    if rec.name == name {
      DetailOverFrame(b, s, rec, raw, wire);
      var fault := Fault(b, s, name, Params(wire));
      if Step(b, s, rec, None).Some? {
        if !rec.evidence.Discrepancy? {
          TransitionOverFrame(b, s, rec, wire);
        } else {
          FaultIsReadable(b, s, name, Params(wire));
        }
      } else if !Unreadable(b, s, name, Params(wire)) && rec.evidence == Reading(b, s, name, Params(wire)) {
        if fault.None? {
          TransitionExists(b, s, rec, wire);
        } else {
          FaultIsRecordable(b, s, name, Params(wire));
        }
      }
    }
  }

  // A derived detail is one of the closed vocabulary, never free text nor an echo failure.
  predicate InVocabulary(d: Option<Detail>) { d.Some? ==> !d.value.Free? && !Echo.KnownError(d.value) }

  lemma RequestVocabulary(b: Binding, s: State, p: Fields)
    ensures InVocabulary(RequestDetail(b, s, p))
  {
    hide StrAt, IntAt;
  }

  lemma BoundaryVocabulary(b: Binding, s: State, p: Fields, fields: set<Key>)
    ensures InVocabulary(BoundaryDetail(b, s, p, fields))
  {
    hide StrAt, IntAt;
  }

  lemma AnswerVocabulary(b: Binding, s: State, p: Fields)
    ensures InVocabulary(StepDetail(b, s, p)) && InVocabulary(RefusalDetail(b, s, p))
  {
    hide BoundaryDetail, StrAt, IntAt, Get;
    BoundaryVocabulary(b, s, p, STEP_FIELDS);
    BoundaryVocabulary(b, s, p, REFUSAL_FIELDS);
  }

  lemma OtherVocabulary(b: Binding, s: State, name: string, p: Fields)
    ensures InVocabulary(CompletionDetail(b, s, p)) && InVocabulary(LocalDetail(b, s, name, p))
  {
    hide StrAt, IntAt, Classify, LocalThreadMatches, LocalTurnMatches, ThreadMatches, TurnMatches;
  }

  lemma FaultIsRecordable(b: Binding, s: State, name: string, p: Fields)
    requires Inv(s) && Fault(b, s, name, p).Some?
    ensures var e := Reading(b, s, name, p);
            BoundedEvidence(e) && e.Discrepancy? && DiscrepancyReplay(s, e, Fault(b, s, name, p))
  {
    hide RequestDetail, StepDetail, RefusalDetail, CompletionDetail, LocalDetail, TransitionOf, Classify;
    RequestVocabulary(b, s, p);
    AnswerVocabulary(b, s, p);
    OtherVocabulary(b, s, name, p);
  }

  lemma FaultIsReadable(b: Binding, s: State, name: string, p: Fields)
    requires Fault(b, s, name, p).Some?
    ensures !Unreadable(b, s, name, p)
  {
  }
}
