// The reason of every discrepancy over a retained frame, after every accepted prefix.
module ReasonLaw {
  import opened Wire
  import opened Evidence
  import opened Replay
  import opened ReplayInvariant
  import opened ReplayTrace
  import opened ReplayHistory
  import opened UniqueReading
  import opened FrameReading
  import opened Reasons

  // ---- names ----

  predicate BoundaryName(name: string) {
    HasPrefix(name, "providerAdmission/") || HasPrefix(name, "providerRequest/") || HasPrefix(name, "rawResponse/")
  }

  predicate ApprovalName(name: string) { name == "item/commandExecution/requestApproval" || name == "item/fileChange/requestApproval" }

  predicate LocalName(name: string) { name == "thread/started" || name == "turn/started" || name == "turn/completed" }

  lemma BoundaryInitial(name: string)
    ensures BoundaryName(name) ==> name != [] && (name[0] == 'p' || name[0] == 'r')
  {
    if HasPrefix(name, "providerAdmission/") { assert name[..18][0] == 'p'; }
    if HasPrefix(name, "providerRequest/") { assert name[..16][0] == 'p'; }
    if HasPrefix(name, "rawResponse/") { assert name[..12][0] == 'r'; }
  }

  lemma BoundaryLiterals()
    ensures BoundaryName("providerRequest/started") && BoundaryName("rawResponse/started") && BoundaryName("providerAdmission/refused")
    ensures BoundaryName("rawResponse/completed")
  {
    assert "providerRequest/started"[..16] == "providerRequest/";
    assert "rawResponse/started"[..12] == "rawResponse/";
    assert "providerAdmission/refused"[..18] == "providerAdmission/";
    assert "rawResponse/completed"[..12] == "rawResponse/";
  }

  lemma ClassBoundary(name: string)
    ensures ProviderBoundary(Classify(name)) <==> BoundaryName(name)
  {
    BoundaryInitial(name);
    BoundaryLiterals();
    hide HasPrefix;
  }

  lemma ClassNames(name: string)
    ensures ProviderBoundary(Classify(name)) <==> BoundaryName(name)
    ensures Classify(name).ApprovalMethod? <==> ApprovalName(name)
    ensures LocalMethod(Classify(name)) <==> LocalName(name)
    ensures Classify(name).ErrorMethod? <==> name == "error"
    ensures Classify(name).ThreadStartedMethod? <==> name == "thread/started"
    ensures Classify(name).TurnCompletedMethod? <==> name == "turn/completed"
    ensures Classify(name).ProviderRequestStarted? <==> name == "providerRequest/started"
    ensures Classify(name).RawResponseStarted? <==> name == "rawResponse/started"
    ensures Classify(name).ProviderAdmissionRefused? <==> name == "providerAdmission/refused"
    ensures Classify(name).RawResponseCompleted? <==> name == "rawResponse/completed"
  {
    hide HasPrefix, BoundaryName;
    ClassBoundary(name);
  }

  // ---- rules that come before those of a method ----

  predicate HasMethod(wire: Frame) { wire.Obj? && KMethod in wire.fields && wire.fields[KMethod].Str? }

  ghost function GuardRules(records: seq<Record>, lane: Lane, name: string, wire: Frame): Rules {
    Rule(!HasMethod(wire), MethodNotString,
    Rule(HasMethod(wire) && |wire.fields[KMethod].s| > 512, MethodExceedsBound,
    Rule(AnyDiscrepancy(records) && AnyStepped(Moves(records)), FollowedInterruption,
    Rule(AnyDiscrepancy(records), FollowedIndeterminate,
    Rule(AnyTurnEnd(records) && AnyStepped(Moves(records)), FollowedCompletedTurn,
    Rule(AnyApproval(records) && (lane.ServerRequestLane? || BoundaryName(name)), FollowedApproval,
    Rule(name == "error", CoarseError, Done)))))))
  }

  ghost function ServerRules(b: Binding, t: seq<Move>, name: string, p: Fields): Rules {
    Rule(!ApprovalName(name), UnknownServerRequest,
    Rule(!(Says(p, KThreadId, b.thread) && Says(p, KTurnId, b.turn)), ApprovalIdentity,
    Rule(!AnyStepped(t), ApprovalBeforeAdmission,
    Rule(LastStepped(t), ApprovalBeforeCompletion, Done))))
  }

  ghost function LocalRules(b: Binding, records: seq<Record>, name: string, p: Fields): Rules {
    var t := Moves(records);
    Rule(!(if name == "thread/started" then SaysWithin(p, KThread, KId, b.thread) else Says(p, KThreadId, b.thread)), LocalThread,
    Rule(!(name == "thread/started" || SaysWithin(p, KTurn, KId, b.turn)), LocalTurn,
    Rule(name == "turn/completed" && !AnyStepped(t) && !LastRefused(t), TurnWithoutExecution,
    Rule(name == "turn/completed" && AnyStepped(t) && (LastRequested(t) || LastStepped(t) || AnyApproval(records)), TurnBeforeClosed, Done))))
  }

  ghost function MethodRules(b: Binding, records: seq<Record>, name: string, p: Fields): Rules {
    var t := Moves(records);
    if name == "providerRequest/started" then Then(CommonRules(b, p, REQUEST_FIELDS), RequestRules(t, p))
    else if name == "rawResponse/started" then Then(Then(CommonRules(b, p, STEP_FIELDS), PendingRules(t, p)), StepRules(t, p))
    else if name == "providerAdmission/refused" then Then(Then(CommonRules(b, p, REFUSAL_FIELDS), PendingRules(t, p)), RefusalRules(t, p))
    else if name == "rawResponse/completed" then CompletionRules(b, t, p)
    else if BoundaryName(name) then Rule(true, UnknownBoundaryNotification, Done)
    else if LocalName(name) then LocalRules(b, records, name, p)
    else Done
  }

  // ---- client frames ----

  predicate FixtureName(request: string) {
    request == "fixture/provider-admission-positive" || request == "fixture/provider-order-approval-before-created"
    || request == "fixture/provider-order-loss-before-created" || request == "fixture/provider-order-duplicate-key"
    || request == "fixture/provider-order-nested-duplicate-key"
  }

  predicate OwnerName(request: string) {
    request == "initialize" || request == "thread/start" || request == "turn/start" || request == "thread/read" || request == "thread/resume"
  }

  lemma RequestNames(request: string)
    ensures ClassifyRequest(request).Fixture? <==> FixtureName(request)
    ensures ClassifyRequest(request).OtherRequest? <==> !FixtureName(request) && !OwnerName(request)
    ensures ClassifyRequest(request).TurnStart? <==> request == "turn/start"
    ensures ClassifyRequest(request).ThreadStart? <==> request == "thread/start"
    ensures ClassifyRequest(request).ThreadRead? <==> request == "thread/read"
    ensures ClassifyRequest(request).ThreadResume? <==> request == "thread/resume"
  {
  }

  predicate ClientShape(wire: Fields) {
    KId in wire && KMethod in wire && forall k | k in wire :: k == KId || k == KMethod || k == KParams
  }

  function ClientRequestRules(b: Binding, records: seq<Record>, request: string, wire: Fields): Rules {
    Rule(!Counts(wire, KId, 0, SAFE), InvalidClientRequestId,
    Rule(!(ClientShape(wire) && Says(wire, KMethod, request)), ClientRequestShape,
    Rule(KParams in wire && !wire[KParams].Null? && !wire[KParams].Obj?, ClientRequestParams,
    Rule(FixtureName(request) && !b.deterministicFixture, FixtureNotPermitted,
    Rule(!FixtureName(request) && !OwnerName(request), UnknownClientRequest,
    Rule((request == "turn/start" || request == "thread/read" || request == "thread/resume") && !SaysWithin(wire, KParams, KThreadId, b.thread),
         ClientRequestThread,
    Rule(Counts(wire, KId, 0, SAFE) && OpenRequest(records, wire[KId].n).Some?, DuplicateClientRequest, Done)))))))
  }

  predicate NamesThread(b: Binding, wire: Fields) { KResult in wire && wire[KResult].Obj? && SaysWithin(wire[KResult].fields, KThread, KId, b.thread) }
  predicate NamesTurn(b: Binding, wire: Fields) { KResult in wire && wire[KResult].Obj? && SaysWithin(wire[KResult].fields, KTurn, KId, b.turn) }

  function ClientResponseRules(b: Binding, records: seq<Record>, request: string, wire: Fields): Rules {
    Rule(!Counts(wire, KId, 0, SAFE), InvalidClientResponseId,
    Rule(!(Counts(wire, KId, 0, SAFE) && OpenRequest(records, wire[KId].n).Some? && OpenRequest(records, wire[KId].n).value.0 == request),
         ClientResponseIdentity,
    Rule(wire.Keys != {KId, KResult} && wire.Keys != {KId, KError}, ClientResponseShape,
    Rule(KError in wire, ClientRequestReturnedError,
    Rule(!(KResult in wire && wire[KResult].Obj?), ClientResultNotObject,
    Rule(request == "thread/start" && !NamesThread(b, wire), ThreadStartThread,
    Rule(request == "thread/read" && !NamesThread(b, wire), ThreadReadThread,
    Rule(request == "thread/resume" && !NamesThread(b, wire), ThreadResumeThread,
    Rule(request == "turn/start" && !NamesTurn(b, wire), TurnStartTurn, Done)))))))))
  }

  // ---- all rules of a frame ----

  ghost function FrameRules(b: Binding, records: seq<Record>, lane: Lane, name: string, wire: Frame): Rules {
    if !wire.Obj? then Done
    else match lane
      case ClientRequestLane =>
        if HasPrefix(name, "client-request/") then ClientRequestRules(b, records, name[15..], wire.fields) else Done
      case ClientResponseLane =>
        if HasPrefix(name, "client-response/") then ClientResponseRules(b, records, name[16..], wire.fields) else Done
      case ServerRequestLane => Then(GuardRules(records, lane, name, wire), ServerRules(b, Moves(records), name, Params(wire)))
      case _ => Then(GuardRules(records, lane, name, wire), MethodRules(b, records, name, Params(wire)))
  }

  // ---- the derived reasons are the first breaches ----

  ghost predicate Known(records: seq<Record>, s: State) { Faithful(Moves(records), s) && Reflects(records, s) }

  lemma ServerReason(b: Binding, records: seq<Record>, s: State, rec: Record, p: Fields)
    requires Known(records, s)
    ensures FirstBreach(ServerRules(b, Moves(records), rec.name, p)) == ServerRequestDetail(b, s, rec, p)
  {
    hide Inv, Linked, AnyStepped, Answered, Finished, Classify, Reflects;
    ClassNames(rec.name);
    Four(ServerRules(b, Moves(records), rec.name, p));
  }

  lemma LocalReason(b: Binding, records: seq<Record>, s: State, name: string, p: Fields)
    requires Known(records, s)
    ensures FirstBreach(LocalRules(b, records, name, p)) == LocalDetail(b, s, name, p)
  {
    hide Linked, AnyStepped, Answered, Finished, Classify, ClientsReflect;
    ClassNames(name);
    Four(LocalRules(b, records, name, p));
  }

  lemma ClientShapeIff(wire: Fields)
    ensures RequestShape(wire) <==> ClientShape(wire)
  {
    var fields := if KParams in wire then {KId, KMethod, KParams} else {KId, KMethod};
    if ClientShape(wire) {
      forall k ensures k in wire.Keys <==> k in fields {}
    }
  }

  lemma ClientRequestReason(b: Binding, records: seq<Record>, s: State, request: string, wire: Fields)
    requires ClientsReflect(records, s)
    ensures FirstBreach(ClientRequestRules(b, records, request, wire)) == ClientRequestDetail(b, s, request, wire)
  {
    hide ClassifyRequest, RequestShape, ClientShape, OpenRequest, FixtureName, OwnerName;
    ClientShapeIff(wire);
    RequestNames(request);
    var r := ClientRequestRules(b, records, request, wire);
    if Counts(wire, KId, 0, SAFE) { assert Lookup(s.clientRequests, wire[KId].n) == OpenRequest(records, wire[KId].n); }
    Four(r);
    One(r.rest.rest.rest.rest);
    One(r.rest.rest.rest.rest.rest);
    One(r.rest.rest.rest.rest.rest.rest);
  }

  lemma ClientResponseReason(b: Binding, records: seq<Record>, s: State, request: string, wire: Fields)
    requires ClientsReflect(records, s)
    ensures FirstBreach(ClientResponseRules(b, records, request, wire)) == ClientResponseDetail(b, s, request, wire)
  {
    hide ClassifyRequest, OpenRequest, FixtureName, OwnerName;
    RequestNames(request);
    var r := ClientResponseRules(b, records, request, wire);
    if Counts(wire, KId, 0, SAFE) { assert Lookup(s.clientRequests, wire[KId].n) == OpenRequest(records, wire[KId].n); }
    Four(r);
    Four(r.rest.rest.rest.rest);
    One(r.rest.rest.rest.rest.rest.rest.rest.rest);
  }

  lemma MethodReason(b: Binding, records: seq<Record>, s: State, name: string, p: Fields)
    requires Known(records, s)
    ensures FirstBreach(MethodRules(b, records, name, p)) == NotificationDetail(b, s, name, p)
  {
    hide Classify, Faithful, Reflects, RequestDetail, StepDetail, RefusalDetail, CompletionDetail, LocalDetail, CommonRules, RequestRules, PendingRules,
      StepRules, RefusalRules, CompletionRules, LocalRules, Then, BoundaryName;
    var t := Moves(records);
    ClassNames(name);
    RequestReason(b, t, s, p);
    StepReason(b, t, s, p);
    RefusalReason(b, t, s, p);
    CompletionReason(b, t, s, p);
    LocalReason(b, records, s, name, p);
  }

  // The stream detail, split at the rules of a method.
  lemma GuardReason(b: Binding, records: seq<Record>, s: State, rec: Record, wire: Frame)
    requires Known(records, s) && wire.Obj? && rec.lane.Some? && NameFits(rec.lane.value, rec.name, wire)
    requires rec.lane == Some(NotificationLane) || rec.lane == Some(ServerRequestLane)
    ensures StreamDetail(b, s, rec, wire) ==
            Either(FirstBreach(GuardRules(records, rec.lane.value, rec.name, wire)),
                   if rec.lane == Some(ServerRequestLane) then ServerRequestDetail(b, s, rec, Params(wire))
                   else NotificationDetail(b, s, rec.name, Params(wire)))
  {
    hide Classify, Inv, Linked, ClientsReflect, AnyStepped, AnyDiscrepancy, AnyApproval, AnyTurnEnd, Answered, Finished, ServerRequestDetail,
      NotificationDetail, BoundaryName, StepIdentityOf, RefusalIn;
    ClassNames(rec.name);
    var r := GuardRules(records, rec.lane.value, rec.name, wire);
    Four(r);
    One(r.rest.rest.rest.rest);
    One(r.rest.rest.rest.rest.rest);
    One(r.rest.rest.rest.rest.rest.rest);
  }

  lemma FrameReason(b: Binding, records: seq<Record>, s: State, rec: Record, wire: Frame)
    requires Known(records, s) && RecordsFrame(rec, s, wire) && NameFits(rec.lane.value, rec.name, wire)
    ensures FrameDetail(b, s, rec, wire) == FirstBreach(FrameRules(b, records, rec.lane.value, rec.name, wire))
  {
    hide Classify, Faithful, FlagsReflect, ClientsReflect, StreamDetail, NotificationDetail, ServerRequestDetail, ClientRequestDetail, ClientResponseDetail,
      GuardRules, MethodRules, ServerRules, ClientRequestRules, ClientResponseRules, Then, RawBound, StepIdentityOf, RefusalIn, FirstBreach;
    var lane, name, t := rec.lane.value, rec.name, Moves(records);
    match lane
    case ClientRequestLane => ClientRequestReason(b, records, s, name[15..], wire.fields);
    case ClientResponseLane => ClientResponseReason(b, records, s, name[16..], wire.fields);
    case ServerRequestLane =>
      GuardReason(b, records, s, rec, wire);
      ServerReason(b, records, s, rec, Params(wire));
      FirstBreachThen(GuardRules(records, lane, name, wire), ServerRules(b, t, name, Params(wire)));
    case NotificationLane =>
      GuardReason(b, records, s, rec, wire);
      MethodReason(b, records, s, name, Params(wire));
      FirstBreachThen(GuardRules(records, lane, name, wire), MethodRules(b, records, name, Params(wire)));
  }

  // ---- main results ----

  lemma RunIsKnown(b: Binding, records: seq<Record>, echo: seq<Option<Detail>>)
    requires |records| == |echo| && Run(b, records, echo).Some?
    ensures Known(records, Run(b, records, echo).value)
  {
    hide Run, Inv, Linked, Mirrors, Reflects;
    RunKeeps(b, records, echo);
    RunLinks(b, records, echo);
    RunMirrors(b, records, echo);
    RunReflects(b, records, echo);
  }

  // After every accepted prefix, a discrepancy over a next-in-order frame is admissible if and only if
  // its name fits and it carries the reason of the first rule that the frame breaks, with the execution
  // that the steps so far have bound.
  lemma DiscrepancyHasFirstReason(b: Binding, records: seq<Record>, echo: seq<Option<Detail>>, rec: Record, wire: Frame)
    requires BindingIds(b) && |records| == |echo| && Run(b, records, echo).Some? && RecordsFrame(rec, Run(b, records, echo).value, wire)
    requires rec.evidence.Discrepancy?
    ensures Step(b, Run(b, records, echo).value, rec, None).Some? <==>
            && NameFits(rec.lane.value, rec.name, wire)
            && FirstBreach(FrameRules(b, records, rec.lane.value, rec.name, wire)) == Some(rec.evidence.detail)
            && rec.evidence.admitted == StepIdentityOf(records) && (rec.evidence.resumeSameAttemptOnly <==> StepIdentityOf(records).Some?)
  {
    hide Step, Run, NameFits, UnreadableFrame, FrameDetail, FrameRules, Faithful, FlagsReflect, ClientsReflect, MoveOfFrame, RawBound, FirstBreach;
    var s := Run(b, records, echo).value;
    RunIsKnown(b, records, echo);
    EveryFrameHasOneReading(b, records, echo, rec, wire);
    MoveIsNoDiscrepancy(b, s, rec, wire);
    if NameFits(rec.lane.value, rec.name, wire) { FrameReason(b, records, s, rec, wire); }
    if FrameDetail(b, s, rec, wire).Some? { BrokenIsReadable(b, s, rec, wire); }
  }

  // ... and a transition only when the frame breaks no rule at all.
  lemma TransitionBreaksNothing(b: Binding, records: seq<Record>, echo: seq<Option<Detail>>, rec: Record, wire: Frame)
    requires BindingIds(b) && |records| == |echo| && Run(b, records, echo).Some? && RecordsFrame(rec, Run(b, records, echo).value, wire)
    requires Step(b, Run(b, records, echo).value, rec, None).Some? && !rec.evidence.Discrepancy?
    ensures FirstBreach(FrameRules(b, records, rec.lane.value, rec.name, wire)).None?
  {
    hide Step, Run, NameFits, UnreadableFrame, FrameDetail, FrameRules, Faithful, Reflects, MoveOfFrame, RawBound, FirstBreach;
    RunIsKnown(b, records, echo);
    EveryFrameHasOneReading(b, records, echo, rec, wire);
    FrameReason(b, records, Run(b, records, echo).value, rec, wire);
  }

  // ---- the position of a request ----

  // A well-bound request frame in time is refused for its position by the last move: an unanswered
  // request, an uncompleted response or a refusal.
  lemma PositionDecides(t: seq<Move>, p: Fields)
    requires Counts(p, KStartedAtMs, -SAFE, SAFE) && !AnsweredAfter(t, p[KStartedAtMs].n)
    ensures var d := FirstBreach(RequestRules(t, p));
            && (d == Some(HidesPendingRequest) <==> LastRequested(t))
            && (d == Some(BeforeResponseCompletion) <==> LastStepped(t))
            && (d == Some(FollowsClosedDispatch) <==> LastRefused(t))
  {
    hide AnsweredAfter, AnyStepped, Answered, RequestCount;
    var r := RequestRules(t, p);
    Four(r);
    Four(r.rest.rest.rest.rest);
  }

  // The last reason of a request is never given: once every other rule holds, an earlier request was stepped.
  lemma MultiplePreAdmissionIsDead(b: Binding, records: seq<Record>, echo: seq<Option<Detail>>, p: Fields)
    requires |records| == |echo| && Run(b, records, echo).Some?
    ensures FirstBreach(RequestRules(Moves(records), p)) != Some(MultiplePreAdmission)
  {
    hide Run, Inv, Mirrors, Linked, AnsweredAfter, AnyStepped, Answered, RequestCount;
    var t := Moves(records);
    var s := Run(b, records, echo).value;
    RunLinks(b, records, echo);
    RunKeeps(b, records, echo);
    RunMirrors(b, records, echo);
    var r := RequestRules(t, p);
    Four(r);
    Four(r.rest.rest.rest.rest);
    if !LastRequested(t) && !LastStepped(t) && !LastRefused(t) { AnsweredMeansStepped(t, s); }
  }

  lemma AnsweredMeansStepped(t: seq<Move>, s: State)
    requires Faithful(t, s) && !LastRequested(t) && !LastStepped(t) && !LastRefused(t)
    ensures RequestCount(t) > 0 ==> AnyStepped(t)
  {
    CountIsAnswered(t, s);
    if RequestCount(t) > 0 {
      assert RoundAt(t, 0);
      assert t[1].Stepped?;
    }
  }
}
