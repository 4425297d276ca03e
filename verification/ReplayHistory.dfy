// The replay state read off the records: what each field means in terms of the accepted evidence alone.
module ReplayHistory {
  import opened Wire
  import opened Evidence
  import opened Replay
  import opened ReplayInvariant
  import opened ReplayTrace

  // ---- the provider moves so far ----

  predicate Answer(m: Move) { m.Stepped? || m.Refused? }

  predicate LastRequested(t: seq<Move>) { t != [] && t[|t| - 1].Requested? }
  predicate LastStepped(t: seq<Move>) { t != [] && t[|t| - 1].Stepped? }
  predicate LastRefused(t: seq<Move>) { t != [] && t[|t| - 1].Refused? }

  ghost predicate AnyStepped(t: seq<Move>) { exists i :: 0 <= i < |t| && t[i].Stepped? }

  // Occurrences that were answered, and responses that were completed.
  function Answered(t: seq<Move>): set<string> { set i | 0 <= i < |t| && Answer(t[i]) :: t[i].occurrence }
  function Finished(t: seq<Move>): set<string> { set i | 0 <= i < |t| && t[i].Completed? :: t[i].response }

  // Time of the last answer.
  function AnswerTime(t: seq<Move>): Option<int> {
    if t == [] then None else if Answer(t[|t| - 1]) then Some(t[|t| - 1].at) else AnswerTime(t[..|t| - 1])
  }

  // The provider side of the state, said of the moves.
  ghost predicate Mirrors(t: seq<Move>, s: State) {
    && (s.pending.Some? <==> LastRequested(t))
    && (LastRequested(t) ==> s.pending.value == Pending(t[|t| - 1].occurrence, t[|t| - 1].ordinal, t[|t| - 1].ordinal, t[|t| - 1].at))
    && (s.openResponse.Some? <==> LastStepped(t))
    && (LastStepped(t) ==> s.openResponse.value == t[|t| - 1].response)
    && (s.refusal.Some? <==> LastRefused(t))
    && (LastRefused(t) ==> s.refusal.value.occurrence == t[|t| - 1].occurrence && s.refusal.value.observedAtMs == t[|t| - 1].at)
    && s.completedRequests == Answered(t) && s.completedResponses == Finished(t)
    && (s.execution.Some? <==> AnyStepped(t))
    && s.lastBoundaryMs == AnswerTime(t)
  }

  lemma AppendMove(t: seq<Move>, m: Move)
    ensures Answered(t + [m]) == Answered(t) + (if Answer(m) then {m.occurrence} else {})
    ensures Finished(t + [m]) == Finished(t) + (if m.Completed? then {m.response} else {})
    ensures AnyStepped(t + [m]) <==> AnyStepped(t) || m.Stepped?
    ensures AnswerTime(t + [m]) == if Answer(m) then Some(m.at) else AnswerTime(t)
  {
    var u := t + [m];
    assert u[|t|] == m && u[..|t|] == t;
    forall i | 0 <= i < |t| ensures u[i] == t[i] {}
    if i :| 0 <= i < |t| && t[i].Stepped? { assert u[i].Stepped?; }
    if m.Stepped? { assert u[|t|].Stepped?; }
  }

  lemma RequestMirrors(s: State, e: Evidence, t: seq<Move>)
    requires Mirrors(t, s) && e.RequestStarted? && ApplyRequest(s, e).Some?
    ensures Mirrors(t + MoveOf(e), ApplyRequest(s, e).value)
  {
    hide Answered, Finished, AnyStepped, AnswerTime;
    AppendMove(t, MoveOf(e)[0]);
  }

  lemma StepMirrors(b: Binding, s: State, e: Evidence, t: seq<Move>)
    requires Inv(s) && Mirrors(t, s) && e.ExecutionStep? && ApplyStep(b, s, e).Some?
    ensures Mirrors(t + MoveOf(e), ApplyStep(b, s, e).value)
  {
    hide Answered, Finished, AnyStepped, AnswerTime, IdentityIsId;
    AppendMove(t, MoveOf(e)[0]);
  }

  lemma RefusalMirrors(s: State, e: Evidence, t: seq<Move>)
    requires Inv(s) && Mirrors(t, s) && e.AdmissionRefused? && ApplyRefusal(s, e).Some?
    ensures Mirrors(t + MoveOf(e), ApplyRefusal(s, e).value)
  {
    hide Answered, Finished, AnyStepped, AnswerTime, IdentityIsId;
    AppendMove(t, MoveOf(e)[0]);
  }

  lemma CompletionMirrors(b: Binding, s: State, rec: Record, t: seq<Move>)
    requires Inv(s) && Mirrors(t, s) && rec.evidence.ResponseCompleted? && Transition(b, s, rec).Some?
    ensures Mirrors(t + MoveOf(rec.evidence), Transition(b, s, rec).value)
  {
    hide Answered, Finished, AnyStepped, AnswerTime, IdentityIsId, ApplyRequest, ApplyStep, ApplyRefusal;
    AppendMove(t, MoveOf(rec.evidence)[0]);
  }

  lemma SilentMirrors(b: Binding, s: State, rec: Record, t: seq<Move>)
    requires Mirrors(t, s) && MoveOf(rec.evidence) == [] && Transition(b, s, rec).Some?
    ensures Mirrors(t, Transition(b, s, rec).value)
  {
    hide Answered, Finished, AnyStepped, AnswerTime, Transition;
    SilentKeepsPosition(b, s, rec);
    SilentKeepsExecution(b, s, rec);
  }

  lemma SilentKeepsExecution(b: Binding, s: State, rec: Record)
    requires MoveOf(rec.evidence) == [] && Transition(b, s, rec).Some?
    ensures Transition(b, s, rec).value.execution == s.execution
  {
  }

  lemma TransitionMirrors(b: Binding, s: State, rec: Record, t: seq<Move>)
    requires Inv(s) && Mirrors(t, s) && Transition(b, s, rec).Some?
    ensures Mirrors(t + MoveOf(rec.evidence), Transition(b, s, rec).value)
  {
    hide Mirrors, Inv, ApplyRequest, ApplyStep, ApplyRefusal;
    match rec.evidence
    case RequestStarted(_, _, _, _) => RequestMirrors(s, rec.evidence, t);
    case ExecutionStep(_, _, _, _) => StepMirrors(b, s, rec.evidence, t);
    case AdmissionRefused(_, _, _, _, _, _) => RefusalMirrors(s, rec.evidence, t);
    case ResponseCompleted(_) => CompletionMirrors(b, s, rec, t);
    case _ =>
      SilentMirrors(b, s, rec, t);
      assert t + MoveOf(rec.evidence) == t;
  }

  lemma {:induction false} RunMirrors(b: Binding, records: seq<Record>, echo: seq<Option<Detail>>)
    requires |records| == |echo| && Run(b, records, echo).Some?
    ensures Mirrors(Moves(records), Run(b, records, echo).value)
  {
    hide Mirrors, Transition, RawReplay, WellFormed;
    if records == [] {
      NothingMirrored();
    } else {
      var last := |records| - 1;
      var s := Run(b, records[..last], echo[..last]).value;
      RunMirrors(b, records[..last], echo[..last]);
      RunKeeps(b, records[..last], echo[..last]);
      TransitionMirrors(b, s, records[last], Moves(records[..last]));
      MirrorsIgnoresOrdinal(Moves(records), Transition(b, s, records[last]).value, NextOrdinal(s, records[last]));
    }
  }

  lemma NothingMirrored()
    ensures Mirrors([], INIT)
  {
  }

  lemma MirrorsIgnoresOrdinal(t: seq<Move>, s: State, n: int)
    requires Mirrors(t, s)
    ensures Mirrors(t, s.(next := n))
  {
  }

  // ---- the other records so far ----

  ghost predicate AnyDiscrepancy(records: seq<Record>) { exists i :: 0 <= i < |records| && records[i].evidence.Discrepancy? }
  ghost predicate AnyApproval(records: seq<Record>) { exists i :: 0 <= i < |records| && records[i].evidence.WaitingApproval? }
  ghost predicate AnyTurnEnd(records: seq<Record>) {
    exists i :: 0 <= i < |records| && records[i].evidence.LocalTurnFact? && records[i].name == "turn/completed"
  }

  // Method and params digest of the outstanding client request with this id: the last record about
  // the id is its request.
  function OpenRequest(records: seq<Record>, id: int): Option<(string, string)> {
    if records == [] then None
    else
      var e := records[|records| - 1].evidence;
      if e.ClientRequestIssued? && e.requestId == id then Some((e.requestMethod, e.paramsDigest))
      else if e.ClientResponseRetained? && e.requestId == id then None
      else OpenRequest(records[..|records| - 1], id)
  }

  // The execution that the steps bind.
  function StepIdentityOf(records: seq<Record>): Option<Identity> {
    if records == [] then None
    else if records[|records| - 1].evidence.ExecutionStep? then Some(records[|records| - 1].evidence.execution)
    else StepIdentityOf(records[..|records| - 1])
  }

  // The refusal that was recorded.
  function RefusalIn(records: seq<Record>): Option<Refusal> {
    if records == [] then None
    else
      var e := records[|records| - 1].evidence;
      if e.AdmissionRefused? then Some(Refusal(e.occurrence, e.retryAfterMs, e.observedAtMs)) else RefusalIn(records[..|records| - 1])
  }

  ghost predicate FlagsReflect(records: seq<Record>, s: State) {
    (s.discrepancy <==> AnyDiscrepancy(records)) && (s.approval <==> AnyApproval(records)) && (s.turnCompleted <==> AnyTurnEnd(records))
  }

  function Lookup(m: map<int, (string, string)>, id: int): Option<(string, string)> { if id in m then Some(m[id]) else None }

  ghost predicate ClientsReflect(records: seq<Record>, s: State) { forall id :: Lookup(s.clientRequests, id) == OpenRequest(records, id) }

  ghost predicate Reflects(records: seq<Record>, s: State) {
    FlagsReflect(records, s) && ClientsReflect(records, s) && s.execution == StepIdentityOf(records) && s.refusal == RefusalIn(records)
  }

  lemma TurnCompletedName(name: string)
    ensures Classify(name).TurnCompletedMethod? <==> name == "turn/completed"
  {
  }

  lemma AnyAppends(records: seq<Record>, rec: Record)
    ensures var all := records + [rec];
            && (AnyDiscrepancy(all) <==> AnyDiscrepancy(records) || rec.evidence.Discrepancy?)
            && (AnyApproval(all) <==> AnyApproval(records) || rec.evidence.WaitingApproval?)
            && (AnyTurnEnd(all) <==> AnyTurnEnd(records) || (rec.evidence.LocalTurnFact? && rec.name == "turn/completed"))
  {
    var all := records + [rec];
    assert all[|records|] == rec;
    forall i | 0 <= i < |records| ensures all[i] == records[i] {}
    if i :| 0 <= i < |records| && records[i].evidence.Discrepancy? { assert all[i].evidence.Discrepancy?; }
    if i :| 0 <= i < |records| && records[i].evidence.WaitingApproval? { assert all[i].evidence.WaitingApproval?; }
    if i :| 0 <= i < |records| && records[i].evidence.LocalTurnFact? && records[i].name == "turn/completed" {
      assert all[i].evidence.LocalTurnFact? && all[i].name == "turn/completed";
    }
  }

  lemma FlagsMove(b: Binding, s: State, rec: Record, records: seq<Record>)
    requires FlagsReflect(records, s) && Transition(b, s, rec).Some?
    ensures FlagsReflect(records + [rec], Transition(b, s, rec).value)
  {
    hide AnyDiscrepancy, AnyApproval, AnyTurnEnd, Classify, IdentityIsId;
    AnyAppends(records, rec);
    TurnCompletedName(rec.name);
  }

  lemma ClientsMove(b: Binding, s: State, rec: Record, records: seq<Record>)
    requires ClientsReflect(records, s) && Transition(b, s, rec).Some?
    ensures ClientsReflect(records + [rec], Transition(b, s, rec).value)
  {
    hide Classify, ApplyRequest, ApplyStep, ApplyRefusal, Transition;
    assert (records + [rec])[..|records|] == records;
    var u := Transition(b, s, rec).value;
    TransitionClients(b, s, rec);
    forall id ensures Lookup(u.clientRequests, id) == OpenRequest(records + [rec], id) {
      assert Lookup(s.clientRequests, id) == OpenRequest(records, id);
    }
  }

  lemma TransitionClients(b: Binding, s: State, rec: Record)
    requires Transition(b, s, rec).Some?
    ensures var u, e := Transition(b, s, rec).value, rec.evidence;
            u.clientRequests == (if e.ClientRequestIssued? then s.clientRequests[e.requestId := (e.requestMethod, e.paramsDigest)]
                                 else if e.ClientResponseRetained? then s.clientRequests - {e.requestId} else s.clientRequests)
  {
    hide Classify, IdentityIsId;
  }

  lemma ExecutionMoves(b: Binding, s: State, rec: Record, records: seq<Record>)
    requires s.execution == StepIdentityOf(records) && Transition(b, s, rec).Some?
    ensures Transition(b, s, rec).value.execution == StepIdentityOf(records + [rec])
  {
    hide Classify, IdentityIsId;
    assert (records + [rec])[..|records|] == records;
  }

  lemma RefusalMoves(b: Binding, s: State, rec: Record, records: seq<Record>)
    requires s.refusal == RefusalIn(records) && Transition(b, s, rec).Some?
    ensures Transition(b, s, rec).value.refusal == RefusalIn(records + [rec])
  {
    hide Classify, IdentityIsId;
    assert (records + [rec])[..|records|] == records;
  }

  lemma TransitionReflects(b: Binding, s: State, rec: Record, records: seq<Record>)
    requires Reflects(records, s) && Transition(b, s, rec).Some?
    ensures Reflects(records + [rec], Transition(b, s, rec).value)
  {
    hide FlagsReflect, ClientsReflect, Transition, StepIdentityOf, RefusalIn;
    FlagsMove(b, s, rec, records);
    ClientsMove(b, s, rec, records);
    ExecutionMoves(b, s, rec, records);
    RefusalMoves(b, s, rec, records);
  }

  lemma {:induction false} RunReflects(b: Binding, records: seq<Record>, echo: seq<Option<Detail>>)
    requires |records| == |echo| && Run(b, records, echo).Some?
    ensures Reflects(records, Run(b, records, echo).value)
  {
    hide Reflects, Transition, RawReplay, WellFormed;
    if records == [] {
      NothingReflected();
    } else {
      var last := |records| - 1;
      var s := Run(b, records[..last], echo[..last]).value;
      RunReflects(b, records[..last], echo[..last]);
      TransitionReflects(b, s, records[last], records[..last]);
      assert records == records[..last] + [records[last]];
      ReflectsIgnoresOrdinal(records, Transition(b, s, records[last]).value, NextOrdinal(s, records[last]));
    }
  }

  lemma NothingReflected()
    ensures Reflects([], INIT)
  {
  }

  lemma ReflectsIgnoresOrdinal(records: seq<Record>, s: State, n: int)
    requires Reflects(records, s)
    ensures Reflects(records, s.(next := n))
  {
  }

  // ---- ordinals ----

  // One more than the largest ordinal so far.
  function HighWater(records: seq<Record>): int {
    if records == [] then 0
    else
      var before, o := HighWater(records[..|records| - 1]), records[|records| - 1].ordinal;
      if o.Some? && o.value >= before then o.value + 1 else before
  }

  lemma {:induction false} RunHighWater(b: Binding, records: seq<Record>, echo: seq<Option<Detail>>)
    requires |records| == |echo| && Run(b, records, echo).Some?
    ensures Run(b, records, echo).value.next == HighWater(records)
  {
    hide Transition, RawReplay, WellFormed;
    if records != [] { RunHighWater(b, records[..|records| - 1], echo[..|records| - 1]); }
  }

  // A record out of order is the discrepancy that names the gap.
  lemma GapIsNamed(b: Binding, records: seq<Record>, echo: seq<Option<Detail>>, rec: Record, verdict: Option<Detail>)
    requires |records| == |echo| && Run(b, records, echo).Some? && Step(b, Run(b, records, echo).value, rec, verdict).Some?
    requires rec.ordinal.Some? && rec.ordinal.value != HighWater(records)
    ensures rec.evidence.Discrepancy? && rec.evidence.detail.OrdinalGap? && rec.name == "adapter/acquisition"
  {
    hide Transition, RawReplay, WellFormed, Run;
    RunHighWater(b, records, echo);
  }

  // Client requests still open, by id.
  function OpenIds(records: seq<Record>): set<int> {
    set i | 0 <= i < |records| && records[i].evidence.ClientRequestIssued? && OpenRequest(records, records[i].evidence.requestId).Some?
      :: records[i].evidence.requestId
  }

  lemma {:induction false} OpenWasIssued(records: seq<Record>, id: int)
    requires OpenRequest(records, id).Some?
    ensures exists i :: 0 <= i < |records| && records[i].evidence.ClientRequestIssued? && records[i].evidence.requestId == id
  {
    var last := |records| - 1;
    var e := records[last].evidence;
    if !(e.ClientRequestIssued? && e.requestId == id) {
      OpenWasIssued(records[..last], id);
      var i :| 0 <= i < last && records[..last][i].evidence.ClientRequestIssued? && records[..last][i].evidence.requestId == id;
      assert records[i].evidence.requestId == id;
    }
  }

  lemma OpenIdsAre(records: seq<Record>, s: State)
    requires ClientsReflect(records, s)
    ensures s.clientRequests.Keys == OpenIds(records) && |s.clientRequests| == |OpenIds(records)|
  {
    hide OpenRequest;
    forall id ensures id in s.clientRequests.Keys <==> id in OpenIds(records) {
      assert Lookup(s.clientRequests, id) == OpenRequest(records, id);
      if id in s.clientRequests { OpenWasIssued(records, id); }
    }
    assert |s.clientRequests| == |s.clientRequests.Keys|;
  }
}
