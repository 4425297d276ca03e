// A clean acquisition cut means a complete run.
module CleanCut {
  import opened Wire
  import opened Evidence
  import opened Replay
  import opened ReplayInvariant
  import opened ReplayTrace
  import opened ReplayClosure
  import opened Admission

  // ---- a completed turn has nothing open ----

  ghost predicate TurnInv(s: State) {
    s.turnCompleted ==> s.pending.None? && s.openResponse.None? && (if s.execution.None? then s.refusal.Some? else !s.approval)
  }

  lemma TurnStays(b: Binding, s: State, rec: Record)
    requires Inv(s) && TurnInv(s) && !Closed(s) && Transition(b, s, rec).Some?
    ensures TurnInv(Transition(b, s, rec).value)
  {
  }

  lemma {:induction false} RunClosesTurn(b: Binding, records: seq<Record>, echo: seq<Option<Detail>>)
    requires |records| == |echo| && Run(b, records, echo).Some?
    ensures TurnInv(Run(b, records, echo).value)
  {
    if records != [] {
      var last := |records| - 1;
      var s := Run(b, records[..last], echo[..last]).value;
      RunClosesTurn(b, records[..last], echo[..last]);
      RunKeeps(b, records[..last], echo[..last]);
      if Closed(s) {
        StepFreezes(b, s, records[last], echo[last]);
        assert ProviderSide(Run(b, records, echo).value).turnCompleted == s.turnCompleted;
      } else {
        TurnStays(b, s, records[last]);
      }
    }
  }

  // ---- executions and steps ----

  ghost predicate HasStep(records: seq<Record>) { exists i :: 0 <= i < |records| && records[i].evidence.ExecutionStep? }

  lemma TransitionBindsExecution(b: Binding, s: State, rec: Record)
    requires Transition(b, s, rec).Some?
    ensures Transition(b, s, rec).value.execution.Some? <==> s.execution.Some? || rec.evidence.ExecutionStep?
  {
  }

  // A replay ends with an execution identity exactly when some record is an execution step.
  lemma {:induction false} ExecutionIffStep(b: Binding, records: seq<Record>, echo: seq<Option<Detail>>)
    requires |records| == |echo| && Run(b, records, echo).Some?
    ensures Run(b, records, echo).value.execution.Some? <==> HasStep(records)
  {
    if records != [] {
      var last := |records| - 1;
      ExecutionIffStep(b, records[..last], echo[..last]);
      TransitionBindsExecution(b, Run(b, records[..last], echo[..last]).value, records[last]);
      LastOrBefore(records);
    }
  }

  lemma LastOrBefore(records: seq<Record>)
    requires records != []
    ensures HasStep(records) <==> records[|records| - 1].evidence.ExecutionStep? || HasStep(records[..|records| - 1])
  {
    var front := records[..|records| - 1];
    if i :| 0 <= i < |records| && records[i].evidence.ExecutionStep? {
      if i < |front| { assert front[i].evidence.ExecutionStep?; }
    }
    if i :| 0 <= i < |front| && front[i].evidence.ExecutionStep? { assert records[i].evidence.ExecutionStep?; }
  }

  // ---- every client request has one response ----

  ghost predicate AllAnswered(records: seq<Record>) {
    && (forall i | 0 <= i < |records| && records[i].evidence.ClientRequestIssued? :: exists j :: Answers(records, i, j))
    && (forall j | 0 <= j < |records| && records[j].evidence.ClientResponseRetained? :: exists i :: Answers(records, i, j))
    && (forall i, j, k | Answers(records, i, j) && Answers(records, i, k) :: j == k)
    && (forall i, h, j | Answers(records, i, j) && Answers(records, h, j) :: i == h)
  }

  lemma AnswerIsUnique(records: seq<Record>, i: int, j: int, k: int)
    requires Answers(records, i, j) && Answers(records, i, k)
    ensures j == k
  {
    var id := records[i].evidence.requestId;
    assert TouchesClient(records[j].evidence, id) && TouchesClient(records[k].evidence, id);
  }

  lemma QuestionIsUnique(records: seq<Record>, i: int, h: int, j: int)
    requires Answers(records, i, j) && Answers(records, h, j)
    ensures i == h
  {
    var id := records[j].evidence.requestId;
    assert TouchesClient(records[i].evidence, id) && TouchesClient(records[h].evidence, id);
  }

  lemma NothingOutstanding(records: seq<Record>, s: State)
    requires Paired(records, s) && |s.clientRequests| == 0
    ensures AllAnswered(records)
  {
    assert s.clientRequests == map[];
    forall i, j, k | Answers(records, i, j) && Answers(records, i, k) ensures j == k { AnswerIsUnique(records, i, j, k); }
    forall i, h, j | Answers(records, i, j) && Answers(records, h, j) ensures i == h { QuestionIsUnique(records, i, h, j); }
  }

  // ---- the theorem ----

  // Ordinals 0..n-1 in order and no discrepancy, every client request answered once, times in
  // order, and the provider side either refused at its only request or completed in every round.
  ghost predicate CompleteRun(records: seq<Record>) {
    var t := Moves(records);
    && InOrder(records)
    && AllAnswered(records)
    && TimesAscend(t) && OccurrencesDistinct(t) && ResponsesDistinct(t)
    && (RefusedOutright(t) || exists n :: n >= 1 && AllCompleted(t, n))
  }

  lemma ClosedPhase(t: seq<Move>, s: State)
    requires Inv(s) && TurnInv(s) && Linked(t, s) && SemanticClosed(s)
    ensures if s.refusal.Some? then RefusedOutright(t) && s.execution.None?
            else s.execution.Some? && |s.completedResponses| >= 1 && AllCompleted(t, |s.completedResponses|)
  {
  }

  lemma CleanRunIsComplete(b: Binding, records: seq<Record>, echo: seq<Option<Detail>>)
    requires |records| == |echo| && Run(b, records, echo).Some?
    requires var s := Run(b, records, echo).value; SemanticClosed(s) && |s.clientRequests| == 0
    ensures CompleteRun(records) && Run(b, records, echo).value.next == |records|
    ensures Run(b, records, echo).value.execution.None? ==> RefusedOutright(Moves(records))
  {
    var s := Run(b, records, echo).value;
    RunOrders(b, records, echo);
    RunPairs(b, records, echo);
    NothingOutstanding(records, s);
    RunLinks(b, records, echo);
    RunKeeps(b, records, echo);
    RunClosesTurn(b, records, echo);
    ClosedPhase(Moves(records), s);
  }

  // An accepted snapshot whose cut is clean is a complete run, and its ordered high water is the
  // number of its records.
  lemma CleanCutIsCompleteRun(d: Disposition, snap: Snapshot, sha256: Frame -> string)
    requires SnapshotComplete(d, snap, sha256) && d.acquisitionComplete
    ensures CompleteRun(Body(snap.records))
    ensures snap.cut.Some? && snap.cut.value.clean && snap.cut.value.orderedHighWater == |Body(snap.records)|
    ensures d.execution.None? ==> RefusedOutright(Moves(Body(snap.records)))
  {
    var body := Body(snap.records);
    var b, echo := BindingOf(d, snap, sha256), Verdicts(d, snap).value[..|body|];
    assert Replayed(d, snap, sha256) == Run(b, body, echo);
    CleanRunIsComplete(b, body, echo);
  }

  // An accepted snapshot shows an execution to the foreman exactly when it holds an execution step.
  lemma DispositionShowsExecution(d: Disposition, snap: Snapshot, sha256: Frame -> string)
    requires SnapshotComplete(d, snap, sha256)
    ensures d.execution.Some? <==> HasStep(Body(snap.records))
  {
    var body := Body(snap.records);
    ExecutionIffStep(BindingOf(d, snap, sha256), body, Verdicts(d, snap).value[..|body|]);
  }
}
