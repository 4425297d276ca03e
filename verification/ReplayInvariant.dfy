// What every accepted prefix of an evidence replay keeps.
module ReplayInvariant {
  import opened Wire
  import opened Evidence
  import opened Replay

  // The provider side of the state, alone.
  ghost predicate Inv(s: State) {
    && (s.execution.Some? ==> s.refusal.None? && IdentityIsId(s.execution.value) && s.lastBoundaryMs.Some? && s.completedRequests != {})
    && (s.execution.None? ==> s.completedResponses == {} && s.openResponse.None? && !s.approval)
    && (s.execution.None? && s.refusal.None? ==> s.completedRequests == {} && s.lastBoundaryMs.None?)
    && (s.refusal.Some? ==> s.completedRequests == {s.refusal.value.occurrence} && s.pending.None? && s.lastBoundaryMs.Some?)
    && (s.pending.Some? ==> s.openResponse.None? && PendingInv(s, s.pending.value))
    && (s.openResponse.Some? ==> !s.approval && BoundedId(s.openResponse.value) && s.openResponse.value !in s.completedResponses)
  }

  ghost predicate PendingInv(s: State, p: Pending) {
    && p.samplingOrdinal == p.requestOrder == |s.completedRequests|
    && BoundedId(p.occurrence) && U32(p.samplingOrdinal) && p.occurrence !in s.completedRequests
    && (s.lastBoundaryMs.Some? ==> s.lastBoundaryMs.value <= p.startedAtMs)
  }

  lemma ApplyRequestKeeps(s: State, e: Evidence)
    requires Inv(s) && e.RequestStarted? && BoundedEvidence(e) && ApplyRequest(s, e).Some?
    ensures Inv(ApplyRequest(s, e).value)
  {
  }

  lemma ApplyStepKeeps(b: Binding, s: State, e: Evidence)
    requires Inv(s) && e.ExecutionStep? && BoundedEvidence(e) && ApplyStep(b, s, e).Some?
    ensures Inv(ApplyStep(b, s, e).value)
  {
  }

  lemma ApplyRefusalKeeps(s: State, e: Evidence)
    requires Inv(s) && e.AdmissionRefused? && ApplyRefusal(s, e).Some?
    ensures Inv(ApplyRefusal(s, e).value)
  {
  }

  lemma TransitionKeeps(b: Binding, s: State, rec: Record)
    requires Inv(s) && BoundedEvidence(rec.evidence) && Transition(b, s, rec).Some?
    ensures Inv(Transition(b, s, rec).value)
  {
    match rec.evidence
    case RequestStarted(_, _, _, _) => ApplyRequestKeeps(s, rec.evidence);
    case ExecutionStep(_, _, _, _) => ApplyStepKeeps(b, s, rec.evidence);
    case AdmissionRefused(_, _, _, _, _, _) => ApplyRefusalKeeps(s, rec.evidence);
    case _ =>
  }

  lemma StepKeeps(b: Binding, s: State, rec: Record, echo: Option<Detail>)
    requires Inv(s) && Step(b, s, rec, echo).Some?
    ensures Inv(Step(b, s, rec, echo).value)
  {
    TransitionKeeps(b, s, rec);
  }

  // Every accepted prefix reaches a state that satisfies the invariant.
  lemma {:induction false} RunKeeps(b: Binding, records: seq<Record>, echo: seq<Option<Detail>>)
    requires |records| == |echo| && Run(b, records, echo).Some?
    ensures Inv(Run(b, records, echo).value)
  {
    if records != [] {
      var last := |records| - 1;
      RunKeeps(b, records[..last], echo[..last]);
      StepKeeps(b, Run(b, records[..last], echo[..last]).value, records[last], echo[last]);
    }
  }

  // ApplyStep without its tests on the open response, the retained boundary and the completed
  // request occurrences.
  function ApplyStepBare(b: Binding, s: State, e: Evidence): Option<State>
    requires e.ExecutionStep?
  {
    if s.approval || s.pending.None? then None
    else
      var pending := s.pending.value;
      if e.step.occurrence != pending.occurrence || e.step.samplingOrdinal != pending.samplingOrdinal
         || e.step.requestOrder != pending.requestOrder
         || e.step.provider != b.provider || e.step.model != b.model || e.step.thread != b.thread || e.step.turn != b.turn then None
      else if s.execution.None? && pending.occurrence != b.requestOccurrence then None
      else if !IdentityIsId(e.execution) then None
      else if s.execution.Some? && s.execution.value != e.execution then None
      else if s.execution.None? && e.step.response != e.execution.firstResponse then None
      else if e.observedAtMs < pending.startedAtMs || e.step.response in s.completedResponses then None
      else Some(s.(pending := None, completedRequests := s.completedRequests + {pending.occurrence},
                   lastBoundaryMs := Some(e.observedAtMs), execution := Some(e.execution), openResponse := Some(e.step.response)))
  }

  // In a reachable state those three tests can never be the reason for a refusal.
  lemma StepChecksAreImplied(b: Binding, records: seq<Record>, echo: seq<Option<Detail>>, e: Evidence)
    requires |records| == |echo| && Run(b, records, echo).Some? && e.ExecutionStep?
    ensures ApplyStep(b, Run(b, records, echo).value, e) == ApplyStepBare(b, Run(b, records, echo).value, e)
  {
    RunKeeps(b, records, echo);
  }

  // ---- what later records cannot change ----

  // Everything except client requests, ordinals and the discrepancy flag.
  function ProviderSide(s: State): State { s.(next := 0, clientRequests := map[], discrepancy := false) }

  lemma StepFreezes(b: Binding, s: State, rec: Record, echo: Option<Detail>)
    requires Closed(s) && Step(b, s, rec, echo).Some?
    ensures var t := Step(b, s, rec, echo).value;
            ProviderSide(t) == ProviderSide(s) && Closed(t) && (s.discrepancy ==> t.discrepancy)
  {
    assert rec.evidence.Discrepancy? || rec.evidence.ClientRequestIssued? || rec.evidence.ClientResponseRetained?;
  }

  // After the first discrepancy, or after the turn of an execution has completed, the provider
  // side of the state never changes again.
  lemma {:induction false} RunFreezes(b: Binding, records: seq<Record>, echo: seq<Option<Detail>>, k: nat)
    requires k <= |records| == |echo| && Run(b, records, echo).Some?
    ensures Run(b, records[..k], echo[..k]).Some?
    ensures var s, t := Run(b, records[..k], echo[..k]).value, Run(b, records, echo).value;
            Closed(s) ==> ProviderSide(t) == ProviderSide(s) && Closed(t)
  {
    if k == |records| {
      assert records[..k] == records && echo[..k] == echo;
    } else {
      var last := |records| - 1;
      RunFreezes(b, records[..last], echo[..last], k);
      assert records[..last][..k] == records[..k] && echo[..last][..k] == echo[..k];
      var s := Run(b, records[..last], echo[..last]).value;
      if Closed(s) {
        StepFreezes(b, s, records[last], echo[last]);
      }
    }
  }

  lemma TransitionKeepsIdentity(b: Binding, s: State, rec: Record)
    requires Transition(b, s, rec).Some?
    ensures var t := Transition(b, s, rec).value;
            (s.execution.Some? ==> t.execution == s.execution) && (s.refusal.Some? ==> t.refusal == s.refusal)
  {
  }

  // An execution identity, once bound, is the identity of every later prefix; so is a refusal.
  lemma {:induction false} RunKeepsIdentity(b: Binding, records: seq<Record>, echo: seq<Option<Detail>>, k: nat)
    requires k <= |records| == |echo| && Run(b, records, echo).Some?
    ensures Run(b, records[..k], echo[..k]).Some?
    ensures var s, t := Run(b, records[..k], echo[..k]).value, Run(b, records, echo).value;
            (s.execution.Some? ==> t.execution == s.execution) && (s.refusal.Some? ==> t.refusal == s.refusal)
  {
    if k == |records| {
      assert records[..k] == records && echo[..k] == echo;
    } else {
      var last := |records| - 1;
      RunKeepsIdentity(b, records[..last], echo[..last], k);
      assert records[..last][..k] == records[..k] && echo[..last][..k] == echo[..k];
      TransitionKeepsIdentity(b, Run(b, records[..last], echo[..last]).value, records[last]);
    }
  }
}
