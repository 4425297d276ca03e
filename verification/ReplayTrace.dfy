// The provider-side language of accepted evidence: what the requests, steps, refusals and
// completions of any accepted record list look like, read as one trace.
module ReplayTrace {
  import opened Wire
  import opened Evidence
  import opened Replay
  import opened ReplayInvariant

  datatype Move =
    | Requested(occurrence: string, ordinal: int, at: int)
    | Stepped(occurrence: string, response: string, at: int)
    | Refused(occurrence: string, at: int)
    | Completed(response: string)

  function MoveOf(e: Evidence): seq<Move> {
    match e
    case RequestStarted(occurrence, ordinal, _, at) => [Requested(occurrence, ordinal, at)]
    case ExecutionStep(_, step, _, at) => [Stepped(step.occurrence, step.response, at)]
    case AdmissionRefused(occurrence, _, _, _, _, at) => [Refused(occurrence, at)]
    case ResponseCompleted(response) => [Completed(response)]
    case _ => []
  }

  function Moves(records: seq<Record>): seq<Move> {
    if records == [] then [] else Moves(records[..|records| - 1]) + MoveOf(records[|records| - 1].evidence)
  }

  // The k-th request carries ordinal k.
  predicate RequestAt(t: seq<Move>, k: nat) {
    3 * k < |t| && t[3 * k].Requested? && t[3 * k].ordinal == k
  }

  // ... and is answered by a step for the same occurrence
  predicate StepAt(t: seq<Move>, k: nat) {
    RequestAt(t, k) && 3 * k + 1 < |t| && t[3 * k + 1].Stepped? && t[3 * k + 1].occurrence == t[3 * k].occurrence
  }

  // ... whose response completes before anything else happens.
  predicate RoundAt(t: seq<Move>, k: nat) {
    StepAt(t, k) && 3 * k + 2 < |t| && t[3 * k + 2] == Completed(t[3 * k + 1].response)
  }

  ghost predicate Rounds(t: seq<Move>, n: nat) { forall k | 0 <= k < n :: RoundAt(t, k) }

  // (Requested Stepped Completed)^n
  ghost predicate AllCompleted(t: seq<Move>, n: nat) { |t| == 3 * n && Rounds(t, n) }

  // ... Requested
  ghost predicate AwaitsAnswer(t: seq<Move>, n: nat) { |t| == 3 * n + 1 && Rounds(t, n) && RequestAt(t, n) }

  // ... Requested Stepped
  ghost predicate AwaitsCompletion(t: seq<Move>, n: nat) { |t| == 3 * n + 2 && Rounds(t, n) && StepAt(t, n) }

  // Requested Refused
  predicate RefusedOutright(t: seq<Move>) {
    |t| == 2 && RequestAt(t, 0) && t[1].Refused? && t[1].occurrence == t[0].occurrence
  }

  // Times never run backwards along the trace.
  ghost predicate TimesAscend(t: seq<Move>) {
    forall i, j | 0 <= i < j < |t| && !t[i].Completed? && !t[j].Completed? :: t[i].at <= t[j].at
  }

  ghost predicate OccurrencesDistinct(t: seq<Move>) {
    forall i, j | 0 <= i < j < |t| && t[i].Requested? && t[j].Requested? :: t[i].occurrence != t[j].occurrence
  }

  ghost predicate ResponsesDistinct(t: seq<Move>) {
    forall i, j | 0 <= i < j < |t| && t[i].Stepped? && t[j].Stepped? :: t[i].response != t[j].response
  }

  // ---- the trace determines the provider side of the state ----

  ghost predicate Phase(t: seq<Move>, s: State) {
    var n := |s.completedResponses|;
    if s.refusal.Some? then RefusedOutright(t)
    else if s.pending.Some? then AwaitsAnswer(t, n) && |s.completedRequests| == n
    else if s.openResponse.Some? then AwaitsCompletion(t, n) && |s.completedRequests| == n + 1
    else AllCompleted(t, n) && |s.completedRequests| == n
  }

  ghost predicate Named(t: seq<Move>, s: State) {
    && (forall i | 0 <= i < |t| && t[i].Requested? ::
          t[i].occurrence in s.completedRequests || (s.pending.Some? && s.pending.value.occurrence == t[i].occurrence))
    && (forall i | 0 <= i < |t| && t[i].Stepped? ::
          t[i].response in s.completedResponses || s.openResponse == Some(t[i].response))
    && (s.pending.Some? ==> t != [] && t[|t| - 1] == Requested(s.pending.value.occurrence, s.pending.value.samplingOrdinal, s.pending.value.startedAtMs))
    && (s.openResponse.Some? ==> t != [] && t[|t| - 1].Stepped? && t[|t| - 1].response == s.openResponse.value)
  }

  ghost predicate Timed(t: seq<Move>, s: State) {
    && TimesAscend(t)
    && (forall i | 0 <= i < |t| && !t[i].Completed? ::
          (s.lastBoundaryMs.Some? && t[i].at <= s.lastBoundaryMs.value) || (s.pending.Some? && t[i].at <= s.pending.value.startedAtMs))
  }

  ghost predicate Linked(t: seq<Move>, s: State) {
    Phase(t, s) && Named(t, s) && Timed(t, s) && OccurrencesDistinct(t) && ResponsesDistinct(t)
  }

  lemma RoundsExtend(t: seq<Move>, m: Move, n: nat)
    requires Rounds(t, n)
    ensures Rounds(t + [m], n)
  {
    forall k | 0 <= k < n ensures RoundAt(t + [m], k) {
      assert RoundAt(t, k);
    }
  }

  lemma RequestLinks(s: State, e: Evidence, t: seq<Move>)
    requires Inv(s) && Linked(t, s) && e.RequestStarted? && ApplyRequest(s, e).Some?
    ensures Linked(t + MoveOf(e), ApplyRequest(s, e).value)
  {
    RoundsExtend(t, MoveOf(e)[0], |s.completedResponses|);
  }

  lemma StepLinks(b: Binding, s: State, e: Evidence, t: seq<Move>)
    requires Inv(s) && Linked(t, s) && e.ExecutionStep? && ApplyStep(b, s, e).Some?
    ensures Linked(t + MoveOf(e), ApplyStep(b, s, e).value)
  {
    RoundsExtend(t, MoveOf(e)[0], |s.completedResponses|);
  }

  lemma RefusalLinks(s: State, e: Evidence, t: seq<Move>)
    requires Inv(s) && Linked(t, s) && e.AdmissionRefused? && ApplyRefusal(s, e).Some?
    ensures Linked(t + MoveOf(e), ApplyRefusal(s, e).value)
  {
  }

  lemma CompletionLinks(b: Binding, s: State, rec: Record, t: seq<Move>)
    requires Inv(s) && Linked(t, s) && rec.evidence.ResponseCompleted? && Transition(b, s, rec).Some?
    ensures Linked(t + MoveOf(rec.evidence), Transition(b, s, rec).value)
  {
    var n := |s.completedResponses|;
    RoundsExtend(t, MoveOf(rec.evidence)[0], n);
    assert RoundAt(t + MoveOf(rec.evidence), n) by { assert StepAt(t, n); }
  }

  predicate SamePosition(s: State, u: State) {
    && s.pending == u.pending && s.openResponse == u.openResponse && s.refusal == u.refusal
    && s.completedRequests == u.completedRequests && s.completedResponses == u.completedResponses
    && s.lastBoundaryMs == u.lastBoundaryMs
  }

  lemma SamePositionLinks(t: seq<Move>, s: State, u: State)
    requires Linked(t, s) && SamePosition(s, u)
    ensures Linked(t, u)
  {
  }

  lemma SilentKeepsPosition(b: Binding, s: State, rec: Record)
    requires MoveOf(rec.evidence) == [] && Transition(b, s, rec).Some?
    ensures SamePosition(s, Transition(b, s, rec).value)
  {
  }

  lemma TransitionLinks(b: Binding, s: State, rec: Record, t: seq<Move>)
    requires Inv(s) && Linked(t, s) && Transition(b, s, rec).Some?
    ensures Linked(t + MoveOf(rec.evidence), Transition(b, s, rec).value)
  {
    if rec.evidence.RequestStarted? {
      RequestLinks(s, rec.evidence, t);
    } else if rec.evidence.ExecutionStep? {
      StepLinks(b, s, rec.evidence, t);
    } else if rec.evidence.AdmissionRefused? {
      RefusalLinks(s, rec.evidence, t);
    } else if rec.evidence.ResponseCompleted? {
      CompletionLinks(b, s, rec, t);
    } else {
      SilentKeepsPosition(b, s, rec);
      SamePositionLinks(t, s, Transition(b, s, rec).value);
      assert t + MoveOf(rec.evidence) == t;
    }
  }

  // Every accepted record list, read as a trace, is a prefix of the provider language, and the
  // replay state is exactly the position in it.
  lemma {:induction false} RunLinks(b: Binding, records: seq<Record>, echo: seq<Option<Detail>>)
    requires |records| == |echo| && Run(b, records, echo).Some?
    ensures Linked(Moves(records), Run(b, records, echo).value)
  {
    if records != [] {
      var last := |records| - 1;
      var rec := records[last];
      var s := Run(b, records[..last], echo[..last]).value;
      RunLinks(b, records[..last], echo[..last]);
      RunKeeps(b, records[..last], echo[..last]);
      TransitionLinks(b, s, rec, Moves(records[..last]));
      SamePositionLinks(Moves(records), Transition(b, s, rec).value, Run(b, records, echo).value);
    }
  }
}
