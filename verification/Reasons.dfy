// Which reason a discrepancy must carry: ordered rules, each stated on the frame, the binding and
// the records so far, and named by the reason for its breach.
module Reasons {
  import opened Wire
  import opened Evidence
  import opened Replay
  import opened ReplayInvariant
  import opened ReplayTrace
  import opened ReplayHistory

  // ---- rules ----

  // Rules in order of precedence.
  datatype Rules = Done | Rule(broken: bool, reason: Detail, rest: Rules)

  // The reason of the first broken rule.
  function FirstBreach(r: Rules): Option<Detail> {
    match r
    case Done => None
    case Rule(broken, reason, rest) => if broken then Some(reason) else FirstBreach(rest)
  }

  function Depth(r: Rules): nat { if r.Done? then 0 else 1 + Depth(r.rest) }

  function At(r: Rules, i: nat): Rules
    requires i < Depth(r)
    ensures At(r, i).Rule?
  {
    if i == 0 then r else At(r.rest, i - 1)
  }

  predicate BrokenAt(r: Rules, i: nat) { i < Depth(r) && At(r, i).broken }

  ghost predicate BrokenFirst(r: Rules, i: nat) { BrokenAt(r, i) && forall j: nat | j < i :: !BrokenAt(r, j) }

  lemma BrokenInRest(r: Rules, i: nat)
    requires r.Rule?
    ensures BrokenAt(r, i + 1) <==> BrokenAt(r.rest, i)
    ensures BrokenAt(r, 0) <==> r.broken
  {
  }

  lemma {:induction false} NoBreachIff(r: Rules)
    ensures FirstBreach(r).None? <==> forall i: nat :: !BrokenAt(r, i)
  {
    hide BrokenAt;
    if r.Rule? {
      NoBreachIff(r.rest);
      BrokenInRest(r, 0);
      if FirstBreach(r).None? {
        forall i: nat ensures !BrokenAt(r, i) { if i > 0 { BrokenInRest(r, i - 1); } }
      } else if !r.broken {
        var i: nat :| BrokenAt(r.rest, i);
        BrokenInRest(r, i);
      }
    } else {
      NothingBroken(r);
    }
  }

  lemma NothingBroken(r: Rules)
    requires r.Done?
    ensures forall i: nat :: !BrokenAt(r, i)
  {
  }

  lemma ShiftBroken(r: Rules, i: nat)
    requires r.Rule? && !r.broken
    ensures BrokenFirst(r, i + 1) <==> BrokenFirst(r.rest, i)
  {
    hide BrokenAt;
    BrokenInRest(r, i);
    if BrokenFirst(r.rest, i) {
      forall j: nat | j < i + 1 ensures !BrokenAt(r, j) { BrokenInRest(r, if j > 0 then j - 1 else 0); }
    }
    if BrokenFirst(r, i + 1) {
      forall j: nat | j < i ensures !BrokenAt(r.rest, j) { BrokenInRest(r, j); }
    }
  }

  // A reason is given exactly when its rule is broken and none before it is.
  lemma {:induction false} FirstBreachIff(r: Rules, d: Detail)
    ensures FirstBreach(r) == Some(d) <==> exists i :: BrokenFirst(r, i) && At(r, i).reason == d
  {
    if r.Rule? && r.broken {
      assert At(r, 0) == r && BrokenFirst(r, 0);
    } else if r.Rule? {
      hide BrokenFirst;
      FirstBreachIff(r.rest, d);
      if i :| BrokenFirst(r.rest, i) && At(r.rest, i).reason == d { FoundDeeper(r, i); }
      if i :| BrokenFirst(r, i) && At(r, i).reason == d { FoundShallower(r, i); }
    }
  }

  lemma FoundDeeper(r: Rules, i: nat)
    requires r.Rule? && !r.broken && BrokenFirst(r.rest, i)
    ensures BrokenFirst(r, i + 1) && At(r, i + 1) == At(r.rest, i)
  {
    ShiftBroken(r, i);
  }

  lemma FoundShallower(r: Rules, i: nat)
    requires r.Rule? && !r.broken && BrokenFirst(r, i)
    ensures i > 0 && BrokenFirst(r.rest, i - 1) && At(r, i) == At(r.rest, i - 1)
  {
    ShiftBroken(r, i - 1);
  }

  function Then(r: Rules, more: Rules): Rules { if r.Done? then more else Rule(r.broken, r.reason, Then(r.rest, more)) }

  lemma {:induction false} FirstBreachThen(r: Rules, more: Rules)
    ensures FirstBreach(Then(r, more)) == Either(FirstBreach(r), FirstBreach(more))
  {
    if r.Rule? { FirstBreachThen(r.rest, more); }
  }

  // ---- fields ----

  predicate Says(p: Fields, k: Key, text: string) { k in p && p[k] == Str(text) }
  predicate Identifies(p: Fields, k: Key) { k in p && p[k].Str? && 1 <= |p[k].s| <= 512 }
  predicate Counts(p: Fields, k: Key, low: int, high: int) { k in p && p[k].Int? && low <= p[k].n <= high }
  predicate NumberIs(p: Fields, k: Key, n: int) { k in p && p[k] == Int(n) }
  predicate SaysWithin(p: Fields, outer: Key, k: Key, text: string) { outer in p && p[outer].Obj? && Says(p[outer].fields, k, text) }

  // ---- the moves so far ----

  // Number of requests.
  function RequestCount(t: seq<Move>): nat {
    if t == [] then 0 else RequestCount(t[..|t| - 1]) + (if t[|t| - 1].Requested? then 1 else 0)
  }

  // Some answer came later than `at`.
  ghost predicate AnsweredAfter(t: seq<Move>, at: int) { exists i :: 0 <= i < |t| && Answer(t[i]) && at < t[i].at }

  // The last move is the request that the frame names.
  predicate AnswersLast(t: seq<Move>, p: Fields) {
    LastRequested(t) && Says(p, KRequestOccurrenceId, t[|t| - 1].occurrence)
    && NumberIs(p, KSamplingOrdinal, t[|t| - 1].ordinal) && NumberIs(p, KRequestOrder, t[|t| - 1].ordinal)
  }

  // Observed before the request it answers.
  predicate BeforeRequest(t: seq<Move>, p: Fields) {
    LastRequested(t) && Counts(p, KObservedAtMs, -SAFE, SAFE) && p[KObservedAtMs].n < t[|t| - 1].at
  }

  // ---- provider boundaries ----

  function CommonRules(b: Binding, p: Fields, fields: set<Key>): Rules {
    Rule(p.Keys != fields, ClosedFields,
    Rule(!Says(p, KThreadId, b.thread), SubstitutedThread,
    Rule(!Says(p, KTurnId, b.turn), SubstitutedTurn,
    Rule(!Says(p, KProvider, b.provider), SubstitutedProvider,
    Rule(!Says(p, KModel, b.model), SubstitutedModel,
    Rule(!Identifies(p, KRequestOccurrenceId), InvalidOccurrence,
    Rule(!Counts(p, KSamplingOrdinal, 0, U32_MAX), InvalidSamplingOrdinal,
    Rule(!Counts(p, KRequestOrder, 0, U32_MAX), InvalidRequestOrder, Done))))))))
  }

  ghost function RequestRules(t: seq<Move>, p: Fields): Rules {
    Rule(!Counts(p, KStartedAtMs, -SAFE, SAFE), InvalidStartedAt,
    Rule(Counts(p, KStartedAtMs, -SAFE, SAFE) && AnsweredAfter(t, p[KStartedAtMs].n), StartBeforeBoundary,
    Rule(LastRequested(t), HidesPendingRequest,
    Rule(LastStepped(t), BeforeResponseCompletion,
    Rule(LastRefused(t), FollowsClosedDispatch,
    Rule(!(NumberIs(p, KSamplingOrdinal, RequestCount(t)) && NumberIs(p, KRequestOrder, RequestCount(t))), RequestOrdering,
    Rule(Identifies(p, KRequestOccurrenceId) && p[KRequestOccurrenceId].s in Answered(t), DuplicateOccurrence,
    Rule(RequestCount(t) > 0 && !AnyStepped(t), MultiplePreAdmission, Done))))))))
  }

  function PendingRules(t: seq<Move>, p: Fields): Rules { Rule(!AnswersLast(t, p), NoPendingRequest, Done) }

  function StepRules(t: seq<Move>, p: Fields): Rules {
    Rule(!Identifies(p, KResponseId), InvalidResponseId,
    Rule(!Counts(p, KObservedAtMs, -SAFE, SAFE), InvalidObservedAt,
    Rule(BeforeRequest(t, p), ResponseBeforeStart,
    Rule(Identifies(p, KResponseId) && (p[KResponseId].s in Finished(t) || (LastStepped(t) && t[|t| - 1].response == p[KResponseId].s)),
         DuplicateResponse, Done))))
  }

  ghost function RefusalRules(t: seq<Move>, p: Fields): Rules {
    Rule(AnyStepped(t), RefusalAfterExecution,
    Rule(!(KResponseCreated in p && p[KResponseCreated] == Bool(false) && KWillRetry in p && p[KWillRetry] == Bool(false)), RefusalNotTerminal,
    Rule(!Says(p, KRefusalKind, "modelAtCapacity"), UnknownRefusalKind,
    Rule(!Says(p, KCodexErrorInfo, "serverOverloaded"), RefusalTypedError,
    Rule(!(KRetryAfterMs in p && (p[KRetryAfterMs].Null? || Counts(p, KRetryAfterMs, 0, SAFE))), InvalidRetryAfter,
    Rule(!(KDiagnostic in p && p[KDiagnostic].Str? && |p[KDiagnostic].s| <= 4096), DiagnosticExceedsBound,
    Rule(!Counts(p, KObservedAtMs, -SAFE, SAFE), InvalidObservedAt,
    Rule(BeforeRequest(t, p), RefusalBeforeStart, Done))))))))
  }

  // A completion names the open response.  Without one, a response id that is no string slips through.
  ghost function CompletionRules(b: Binding, t: seq<Move>, p: Fields): Rules {
    Rule(p.Keys != COMPLETION_FIELDS, CompletionFields,
    Rule(!AnyStepped(t), CompletionWithoutExecution,
    Rule(!(Says(p, KThreadId, b.thread) && Says(p, KTurnId, b.turn)), CompletionIdentity,
    Rule(if LastStepped(t) then !Says(p, KResponseId, t[|t| - 1].response) else KResponseId in p && p[KResponseId].Str?, CompletionResponse, Done))))
  }

  // ---- the state of an accepted run ----

  ghost predicate Faithful(t: seq<Move>, s: State) { Inv(s) && Linked(t, s) && Mirrors(t, s) }

  lemma TraceAscends(t: seq<Move>, s: State)
    requires Linked(t, s)
    ensures TimesAscend(t)
  {
  }

  lemma {:induction false} EarlierAnswers(t: seq<Move>, i: nat)
    requires i < |t| && Answer(t[i]) && TimesAscend(t)
    ensures AnswerTime(t).Some? && t[i].at <= AnswerTime(t).value
  {
    var last := |t| - 1;
    if i < last && !Answer(t[last]) {
      assert TimesAscend(t[..last]);
      EarlierAnswers(t[..last], i);
    }
  }

  lemma {:induction false} AnswerTimeIsAnswer(t: seq<Move>) returns (i: nat)
    requires AnswerTime(t).Some?
    ensures i < |t| && Answer(t[i]) && t[i].at == AnswerTime(t).value
  {
    if Answer(t[|t| - 1]) { i := |t| - 1; } else { i := AnswerTimeIsAnswer(t[..|t| - 1]); }
  }

  lemma AnsweredAfterIff(t: seq<Move>, at: int)
    requires TimesAscend(t)
    ensures AnsweredAfter(t, at) <==> AnswerTime(t).Some? && at < AnswerTime(t).value
  {
    if i :| 0 <= i < |t| && Answer(t[i]) && at < t[i].at { EarlierAnswers(t, i); }
    if AnswerTime(t).Some? { var i := AnswerTimeIsAnswer(t); }
  }

  lemma CountLast(t: seq<Move>)
    requires t != []
    ensures RequestCount(t) == RequestCount(t[..|t| - 1]) + (if t[|t| - 1].Requested? then 1 else 0)
  {
  }

  lemma {:induction false} CountRounds(t: seq<Move>, n: nat)
    requires AllCompleted(t, n)
    ensures RequestCount(t) == n
  {
    if n > 0 {
      assert RoundAt(t, n - 1);
      var u := t[..3 * n - 3];
      forall k | 0 <= k < n - 1 ensures RoundAt(u, k) { assert RoundAt(t, k); }
      CountRounds(u, n - 1);
      assert t[..|t| - 1][..|t| - 2] == t[..|t| - 2] && t[..|t| - 2][..|t| - 3] == u;
      CountLast(t);
      CountLast(t[..|t| - 1]);
      CountLast(t[..|t| - 2]);
    }
  }

  lemma CountIsAnswered(t: seq<Move>, s: State)
    requires Faithful(t, s) && !LastRequested(t) && !LastStepped(t) && !LastRefused(t)
    ensures RequestCount(t) == |s.completedRequests|
  {
    CountRounds(t, |s.completedResponses|);
  }

  // ---- the derived reasons are the first breaches ----

  lemma CommonReason(b: Binding, p: Fields, fields: set<Key>)
    ensures FirstBreach(CommonRules(b, p, fields)) == CommonDetail(b, p, fields)
  {
    var r := CommonRules(b, p, fields);
    Four(r);
    Four(r.rest.rest.rest.rest);
  }

  lemma One(r: Rules)
    requires r.Rule?
    ensures FirstBreach(r) == if r.broken then Some(r.reason) else FirstBreach(r.rest)
  {
  }

  // Four rules at a time.
  lemma Four(r: Rules)
    requires r.Rule? && r.rest.Rule? && r.rest.rest.Rule? && r.rest.rest.rest.Rule?
    ensures FirstBreach(r) == if r.broken then Some(r.reason)
                              else if r.rest.broken then Some(r.rest.reason)
                              else if r.rest.rest.broken then Some(r.rest.rest.reason)
                              else if r.rest.rest.rest.broken then Some(r.rest.rest.rest.reason)
                              else FirstBreach(r.rest.rest.rest.rest)
  {
    One(r);
    One(r.rest);
    One(r.rest.rest);
    One(r.rest.rest.rest);
  }

  // The shared checks bound the numbers and identities that the later rules read.
  lemma CommonBounds(b: Binding, p: Fields, fields: set<Key>)
    requires CommonDetail(b, p, fields).None?
    ensures Identifies(p, KRequestOccurrenceId) && Counts(p, KSamplingOrdinal, 0, U32_MAX) && Counts(p, KRequestOrder, 0, U32_MAX)
  {
  }

  lemma RequestOrderReason(t: seq<Move>, s: State, p: Fields)
    requires Faithful(t, s)
    requires Identifies(p, KRequestOccurrenceId) && Counts(p, KSamplingOrdinal, 0, U32_MAX) && Counts(p, KRequestOrder, 0, U32_MAX)
    ensures FirstBreach(RequestRules(t, p)) == RequestOrderDetail(s, p)
  {
    hide Inv, Linked, AnyStepped, Answered, Finished, AnsweredAfter, RequestCount;
    TraceAscends(t, s);
    if Counts(p, KStartedAtMs, -SAFE, SAFE) { AnsweredAfterIff(t, p[KStartedAtMs].n); }
    if !LastRequested(t) && !LastStepped(t) && !LastRefused(t) { CountIsAnswered(t, s); }
    var r := RequestRules(t, p);
    Four(r);
    Four(r.rest.rest.rest.rest);
  }

  lemma RequestReason(b: Binding, t: seq<Move>, s: State, p: Fields)
    requires Faithful(t, s)
    ensures FirstBreach(Then(CommonRules(b, p, REQUEST_FIELDS), RequestRules(t, p))) == RequestDetail(b, s, p)
  {
    hide Faithful, CommonRules, RequestRules, CommonDetail, RequestOrderDetail, FirstBreach;
    FirstBreachThen(CommonRules(b, p, REQUEST_FIELDS), RequestRules(t, p));
    CommonReason(b, p, REQUEST_FIELDS);
    if CommonDetail(b, p, REQUEST_FIELDS).None? {
      CommonBounds(b, p, REQUEST_FIELDS);
      RequestOrderReason(t, s, p);
    }
  }

  lemma BoundaryReason(b: Binding, t: seq<Move>, s: State, p: Fields, fields: set<Key>)
    requires Faithful(t, s)
    ensures FirstBreach(Then(CommonRules(b, p, fields), PendingRules(t, p))) == BoundaryDetail(b, s, p, fields)
  {
    hide Inv, Linked, CommonRules, CommonDetail, AnyStepped, Answered, Finished;
    FirstBreachThen(CommonRules(b, p, fields), PendingRules(t, p));
    CommonReason(b, p, fields);
    if CommonDetail(b, p, fields).None? { CommonBounds(b, p, fields); }
    One(PendingRules(t, p));
  }

  lemma StepAnswerReason(t: seq<Move>, s: State, p: Fields)
    requires Faithful(t, s)
    ensures FirstBreach(StepRules(t, p)) == StepAnswerDetail(s, p)
  {
    hide Inv, Linked, AnyStepped, Answered, Finished;
    Four(StepRules(t, p));
  }

  lemma RefusalAnswerReason(t: seq<Move>, s: State, p: Fields)
    requires Faithful(t, s)
    ensures FirstBreach(RefusalRules(t, p)) == RefusalAnswerDetail(s, p)
  {
    hide Inv, Linked, AnyStepped, Answered, Finished;
    var r := RefusalRules(t, p);
    Four(r);
    Four(r.rest.rest.rest.rest);
  }

  lemma StepReason(b: Binding, t: seq<Move>, s: State, p: Fields)
    requires Faithful(t, s)
    ensures FirstBreach(Then(Then(CommonRules(b, p, STEP_FIELDS), PendingRules(t, p)), StepRules(t, p))) == StepDetail(b, s, p)
  {
    hide Faithful, CommonRules, PendingRules, StepRules, StepAnswerDetail, BoundaryDetail, FirstBreach, Then;
    FirstBreachThen(Then(CommonRules(b, p, STEP_FIELDS), PendingRules(t, p)), StepRules(t, p));
    BoundaryReason(b, t, s, p, STEP_FIELDS);
    StepAnswerReason(t, s, p);
  }

  lemma RefusalReason(b: Binding, t: seq<Move>, s: State, p: Fields)
    requires Faithful(t, s)
    ensures FirstBreach(Then(Then(CommonRules(b, p, REFUSAL_FIELDS), PendingRules(t, p)), RefusalRules(t, p))) == RefusalDetail(b, s, p)
  {
    hide Faithful, CommonRules, PendingRules, RefusalRules, RefusalAnswerDetail, BoundaryDetail, FirstBreach, Then;
    FirstBreachThen(Then(CommonRules(b, p, REFUSAL_FIELDS), PendingRules(t, p)), RefusalRules(t, p));
    BoundaryReason(b, t, s, p, REFUSAL_FIELDS);
    RefusalAnswerReason(t, s, p);
  }

  lemma CompletionReason(b: Binding, t: seq<Move>, s: State, p: Fields)
    requires Faithful(t, s)
    ensures FirstBreach(CompletionRules(b, t, p)) == CompletionDetail(b, s, p)
  {
    hide Inv, Linked, AnyStepped, Answered, Finished;
    Four(CompletionRules(b, t, p));
  }
}
