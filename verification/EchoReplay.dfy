// The ordered echo replay over records: it runs the lifecycle machine, and its verdicts are
// exactly the departures from the lifecycle language.
module EchoReplay {
  import opened Wire
  import opened Evidence
  import opened Echo
  import opened EchoLaws

  // ---- the replay as it runs ----

  class EchoState {
    var input: Option<Frame>
    var userId: Option<Frame>
    var userCompleted: bool
    var agentId: Option<Frame>
    var agentText: Option<Frame>
    var agentCompleted: bool
    var completedIds: set<string>
    var completedBytes: nat

    function View(): Progress
      reads this
    {
      Progress(input, userId, userCompleted, agentId, agentText, agentCompleted, completedIds, completedBytes)
    }

    constructor ()
      ensures View() == START
    {
      input, userId, userCompleted := None, None, false;
      agentId, agentText, agentCompleted := None, None, false;
      completedIds, completedBytes := {}, 0;
    }

    method Transition(m: ItemMethod, params: Frame, isUser: bool, isAgent: bool) returns (refusal: Option<Detail>)
      modifies this
      ensures !isUser && !isAgent ==> View() == old(View()) && refusal == Some(ItemShape)
      ensures isUser || isAgent ==> (View(), refusal) == Advance(old(View()), Selected(m, params, isUser))
      ensures refusal.Some? ==> View() == old(View())
    {
      if !isUser && !isAgent { return Some(ItemShape); }
      if isUser {
        refusal := UserTransition(m, At(At(params, KItem), KId));
      } else if m.ItemStarted? || m.ItemCompleted? {
        var item := At(params, KItem);
        refusal := AgentTransition(m, At(item, KId), At(item, KText));
      } else if m.ItemDelta? {
        if agentCompleted || agentId != Some(At(params, KItemId)) { return Some(Detail.AgentDelta); }
        return None;
      } else {
        var items := At(At(params, KTurn), KItems);
        var item := if items.Arr? && |items.items| > 0 then items.items[0] else Null;
        if !agentCompleted || agentId != Some(At(item, KId)) || agentText != Some(At(item, KText)) { return Some(AgentSummary); }
        return None;
      }
    }

    method UserTransition(m: ItemMethod, id: Frame) returns (refusal: Option<Detail>)
      modifies this
      ensures (View(), refusal) == Advance(old(View()), if m.ItemStarted? then UserStarted(id) else UserCompleted(id))
      ensures refusal.Some? ==> View() == old(View())
    {
      if m.ItemStarted? {
        if userId.Some? { return Some(Detail.UserStart); }
        userId := Some(id);
      } else if userId != Some(id) {
        return Some(UserComplete);
      } else if userCompleted {
        return Some(UserDuplicate);
      } else {
        userCompleted := true;
      }
      return None;
    }

    method AgentTransition(m: ItemMethod, id: Frame, text: Frame) returns (refusal: Option<Detail>)
      modifies this
      ensures (View(), refusal) == Advance(old(View()), if m.ItemStarted? then AgentStarted(id, text) else AgentCompleted(id, text))
      ensures refusal.Some? ==> View() == old(View())
    {
      if m.ItemStarted? {
        if (agentId.Some? && !agentCompleted) || IdText(id) in completedIds { return Some(AgentStart); }
        agentId, agentText, agentCompleted := Some(id), Some(text), false;
      } else if agentId != Some(id) || agentCompleted {
        return Some(AgentComplete);
      } else {
        if completedBytes + TextBytes(text) > OUTPUT_BYTES { return Some(AgentTotal); }
        completedBytes := completedBytes + TextBytes(text);
        completedIds := completedIds + {IdText(id)};
        agentText := Some(text);
        agentCompleted := true;
      }
      return None;
    }

    // One record: the refusal that its frame calls for.
    method ConsumeRecord(b: Scope, rec: Record, wire: Frame) returns (refusal: Option<Detail>)
      modifies this
      ensures (View(), refusal) == Consume(b, old(View()), rec, wire)
    {
      hide ItemClass, NormalizeInput, NotificationWire, UserEcho, AgentOutput, LooseCompletion, Selected, TextBytes;
      var m, params := ItemClass(rec.name), At(wire, KParams);
      refusal := None;
      if InputRecord(rec) {
        var normal := NormalizeInput(At(params, KInput));
        if normal.None? { return Some(InputShape); }
        if input.Some? { return Some(InputDuplicate); }
        input := normal;
      } else if rec.lane == Some(NotificationLane) && Participates(rec) {
        var isUser := NotificationWire(wire) && UserEcho(m, params, b, input);
        var isAgent := NotificationWire(wire) && AgentOutput(m, params, b);
        if isUser || isAgent {
          refusal := Transition(m, params, isUser, isAgent);
        } else if LooseCompletion(m, params, b) && At(At(params, KItem), KText).Str? {
          completedBytes := completedBytes + TextBytes(At(At(params, KItem), KText));
          if completedBytes > OUTPUT_BYTES { refusal := Some(AgentTotal); }
        }
      }
    }
  }

  // One round of the loop below, on values.
  lemma RunStep(b: Scope, records: seq<Record>, i: nat)
    requires i < |records|
    ensures EchoRun(b, records[..i + 1]) ==
            var prior := EchoRun(b, records[..i]);
            if prior.None? then None
            else
              var next := EchoStep(b, prior.value.0, records[i]);
              if next.None? then None else Some((next.value.0, prior.value.1 + [next.value.1]))
  {
    assert records[..i + 1][..i] == records[..i];
  }

  // A rejected prefix rejects the whole.
  lemma {:induction false} PrefixRuns(b: Scope, records: seq<Record>, i: nat)
    requires i <= |records| && EchoRun(b, records).Some?
    ensures EchoRun(b, records[..i]).Some?
    decreases |records|
  {
    if i < |records| {
      PrefixRuns(b, records[..|records| - 1], i);
      assert records[..|records| - 1][..i] == records[..i];
    } else {
      assert records[..i] == records;
    }
  }

  method ValidateSnapshot(b: Scope, records: seq<Record>, enrolled: bool) returns (verdicts: Option<seq<Option<Detail>>>)
    ensures verdicts == EchoVerdicts(b, records, enrolled)
  {
    hide EchoStep, Enables;
    var errors: seq<Option<Detail>> := seq(|records|, i => None);
    var enabled := enrolled;
    for i := 0 to |records|
      invariant enabled <==> enrolled || exists j | 0 <= j < i :: Enables(records[j])
    {
      if Enables(records[i]) { enabled := true; }
    }
    if !enabled { return Some(errors); }
    var state := new EchoState();
    for i := 0 to |records|
      invariant |errors| == |records|
      invariant EchoRun(b, records[..i]) == Some((state.View(), errors[..i]))
    {
      RunStep(b, records, i);
      if EchoRun(b, records).Some? { PrefixRuns(b, records, i + 1); }
      var verdict := CheckRecord(b, state, records[i]);
      if verdict.None? { return None; }
      ghost var before := errors[..i];
      errors := errors[i := verdict.value];
      assert errors[..i + 1] == before + [verdict.value];
    }
    assert records[..|records|] == records && errors[..|records|] == errors;
    return Some(errors);
  }

  // A record against the refusal that its frame calls for.
  method CheckRecord(b: Scope, state: EchoState, rec: Record) returns (verdict: Option<Option<Detail>>)
    modifies state
    ensures verdict.Some? <==> EchoStep(b, old(state.View()), rec).Some?
    ensures verdict.Some? ==> EchoStep(b, old(state.View()), rec) == Some((state.View(), verdict.value))
  {
    if rec.raw.None? { return Some(None); }
    if rec.raw.value.wire.None? { return None; }
    var wire := rec.raw.value.wire.value;
    if !SelectorAdmits(b, state.View(), rec, wire) { return None; }
    var expected := state.ConsumeRecord(b, rec, wire);
    if expected.Some? {
      if !rec.evidence.Discrepancy? || RetainedError(rec) != expected || !FailureWire(b, rec, wire) { return None; }
    } else if RetainedError(rec).Some? {
      return None;
    }
    return Some(expected);
  }

  // ---- traces of records ----

  function RecordEvent(b: Scope, p: Progress, rec: Record): Option<Event> {
    if rec.raw.None? || rec.raw.value.wire.None? then None else EventOf(b, p, rec, rec.raw.value.wire.value)
  }

  // The lifecycle events that the records carry; with `all`, the refused ones too.
  function Trace(b: Scope, records: seq<Record>, all: bool): seq<Event>
    requires EchoRun(b, records).Some?
  {
    if records == [] then []
    else
      var front, rec := records[..|records| - 1], records[|records| - 1];
      var p := EchoRun(b, front).value.0;
      var event := RecordEvent(b, p, rec);
      if event.Some? && (all || EchoStep(b, p, rec).value.1.None?) then Trace(b, front, all) + [event.value]
      else Trace(b, front, all)
  }

  // The selectors hand out string identities.
  lemma EventsAreIdentified(b: Scope, p: Progress, rec: Record)
    ensures RecordEvent(b, p, rec).Some? ==> Identified(RecordEvent(b, p, rec).value)
  {
  }

  lemma {:induction false} TraceIsIdentified(b: Scope, records: seq<Record>, all: bool)
    requires EchoRun(b, records).Some?
    ensures AllIdentified(Trace(b, records, all))
  {
    hide RecordEvent, EchoStep, Identified;
    if records != [] {
      TraceIsIdentified(b, records[..|records| - 1], all);
      EventsAreIdentified(b, EchoRun(b, records[..|records| - 1]).value.0, records[|records| - 1]);
    }
  }

  // Two states that differ only in the input and in bytes charged by refused completions.
  predicate Shadows(p: Progress, q: Progress) {
    p.(input := None, completedBytes := 0) == q.(input := None, completedBytes := 0) && p.completedBytes <= q.completedBytes
  }

  lemma AdvanceShadows(p: Progress, q: Progress, e: Event)
    requires Shadows(p, q)
    ensures Advance(q, e).1.None? ==> Advance(p, e).1.None? && Shadows(Advance(p, e).0, Advance(q, e).0)
    ensures Shadows(p, Advance(q, e).0) || Advance(q, e).1.None?
    ensures p.completedBytes == q.completedBytes ==> Advance(p, e).1 == Advance(q, e).1
    ensures p.completedBytes == q.completedBytes ==> Advance(p, e).0.completedBytes == Advance(q, e).0.completedBytes
  {
  }

  lemma ConsumeAdvances(b: Scope, p: Progress, rec: Record, wire: Frame)
    ensures EventOf(b, p, rec, wire).Some? ==> Consume(b, p, rec, wire) == Advance(p, EventOf(b, p, rec, wire).value)
  {
    hide Advance, Selected, UserEcho, AgentOutput, LooseCompletion, NotificationWire, NormalizeInput;
  }

  // What one record does to the progress.
  lemma StepAdvances(b: Scope, p: Progress, rec: Record)
    requires EchoStep(b, p, rec).Some?
    ensures var (q, verdict) := EchoStep(b, p, rec).value;
            var event := RecordEvent(b, p, rec);
            && (event.Some? ==> (q, verdict) == Advance(p, event.value))
            && (event.None? ==> q == p.(input := q.input))
            && (verdict.Some? ==> rec.evidence.Discrepancy?)
  {
    hide EventOf, Advance, SelectorAdmits, FailureWire, NormalizeInput, RetainedError;
    if rec.raw.Some? { ConsumeAdvances(b, p, rec, rec.raw.value.wire.value); }
  }

  lemma ShadowStep(es: seq<Event>, q: Progress, event: Option<Event>, next: Progress, verdict: Option<Detail>)
    requires AdvanceAll(es).Some? && Shadows(AdvanceAll(es).value, q)
    requires event.Some? ==> (next, verdict) == Advance(q, event.value)
    requires event.None? ==> next == q.(input := next.input)
    ensures var accepted := if event.Some? && verdict.None? then es + [event.value] else es;
            && AdvanceAll(accepted).Some? && Shadows(AdvanceAll(accepted).value, next)
            && (verdict.None? && AdvanceAll(es).value.completedBytes == q.completedBytes
                ==> AdvanceAll(accepted).value.completedBytes == next.completedBytes)
  {
    hide Advance;
    if event.Some? {
      AdvanceShadows(AdvanceAll(es).value, q, event.value);
      assert (es + [event.value])[..|es|] == es;
    }
  }

  // The replayed state covers the machine run over the accepted events.
  lemma {:induction false} TraceAdvances(b: Scope, records: seq<Record>)
    requires EchoRun(b, records).Some?
    ensures AdvanceAll(Trace(b, records, false)).Some?
    ensures Shadows(AdvanceAll(Trace(b, records, false)).value, EchoRun(b, records).value.0)
    ensures Silent(EchoRun(b, records).value.1)
            ==> AdvanceAll(Trace(b, records, false)).value.completedBytes == EchoRun(b, records).value.0.completedBytes
  {
    hide RecordEvent, EchoStep, Advance, AdvanceAll, Shadows, Silent;
    if records == [] {
      EmptyRun(b);
    } else {
      var front, rec := records[..|records| - 1], records[|records| - 1];
      TraceAdvances(b, front);
      var q := EchoRun(b, front).value.0;
      var (next, verdict) := EchoStep(b, q, rec).value;
      StepAdvances(b, q, rec);
      SilentAppends(EchoRun(b, front).value.1, verdict);
      ShadowStep(Trace(b, front, false), q, RecordEvent(b, q, rec), next, verdict);
    }
  }

  lemma EmptyRun(b: Scope)
    ensures AdvanceAll(Trace(b, [], false)) == Some(EchoRun(b, []).value.0)
    ensures Shadows(EchoRun(b, []).value.0, EchoRun(b, []).value.0)
  {
  }

  // No record was refused by the echo.
  predicate Silent(verdicts: seq<Option<Detail>>) { forall i | 0 <= i < |verdicts| :: verdicts[i].None? }

  lemma SilentAppends(verdicts: seq<Option<Detail>>, verdict: Option<Detail>)
    ensures Silent(verdicts + [verdict]) <==> Silent(verdicts) && verdict.None?
  {
    assert (verdicts + [verdict])[|verdicts|] == verdict;
    assert forall i | 0 <= i < |verdicts| :: (verdicts + [verdict])[i] == verdicts[i];
  }

  lemma {:induction false} NoDiscrepancyIsSilent(b: Scope, records: seq<Record>)
    requires EchoRun(b, records).Some? && forall i | 0 <= i < |records| :: !records[i].evidence.Discrepancy?
    ensures Silent(EchoRun(b, records).value.1) && Trace(b, records, true) == Trace(b, records, false)
  {
    hide RecordEvent, EchoStep;
    if records != [] {
      NoDiscrepancyIsSilent(b, records[..|records| - 1]);
      StepAdvances(b, EchoRun(b, records[..|records| - 1]).value.0, records[|records| - 1]);
    }
  }

  // ---- main results ----

  // In every accepted snapshot the accepted events are in the language, byte bound included.
  lemma AcceptedTraceIsLawful(b: Scope, records: seq<Record>)
    requires EchoRun(b, records).Some?
    ensures Lawful(Trace(b, records, false))
  {
    TraceAdvances(b, records);
    TraceIsIdentified(b, records, false);
    AcceptedIffLawful(Trace(b, records, false));
  }

  // Without a discrepancy, every event that the records carry is accepted.
  lemma CleanSnapshotIsLawful(b: Scope, records: seq<Record>)
    requires EchoVerdicts(b, records, true).Some? && forall i | 0 <= i < |records| :: !records[i].evidence.Discrepancy?
    ensures EchoRun(b, records).Some? && Lawful(Trace(b, records, true))
  {
    NoDiscrepancyIsSilent(b, records);
    AcceptedTraceIsLawful(b, records);
  }

  // The first refusal is forced: after a silent prefix, a frame is refused if and only if its event
  // would take the trace out of the language.
  lemma RefusedIffUnlawful(b: Scope, records: seq<Record>, rec: Record)
    requires EchoRun(b, records).Some? && Silent(EchoRun(b, records).value.1)
    requires RecordEvent(b, EchoRun(b, records).value.0, rec).Some?
    ensures var p := EchoRun(b, records).value.0;
            Consume(b, p, rec, rec.raw.value.wire.value).1.Some?
            <==> !Lawful(Trace(b, records, false) + [RecordEvent(b, p, rec).value])
  {
    hide EventOf, Advance, Consume;
    ConsumeAdvances(b, EchoRun(b, records).value.0, rec, rec.raw.value.wire.value);
    var q, es := EchoRun(b, records).value.0, Trace(b, records, false);
    var e := RecordEvent(b, q, rec).value;
    TraceAdvances(b, records);
    TraceIsIdentified(b, records, false);
    EventsAreIdentified(b, q, rec);
    AdvanceShadows(AdvanceAll(es).value, q, e);
    assert (es + [e])[..|es|] == es;
    AcceptedIffLawful(es + [e]);
  }

  // ... and the failure it is refused for is the breach.
  lemma RefusalNamesBreach(b: Scope, records: seq<Record>, rec: Record)
    requires EchoRun(b, records).Some? && Silent(EchoRun(b, records).value.1)
    requires RecordEvent(b, EchoRun(b, records).value.0, rec).Some?
    requires Consume(b, EchoRun(b, records).value.0, rec, rec.raw.value.wire.value).1.Some?
    ensures var p := EchoRun(b, records).value.0;
            Consume(b, p, rec, rec.raw.value.wire.value).1 == Some(Breach(Trace(b, records, false), RecordEvent(b, p, rec).value))
  {
    hide EventOf, Advance, Consume;
    var q, es := EchoRun(b, records).value.0, Trace(b, records, false);
    var e := RecordEvent(b, q, rec).value;
    ConsumeAdvances(b, q, rec, rec.raw.value.wire.value);
    TraceAdvances(b, records);
    TraceIsIdentified(b, records, false);
    EventsAreIdentified(b, q, rec);
    AdvanceShadows(AdvanceAll(es).value, q, e);
    AcceptedTraceIsLawful(b, records);
    RefusedIffUnlawful(b, records, rec);
    RefusalIsBreach(es, e);
  }

  // ---- the input ----

  // The record at i is the one whose input was captured.
  ghost predicate Captured(b: Scope, records: seq<Record>, i: int)
    requires EchoRun(b, records).Some?
  {
    0 <= i < |records| && InputRecord(records[i]) && records[i].raw.Some? && EchoRun(b, records).value.1[i].None?
  }

  lemma InputStep(b: Scope, p: Progress, rec: Record)
    requires EchoStep(b, p, rec).Some?
    ensures var (q, verdict) := EchoStep(b, p, rec).value;
            if InputRecord(rec) && rec.raw.Some? && verdict.None?
            then p.input.None? && rec.raw.value.wire.Some? && q.input == NormalizeInput(At(At(rec.raw.value.wire.value, KParams), KInput)) && q.input.Some?
            else q.input == p.input
  {
    hide SelectorAdmits, FailureWire, NormalizeInput, RetainedError, UserEcho, AgentOutput, LooseCompletion, NotificationWire, Selected;
  }

  // At most one input is captured, and it is the only one that user items are compared with.
  lemma {:induction false} InputProvenance(b: Scope, records: seq<Record>)
    requires EchoRun(b, records).Some?
    ensures EchoRun(b, records).value.0.input.None? <==> forall i :: !Captured(b, records, i)
    ensures forall i | Captured(b, records, i) ::
              records[i].raw.value.wire.Some?
              && EchoRun(b, records).value.0.input == NormalizeInput(At(At(records[i].raw.value.wire.value, KParams), KInput))
    ensures forall i, j | Captured(b, records, i) && Captured(b, records, j) :: i == j
  {
    hide EchoStep, InputRecord, NormalizeInput;
    if records != [] {
      var last := |records| - 1;
      var front := records[..last];
      InputProvenance(b, front);
      InputStep(b, EchoRun(b, front).value.0, records[last]);
      forall i | 0 <= i < last ensures Captured(b, records, i) <==> Captured(b, front, i) {}
      if EchoRun(b, records).value.0.input.Some? && !Captured(b, records, last) {
        var i :| Captured(b, front, i);
        assert Captured(b, records, i);
      }
    }
  }
}
