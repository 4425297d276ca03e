// The aligned journal row by row: which retained elements each kind of row equals, and which earlier
// row a resource transition rests on.
module AlignmentRows {
  import opened Wire
  import opened Alignment

  // Rows so far that carry an element of the channel.
  predicate Carries(row: Row, c: Channel) {
    row.event.Some? &&
    match c
    case Dispatches => row.event.value.DispatchEvent?
    case Dispositions => row.event.value.DispositionEvent?
    case Deferrals => row.event.value.DispositionEvent? && row.event.value.deferred.Some?
    case Wakes => row.event.value.WakeEvent?
    case Resumes => row.event.value.ResumeEvent?
    case Resources => row.event.value.ReleasedEvent? || row.event.value.ReacquiredEvent?
  }

  function Count(rows: seq<Row>, c: Channel): nat {
    if rows == [] then 0 else Count(rows[..|rows| - 1], c) + (if Carries(rows[|rows| - 1], c) then 1 else 0)
  }

  lemma {:induction false} CountIs(rows: seq<Row>, c: Channel)
    requires forall k | 0 <= k < |rows| :: Readable(rows[k])
    ensures |Values(rows, c)| == Count(rows, c)
  {
    if rows != [] { CountIs(rows[..|rows| - 1], c); }
  }

  lemma {:induction false} ValueAt(rows: seq<Row>, k: nat, c: Channel)
    requires k < |rows| && (forall j | 0 <= j < |rows| :: Readable(rows[j])) && Carries(rows[k], c)
    ensures var i := Count(rows[..k], c); i < |Values(rows, c)| && Some(Values(rows, c)[i]) == ValueOf(rows[k], c)
    decreases |rows|
  {
    var last := |rows| - 1;
    if k < last {
      ValueAt(rows[..last], k, c);
      assert rows[..last][..k] == rows[..k];
    } else {
      CountIs(rows[..k], c);
    }
  }

  // The retained element at the row's own position equals what the row says.
  predicate RowIsRetained(h: History, rows: seq<Row>, k: nat)
    requires k < |rows|
  {
    var row := rows[k];
    row.event.Some? &&
    match row.event.value
    case RequirementEvent(requirement, policy) => requirement == h.requirement && policy == h.policy
    case DispatchEvent(start, dispatch) =>
      var i := Count(rows[..k], Dispatches);
      i < |h.starts| && i < |h.dispatches| && h.starts[i] == start && h.dispatches[i] == dispatch
      && dispatch.workItem in h.selections && dispatch.modelOrdinal < |h.selections[dispatch.workItem]|
      && h.selections[dispatch.workItem][dispatch.modelOrdinal] == dispatch.selection
    case DispositionEvent(observation, disposition, deferred) =>
      var i, j := Count(rows[..k], Dispositions), Count(rows[..k], Deferrals);
      i < |h.observations| && i < |h.dispositions| && h.observations[i] == observation && h.dispositions[i] == disposition
      && (deferred.Some? ==> j < |h.deferred| && h.deferred[j] == deferred.value)
    case WakeEvent(wake, _, nextDispatch) =>
      var i := Count(rows[..k], Wakes);
      row.workItem.Some? && row.attempt.Some? && i < |h.wakes| && i < |h.wakeAttempts| && i < |h.wakeDispatches|
      && h.wakes[i] == wake && h.wakeAttempts[i] == row.attempt.value && h.wakeDispatches[i] == nextDispatch
    case ResumeEvent(resume, disposition, process, execution) =>
      var i := Count(rows[..k], Resumes);
      row.workItem.Some? && row.attempt.Some? && i < |h.resumes| && i < |h.resumeItems| && i < |h.resumeAttempts|
      && i < |h.resumeDispositions| && i < |h.resumeProcesses| && i < |h.resumeExecutions| && i < |h.resumeTimes|
      && h.resumes[i] == resume && h.resumeItems[i] == row.workItem.value && h.resumeAttempts[i] == row.attempt.value
      && h.resumeDispositions[i] == disposition && h.resumeProcesses[i] == process && h.resumeExecutions[i] == execution
      && h.resumeTimes[i] == row.recordedAt
    case ReleasedEvent(disposition, dispatch, policy, keys) =>
      var i := Count(rows[..k], Resources);
      row.workItem.Some? && row.attempt.Some? && i < |h.transitions|
      && h.transitions[i] == Transition(true, row.workItem.value, row.attempt.value, dispatch, Some(disposition), None, policy, None, keys, row.recordedAt)
    case ReacquiredEvent(wake, deferred, nextDispatch, policy, keys) =>
      var i := Count(rows[..k], Resources);
      row.workItem.Some? && row.attempt.Some? && i < |h.transitions|
      && h.transitions[i] == Transition(false, row.workItem.value, row.attempt.value, nextDispatch, None, Some(deferred), policy, Some(wake), keys,
                                        row.recordedAt)
  }

  // A release follows the disposition it names, for its dispatch; a reacquisition the deferral it names.
  ghost predicate RestsOnEarlier(rows: seq<Row>, k: nat)
    requires k < |rows|
  {
    rows[k].event.Some? ==>
      match rows[k].event.value
      case ReleasedEvent(disposition, dispatch, _, _) =>
        exists j :: 0 <= j < k && rows[j].event.Some? && rows[j].event.value.DispositionEvent?
                    && rows[j].event.value.disposition.digest == disposition && rows[j].event.value.disposition.dispatchDigest == dispatch
      case ReacquiredEvent(_, deferred, _, _, _) =>
        exists j :: 0 <= j < k && rows[j].event.Some? && rows[j].event.value.DispositionEvent?
                    && rows[j].event.value.deferred.Some? && rows[j].event.value.deferred.value.digest == deferred
      case _ => true
  }

  // Every row of an accepted journal equals the retained elements at its own position.
  lemma AcceptedRowIsRetained(h: History, rows: seq<Row>, k: nat)
    requires RowsAgree(h, rows) && k < |rows|
    ensures RowIsRetained(h, rows, k)
  {
    hide Values, Count;
    forall j | 0 <= j < |rows| ensures Readable(rows[j]) { assert RowAgrees(h, rows[j]); }
    assert RowAgrees(h, rows[k]);
    forall c: Channel | Carries(rows[k], c) ensures Retained(h, c, Count(rows[..k], c)) == ValueOf(rows[k], c) {
      ValueAt(rows, k, c);
      assert ChannelAgrees(h, rows, c);
    }
    match rows[k].event.value
    case DispatchEvent(_, _) => assert Carries(rows[k], Dispatches);
    case DispositionEvent(_, _, deferred) =>
      assert Carries(rows[k], Dispositions);
      if deferred.Some? { assert Carries(rows[k], Deferrals); }
    case WakeEvent(_, _, _) => assert Carries(rows[k], Wakes);
    case ResumeEvent(_, _, _, _) => assert Carries(rows[k], Resumes);
    case ReleasedEvent(_, _, _, _) => assert Carries(rows[k], Resources);
    case ReacquiredEvent(_, _, _, _, _) => assert Carries(rows[k], Resources);
    case RequirementEvent(_, _) =>
  }

  lemma AcceptedRowRestsOnEarlier(h: History, rows: seq<Row>, k: nat)
    requires RowsAgree(h, rows) && k < |rows|
    ensures RestsOnEarlier(rows, k)
  {
    hide Values, ChannelAgrees;
    assert RowAgrees(h, rows[k]);
    if IsResource(rows[k]) {
      var t := TransitionOf(rows[k]);
      assert NamedBefore(rows, k, t);
      var j, c :| 0 <= j < k && j < |rows| && Readable(rows[j]) && ValueOf(rows[j], c).Some? && Names(t, ValueOf(rows[j], c).value);
    }
  }

  // ---- a journal with a row of every kind is accepted ----

  function OneOfEach(requirement: string, policy: string, x: string, item: string, dispatch: Dispatch, disposition: Disposition, deferral: Deferral): seq<Row> {
    [Row(0, None, None, x, Some(RequirementEvent(requirement, policy))),
     Row(1, None, None, x, Some(DispatchEvent(x, dispatch))),
     Row(2, None, None, x, Some(DispositionEvent(x, disposition, Some(deferral)))),
     Row(3, Some(item), Some(x), x, Some(ReleasedEvent(disposition.digest, disposition.dispatchDigest, policy, [x]))),
     Row(4, Some(item), Some(x), x, Some(WakeEvent(x, deferral.digest, x))),
     Row(5, Some(item), Some(x), x, Some(ReacquiredEvent(x, deferral.digest, x, policy, [x]))),
     Row(6, Some(item), Some(x), x, Some(ResumeEvent(x, disposition.digest, x, x)))]
  }

  function HistoryOfEach(requirement: string, policy: string, x: string, item: string, dispatch: Dispatch, disposition: Disposition, deferral: Deferral): History {
    History(requirement, policy, map[dispatch.workItem := seq(dispatch.modelOrdinal + 1, i => dispatch.selection)],
            [x], [dispatch], [x], [disposition], [deferral], [x], [x], [x], [x], [item], [x], [disposition.digest], [x], [x], [x],
            [Transition(true, item, x, disposition.dispatchDigest, Some(disposition.digest), None, policy, None, [x], x),
             Transition(false, item, x, x, None, Some(deferral.digest), policy, Some(x), [x], x)])
  }

  lemma OneOfEachIsAccepted(requirement: string, policy: string, x: string, item: string, dispatch: Dispatch, disposition: Disposition, deferral: Deferral)
    ensures var rows := OneOfEach(requirement, policy, x, item, dispatch, disposition, deferral);
            var h := HistoryOfEach(requirement, policy, x, item, dispatch, disposition, deferral);
            RowsAgree(h, rows) && NothingLeft(h, rows)
  {
    var rows := OneOfEach(requirement, policy, x, item, dispatch, disposition, deferral);
    var h := HistoryOfEach(requirement, policy, x, item, dispatch, disposition, deferral);
    forall k | 0 <= k < |rows| ensures RowAgrees(h, rows[k]) {}
    ValuesOfEach(rows, h, requirement, policy, x, item, dispatch, disposition, deferral);
    assert Names(TransitionOf(rows[3]), ValueOf(rows[2], Dispositions).value) && NamedBefore(rows, 3, TransitionOf(rows[3]));
    assert Names(TransitionOf(rows[5]), ValueOf(rows[2], Deferrals).value) && NamedBefore(rows, 5, TransitionOf(rows[5]));
  }

  lemma ValuesOfEach(rows: seq<Row>, h: History, requirement: string, policy: string, x: string, item: string, dispatch: Dispatch, disposition: Disposition,
                     deferral: Deferral)
    requires rows == OneOfEach(requirement, policy, x, item, dispatch, disposition, deferral)
    requires h == HistoryOfEach(requirement, policy, x, item, dispatch, disposition, deferral)
    ensures forall c: Channel :: ChannelAgrees(h, rows, c) && |Values(rows, c)| == Primary(h, c)
    ensures RequirementRows(rows) == 1
  {
    hide ChannelAgrees, Values, Primary, RequirementRows, OneOfEach, HistoryOfEach;
    forall c: Channel ensures ChannelAgrees(h, rows, c) && |Values(rows, c)| == Primary(h, c) {
      ChannelMatches(rows, h, requirement, policy, x, item, dispatch, disposition, deferral, c);
    }
    OneRequirement(requirement, policy, x, item, dispatch, disposition, deferral);
  }

  lemma ChannelMatches(rows: seq<Row>, h: History, requirement: string, policy: string, x: string, item: string, dispatch: Dispatch,
                       disposition: Disposition, deferral: Deferral, c: Channel)
    requires rows == OneOfEach(requirement, policy, x, item, dispatch, disposition, deferral)
    requires h == HistoryOfEach(requirement, policy, x, item, dispatch, disposition, deferral)
    ensures ChannelAgrees(h, rows, c) && |Values(rows, c)| == Primary(h, c)
  {
    hide Values, OneOfEach;
    ValuesAre(requirement, policy, x, item, dispatch, disposition, deferral, c);
  }

  // What the seven rows carry on a channel.
  function Expected(policy: string, x: string, item: string, dispatch: Dispatch, disposition: Disposition, deferral: Deferral, c: Channel): seq<Value> {
    match c
    case Dispatches => [OfDispatch(x, dispatch)]
    case Dispositions => [OfDisposition(x, disposition)]
    case Deferrals => [OfDeferral(deferral)]
    case Wakes => [OfWake(x, x, x)]
    case Resumes => [OfResume(x, item, x, disposition.digest, x, x, x)]
    case Resources =>
      [OfResource(Transition(true, item, x, disposition.dispatchDigest, Some(disposition.digest), None, policy, None, [x], x)),
       OfResource(Transition(false, item, x, x, None, Some(deferral.digest), policy, Some(x), [x], x))]
  }

  lemma ValuesAre(requirement: string, policy: string, x: string, item: string, dispatch: Dispatch, disposition: Disposition, deferral: Deferral, c: Channel)
    ensures Values(OneOfEach(requirement, policy, x, item, dispatch, disposition, deferral), c)
         == Expected(policy, x, item, dispatch, disposition, deferral, c)
  {
    hide Values;
    var rows := OneOfEach(requirement, policy, x, item, dispatch, disposition, deferral);
    assert forall i | 0 <= i < 7 :: Readable(rows[i]);
    ChannelOfEach(rows, c);
  }

  lemma OneRequirement(requirement: string, policy: string, x: string, item: string, dispatch: Dispatch, disposition: Disposition, deferral: Deferral)
    ensures RequirementRows(OneOfEach(requirement, policy, x, item, dispatch, disposition, deferral)) == 1
  {
    var rows := OneOfEach(requirement, policy, x, item, dispatch, disposition, deferral);
    assert forall i | 0 <= i < 7 :: rows[..i + 1][..i] == rows[..i];
    assert rows[..7] == rows;
    assert RequirementRows(rows[..0]) == 0 && RequirementRows(rows[..1]) == 1 && RequirementRows(rows[..2]) == 1 && RequirementRows(rows[..3]) == 1;
    assert RequirementRows(rows[..4]) == 1 && RequirementRows(rows[..5]) == 1 && RequirementRows(rows[..6]) == 1;
  }

  // The values of a channel over seven rows, one after the other.
  lemma ChannelOfEach(rows: seq<Row>, c: Channel)
    requires |rows| == 7 && forall i | 0 <= i < 7 :: Readable(rows[i])
    ensures Values(rows, c) == Add(Add(Add(Add(Add(Add(Add([], ValueOf(rows[0], c)), ValueOf(rows[1], c)), ValueOf(rows[2], c)), ValueOf(rows[3], c)),
                                               ValueOf(rows[4], c)), ValueOf(rows[5], c)), ValueOf(rows[6], c))
  {
    hide ValueOf, Add;
    assert forall i | 0 <= i < 7 :: rows[..i + 1][..i] == rows[..i];
    assert rows[..7] == rows;
    assert Values(rows[..0], c) == [];
    assert Values(rows[..1], c) == Add(Values(rows[..0], c), ValueOf(rows[0], c));
    assert Values(rows[..2], c) == Add(Values(rows[..1], c), ValueOf(rows[1], c));
    assert Values(rows[..3], c) == Add(Values(rows[..2], c), ValueOf(rows[2], c));
    assert Values(rows[..4], c) == Add(Values(rows[..3], c), ValueOf(rows[3], c));
    assert Values(rows[..5], c) == Add(Values(rows[..4], c), ValueOf(rows[4], c));
    assert Values(rows[..6], c) == Add(Values(rows[..5], c), ValueOf(rows[5], c));
  }
}
