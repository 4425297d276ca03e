// Read-only reopening of provider rows: journal rows and the retained history, walked together
// with one cursor per kind of record.
module Alignment {
  import opened Wire

  datatype Selection = Selection(provider: string, model: string)
  datatype Dispatch = Dispatch(digest: string, workItem: string, modelOrdinal: nat, selection: Selection)
  datatype Disposition = Disposition(digest: string, dispatchDigest: string)
  datatype Deferral = Deferral(digest: string)

  datatype Transition = Transition(
    released: bool, workItem: string, attempt: string, dispatchDigest: string, disposition: Option<string>, deferral: Option<string>,
    policyDigest: string, wake: Option<string>, keys: seq<string>, recordedAt: string)

  // A reopened journal event.
  datatype Reopened =
    | RequirementEvent(requirement: string, policy: string)
    | DispatchEvent(start: string, dispatch: Dispatch)
    | DispositionEvent(observation: string, disposition: Disposition, deferred: Option<Deferral>)
    | WakeEvent(wake: string, deferredDigest: string, nextDispatch: string)
    | ResumeEvent(resume: string, dispositionDigest: string, process: string, execution: string)
    | ReleasedEvent(dispositionDigest: string, dispatchDigest: string, policyDigest: string, keys: seq<string>)
    | ReacquiredEvent(wake: string, deferredDigest: string, nextDispatch: string, policyDigest: string, keys: seq<string>)

  // `event` is None when the row's bytes do not reopen.
  datatype Row = Row(sequence: nat, workItem: Option<string>, attempt: Option<string>, recordedAt: string, event: Option<Reopened>)

  datatype History = History(
    requirement: string, policy: string, selections: map<string, seq<Selection>>,
    starts: seq<string>, dispatches: seq<Dispatch>,
    observations: seq<string>, dispositions: seq<Disposition>, deferred: seq<Deferral>,
    wakes: seq<string>, wakeAttempts: seq<string>, wakeDispatches: seq<string>,
    resumes: seq<string>, resumeItems: seq<string>, resumeAttempts: seq<string>, resumeDispositions: seq<string>,
    resumeProcesses: seq<string>, resumeExecutions: seq<string>, resumeTimes: seq<string>,
    transitions: seq<Transition>)

  // ---- the kinds of record that carry a cursor ----

  datatype Channel = Dispatches | Dispositions | Deferrals | Wakes | Resumes | Resources

  // The value a row contributes to a channel.
  datatype Value =
    | OfDispatch(start: string, dispatch: Dispatch)
    | OfDisposition(observation: string, disposition: Disposition)
    | OfDeferral(deferral: Deferral)
    | OfWake(wake: string, attempt: string, nextDispatch: string)
    | OfResume(resume: string, item: string, attempt: string, dispositionDigest: string, process: string, execution: string, recordedAt: string)
    | OfResource(transition: Transition)

  predicate Occurrence(e: Reopened) { e.WakeEvent? || e.ResumeEvent? || e.ReleasedEvent? || e.ReacquiredEvent? }

  // Occurrence rows name their work item and attempt; every row must reopen.
  predicate Readable(row: Row) { row.event.Some? && (Occurrence(row.event.value) ==> row.workItem.Some? && row.attempt.Some?) }

  function TransitionOf(row: Row): Transition
    requires Readable(row) && (row.event.value.ReleasedEvent? || row.event.value.ReacquiredEvent?)
  {
    match row.event.value
    case ReleasedEvent(disposition, dispatch, policy, keys) =>
      Transition(true, row.workItem.value, row.attempt.value, dispatch, Some(disposition), None, policy, None, keys, row.recordedAt)
    case ReacquiredEvent(wake, deferred, next, policy, keys) =>
      Transition(false, row.workItem.value, row.attempt.value, next, None, Some(deferred), policy, Some(wake), keys, row.recordedAt)
  }

  function ValueOf(row: Row, c: Channel): Option<Value>
    requires Readable(row)
  {
    var e := row.event.value;
    match c
    case Dispatches => if e.DispatchEvent? then Some(OfDispatch(e.start, e.dispatch)) else None
    case Dispositions => if e.DispositionEvent? then Some(OfDisposition(e.observation, e.disposition)) else None
    case Deferrals => if e.DispositionEvent? && e.deferred.Some? then Some(OfDeferral(e.deferred.value)) else None
    case Wakes => if e.WakeEvent? then Some(OfWake(e.wake, row.attempt.value, e.nextDispatch)) else None
    case Resumes =>
      if e.ResumeEvent?
      then Some(OfResume(e.resume, row.workItem.value, row.attempt.value, e.dispositionDigest, e.process, e.execution, row.recordedAt))
      else None
    case Resources => if e.ReleasedEvent? || e.ReacquiredEvent? then Some(OfResource(TransitionOf(row))) else None
  }

  // The retained value at a cursor; None when one of the parallel lists has run out.
  function Retained(h: History, c: Channel, i: nat): Option<Value> {
    match c
    case Dispatches => if i < |h.starts| && i < |h.dispatches| then Some(OfDispatch(h.starts[i], h.dispatches[i])) else None
    case Dispositions => if i < |h.observations| && i < |h.dispositions| then Some(OfDisposition(h.observations[i], h.dispositions[i])) else None
    case Deferrals => if i < |h.deferred| then Some(OfDeferral(h.deferred[i])) else None
    case Wakes =>
      if i < |h.wakes| && i < |h.wakeAttempts| && i < |h.wakeDispatches|
      then Some(OfWake(h.wakes[i], h.wakeAttempts[i], h.wakeDispatches[i])) else None
    case Resumes =>
      if i < |h.resumes| && i < |h.resumeItems| && i < |h.resumeAttempts| && i < |h.resumeDispositions| && i < |h.resumeProcesses|
         && i < |h.resumeExecutions| && i < |h.resumeTimes|
      then Some(OfResume(h.resumes[i], h.resumeItems[i], h.resumeAttempts[i], h.resumeDispositions[i], h.resumeProcesses[i],
                         h.resumeExecutions[i], h.resumeTimes[i]))
      else None
    case Resources => if i < |h.transitions| then Some(OfResource(h.transitions[i])) else None
  }

  // The list whose length the final count is compared with.
  function Primary(h: History, c: Channel): nat {
    match c
    case Dispatches => |h.dispatches|
    case Dispositions => |h.dispositions|
    case Deferrals => |h.deferred|
    case Wakes => |h.wakes|
    case Resumes => |h.resumes|
    case Resources => |h.transitions|
  }

  // ---- the walk ----

  // The disposition or deferral that a resource transition names.
  predicate Names(t: Transition, v: Value) {
    if t.disposition.Some? then
      v.OfDisposition? && v.disposition.digest == t.disposition.value && v.disposition.dispatchDigest == t.dispatchDigest
    else t.deferral.Some? && v.OfDeferral? && v.deferral.digest == t.deferral.value
  }

  predicate SelectionAgrees(h: History, d: Dispatch) {
    d.workItem in h.selections && d.modelOrdinal < |h.selections[d.workItem]| && h.selections[d.workItem][d.modelOrdinal] == d.selection
  }

  predicate IsResource(row: Row) { row.event.Some? && (row.event.value.ReleasedEvent? || row.event.value.ReacquiredEvent?) }

  // Tests on one row alone.
  predicate RowAgrees(h: History, row: Row) {
    && Readable(row)
    && (row.event.value.RequirementEvent? ==> row.event.value.requirement == h.requirement && row.event.value.policy == h.policy)
    && (row.event.value.DispatchEvent? ==> SelectionAgrees(h, row.event.value.dispatch))
  }

  // What has been projected so far: requirement rows counted, values per channel in journal order.
  datatype Result = Result(
    requirements: nat, dispatches: seq<Value>, dispositions: seq<Value>, deferrals: seq<Value>, wakes: seq<Value>,
    resumes: seq<Value>, resources: seq<Value>)

  function Projected(r: Result, c: Channel): seq<Value> {
    match c
    case Dispatches => r.dispatches
    case Dispositions => r.dispositions
    case Deferrals => r.deferrals
    case Wakes => r.wakes
    case Resumes => r.resumes
    case Resources => r.resources
  }

  // The value a row adds to a channel matches the retained one at that channel's cursor.
  predicate CursorAdmits(h: History, r: Result, row: Row, c: Channel)
    requires Readable(row)
  {
    ValueOf(row, c).Some? ==> Retained(h, c, |Projected(r, c)|) == ValueOf(row, c)
  }

  predicate NamedIn(t: Transition, values: seq<Value>) { exists i | 0 <= i < |values| :: Names(t, values[i]) }

  predicate Preceded(r: Result, t: Transition) { NamedIn(t, if t.disposition.Some? then r.dispositions else r.deferrals) }

  predicate RowAdmits(h: History, r: Result, row: Row) {
    && RowAgrees(h, row)
    && CursorAdmits(h, r, row, Dispatches) && CursorAdmits(h, r, row, Dispositions) && CursorAdmits(h, r, row, Deferrals)
    && CursorAdmits(h, r, row, Wakes) && CursorAdmits(h, r, row, Resumes) && CursorAdmits(h, r, row, Resources)
    && (IsResource(row) ==> Preceded(r, TransitionOf(row)))
  }

  function Add(values: seq<Value>, v: Option<Value>): seq<Value> { if v.Some? then values + [v.value] else values }

  function Push(r: Result, row: Row): Result
    requires Readable(row)
  {
    Result(
      r.requirements + (if row.event.value.RequirementEvent? then 1 else 0),
      Add(r.dispatches, ValueOf(row, Dispatches)), Add(r.dispositions, ValueOf(row, Dispositions)),
      Add(r.deferrals, ValueOf(row, Deferrals)), Add(r.wakes, ValueOf(row, Wakes)),
      Add(r.resumes, ValueOf(row, Resumes)), Add(r.resources, ValueOf(row, Resources)))
  }

  predicate Complete(h: History, r: Result) {
    r.requirements == 1 && |r.dispatches| == |h.dispatches| && |r.dispositions| == |h.dispositions| && |r.deferrals| == |h.deferred|
    && |r.wakes| == |h.wakes| && |r.resumes| == |h.resumes| && |r.resources| == |h.transitions|
  }

  // ---- what the walk accepts, said without cursors ----

  // The values of one channel in journal order.
  function Values(rows: seq<Row>, c: Channel): seq<Value> {
    if rows == [] then []
    else
      var row := rows[|rows| - 1];
      Add(Values(rows[..|rows| - 1], c), if Readable(row) then ValueOf(row, c) else None)
  }

  function RequirementRows(rows: seq<Row>): nat {
    if rows == [] then 0
    else RequirementRows(rows[..|rows| - 1])
         + (if rows[|rows| - 1].event.Some? && rows[|rows| - 1].event.value.RequirementEvent? then 1 else 0)
  }

  // Element i of the channel is element i of the retained lists.
  ghost predicate ChannelAgrees(h: History, rows: seq<Row>, c: Channel) {
    forall i | 0 <= i < |Values(rows, c)| :: Retained(h, c, i) == Some(Values(rows, c)[i])
  }

  // Some earlier row carries the disposition or deferral that a transition names.
  ghost predicate NamedBefore(rows: seq<Row>, k: int, t: Transition) {
    exists j, c :: 0 <= j < k && j < |rows| && Readable(rows[j]) && ValueOf(rows[j], c).Some? && Names(t, ValueOf(rows[j], c).value)
  }

  ghost predicate PredecessorsAgree(rows: seq<Row>) {
    forall k | 0 <= k < |rows| && Readable(rows[k]) && IsResource(rows[k]) :: NamedBefore(rows, k, TransitionOf(rows[k]))
  }

  ghost predicate RowsAgree(h: History, rows: seq<Row>) {
    && (forall k | 0 <= k < |rows| :: RowAgrees(h, rows[k]))
    && (forall c: Channel :: ChannelAgrees(h, rows, c))
    && PredecessorsAgree(rows)
  }

  // One requirement row, and every primary list used up.
  ghost predicate NothingLeft(h: History, rows: seq<Row>) {
    RequirementRows(rows) == 1 && forall c: Channel :: |Values(rows, c)| == Primary(h, c)
  }

  ghost predicate Matches(r: Result, rows: seq<Row>) {
    r.requirements == RequirementRows(rows) && forall c: Channel :: Projected(r, c) == Values(rows, c)
  }

  // ---- the walk accepts exactly that ----

  lemma {:induction false} ValueHasRow(rows: seq<Row>, c: Channel, v: Value)
    ensures v in Values(rows, c) <==> exists j :: 0 <= j < |rows| && Readable(rows[j]) && ValueOf(rows[j], c) == Some(v)
  {
    if rows != [] {
      var front, row := rows[..|rows| - 1], rows[|rows| - 1];
      ValueHasRow(front, c, v);
      assert rows == front + [row];
      if j :| 0 <= j < |rows| && Readable(rows[j]) && ValueOf(rows[j], c) == Some(v) {
        if j < |front| { assert front[j] == rows[j]; }
      }
      if j :| 0 <= j < |front| && Readable(front[j]) && ValueOf(front[j], c) == Some(v) { assert rows[j] == front[j]; }
    }
  }

  lemma ChannelOfName(row: Row, c: Channel, t: Transition)
    requires Readable(row) && ValueOf(row, c).Some? && Names(t, ValueOf(row, c).value)
    ensures c == if t.disposition.Some? then Dispositions else Deferrals
  {
  }

  lemma PrecededIff(r: Result, rows: seq<Row>, t: Transition)
    requires Matches(r, rows)
    ensures Preceded(r, t) <==> NamedBefore(rows, |rows|, t)
  {
    var c := if t.disposition.Some? then Dispositions else Deferrals;
    assert Projected(r, c) == Values(rows, c);
    if Preceded(r, t) {
      var i :| 0 <= i < |Values(rows, c)| && Names(t, Values(rows, c)[i]);
      ValueHasRow(rows, c, Values(rows, c)[i]);
      var j :| 0 <= j < |rows| && Readable(rows[j]) && ValueOf(rows[j], c) == Some(Values(rows, c)[i]);
    }
    if NamedBefore(rows, |rows|, t) {
      var j, d :| 0 <= j < |rows| && Readable(rows[j]) && ValueOf(rows[j], d).Some? && Names(t, ValueOf(rows[j], d).value);
      ChannelOfName(rows[j], d, t);
      var v := ValueOf(rows[j], c).value;
      ValueHasRow(rows, c, v);
      assert NamedIn(t, Projected(r, c));
    }
  }

  lemma CursorsIff(h: History, r: Result, row: Row)
    requires Readable(row)
    ensures (forall c: Channel :: CursorAdmits(h, r, row, c)) <==>
            && CursorAdmits(h, r, row, Dispatches) && CursorAdmits(h, r, row, Dispositions) && CursorAdmits(h, r, row, Deferrals)
            && CursorAdmits(h, r, row, Wakes) && CursorAdmits(h, r, row, Resumes) && CursorAdmits(h, r, row, Resources)
  {
    if CursorAdmits(h, r, row, Dispatches) && CursorAdmits(h, r, row, Dispositions) && CursorAdmits(h, r, row, Deferrals)
       && CursorAdmits(h, r, row, Wakes) && CursorAdmits(h, r, row, Resumes) && CursorAdmits(h, r, row, Resources) {
      forall c: Channel ensures CursorAdmits(h, r, row, c) {
        match c { case Dispatches => case Dispositions => case Deferrals => case Wakes => case Resumes => case Resources => }
      }
    }
  }

  lemma ChannelGrows(h: History, r: Result, rows: seq<Row>, row: Row, c: Channel)
    requires Matches(r, rows) && Readable(row)
    ensures Values(rows + [row], c) == Add(Values(rows, c), ValueOf(row, c))
    ensures ChannelAgrees(h, rows + [row], c) <==> ChannelAgrees(h, rows, c) && CursorAdmits(h, r, row, c)
  {
    hide ValueOf, Retained;
    assert (rows + [row])[..|rows|] == rows;
    assert Projected(r, c) == Values(rows, c);
    var before, after := Values(rows, c), Values(rows + [row], c);
    assert forall i | 0 <= i < |before| :: after[i] == before[i];
    if ChannelAgrees(h, rows + [row], c) {
      forall i | 0 <= i < |before| ensures Retained(h, c, i) == Some(before[i]) { assert Retained(h, c, i) == Some(after[i]); }
      if ValueOf(row, c).Some? { assert Retained(h, c, |before|) == Some(after[|before|]); }
    }
  }

  lemma PredecessorsGrow(rows: seq<Row>, row: Row)
    ensures PredecessorsAgree(rows + [row]) <==>
            PredecessorsAgree(rows) && (Readable(row) && IsResource(row) ==> NamedBefore(rows, |rows|, TransitionOf(row)))
  {
    hide ValueOf, Names, TransitionOf;
    var all := rows + [row];
    forall k, t | 0 <= k <= |rows| ensures NamedBefore(all, k, t) <==> NamedBefore(rows, k, t) {
      assert forall j | 0 <= j < k :: all[j] == rows[j];
    }
    assert all[|rows|] == row;
    if PredecessorsAgree(all) {
      forall k | 0 <= k < |rows| && Readable(rows[k]) && IsResource(rows[k]) ensures NamedBefore(rows, k, TransitionOf(rows[k])) {
        assert all[k] == rows[k];
      }
    }
  }

  lemma RowIff(h: History, r: Result, rows: seq<Row>, row: Row)
    requires RowsAgree(h, rows) && Matches(r, rows)
    ensures RowAdmits(h, r, row) <==> RowsAgree(h, rows + [row])
    ensures RowAdmits(h, r, row) ==> Matches(Push(r, row), rows + [row])
  {
    hide ValueOf, Retained, RowAgrees;
    var all := rows + [row];
    assert all[|rows|] == row && all[..|rows|] == rows;
    if RowAgrees(h, row) {
      AgreeIsReadable(h, row);
      forall c: Channel ensures Values(all, c) == Add(Values(rows, c), ValueOf(row, c))
                        && (ChannelAgrees(h, all, c) <==> CursorAdmits(h, r, row, c)) {
        ChannelGrows(h, r, rows, row, c);
      }
      CursorsIff(h, r, row);
      PredecessorsGrow(rows, row);
      if IsResource(row) { PrecededIff(r, rows, TransitionOf(row)); }
      PushMatches(r, rows, row);
    } else {
      assert !RowsAgree(h, all);
    }
  }

  lemma AgreeIsReadable(h: History, row: Row)
    requires RowAgrees(h, row)
    ensures Readable(row)
  {
  }

  lemma PushMatches(r: Result, rows: seq<Row>, row: Row)
    requires Matches(r, rows) && Readable(row)
    requires forall c: Channel :: Values(rows + [row], c) == Add(Values(rows, c), ValueOf(row, c))
    ensures Matches(Push(r, row), rows + [row])
  {
    hide ValueOf, Values;
    assert (rows + [row])[..|rows|] == rows;
    forall c: Channel ensures Projected(Push(r, row), c) == Values(rows + [row], c) {
      assert Projected(r, c) == Values(rows, c);
    }
  }

  lemma RowsPrefix(h: History, rows: seq<Row>, k: nat)
    requires k <= |rows| && RowsAgree(h, rows)
    ensures RowsAgree(h, rows[..k])
    decreases |rows| - k
  {
    if k < |rows| {
      RowsPrefix(h, rows, k + 1);
      var front, row := rows[..k], rows[k];
      assert rows[..k + 1] == front + [row];
      RowsFront(h, front, row);
    } else {
      assert rows[..k] == rows;
    }
  }

  lemma RowsFront(h: History, rows: seq<Row>, row: Row)
    requires RowsAgree(h, rows + [row])
    ensures RowsAgree(h, rows)
  {
    hide ValueOf, Retained, RowAgrees;
    var all := rows + [row];
    assert all[..|rows|] == rows && forall i | 0 <= i < |rows| :: all[i] == rows[i];
    forall c: Channel ensures ChannelAgrees(h, rows, c) {
      assert ChannelAgrees(h, all, c) && Values(rows, c) <= Values(all, c);
      forall i | 0 <= i < |Values(rows, c)| ensures Retained(h, c, i) == Some(Values(rows, c)[i]) {
        assert Retained(h, c, i) == Some(Values(all, c)[i]);
      }
    }
    PredecessorsGrow(rows, row);
  }

  // reopen_rows: accepts exactly the rows that agree with the history element by element, with one
  // requirement row and no primary list left over, and projects their values in journal order.
  method ReopenRows(h: History, rows: seq<Row>) returns (ok: bool, result: Result)
    ensures ok <==> RowsAgree(h, rows) && NothingLeft(h, rows)
    ensures ok ==> Matches(result, rows)
  {
    hide RowAdmits, Push, RowsAgree;
    result := Result(0, [], [], [], [], [], []);
    Empty(h, result, rows);
    for k := 0 to |rows|
      invariant RowsAgree(h, rows[..k]) && Matches(result, rows[..k])
    {
      RowIff(h, result, rows[..k], rows[k]);
      assert rows[..k + 1] == rows[..k] + [rows[k]];
      if !RowAdmits(h, result, rows[k]) {
        if RowsAgree(h, rows) { RowsPrefix(h, rows, k + 1); }
        return false, result;
      }
      AdmitsIsReadable(h, result, rows[k]);
      result := Push(result, rows[k]);
    }
    assert rows[..|rows|] == rows;
    CompleteIff(h, result, rows);
    ok := Complete(h, result);
  }

  lemma AdmitsIsReadable(h: History, r: Result, row: Row)
    requires RowAdmits(h, r, row)
    ensures Readable(row)
  {
  }

  lemma Empty(h: History, r: Result, rows: seq<Row>)
    requires r == Result(0, [], [], [], [], [], [])
    ensures RowsAgree(h, rows[..0]) && Matches(r, rows[..0])
  {
    forall c: Channel ensures Projected(r, c) == Values(rows[..0], c) && ChannelAgrees(h, rows[..0], c) {}
  }

  lemma CompleteIff(h: History, r: Result, rows: seq<Row>)
    requires Matches(r, rows)
    ensures Complete(h, r) <==> NothingLeft(h, rows)
  {
    forall c: Channel ensures Projected(r, c) == Values(rows, c) {}
    if NothingLeft(h, rows) {
      assert |Values(rows, Dispatches)| == Primary(h, Dispatches) && |Values(rows, Dispositions)| == Primary(h, Dispositions);
      assert |Values(rows, Deferrals)| == Primary(h, Deferrals) && |Values(rows, Wakes)| == Primary(h, Wakes);
      assert |Values(rows, Resumes)| == Primary(h, Resumes) && |Values(rows, Resources)| == Primary(h, Resources);
    }
  }

  // ---- what the final count leaves open ----

  // Lengths of all retained lists of a channel, the primary one first.
  function Lengths(h: History, c: Channel): seq<nat> {
    match c
    case Dispatches => [|h.dispatches|, |h.starts|]
    case Dispositions => [|h.dispositions|, |h.observations|]
    case Deferrals => [|h.deferred|]
    case Wakes => [|h.wakes|, |h.wakeAttempts|, |h.wakeDispatches|]
    case Resumes =>
      [|h.resumes|, |h.resumeItems|, |h.resumeAttempts|, |h.resumeDispositions|, |h.resumeProcesses|, |h.resumeExecutions|, |h.resumeTimes|]
    case Resources => [|h.transitions|]
  }

  // h with every parallel list continued by that of `more`; primary lists stay.
  function Continued(h: History, more: History): History {
    h.(starts := h.starts + more.starts, observations := h.observations + more.observations,
       wakeAttempts := h.wakeAttempts + more.wakeAttempts, wakeDispatches := h.wakeDispatches + more.wakeDispatches,
       resumeItems := h.resumeItems + more.resumeItems, resumeAttempts := h.resumeAttempts + more.resumeAttempts,
       resumeDispositions := h.resumeDispositions + more.resumeDispositions,
       resumeProcesses := h.resumeProcesses + more.resumeProcesses,
       resumeExecutions := h.resumeExecutions + more.resumeExecutions, resumeTimes := h.resumeTimes + more.resumeTimes)
  }

  lemma RetainedContinues(h: History, more: History, c: Channel, i: nat)
    requires Retained(h, c, i).Some?
    ensures Retained(Continued(h, more), c, i) == Retained(h, c, i)
  {
  }

  // Only the primary lists are compared for length: an accepted history stays accepted whatever
  // its parallel lists carry beyond the journal.
  lemma ParallelListsMayExceed(h: History, rows: seq<Row>, more: History)
    requires RowsAgree(h, rows) && NothingLeft(h, rows)
    ensures RowsAgree(Continued(h, more), rows) && NothingLeft(Continued(h, more), rows)
  {
    var longer := Continued(h, more);
    forall c: Channel ensures ChannelAgrees(longer, rows, c) && Primary(longer, c) == Primary(h, c) {
      assert ChannelAgrees(h, rows, c);
      forall i | 0 <= i < |Values(rows, c)| ensures Retained(longer, c, i) == Some(Values(rows, c)[i]) {
        RetainedContinues(h, more, c, i);
      }
    }
    forall k | 0 <= k < |rows| ensures RowAgrees(longer, rows[k]) { assert RowAgrees(h, rows[k]); }
  }

  // Every element of every retained list has its row.
  ghost predicate EveryElementUsed(h: History, rows: seq<Row>) {
    forall c: Channel, k | 0 <= k < |Lengths(h, c)| :: Lengths(h, c)[k] == |Values(rows, c)|
  }

  // Each parallel list is as long as its primary one.
  ghost predicate ParallelListsAgree(h: History) {
    forall c: Channel, k | 0 <= k < |Lengths(h, c)| :: Lengths(h, c)[k] == Primary(h, c)
  }

  lemma RetainedIsWithin(h: History, c: Channel, i: nat)
    ensures Retained(h, c, i).Some? <==> forall k | 0 <= k < |Lengths(h, c)| :: i < Lengths(h, c)[k]
  {
    var l := Lengths(h, c);
    if forall k | 0 <= k < |l| :: i < l[k] {
      assert i < l[0];
      if c.Dispatches? || c.Dispositions? { assert i < l[1]; }
      if c.Wakes? { assert i < l[1] && i < l[2]; }
      if c.Resumes? { assert i < l[1] && i < l[2] && i < l[3] && i < l[4] && i < l[5] && i < l[6]; }
    }
  }

  // An accepted journal never outruns a retained list, and leaves nothing over in any of them if
  // and only if the parallel lists have their primary's length.
  lemma NothingOverIffParallel(h: History, rows: seq<Row>)
    requires RowsAgree(h, rows) && NothingLeft(h, rows)
    ensures forall c: Channel, k | 0 <= k < |Lengths(h, c)| :: |Values(rows, c)| <= Lengths(h, c)[k]
    ensures EveryElementUsed(h, rows) <==> ParallelListsAgree(h)
  {
    forall c: Channel, k | 0 <= k < |Lengths(h, c)| ensures |Values(rows, c)| <= Lengths(h, c)[k] {
      assert ChannelAgrees(h, rows, c);
      if Values(rows, c) != [] { RetainedIsWithin(h, c, |Values(rows, c)| - 1); }
    }
  }

  // With one spare wake attempt any accepted history stays accepted, and leaves an element without its row.
  lemma SpareWakeAttemptIsAccepted(h: History, rows: seq<Row>)
    requires RowsAgree(h, rows) && NothingLeft(h, rows)
    ensures var longer := h.(wakeAttempts := h.wakeAttempts + [""]);
            RowsAgree(longer, rows) && NothingLeft(longer, rows) && !EveryElementUsed(longer, rows)
  {
    var more := h.(starts := [], observations := [], wakeAttempts := [""], wakeDispatches := [], resumeItems := [], resumeAttempts := [],
                   resumeDispositions := [], resumeProcesses := [], resumeExecutions := [], resumeTimes := []);
    var longer := h.(wakeAttempts := h.wakeAttempts + [""]);
    assert Continued(h, more) == longer;
    ParallelListsMayExceed(h, rows, more);
    NothingOverIffParallel(h, rows);
    assert Lengths(longer, Wakes)[1] == Lengths(h, Wakes)[1] + 1;
  }
}
