// What an undisturbed submitter and an undisturbed worker achieve, and what a failure leaves behind.
module InvestigationProgress {
  import opened Wire
  import opened Investigation

  // Two steps replace a file when no interrupted replace is in the way.
  lemma SubmitterWrites(y: System, i: nat, put: SubmitPut, id: string, launched: bool)
    requires i < |y.submitters| && y.submitters[i].at == SubmitWrite(put, false) && SubmitName(put) !in y.disk.temporaries
    ensures var z := Act(Act(y, SubmitStep(i, id, launched)), SubmitStep(i, id, launched));
            var s := y.submitters[i];
            && |z.submitters| == |y.submitters| && z.workers == y.workers && z.launches == y.launches
            && z.disk.made == y.disk.made && z.disk.locked == y.disk.locked
            && z.disk.files == y.disk.files[SubmitName(put) := SubmitContent(s, put)] && z.disk.temporaries == y.disk.temporaries
            && z.submitters[i] == (if put == PutHandoff then s.(runId := id, at := AfterSubmitPut(put)) else s.(at := AfterSubmitPut(put)))
            && z.returned == (if put == PutReceipt then y.returned + [s.runId] else y.returned)
  {
    assert y.disk.temporaries + {SubmitName(put)} - {SubmitName(put)} == y.disk.temporaries;
  }

  lemma WorkerWrites(y: System, i: nat, put: WorkPut)
    requires i < |y.workers| && y.workers[i].at == WorkWrite(put, false) && WorkName(put) !in y.disk.temporaries
    ensures var z := Act(Act(y, WorkStep(i, true)), WorkStep(i, true));
            var k := y.workers[i];
            && |z.workers| == |y.workers| && z.submitters == y.submitters && z.acquired == y.acquired && z.returned == y.returned
            && z.disk.made == y.disk.made && z.disk.locked == y.disk.locked
            && z.disk.files == y.disk.files[WorkName(put) := WorkContent(k, put)] && z.disk.temporaries == y.disk.temporaries
            && z.workers[i] == k.(at := AfterWorkPut(k, put))
  {
    assert y.disk.temporaries + {WorkName(put)} - {WorkName(put)} == y.disk.temporaries;
  }

  function After(y: System, actions: seq<Action>): System
    decreases |actions|
  {
    if actions == [] then y else After(Act(y, actions[0]), actions[1..])
  }

  // Several actions in a row are the two parts in turn.
  lemma {:induction false} AfterSplits(y: System, a: seq<Action>, b: seq<Action>)
    ensures After(y, a + b) == After(After(y, a), b)
    decreases |a|
  {
    if a == [] { assert a + b == b; } else {
      assert (a + b)[1..] == a[1..] + b;
      AfterSplits(Act(y, a[0]), a[1..], b);
    }
  }

  lemma {:induction false} RunIsAfter(actions: seq<Action>, more: seq<Action>)
    ensures Run(actions + more) == After(Run(actions), more)
    decreases |more|
  {
    hide Act;
    if more == [] { assert actions + more == actions; } else {
      RunIsAfter(actions + [more[0]], more[1..]);
      assert actions + more == actions + [more[0]] + more[1..];
      assert (actions + [more[0]])[..|actions|] == actions;
    }
  }

  // The same action n times.
  function Repeat(a: Action, n: nat): seq<Action> { seq(n, k => a) }

  lemma TwoSteps(y: System, a: Action)
    ensures After(y, [a, a]) == Act(Act(y, a), a) && After(y, [a]) == Act(y, a)
  {
    assert [a, a][1..] == [a] && [a][1..] == [];
    assert After(Act(Act(y, a), a), []) == Act(Act(y, a), a);
    assert After(Act(y, a), []) == Act(y, a);
    assert After(Act(y, a), [a]) == After(Act(Act(y, a), a), [a][1..]);
  }

  // The first one or two of a repeated action.
  lemma StepThen(y: System, a: Action, n: nat)
    ensures After(y, Repeat(a, n + 2)) == After(Act(Act(y, a), a), Repeat(a, n))
    ensures After(y, Repeat(a, n + 1)) == After(Act(y, a), Repeat(a, n))
  {
    assert Repeat(a, n + 2) == [a, a] + Repeat(a, n) && Repeat(a, n + 1) == [a] + Repeat(a, n);
    AfterSplits(y, [a, a], Repeat(a, n));
    AfterSplits(y, [a], Repeat(a, n));
    TwoSteps(y, a);
  }

  // An undisturbed first submitter makes the occurrence, launches once and returns a receipt with its
  // fresh run id; if the launch fails it records that nothing was started and returns nothing.
  lemma FirstSubmission(handoff: string, id: string, launched: bool)
    ensures var y := Run([Submit(handoff)] + Repeat(SubmitStep(0, id, launched), 11));
            && y.launches == 1 && y.disk.made
            && HandoffFile in y.disk.files && y.disk.files[HandoffFile] == HandoffBytes(handoff)
            && StateFile in y.disk.files && y.disk.files[StateFile] == Status(id, if launched then Accepted else NotStarted)
            && (launched ==> y.returned == [id] && ReceiptFile in y.disk.files && y.disk.files[ReceiptFile] == Receipt(id))
            && (!launched ==> y.returned == [] && ReceiptFile !in y.disk.files && RefusalFile in y.disk.files)
            && y.disk.temporaries == {} && !y.disk.locked && y.workers == [] && RecordFile !in y.disk.files
  {
    hide Act, After, Run;
    var a := SubmitStep(0, id, launched);
    var y0 := Run([Submit(handoff)]);
    OneSubmit(handoff);
    RunIsAfter([Submit(handoff)], Repeat(SubmitStep(0, id, launched), 11));
    var y1 := Act(y0, a);
    var y2 := Act(y1, a);
    ChecksAndMakes(y0, id, launched);
    StepThen(y0, a, 9);
    var y3 := Act(Act(y2, a), a);
    SubmitterWrites(y2, 0, PutHandoff, id, launched);
    StepThen(y2, a, 7);
    var y4 := Act(Act(y3, a), a);
    SubmitterWrites(y3, 0, PutAccepted, id, launched);
    StepThen(y3, a, 5);
    var y5 := Act(y4, a);
    Launches(y4, id, launched);
    StepThen(y4, a, 4);
    var y6 := Act(Act(y5, a), a);
    SubmitterWrites(y5, 0, if launched then PutLauncher else PutNotStarted, id, launched);
    StepThen(y5, a, 2);
    var y7 := Act(Act(y6, a), a);
    SubmitterWrites(y6, 0, if launched then PutReceipt else PutRefusal, id, launched);
    StepThen(y6, a, 0);
    assert Repeat(a, 0) == [];
    NoSteps(y7);
  }

  lemma NoSteps(y: System)
    ensures After(y, []) == y
  {
  }

  lemma OneSubmit(handoff: string)
    ensures Run([Submit(handoff)]) == EMPTY.(submitters := [Submitter(handoff, "", CheckReceipt)])
  {
    assert [Submit(handoff)][..0] == [];
    assert Run([]) == EMPTY;
    assert EMPTY.submitters + [Submitter(handoff, "", CheckReceipt)] == [Submitter(handoff, "", CheckReceipt)];
  }

  lemma ChecksAndMakes(y: System, id: string, launched: bool)
    requires |y.submitters| == 1 && y.submitters[0].at == CheckReceipt && y.disk == EMPTY.disk
    ensures var z := Act(Act(y, SubmitStep(0, id, launched)), SubmitStep(0, id, launched));
            && |z.submitters| == 1 && z.submitters[0] == y.submitters[0].(at := SubmitWrite(PutHandoff, false))
            && z.disk == y.disk.(made := true) && z.launches == y.launches && z.workers == y.workers && z.returned == y.returned
  {
  }

  lemma Launches(y: System, id: string, launched: bool)
    requires |y.submitters| == 1 && y.submitters[0].at == Launch
    ensures var z := Act(y, SubmitStep(0, id, launched));
            && |z.submitters| == 1 && z.submitters[0] == y.submitters[0].(at := SubmitWrite(if launched then PutLauncher else PutNotStarted, false))
            && z.disk == y.disk && z.launches == y.launches + 1 && z.workers == y.workers && z.returned == y.returned
  {
  }

  // ---- a worker ----

  lemma TakesLockAndLoads(y: System, i: nat, id: string, phase: Phase)
    requires i < |y.workers| && y.workers[i] == Worker("", 0, [], TakeLock) && y.disk.made && !y.disk.locked
    requires HandoffFile in y.disk.files && StateFile in y.disk.files && y.disk.files[StateFile] == Status(id, phase)
    ensures var a := WorkStep(i, true);
            var z := Act(Act(Act(y, a), a), a);
            && |z.workers| == |y.workers| && z.workers[i] == Worker(id, 0, [], WorkWrite(PutRunning, false))
            && z.disk == y.disk.(locked := true) && z.acquired == y.acquired && z.returned == y.returned && z.submitters == y.submitters
  {
  }

  lemma Acquires(y: System, i: nat, well: bool)
    requires i < |y.workers| && y.workers[i].at == Acquire
    ensures var z, k := Act(y, WorkStep(i, well)), y.workers[i];
            && |z.workers| == |y.workers| && z.disk == y.disk && z.acquired == y.acquired + [k.next] && z.returned == y.returned && z.submitters == y.submitters
            && (well ==> z.workers[i] == k.(next := k.next + 1, found := k.found + [k.next],
                                             at := WorkWrite(if k.next + 1 < 2 then PutAcquiring else PutRecord, false)))
            && (!well ==> z.workers[i] == k.(at := WorkWrite(PutIndeterminate, false)))
  {
  }

  // A worker that may start: the occurrence is submitted and nobody has locked it.
  predicate MayWork(y: System, i: nat, id: string, phase: Phase) {
    && i < |y.workers| && y.workers[i] == Worker("", 0, [], TakeLock) && y.disk.made && !y.disk.locked && y.disk.temporaries == {}
    && HandoffFile in y.disk.files && StateFile in y.disk.files && y.disk.files[StateFile] == Status(id, phase)
  }

  // An undisturbed worker acquires both diagnostics in order, writes the record and completes.
  lemma WorkerCompletes(y: System, i: nat, id: string, phase: Phase)
    requires MayWork(y, i, id, phase)
    ensures var z := After(y, Repeat(WorkStep(i, true), 15));
            && z.acquired == y.acquired + [0, 1] && i < |z.workers| && z.workers[i].at == Finished
            && StateFile in z.disk.files && z.disk.files[StateFile] == Status(id, Completed)
            && RecordFile in z.disk.files && z.disk.files[RecordFile] == Findings(id, [0, 1]) && z.returned == y.returned
  {
    hide Act, After;
    var a := WorkStep(i, true);
    var y1 := Act(Act(Act(y, a), a), a);
    TakesLockAndLoads(y, i, id, phase);
    StepThen(y, a, 13);
    StepThen(Act(Act(y, a), a), a, 12);
    var y2 := Act(Act(y1, a), a);
    WorkerWrites(y1, i, PutRunning);
    StepThen(y1, a, 10);
    var y3 := Act(Act(y2, a), a);
    WorkerWrites(y2, i, PutAcquiring);
    StepThen(y2, a, 8);
    var y4 := Act(y3, a);
    Acquires(y3, i, true);
    StepThen(y3, a, 7);
    var y5 := Act(Act(y4, a), a);
    WorkerWrites(y4, i, PutAcquiring);
    StepThen(y4, a, 5);
    var y6 := Act(y5, a);
    Acquires(y5, i, true);
    StepThen(y5, a, 4);
    assert [] + [0] == [0] && [0] + [1] == [0, 1] && y.acquired + [0] + [1] == y.acquired + [0, 1];
    var y7 := Act(Act(y6, a), a);
    WorkerWrites(y6, i, PutRecord);
    StepThen(y6, a, 2);
    var y8 := Act(Act(y7, a), a);
    WorkerWrites(y7, i, PutCompleted);
    StepThen(y7, a, 0);
    assert Repeat(a, 0) == [];
    NoSteps(y8);
  }

  // A diagnostic that fails leaves an indeterminate state, and no record.
  lemma FailureIsIndeterminate(y: System, i: nat, id: string)
    requires i < |y.workers| && y.workers[i].at == Acquire && y.workers[i].runId == id && StateFile !in y.disk.temporaries
    ensures var z := Act(Act(Act(y, WorkStep(i, false)), WorkStep(i, true)), WorkStep(i, true));
            && i < |z.workers| && z.workers[i].at == Dead && StateFile in z.disk.files && z.disk.files[StateFile] == Status(id, Indeterminate)
            && (RecordFile in z.disk.files <==> RecordFile in y.disk.files)
  {
    hide Act;
    Acquires(y, i, false);
    WorkerWrites(Act(y, WorkStep(i, false)), i, PutIndeterminate);
  }

  // ---- the whole service ----

  // An undisturbed submission and an undisturbed worker end with one receipt and one complete record.
  lemma InvestigationCompletes(handoff: string, id: string)
    ensures var y := Run([Submit(handoff)] + Repeat(SubmitStep(0, id, true), 11) + [Spawn] + Repeat(WorkStep(0, true), 15));
            && y.returned == [id] && y.launches == 1 && y.acquired == [0, 1]
            && StateFile in y.disk.files && y.disk.files[StateFile] == Status(id, Completed)
            && RecordFile in y.disk.files && y.disk.files[RecordFile] == Findings(id, [0, 1])
  {
    hide Run, After;
    var submitted := [Submit(handoff)] + Repeat(SubmitStep(0, id, true), 11);
    var y := Run(submitted);
    FirstSubmission(handoff, id, true);
    SubmissionAcquiresNothing(handoff, id);
    RunIsAfter(submitted, [Spawn]);
    TwoSteps(y, Spawn);
    var z := Run(submitted + [Spawn]);
    assert z == Act(y, Spawn) && z.workers == [Worker("", 0, [], TakeLock)];
    RunIsAfter(submitted + [Spawn], Repeat(WorkStep(0, true), 15));
    WorkerCompletes(z, 0, id, Accepted);
    KeepsLaunches(z, Repeat(WorkStep(0, true), 15));
    assert [] + [0, 1] == [0, 1];
  }

  lemma {:induction false} KeepsLaunches(y: System, actions: seq<Action>)
    requires forall k | 0 <= k < |actions| :: actions[k].WorkStep?
    ensures After(y, actions).launches == y.launches
    decreases |actions|
  {
    if actions != [] { KeepsLaunches(Act(y, actions[0]), actions[1..]); }
  }

  lemma {:induction false} SubmitterAcquiresNothing(y: System, actions: seq<Action>)
    requires forall k | 0 <= k < |actions| :: actions[k].SubmitStep?
    ensures After(y, actions).acquired == y.acquired
    decreases |actions|
  {
    if actions != [] { SubmitterAcquiresNothing(Act(y, actions[0]), actions[1..]); }
  }

  lemma SubmissionAcquiresNothing(handoff: string, id: string)
    ensures Run([Submit(handoff)] + Repeat(SubmitStep(0, id, true), 11)).acquired == []
  {
    hide Run, After;
    OneSubmit(handoff);
    RunIsAfter([Submit(handoff)], Repeat(SubmitStep(0, id, true), 11));
    SubmitterAcquiresNothing(Run([Submit(handoff)]), Repeat(SubmitStep(0, id, true), 11));
  }

  // A later submitter of the same occurrence is given the receipt that is there, and launches nothing.
  lemma LaterSubmitterIsGivenReceipt(y: System, i: nat, id: string, drawn: string, launched: bool)
    requires i < |y.submitters| && y.submitters[i].at == CheckReceipt && ReceiptFile in y.disk.files && y.disk.files[ReceiptFile] == Receipt(id)
    ensures var z := Act(y, SubmitStep(i, drawn, launched));
            z.returned == y.returned + [id] && z.launches == y.launches && z.disk == y.disk && z.submitters[i].at == Returned
  {
  }

  // Without a receipt, a later submitter of the same handoff adopts the recorded run id.
  lemma LaterSubmitterAdoptsRun(y: System, i: nat, id: string, phase: Phase, drawn: string, launched: bool)
    requires i < |y.submitters| && y.submitters[i].at == CheckReceipt && ReceiptFile !in y.disk.files && y.disk.made && y.disk.temporaries == {}
    requires HandoffFile in y.disk.files && y.disk.files[HandoffFile] == HandoffBytes(y.submitters[i].handoff)
    requires StateFile in y.disk.files && y.disk.files[StateFile] == Status(id, phase) && phase != NotStarted
    ensures var a := SubmitStep(i, drawn, launched);
            var z := Act(Act(Act(Act(Act(Act(y, a), a), a), a), a), a);
            && z.returned == y.returned + [id] && z.launches == y.launches
            && ReceiptFile in z.disk.files && z.disk.files[ReceiptFile] == Receipt(id) && z.disk.files[StateFile] == y.disk.files[StateFile]
  {
    hide Act;
    var a := SubmitStep(i, drawn, launched);
    ReadsState(y, i, id, phase, drawn, launched);
    SubmitterWrites(Act(Act(Act(Act(y, a), a), a), a), i, PutReceipt, drawn, launched);
  }

  lemma ReadsState(y: System, i: nat, id: string, phase: Phase, drawn: string, launched: bool)
    requires i < |y.submitters| && y.submitters[i].at == CheckReceipt && ReceiptFile !in y.disk.files && y.disk.made
    requires HandoffFile in y.disk.files && y.disk.files[HandoffFile] == HandoffBytes(y.submitters[i].handoff)
    requires StateFile in y.disk.files && y.disk.files[StateFile] == Status(id, phase) && phase != NotStarted
    ensures var a := SubmitStep(i, drawn, launched);
            var z := Act(Act(Act(Act(y, a), a), a), a);
            && |z.submitters| == |y.submitters| && z.submitters[i] == y.submitters[i].(runId := id, at := SubmitWrite(PutReceipt, false))
            && z.disk == y.disk && z.launches == y.launches && z.returned == y.returned
  {
  }
}
