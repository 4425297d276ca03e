// At-most-once acquisition, over every interleaving and crash.
module InvestigationSafety {
  import opened Wire
  import opened Investigation

  // ---- the invariant ----

  // Steps that only the submitter that made the directory can reach.
  predicate OwnerOnly(at: SubmitAt) { at.Launch? || (at.SubmitWrite? && !at.put.PutReceipt?) }

  predicate BeforeRunId(at: SubmitAt) { at.SubmitWrite? && at.put.PutHandoff? }

  predicate BeforeLaunch(at: SubmitAt) { at.Launch? || (at.SubmitWrite? && (at.put.PutHandoff? || at.put.PutAccepted?)) }

  predicate CarriesRunId(at: SubmitAt) { at.Returned? || at.Launch? || (at.SubmitWrite? && !at.put.PutHandoff?) }

  predicate SubmitterOk(y: System, i: nat, s: Submitter) {
    && (OwnerOnly(s.at) ==> y.owner == Some(i))
    && (BeforeRunId(s.at) ==> y.run.None?)
    && (BeforeLaunch(s.at) ==> y.launches == 0)
    && (CarriesRunId(s.at) ==> y.run == Some(s.runId))
  }

  // Diagnostics 0..n-1 in order.
  function Upto(n: nat): seq<nat> { seq(n, i => i) }

  predicate PastLock(at: WorkAt) { !at.TakeLock? && !at.Dead? }

  predicate Loaded(at: WorkAt) { at.Acquire? || at.Finished? || at.WorkWrite? }

  predicate Acquires(at: WorkAt) { at.LoadHandoff? || at.LoadState? || at.Acquire? || (at.WorkWrite? && (at.put.PutRunning? || at.put.PutAcquiring?)) }

  predicate Recording(at: WorkAt) { at.Finished? || (at.WorkWrite? && (at.put.PutRecord? || at.put.PutCompleted?)) }

  predicate Recorded(at: WorkAt) { at.Finished? || (at.WorkWrite? && at.put.PutCompleted?) }

  predicate WorkerOk(y: System, i: nat, k: Worker) {
    && (PastLock(k.at) ==> y.holder == Some(i))
    && (k.at.TakeLock? ==> k.next == 0 && k.found == [])
    && (Loaded(k.at) ==> y.run == Some(k.runId))
    && (Acquires(k.at) ==> k.next < DIAGNOSTICS && k.found == Upto(k.next) == y.acquired)
    && (Recording(k.at) ==> k.found == Upto(DIAGNOSTICS) == y.acquired)
    && (Recorded(k.at) ==> RecordFile in y.disk.files)
  }

  // What a file may hold once the run id is `run`; a completed state needs the record beside it.
  predicate ContentOk(f: map<Name, Content>, run: Option<string>, name: Name, c: Content) {
    match name
    case StateFile => c.Status? && run == Some(c.runId) && (c.phase.Completed? ==> RecordFile in f)
    case ReceiptFile => c.Receipt? && run == Some(c.runId)
    case RecordFile => c.Findings? && run == Some(c.runId) && c.nodes == Upto(DIAGNOSTICS)
    case _ => true
  }

  ghost predicate FilesOk(f: map<Name, Content>, run: Option<string>) { forall n | n in f :: ContentOk(f, run, n, f[n]) }

  ghost predicate Globals(y: System) {
    && y.disk.made == y.owner.Some? && y.disk.locked == y.holder.Some?
    && (y.owner.None? ==> y.run.None? && y.launches == 0)
    && y.launches <= 1 && y.passes == (if y.disk.locked then 1 else 0)
    && (y.holder.None? ==> y.acquired == [])
    && |y.acquired| <= DIAGNOSTICS && y.acquired == Upto(|y.acquired|)
    && (forall r | r in y.returned :: y.run == Some(r))
  }

  ghost predicate Inv(y: System) {
    && Globals(y) && FilesOk(y.disk.files, y.run)
    && (forall i | 0 <= i < |y.submitters| :: SubmitterOk(y, i, y.submitters[i]))
    && (forall i | 0 <= i < |y.workers| :: WorkerOk(y, i, y.workers[i]))
  }

  // ---- every step keeps it ----

  lemma UptoGrows(n: nat)
    ensures Upto(n) + [n] == Upto(n + 1) && Upto(0) == [] && |Upto(n)| == n
  {
  }

  // The run ids found on disk are the one of the run.
  predicate DiskBinds(y: System) {
    var f := y.disk.files;
    && (ReceiptFile in f ==> f[ReceiptFile].Receipt? && y.run == Some(f[ReceiptFile].runId))
    && (StateFile in f ==> f[StateFile].Status? && y.run == Some(f[StateFile].runId))
  }

  lemma InvBinds(y: System)
    requires Inv(y)
    ensures DiskBinds(y)
  {
    var f := y.disk.files;
    if ReceiptFile in f { assert ContentOk(f, y.run, ReceiptFile, f[ReceiptFile]); }
    if StateFile in f { assert ContentOk(f, y.run, StateFile, f[StateFile]); }
  }

  lemma SubmitterMovesGlobals(y: System, i: nat, freshRunId: string, launched: bool)
    requires i < |y.submitters| && SubmitterOk(y, i, y.submitters[i]) && Globals(y) && DiskBinds(y)
    ensures Globals(SubmitterStep(y, i, freshRunId, launched))
  {
    hide Upto;
    assert y.returned <= SubmitterStep(y, i, freshRunId, launched).returned;
  }

  lemma SubmitterMoves(y: System, i: nat, freshRunId: string, launched: bool)
    requires i < |y.submitters| && SubmitterOk(y, i, y.submitters[i]) && Globals(y) && DiskBinds(y)
    ensures var z := SubmitterStep(y, i, freshRunId, launched);
            |z.submitters| == |y.submitters| && z.workers == y.workers && SubmitterOk(z, i, z.submitters[i])
  {
    hide Upto;
    if y.submitters[i].at.SubmitWrite? {
      assert y.submitters[i].at.put.PutReceipt? || y.owner == Some(i);
    }
  }

  lemma ReplaceKeeps(f: map<Name, Content>, run: Option<string>, name: Name, c: Content)
    requires FilesOk(f, run) && ContentOk(f, run, name, c)
    ensures FilesOk(f[name := c], run)
  {
    var g := f[name := c];
    forall n | n in g ensures ContentOk(g, run, n, g[n]) {
      if n != name { assert ContentOk(f, run, n, f[n]); }
    }
  }

  // Before a run id exists there is nothing that could disagree with it.
  lemma RunIdAppears(f: map<Name, Content>, run: string)
    requires FilesOk(f, None)
    ensures FilesOk(f, Some(run))
  {
    forall n | n in f ensures ContentOk(f, Some(run), n, f[n]) { assert ContentOk(f, None, n, f[n]); }
  }

  lemma SubmitterStepFiles(y: System, i: nat, freshRunId: string, launched: bool)
    requires Inv(y) && i < |y.submitters|
    ensures var z := SubmitterStep(y, i, freshRunId, launched); FilesOk(z.disk.files, z.run)
  {
    hide FilesOk;
    var s, f := y.submitters[i], y.disk.files;
    assert SubmitterOk(y, i, s);
    if s.at.SubmitWrite? && s.at.created {
      var name, content := SubmitName(s.at.put), SubmitContent(s, s.at.put);
      ReplaceKeeps(f, y.run, name, content);
      if s.at.put.PutHandoff? { RunIdAppears(f[name := content], freshRunId); }
    }
  }

  lemma SubmitterStepOthers(y: System, i: nat, freshRunId: string, launched: bool, j: nat)
    requires Inv(y) && i < |y.submitters| && j < |y.submitters| && j != i
    ensures var z := SubmitterStep(y, i, freshRunId, launched);
            j < |z.submitters| && z.submitters[j] == y.submitters[j] && SubmitterOk(z, j, z.submitters[j])
  {
    assert SubmitterOk(y, i, y.submitters[i]) && SubmitterOk(y, j, y.submitters[j]);
  }

  lemma SubmitterStepWorkers(y: System, i: nat, freshRunId: string, launched: bool, j: nat)
    requires Inv(y) && i < |y.submitters| && j < |y.workers|
    ensures WorkerOk(SubmitterStep(y, i, freshRunId, launched), j, y.workers[j])
  {
    assert SubmitterOk(y, i, y.submitters[i]) && WorkerOk(y, j, y.workers[j]);
  }

  lemma SubmitterStepKeeps(y: System, i: nat, freshRunId: string, launched: bool)
    requires Inv(y) && i < |y.submitters|
    ensures Inv(SubmitterStep(y, i, freshRunId, launched))
  {
    hide SubmitterStep;
    var z := SubmitterStep(y, i, freshRunId, launched);
    InvBinds(y);
    SubmitterMovesGlobals(y, i, freshRunId, launched);
    SubmitterMoves(y, i, freshRunId, launched);
    SubmitterStepFiles(y, i, freshRunId, launched);
    forall j | 0 <= j < |z.submitters| ensures SubmitterOk(z, j, z.submitters[j]) {
      if j != i { SubmitterStepOthers(y, i, freshRunId, launched, j); }
    }
    forall j | 0 <= j < |z.workers| ensures WorkerOk(z, j, z.workers[j]) { SubmitterStepWorkers(y, i, freshRunId, launched, j); }
  }

  lemma WorkerMovesGlobals(y: System, i: nat, well: bool)
    requires i < |y.workers| && WorkerOk(y, i, y.workers[i]) && Globals(y)
    ensures Globals(WorkerStep(y, i, well))
  {
    UptoGrows(y.workers[i].next);
  }

  lemma WorkerMoves(y: System, i: nat, well: bool)
    requires i < |y.workers| && WorkerOk(y, i, y.workers[i]) && Globals(y) && DiskBinds(y)
    ensures var z := WorkerStep(y, i, well); |z.workers| == |y.workers| && WorkerOk(z, i, z.workers[i])
  {
    hide Upto;
    UptoGrows(y.workers[i].next);
  }

  lemma WorkerStepFiles(y: System, i: nat, well: bool)
    requires Inv(y) && i < |y.workers|
    ensures var z := WorkerStep(y, i, well); FilesOk(z.disk.files, z.run)
  {
    hide FilesOk;
    var k := y.workers[i];
    assert WorkerOk(y, i, k);
    if k.at.WorkWrite? && k.at.created { ReplaceKeeps(y.disk.files, y.run, WorkName(k.at.put), WorkContent(k, k.at.put)); }
  }

  lemma WorkerStepOthers(y: System, i: nat, well: bool, j: nat)
    requires Inv(y) && i < |y.workers| && j < |y.workers| && j != i
    ensures var z := WorkerStep(y, i, well);
            j < |z.workers| && z.workers[j] == y.workers[j] && WorkerOk(z, j, z.workers[j])
  {
    assert WorkerOk(y, i, y.workers[i]) && WorkerOk(y, j, y.workers[j]);
  }

  lemma WorkerStepSubmitters(y: System, i: nat, well: bool)
    requires i < |y.workers|
    ensures var z := WorkerStep(y, i, well);
            z.submitters == y.submitters && z.owner == y.owner && z.run == y.run && z.launches == y.launches
  {
  }

  lemma WorkerStepKeeps(y: System, i: nat, well: bool)
    requires Inv(y) && i < |y.workers|
    ensures Inv(WorkerStep(y, i, well))
  {
    hide WorkerStep;
    var z := WorkerStep(y, i, well);
    InvBinds(y);
    WorkerMovesGlobals(y, i, well);
    WorkerMoves(y, i, well);
    WorkerStepFiles(y, i, well);
    WorkerStepSubmitters(y, i, well);
    forall j | 0 <= j < |z.workers| ensures WorkerOk(z, j, z.workers[j]) {
      if j != i { WorkerStepOthers(y, i, well, j); }
    }
    forall j | 0 <= j < |z.submitters| ensures SubmitterOk(z, j, z.submitters[j]) { assert SubmitterOk(y, j, y.submitters[j]); }
  }

  // A process that only appears, raises or stops.
  lemma QuietFrame(y: System, a: Action)
    requires !a.SubmitStep? && !a.WorkStep?
    ensures var z := Act(y, a); z == y.(submitters := z.submitters, workers := z.workers)
    ensures |y.submitters| <= |Act(y, a).submitters| && |y.workers| <= |Act(y, a).workers|
  {
  }

  lemma QuietSubmitter(y: System, a: Action, j: nat)
    requires Inv(y) && !a.SubmitStep? && !a.WorkStep? && j < |Act(y, a).submitters|
    ensures SubmitterOk(y, j, Act(y, a).submitters[j])
  {
    if j < |y.submitters| { assert SubmitterOk(y, j, y.submitters[j]); }
  }

  lemma QuietWorker(y: System, a: Action, j: nat)
    requires Inv(y) && !a.SubmitStep? && !a.WorkStep? && j < |Act(y, a).workers|
    ensures WorkerOk(y, j, Act(y, a).workers[j])
  {
    if j < |y.workers| { assert WorkerOk(y, j, y.workers[j]); }
  }

  lemma QuietKeeps(y: System, a: Action)
    requires Inv(y) && !a.SubmitStep? && !a.WorkStep?
    ensures Inv(Act(y, a))
  {
    hide Act;
    var z := Act(y, a);
    QuietFrame(y, a);
    forall j | 0 <= j < |z.submitters| ensures SubmitterOk(z, j, z.submitters[j]) { QuietSubmitter(y, a, j); }
    forall j | 0 <= j < |z.workers| ensures WorkerOk(z, j, z.workers[j]) { QuietWorker(y, a, j); }
  }

  lemma ActKeeps(y: System, a: Action)
    requires Inv(y)
    ensures Inv(Act(y, a))
  {
    if a.SubmitStep? {
      if a.i < |y.submitters| { SubmitterStepKeeps(y, a.i, a.freshRunId, a.launched); }
    } else if a.WorkStep? {
      if a.i < |y.workers| { WorkerStepKeeps(y, a.i, a.acquiredWell); }
    } else {
      QuietKeeps(y, a);
    }
  }

  lemma {:induction false} RunKeeps(actions: seq<Action>)
    ensures Inv(Run(actions))
  {
    if actions != [] {
      RunKeeps(actions[..|actions| - 1]);
      ActKeeps(Run(actions[..|actions| - 1]), actions[|actions| - 1]);
    }
  }

  // ---- what it means ----

  // At most one launch is ever issued, at most one worker ever passes the lock, and the diagnostics
  // attempted so far are a prefix of 0, 1, each attempted once.
  lemma AtMostOnce(actions: seq<Action>)
    ensures var y := Run(actions);
            && y.launches <= 1 && y.passes <= 1
            && (forall i, j | 0 <= i < |y.workers| && 0 <= j < |y.workers| && PastLock(y.workers[i].at) && PastLock(y.workers[j].at) :: i == j)
            && (forall i, j | 0 <= i < j < |y.acquired| :: y.acquired[i] < y.acquired[j])
            && (forall i | 0 <= i < |y.acquired| :: y.acquired[i] == i < DIAGNOSTICS)
  {
    RunKeeps(actions);
    var y := Run(actions);
    forall i, j | 0 <= i < |y.workers| && 0 <= j < |y.workers| && PastLock(y.workers[i].at) && PastLock(y.workers[j].at) ensures i == j {
      assert WorkerOk(y, i, y.workers[i]) && WorkerOk(y, j, y.workers[j]);
    }
  }

  // Every receipt returned to any submitter names one run id, which the state, the receipt and the
  // record on disk share.
  lemma OneRunId(actions: seq<Action>, r: string)
    requires r in Run(actions).returned
    ensures var y := Run(actions);
            && (forall q | q in y.returned :: q == r)
            && (StateFile in y.disk.files ==> y.disk.files[StateFile].Status? && y.disk.files[StateFile].runId == r)
            && (ReceiptFile in y.disk.files ==> y.disk.files[ReceiptFile] == Receipt(r))
            && (RecordFile in y.disk.files ==> y.disk.files[RecordFile] == Findings(r, [0, 1]))
  {
    RunKeeps(actions);
    assert Upto(DIAGNOSTICS) == [0, 1];
    var y := Run(actions);
    assert forall n | n in y.disk.files :: ContentOk(y.disk.files, y.run, n, y.disk.files[n]);
  }

  // A completed state on disk is always accompanied by the record of both findings, in order.
  lemma CompletedHasRecord(actions: seq<Action>)
    ensures var f := Run(actions).disk.files;
            StateFile in f && f[StateFile].Status? && f[StateFile].phase.Completed? ==>
              RecordFile in f && f[RecordFile] == Findings(f[StateFile].runId, [0, 1])
  {
    RunKeeps(actions);
    assert Upto(DIAGNOSTICS) == [0, 1];
  }
}
