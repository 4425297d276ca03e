// The service-investigation owner as a protocol: any number of submitters and workers act on one
// occurrence directory, in any interleaving, and each may crash at any step.
module Investigation {
  import opened Wire

  // ---- shared files of one occurrence ----

  datatype Name = HandoffFile | StateFile | LauncherFile | RefusalFile | ReceiptFile | RecordFile

  datatype Phase = Accepted | NotStarted | RunningPhase | AcquiringPhase | Completed | Indeterminate

  datatype Content =
    | HandoffBytes(handoff: string)
    | Status(runId: string, phase: Phase)
    | Receipt(runId: string)
    | Findings(runId: string, nodes: seq<nat>)
    | Note

  // `temporaries` are the exclusive ".new" files that an interrupted replace leaves behind.
  datatype Disk = Disk(made: bool, locked: bool, files: map<Name, Content>, temporaries: set<Name>)

  // ---- processes ----

  datatype SubmitPut = PutHandoff | PutAccepted | PutLauncher | PutReceipt | PutNotStarted | PutRefusal

  // Replacing a file takes two steps: create the temporary exclusively, then rename it.
  datatype SubmitAt =
    | CheckReceipt | MakeDirectory | Launch | CompareHandoff | ReadState
    | SubmitWrite(put: SubmitPut, created: bool)
    | Returned
    | Stopped

  datatype Submitter = Submitter(handoff: string, runId: string, at: SubmitAt)

  datatype WorkPut = PutRunning | PutAcquiring | PutRecord | PutCompleted | PutIndeterminate

  datatype WorkAt =
    | TakeLock | LoadHandoff | LoadState | Acquire
    | WorkWrite(put: WorkPut, created: bool)
    | Finished
    | Dead

  // `next` is the diagnostic to acquire; `found` the diagnostics acquired, in order.
  datatype Worker = Worker(runId: string, next: nat, found: seq<nat>, at: WorkAt)

  const DIAGNOSTICS: nat := 2

  // `launches`, `passes` of the lock, `acquired` and `returned` count what happened; `owner`, `run` and
  // `holder` name the submitter that made it, the run id it chose and the worker that locked it.
  datatype System = System(
    disk: Disk, submitters: seq<Submitter>, workers: seq<Worker>,
    launches: nat, passes: nat, acquired: seq<nat>, returned: seq<string>,
    owner: Option<nat>, run: Option<string>, holder: Option<nat>)

  const EMPTY := System(Disk(false, false, map[], {}), [], [], 0, 0, [], [], None, None, None)

  datatype Action =
    | Submit(handoff: string)
    | SubmitStep(i: nat, freshRunId: string, launched: bool)
    | SubmitCrash(i: nat)
    | Spawn
    | WorkStep(i: nat, acquiredWell: bool)
    | WorkRaise(i: nat)
    | WorkCrash(i: nat)

  // ---- writing a file ----

  function Create(d: Disk, name: Name): Disk { d.(temporaries := d.temporaries + {name}) }

  function Replace(d: Disk, name: Name, content: Content): Disk {
    d.(files := d.files[name := content], temporaries := d.temporaries - {name})
  }

  // ---- submit ----

  function SubmitName(put: SubmitPut): Name {
    match put
    case PutHandoff => HandoffFile
    case PutAccepted => StateFile
    case PutLauncher => LauncherFile
    case PutReceipt => ReceiptFile
    case PutNotStarted => StateFile
    case PutRefusal => RefusalFile
  }

  function SubmitContent(s: Submitter, put: SubmitPut): Content {
    match put
    case PutHandoff => HandoffBytes(s.handoff)
    case PutAccepted => Status(s.runId, Accepted)
    case PutReceipt => Receipt(s.runId)
    case PutNotStarted => Status(s.runId, NotStarted)
    case _ => Note
  }

  function AfterSubmitPut(put: SubmitPut): SubmitAt {
    match put
    case PutHandoff => SubmitWrite(PutAccepted, false)
    case PutAccepted => Launch
    case PutLauncher => SubmitWrite(PutReceipt, false)
    case PutReceipt => Returned
    case PutNotStarted => SubmitWrite(PutRefusal, false)
    case PutRefusal => Stopped
  }

  function Move(y: System, i: nat, s: Submitter): System
    requires i < |y.submitters|
  {
    y.(submitters := y.submitters[i := s])
  }

  function SubmitterStep(y: System, i: nat, freshRunId: string, launched: bool): System
    requires i < |y.submitters|
  {
    var s := y.submitters[i];
    var d := y.disk;
    match s.at
    case CheckReceipt =>
      if ReceiptFile in d.files then
        if d.files[ReceiptFile].Receipt? then
          Move(y, i, s.(runId := d.files[ReceiptFile].runId, at := Returned)).(returned := y.returned + [d.files[ReceiptFile].runId])
        else Move(y, i, s.(at := Stopped))
      else Move(y, i, s.(at := MakeDirectory))
    case MakeDirectory =>
      if d.made then Move(y, i, s.(at := CompareHandoff))
      else Move(y, i, s.(at := SubmitWrite(PutHandoff, false))).(disk := d.(made := true), owner := Some(i))
    case CompareHandoff =>
      if HandoffFile in d.files && d.files[HandoffFile] == HandoffBytes(s.handoff) then Move(y, i, s.(at := ReadState))
      else Move(y, i, s.(at := Stopped))
    case ReadState =>
      if StateFile in d.files && d.files[StateFile].Status? && d.files[StateFile].phase != NotStarted
      then Move(y, i, s.(runId := d.files[StateFile].runId, at := SubmitWrite(PutReceipt, false)))
      else Move(y, i, s.(at := Stopped))
    case Launch =>
      Move(y, i, s.(at := SubmitWrite(if launched then PutLauncher else PutNotStarted, false))).(launches := y.launches + 1)
    case SubmitWrite(put, created) =>
      if !created then
        if SubmitName(put) in d.temporaries then Move(y, i, s.(at := Stopped))
        else Move(y, i, s.(at := SubmitWrite(put, true))).(disk := Create(d, SubmitName(put)))
      else
        var disk := Replace(d, SubmitName(put), SubmitContent(s, put));
        if put == PutHandoff then
          // the run id is drawn once the handoff is in place
          Move(y, i, s.(runId := freshRunId, at := AfterSubmitPut(put))).(disk := disk, run := Some(freshRunId))
        else if put == PutReceipt then
          Move(y, i, s.(at := Returned)).(disk := disk, returned := y.returned + [s.runId])
        else Move(y, i, s.(at := AfterSubmitPut(put))).(disk := disk)
    case Returned => y
    case Stopped => y
  }

  // ---- work ----

  function WorkName(put: WorkPut): Name { if put == PutRecord then RecordFile else StateFile }

  function WorkContent(k: Worker, put: WorkPut): Content {
    match put
    case PutRunning => Status(k.runId, RunningPhase)
    case PutAcquiring => Status(k.runId, AcquiringPhase)
    case PutRecord => Findings(k.runId, k.found)
    case PutCompleted => Status(k.runId, Completed)
    case PutIndeterminate => Status(k.runId, Indeterminate)
  }

  function AfterWorkPut(k: Worker, put: WorkPut): WorkAt {
    match put
    case PutRunning => WorkWrite(PutAcquiring, false)
    case PutAcquiring => Acquire
    case PutRecord => WorkWrite(PutCompleted, false)
    case PutCompleted => Finished
    case PutIndeterminate => Dead
  }

  // An exception inside the guarded block tries to record an indeterminate state; outside, it ends
  // the worker.  The block still covers the moment after the last replace.
  function AfterRaise(at: WorkAt): WorkAt {
    if at.Acquire? || at.Finished? || (at.WorkWrite? && (at.put.PutAcquiring? || at.put.PutRecord? || at.put.PutCompleted?))
    then WorkWrite(PutIndeterminate, false)
    else Dead
  }

  function Turn(y: System, i: nat, k: Worker): System
    requires i < |y.workers|
  {
    y.(workers := y.workers[i := k])
  }

  function WorkerStep(y: System, i: nat, acquiredWell: bool): System
    requires i < |y.workers|
  {
    var k := y.workers[i];
    var d := y.disk;
    match k.at
    case TakeLock =>
      if d.locked || !d.made then Turn(y, i, k.(at := Dead))
      else Turn(y, i, k.(at := LoadHandoff)).(disk := d.(locked := true), holder := Some(i), passes := y.passes + 1)
    case LoadHandoff =>
      if HandoffFile in d.files then Turn(y, i, k.(at := LoadState)) else Turn(y, i, k.(at := Dead))
    case LoadState =>
      if StateFile in d.files && d.files[StateFile].Status?
      then Turn(y, i, k.(runId := d.files[StateFile].runId, at := WorkWrite(PutRunning, false)))
      else Turn(y, i, k.(at := Dead))
    case Acquire =>
      var tried := y.(acquired := y.acquired + [k.next]);
      if acquiredWell then
        Turn(tried, i, k.(next := k.next + 1, found := k.found + [k.next],
                          at := WorkWrite(if k.next + 1 < DIAGNOSTICS then PutAcquiring else PutRecord, false)))
      else Turn(tried, i, k.(at := AfterRaise(k.at)))
    case WorkWrite(put, created) =>
      if !created then
        if WorkName(put) in d.temporaries then Turn(y, i, k.(at := AfterRaise(k.at)))
        else Turn(y, i, k.(at := WorkWrite(put, true))).(disk := Create(d, WorkName(put)))
      else Turn(y, i, k.(at := AfterWorkPut(k, put))).(disk := Replace(d, WorkName(put), WorkContent(k, put)))
    case Finished => y
    case Dead => y
  }

  // ---- the system ----

  function Act(y: System, a: Action): System {
    match a
    case Submit(handoff) => y.(submitters := y.submitters + [Submitter(handoff, "", CheckReceipt)])
    case Spawn => y.(workers := y.workers + [Worker("", 0, [], TakeLock)])
    case SubmitStep(i, freshRunId, launched) => if i < |y.submitters| then SubmitterStep(y, i, freshRunId, launched) else y
    case SubmitCrash(i) =>
      if i < |y.submitters| && !y.submitters[i].at.Returned? then Move(y, i, y.submitters[i].(at := Stopped)) else y
    case WorkStep(i, well) => if i < |y.workers| then WorkerStep(y, i, well) else y
    case WorkRaise(i) => if i < |y.workers| then Turn(y, i, y.workers[i].(at := AfterRaise(y.workers[i].at))) else y
    case WorkCrash(i) =>
      if i < |y.workers| && !y.workers[i].at.Finished? then Turn(y, i, y.workers[i].(at := Dead)) else y
  }

  function Run(actions: seq<Action>): System {
    if actions == [] then EMPTY else Act(Run(actions[..|actions| - 1]), actions[|actions| - 1])
  }
}
