// The echo replay and the raw replay together: an accepted snapshot has at most one echo refusal,
// and a frame has two admissible records exactly when both replays refuse it.
module EchoJoin {
  import opened Wire
  import opened Evidence
  import opened Replay
  import opened ReplayInvariant
  import opened UniqueReading
  import opened FrameReading
  import opened Admission
  import Echo

  // ---- verdicts and enrollment ----

  lemma {:induction false} VerdictsAt(scope: Echo.Scope, records: seq<Record>, i: nat)
    requires Echo.EchoRun(scope, records).Some? && i < |records|
    ensures Echo.EchoRun(scope, records[..i]).Some?
    ensures var step := Echo.EchoStep(scope, Echo.EchoRun(scope, records[..i]).value.0, records[i]);
            step.Some? && Echo.EchoRun(scope, records).value.1[i] == step.value.1
    decreases |records|
  {
    hide Echo.EchoStep;
    var last := |records| - 1;
    if i < last {
      VerdictsAt(scope, records[..last], i);
      assert records[..last][..i] == records[..i];
    }
  }

  // A verdict names the record's own failure, on a retained notification or client request.
  lemma VerdictShows(scope: Echo.Scope, p: Echo.Progress, rec: Record)
    requires Echo.EchoStep(scope, p, rec).Some? && Echo.EchoStep(scope, p, rec).value.1.Some?
    ensures rec.raw.Some? && rec.evidence.Discrepancy? && Echo.Enables(rec)
    ensures rec.lane == Some(ClientRequestLane) || rec.lane == Some(NotificationLane)
    ensures Echo.RetainedError(rec) == Echo.EchoStep(scope, p, rec).value.1
  {
    hide Echo.Consume, Echo.SelectorAdmits, Echo.NotificationWire, Echo.KnownError;
  }

  // Enrollment adds no verdict: when the enrolled replay accepts, it derives what the other derives.
  lemma EnrolledAgrees(scope: Echo.Scope, records: seq<Record>)
    requires Echo.EchoVerdicts(scope, records, true).Some?
    ensures Echo.EchoVerdicts(scope, records, false) == Echo.EchoVerdicts(scope, records, true)
  {
    hide Echo.EchoStep, Echo.Enables;
    var verdicts := Echo.EchoVerdicts(scope, records, true).value;
    if forall i | 0 <= i < |records| :: !Echo.Enables(records[i]) {
      forall i | 0 <= i < |records| ensures verdicts[i].None? {
        VerdictsAt(scope, records, i);
        if verdicts[i].Some? { VerdictShows(scope, Echo.EchoRun(scope, records[..i]).value.0, records[i]); }
      }
      assert verdicts == seq(|records|, i => None);
    }
  }

  // ---- at most one echo refusal ----

  lemma DiscrepancyCloses(b: Binding, s: State, rec: Record, echo: Option<Detail>)
    requires Step(b, s, rec, echo).Some? && rec.evidence.Discrepancy?
    ensures Closed(Step(b, s, rec, echo).value)
  {
    hide RawReplay, WellFormed, OrdinalAdmits, LaneAdmits;
  }

  lemma EchoRefusalIsOpen(b: Binding, s: State, rec: Record, echo: Option<Detail>)
    requires Step(b, s, rec, echo).Some? && echo.Some? && rec.raw.Some?
    requires rec.lane == Some(ClientRequestLane) || rec.lane == Some(NotificationLane)
    ensures !Closed(s)
  {
    hide Transition, WellFormed, OrdinalAdmits, LaneAdmits, TransitionReplay, StreamDetail, ClientDetail;
  }

  lemma {:induction false} StepAt(b: Binding, records: seq<Record>, echo: seq<Option<Detail>>, i: nat)
    requires i < |records| == |echo| && Run(b, records, echo).Some?
    ensures Run(b, records[..i], echo[..i]).Some? && Run(b, records[..i + 1], echo[..i + 1]).Some?
    ensures Run(b, records[..i + 1], echo[..i + 1]) == Step(b, Run(b, records[..i], echo[..i]).value, records[i], echo[i])
  {
    hide Step;
    RunFreezes(b, records, echo, i + 1);
    assert records[..i + 1][..i] == records[..i] && echo[..i + 1][..i] == echo[..i];
  }

  // An echo refusal is the first discrepancy of its run.
  lemma RefusalIsFirst(b: Binding, scope: Echo.Scope, records: seq<Record>, i: nat, j: nat)
    requires Echo.EchoRun(scope, records).Some? && j < i < |records|
    requires Run(b, records, Echo.EchoRun(scope, records).value.1).Some? && Echo.EchoRun(scope, records).value.1[i].Some?
    ensures !records[j].evidence.Discrepancy?
  {
    hide Step, Closed, Echo.EchoStep, Echo.Enables;
    var echo := Echo.EchoRun(scope, records).value.1;
    VerdictsAt(scope, records, i);
    VerdictShows(scope, Echo.EchoRun(scope, records[..i]).value.0, records[i]);
    StepAt(b, records, echo, i);
    EchoRefusalIsOpen(b, Run(b, records[..i], echo[..i]).value, records[i], echo[i]);
    StepAt(b, records, echo, j);
    RunFreezes(b, records[..i], echo[..i], j + 1);
    assert records[..i][..j + 1] == records[..j + 1] && echo[..i][..j + 1] == echo[..j + 1];
    if records[j].evidence.Discrepancy? { DiscrepancyCloses(b, Run(b, records[..j], echo[..j]).value, records[j], echo[j]); }
  }

  // An accepted snapshot carries at most one echo refusal, and it is its first discrepancy.
  lemma OneEchoRefusal(d: Disposition, snap: Snapshot, sha256: Frame -> string, i: nat)
    requires SnapshotComplete(d, snap, sha256) && i < |snap.records| && Verdicts(d, snap).value[i].Some?
    ensures snap.records[i].evidence.Discrepancy?
    ensures forall j | 0 <= j < i :: !snap.records[j].evidence.Discrepancy?
    ensures forall j | 0 <= j < |snap.records| && Verdicts(d, snap).value[j].Some? :: j == i
  {
    hide SnapshotStructure, Finish, Run, Echo.EchoStep, Echo.Enables;
    FirstInSnapshot(d, snap, sha256, i);
    forall j | 0 <= j < |snap.records| && Verdicts(d, snap).value[j].Some? ensures j == i {
      FirstInSnapshot(d, snap, sha256, j);
    }
  }

  lemma FirstInSnapshot(d: Disposition, snap: Snapshot, sha256: Frame -> string, i: nat)
    requires SnapshotComplete(d, snap, sha256) && i < |snap.records| && Verdicts(d, snap).value[i].Some?
    ensures snap.records[i].evidence.Discrepancy?
    ensures forall j | 0 <= j < i :: !snap.records[j].evidence.Discrepancy?
  {
    hide SnapshotStructure, Finish, Run, Echo.EchoStep, Echo.Enables;
    var scope, body := Echo.Scope(d.thread, d.turn), Body(snap.records);
    assert Verdicts(d, snap) == Some(Echo.EchoRun(scope, snap.records).value.1);
    VerdictsAt(scope, snap.records, i);
    VerdictShows(scope, Echo.EchoRun(scope, snap.records[..i]).value.0, snap.records[i]);
    var n := |body|;
    assert i < n;
    VerdictPrefix(scope, snap.records, n);
    assert body == snap.records[..n];
    assert Replayed(d, snap, sha256) == Run(BindingOf(d, snap, sha256), body, Echo.EchoRun(scope, body).value.1);
    forall j | 0 <= j < i ensures !snap.records[j].evidence.Discrepancy? {
      RefusalIsFirst(BindingOf(d, snap, sha256), scope, body, i, j);
      assert body[j] == snap.records[j];
    }
  }

  lemma {:induction false} VerdictPrefix(scope: Echo.Scope, records: seq<Record>, n: nat)
    requires Echo.EchoRun(scope, records).Some? && n <= |records|
    ensures Echo.EchoRun(scope, records[..n]).Some?
    ensures Echo.EchoRun(scope, records[..n]).value.1 == Echo.EchoRun(scope, records).value.1[..n]
    decreases |records|
  {
    hide Echo.EchoStep;
    if n == |records| {
      assert records[..n] == records;
    } else {
      var last := |records| - 1;
      VerdictPrefix(scope, records[..last], n);
      assert records[..last][..n] == records[..n];
    }
  }
}
