// What acceptance of an availability graph guarantees about the whole attempt.
module DispatchSafety {
  import opened Wire
  import opened Evidence
  import opened Replay
  import opened ReplayTrace
  import opened Admission
  import opened DispositionLaw
  import opened CleanCut
  import opened Dispatch
  import opened DispatchHistory

  // ---- at most one execution per attempt ----

  // The owner evidence itself proves that the provider never admitted the request.
  ghost predicate NonAdmission(d: Disposition) {
    && d.execution.None? && !d.responseCreated
    && match d.evidence
       case Switchyard(snap) =>
         CompleteRun(Body(snap.records)) && RefusedOutright(Moves(Body(snap.records))) && !HasStep(Body(snap.records))
         && snap.cut.Some? && snap.cut.value.clean
       case FirstWatch(e) => e.nonAdmissionProven && !e.responseCreated
       case SecondWatch(e) => e.nonAdmissionProven && !e.responseCreated && e.execution.None?
  }

  // The owner evidence shows a provider execution.
  ghost predicate ShowsExecution(d: Disposition) {
    match d.evidence
    case Switchyard(snap) => HasStep(Body(snap.records))
    case FirstWatch(_) => false
    case SecondWatch(e) => e.completed
  }

  lemma ParkNeedsNonAdmission(d: Disposition, sha256: Frame -> string)
    requires ValidDisposition(d, sha256) && PermitsPark(d)
    ensures NonAdmission(d) && !d.mechanism.PostAdmissionInterrupted?
  {
    if d.evidence.Switchyard? {
      CleanCutIsCompleteRun(d, d.evidence.snapshot, sha256);
      DispositionShowsExecution(d, d.evidence.snapshot, sha256);
    }
  }

  // The owner evidence shows a refusal that a later dispatch may overcome.
  ghost predicate Transient(d: Disposition) {
    match d.evidence
    case Switchyard(snap) =>
      RefusedOutright(Moves(Body(snap.records))) && snap.cut.Some? && snap.cut.value.clean && !snap.admission.SnapshotIndeterminate?
    case FirstWatch(e) => e.outcome == RateLimited || e.outcome == ProviderUnavailable
    case SecondWatch(e) => !e.completed
  }

  // A valid disposition permits a park if and only if its owner evidence is a transient refusal.
  lemma ParkIffTransient(d: Disposition, sha256: Frame -> string)
    requires ValidDisposition(d, sha256)
    ensures PermitsPark(d) <==> Transient(d)
  {
    if d.evidence.Switchyard? {
      var snap := d.evidence.snapshot;
      if PermitsPark(d) {
        ParkNeedsNonAdmission(d, sha256);
      } else if Transient(d) {
        RefusedHasNoStep(Body(snap.records));
        DispositionShowsExecution(d, snap, sha256);
      }
    }
  }

  lemma RefusedHasNoStep(records: seq<Record>)
    requires RefusedOutright(Moves(records))
    ensures !HasStep(records)
  {
    if i :| 0 <= i < |records| && records[i].evidence.ExecutionStep? { StepIsMove(records, i); }
  }

  lemma {:induction false} StepIsMove(records: seq<Record>, i: nat)
    requires i < |records| && records[i].evidence.ExecutionStep?
    ensures exists k :: 0 <= k < |Moves(records)| && Moves(records)[k].Stepped?
  {
    var last := |records| - 1;
    if i < last {
      StepIsMove(records[..last], i);
      var k :| 0 <= k < |Moves(records[..last])| && Moves(records[..last])[k].Stepped?;
      assert Moves(records)[k].Stepped?;
    } else {
      assert Moves(records)[|Moves(records)| - 1].Stepped?;
    }
  }

  lemma ExecutionIsShown(d: Disposition, sha256: Frame -> string)
    requires ValidDisposition(d, sha256)
    ensures ShowsExecution(d) <==> d.execution.Some?
  {
    if d.evidence.Switchyard? {
      DispositionShowsExecution(d, d.evidence.snapshot, sha256);
    }
  }

  lemma EarlierNotAdmitted(a: Attempt, history: seq<Entry>, i: nat, g: Digests)
    requires ValidEntries(history, g) && HistoryLinks(a, history) && i < |history|
    ensures NonAdmission(history[i].disposition) && !ShowsExecution(history[i].disposition)
  {
    hide ValidDisposition, ShowsExecution, NonAdmission, ExactSeconds, BoundRecords, BoundDeferral, Continues, PermitsPark, ValidDeferred;
    assert ValidEntry(history[i], g) && LinksAt(a, history, i);
    ParkNeedsNonAdmission(history[i].disposition, g.sha256);
    ExecutionIsShown(history[i].disposition, g.sha256);
  }

  ghost predicate NoneAdmitted(history: seq<Entry>) {
    forall i | 0 <= i < |history| :: NonAdmission(history[i].disposition) && !ShowsExecution(history[i].disposition)
  }

  lemma HistoryNotAdmitted(a: Attempt, history: seq<Entry>, g: Digests)
    requires ValidEntries(history, g) && HistoryLinks(a, history)
    ensures NoneAdmitted(history)
  {
    forall i | 0 <= i < |history| ensures NonAdmission(history[i].disposition) && !ShowsExecution(history[i].disposition) {
      EarlierNotAdmitted(a, history, i, g);
    }
  }

  lemma OnlyLastShowsExecution(a: Attempt, history: seq<Entry>, dispatch: DispatchRecord, d: Disposition, deferred: Option<Deferred>, g: Digests)
    requires ValidDisposition(d, g.sha256) && ParkLaw(a, history, dispatch, d, deferred, g.seal)
    ensures ShowsExecution(d) <==> d.execution.Some?
    ensures ShowsExecution(d) ==> deferred.None?
    ensures deferred.Some? ==> NonAdmission(d)
  {
    ExecutionIsShown(d, g.sha256);
    if PermitsPark(d) { ParkNeedsNonAdmission(d, g.sha256); }
  }

  // In an accepted graph every earlier dispatch is proven not admitted; only the last can show an
  // execution, and then it has no deferral.
  lemma AtMostOneExecution(a: Attempt, dispatch: DispatchRecord, o: Observation, d: Disposition, history: seq<Entry>,
                           deferred: Option<Deferred>, g: Digests)
    requires Graph(a, dispatch, o, d, history, deferred, g)
    ensures NoneAdmitted(history)
    ensures ShowsExecution(d) <==> d.execution.Some?
    ensures ShowsExecution(d) ==> deferred.None?
    ensures deferred.Some? ==> NonAdmission(d)
  {
    hide ValidDisposition, HistoryLinks, ValidEntries, ParkLaw, ShowsExecution, NonAdmission;
    HistoryNotAdmitted(a, history, g);
    OnlyLastShowsExecution(a, history, dispatch, d, deferred, g);
  }

  // ---- the history check is step-by-step admission ----

  lemma EntriesArePositive(history: seq<Entry>, g: Digests)
    requires ValidEntries(history, g)
    ensures Positive(history)
  {
    forall i | 0 <= i < |history| ensures history[i].deferred.backoffSeconds >= 1 { assert ValidEntry(history[i], g); }
  }

  lemma EntriesAppend(history: seq<Entry>, e: Entry, g: Digests)
    ensures ValidEntries(history + [e], g) <==> ValidEntries(history, g) && ValidEntry(e, g)
  {
    var all := history + [e];
    assert all[|history|] == e && forall i | 0 <= i < |history| :: all[i] == history[i];
    if ValidEntries(all, g) {
      assert ValidEntry(all[|history|], g);
      forall i | 0 <= i < |history| ensures ValidEntry(history[i], g) { assert ValidEntry(all[i], g); }
    }
  }

  // Extending a history by one entry keeps it valid exactly when the current-step check admits
  // that entry, with a park record and under a fresh dispatch occurrence id.
  lemma HistoryIsStepwise(a: Attempt, history: seq<Entry>, e: Entry, g: Digests)
    requires |history| < a.policy.maximumDispatches
    ensures ValidHistory(a, history + [e], g) <==>
            && ValidHistory(a, history, g) && ValidEntry(e, g) && PermitsPark(e.disposition)
            && StepAdmits(a, history, e.dispatch, e.disposition, Some(e.deferred), g.seal) && Fresh(history, e.dispatch.occurrence)
  {
    hide ValidDisposition, HistoryLinks, ValidEntries, ExactSeconds, Continues, PermitsPark;
    EntriesAppend(history, e, g);
    LinksAppend(a, history, e);
    CumulativeAppend(history, e);
    if ValidEntries(history, g) && ValidEntry(e, g) && PermitsPark(e.disposition) && HistoryLinks(a, history) {
      EntriesArePositive(history, g);
      ParkNeedsNonAdmission(e.disposition, g.sha256);
      EntryIsStep(a, history, e, g.seal);
    }
  }

  lemma HistoryIsPrefixClosed(a: Attempt, history: seq<Entry>, k: nat, g: Digests)
    requires ValidHistory(a, history, g) && k <= |history|
    ensures ValidHistory(a, history[..k], g)
  {
    hide HistoryLinks, ValidEntry, ExactSeconds;
    LinksPrefix(a, history, k);
    EntriesArePositive(history, g);
    SumPrefix(Seconds(history), k);
    assert Seconds(history[..k]) == Seconds(history)[..k];
    forall i | 0 <= i < k ensures ValidEntry(history[..k][i], g) { assert ValidEntry(history[i], g); }
  }

  // An accepted dispatch with a park record and a fresh id makes a valid history for the next one.
  lemma AcceptedStepExtendsHistory(a: Attempt, dispatch: DispatchRecord, o: Observation, d: Disposition, history: seq<Entry>,
                                   deferred: Deferred, g: Digests)
    requires Graph(a, dispatch, o, d, history, Some(deferred), g) && Fresh(history, dispatch.occurrence)
    ensures ValidHistory(a, history + [Entry(dispatch, d, deferred)], g)
  {
    HistoryIsStepwise(a, history, Entry(dispatch, d, deferred), g);
  }

  // ---- time and budget over the whole attempt ----

  // e is opened, refused and woken before f is opened, and f wakes strictly later still.
  predicate Precedes(e: Entry, f: Entry) {
    e.dispatch.openedAt < e.deferred.wakeAt <= f.dispatch.openedAt < f.deferred.wakeAt
  }

  // Wakes and dispatches strictly advance, the receipt covers every deferral so far, the budget
  // holds, and the model ordinal never falls nor skips.
  lemma AttemptTimeline(a: Attempt, dispatch: DispatchRecord, o: Observation, d: Disposition, history: seq<Entry>,
                        deferred: Option<Deferred>, g: Digests)
    requires Graph(a, dispatch, o, d, history, deferred, g)
    ensures Chained(a, history)
    ensures forall i, j | 0 <= i < j < |history| :: Precedes(history[i], history[j])
    ensures forall i | 0 <= i < |history| :: history[i].deferred.wakeAt <= dispatch.openedAt
    ensures history != [] ==> history[0].disposition.receivedAt + Cumulative(history) * SECOND <= dispatch.openedAt <= d.receivedAt
    ensures Cumulative(history) + (if deferred.Some? then deferred.value.backoffSeconds else 0) <= a.policy.maximumTotalSeconds
    ensures deferred.Some? ==> d.receivedAt + deferred.value.backoffSeconds * SECOND <= deferred.value.wakeAt
    ensures !a.policy.allowFallback ==> dispatch.modelOrdinal == 0
    ensures history != [] ==>
              var prior := history[|history| - 1].deferred.modelOrdinal; prior <= dispatch.modelOrdinal <= prior + 1
  {
    hide ValidDisposition, HistoryLinks, ValidEntries, ExactSeconds, PermitsPark;
    EntriesArePositive(history, g);
    HistoryChained(a, history);
    TimelineOf(a, history);
    if history != [] {
      WakeCoversDeferrals(a, history);
    }
    if deferred.Some? { ExactSecondsMeaning(a.policy, d, deferred.value); }
  }

  lemma TimelineOf(a: Attempt, history: seq<Entry>)
    requires Chained(a, history)
    ensures forall i, j | 0 <= i < j < |history| :: Precedes(history[i], history[j])
    ensures forall i | 0 <= i < |history| :: history[i].deferred.wakeAt <= history[|history| - 1].deferred.wakeAt
  {
    forall i, j | 0 <= i < j < |history| ensures Precedes(history[i], history[j]) {
      WakesAdvance(a, history, i, j);
    }
    forall i | 0 <= i < |history| ensures history[i].deferred.wakeAt <= history[|history| - 1].deferred.wakeAt {
      if i < |history| - 1 { assert Precedes(history[i], history[|history| - 1]); }
    }
  }

  // ---- the evidence is of the dispatch ----

  // The owner evidence names the dispatch that it decides: its attempt and occurrence, provider and
  // model, and for app-server evidence also its process and session, on every record.
  ghost predicate NamesDispatch(d: Disposition, dispatch: DispatchRecord) {
    match d.evidence
    case Switchyard(snap) =>
      && snap.owner.attempt == dispatch.attempt && snap.owner.dispatchOccurrence == dispatch.occurrence
      && snap.owner.provider == dispatch.selection.provider && snap.owner.model == dispatch.selection.model
      && snap.owner.adapterProcess == dispatch.adapterProcess && snap.owner.session == dispatch.session
      && (forall i | 0 <= i < |snap.stamps| :: snap.stamps[i] == snap.owner)
    case FirstWatch(e) =>
      e.attempt == dispatch.attempt && e.dispatchOccurrence == dispatch.occurrence
      && e.provider == dispatch.selection.provider && e.model == dispatch.selection.model
    case SecondWatch(e) =>
      e.attempt == dispatch.attempt && e.dispatchOccurrence == dispatch.occurrence
      && e.provider == dispatch.selection.provider && e.model == dispatch.selection.model
  }

  // Which evidence family an adapter may hand in.
  predicate FamilyFits(d: Disposition, adapter: Adapter) {
    match d.evidence
    case Switchyard(_) =>
      adapter.id != "nightshift:holding-pattern-deterministic-fake-adapter" && adapter.protocol == "switchyard.codex-app-server/v2"
    case FirstWatch(_) =>
      adapter == Adapter("nightshift:holding-pattern-deterministic-fake-adapter", "v1", "nightshift.holding-deterministic-provider-admission-evidence/v1")
    case SecondWatch(_) =>
      adapter == Adapter("nightshift:holding-pattern-deterministic-fake-adapter", "v2", "nightshift.holding-deterministic-provider-admission-evidence/v2")
  }

  ghost predicate Belongs(a: Attempt, dispatch: DispatchRecord, d: Disposition) {
    && dispatch.attempt == a.attempt && dispatch.workItem == a.workItem && dispatch.scope == a.requirement.scope
    && dispatch.adapter == a.requirement.adapter && dispatch.selection in a.selections
    && d.dispatchDigest == dispatch.digest && d.scope == dispatch.scope && d.workItem == dispatch.workItem
    && a.requirement.admittedAt <= dispatch.openedAt <= d.receivedAt
    && NamesDispatch(d, dispatch) && FamilyFits(d, a.requirement.adapter)
  }

  lemma BoundBelongs(a: Attempt, dispatch: DispatchRecord, d: Disposition, sha256: Frame -> string)
    requires BoundRecords(a, dispatch, d) && ValidDisposition(d, sha256)
    ensures Belongs(a, dispatch, d)
  {
    hide Replayed, Finish, PermitsPark, OneExecution, KindLaw, DispositionIds, OutcomeLawV1, OutcomeLawV2, ValidSelection;
  }

  // In an accepted graph every dispatch, earlier or current, belongs to the attempt, and the evidence
  // that decides it names it.
  lemma NothingIsSubstituted(a: Attempt, dispatch: DispatchRecord, o: Observation, d: Disposition, history: seq<Entry>,
                             deferred: Option<Deferred>, g: Digests)
    requires Graph(a, dispatch, o, d, history, deferred, g)
    ensures Belongs(a, dispatch, d) && o.selection == dispatch.selection && o.receivedAt == d.receivedAt && o.retryAfter == d.retryAfter
    ensures forall i | 0 <= i < |history| :: Belongs(a, history[i].dispatch, history[i].disposition)
  {
    hide ValidDisposition, Belongs, BoundRecords, PermitsPark, ExactSeconds, BoundDeferral, Continues, ParkLaw, ValidDeferred, ValidDispatch;
    BoundBelongs(a, dispatch, d, g.sha256);
    forall i | 0 <= i < |history| ensures Belongs(a, history[i].dispatch, history[i].disposition) {
      assert ValidEntry(history[i], g) && LinksAt(a, history, i);
      BoundBelongs(a, history[i].dispatch, history[i].disposition, g.sha256);
    }
  }
}
