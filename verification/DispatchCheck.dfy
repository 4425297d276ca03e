// The history loop of the graph validator, and the derivation of the one acceptable park record.
module DispatchCheck {
  import opened Wire
  import opened Admission
  import opened DispositionLaw
  import opened Dispatch
  import opened DispatchHistory
  import opened DispatchSafety

  // ---- the history loop ----

  // What the loop remembers of the entries it has passed.
  datatype Seen = Seen(ids: set<string>, refusal: Option<int>, wake: Option<int>, model: Option<int>)

  // One iteration's test, against the remembered values only.
  predicate LoopAdmits(a: Attempt, index: nat, seen: Seen, e: Entry) {
    && BoundRecords(a, e.dispatch, e.disposition)
    && BoundDeferral(a, e.dispatch, e.disposition, e.deferred)
    && e.dispatch.ordinal == index + 1
    && PermitsPark(e.disposition)
    && (seen.wake.Some? ==> seen.wake.value <= e.dispatch.openedAt && seen.wake.value <= e.disposition.receivedAt)
    && e.deferred.lastDispatch !in seen.ids
    && (seen.refusal.Some? ==> seen.refusal.value <= e.deferred.refusalReceivedAt)
    && (!a.policy.allowFallback ==> e.deferred.modelOrdinal == 0)
    && (seen.model.Some? ==> seen.model.value <= e.deferred.modelOrdinal <= seen.model.value + 1)
  }

  ghost predicate Remembers(seen: Seen, front: seq<Entry>) {
    && (forall i | 0 <= i < |front| :: front[i].deferred.lastDispatch in seen.ids)
    && (forall id | id in seen.ids :: !Fresh(front, id))
    && (if front == [] then seen.refusal.None? && seen.wake.None? && seen.model.None?
        else var last := front[|front| - 1].deferred;
             seen.refusal == Some(last.refusalReceivedAt) && seen.wake == Some(last.wakeAt) && seen.model == Some(last.modelOrdinal))
  }

  lemma LoopAgrees(a: Attempt, seen: Seen, front: seq<Entry>, e: Entry)
    requires Remembers(seen, front)
    ensures LoopAdmits(a, |front|, seen, e) && ExactSeconds(a.policy, e.disposition, e.deferred).Some? <==> EntryLinks(a, front, e)
  {
  }

  lemma RemembersNext(seen: Seen, front: seq<Entry>, e: Entry)
    requires Remembers(seen, front)
    ensures Remembers(Remember(seen, e), front + [e])
  {
    var all := front + [e];
    assert all[|front|] == e;
    forall id | id in seen.ids ensures !Fresh(all, id) {
      var i :| 0 <= i < |front| && front[i].deferred.lastDispatch == id;
      assert all[i].deferred.lastDispatch == id;
    }
    assert !Fresh(all, e.deferred.lastDispatch);
  }

  function Remember(seen: Seen, e: Entry): Seen {
    Seen(seen.ids + {e.deferred.lastDispatch}, Some(e.deferred.refusalReceivedAt), Some(e.deferred.wakeAt), Some(e.deferred.modelOrdinal))
  }

  predicate Sound(a: Attempt, history: seq<Entry>, g: Digests) { ValidEntries(history, g) && HistoryLinks(a, history) }

  predicate Admitted(a: Attempt, index: nat, seen: Seen, e: Entry, g: Digests) {
    ValidEntry(e, g) && LoopAdmits(a, index, seen, e) && ExactSeconds(a.policy, e.disposition, e.deferred).Some?
  }

  lemma SoundExtends(a: Attempt, seen: Seen, front: seq<Entry>, e: Entry, g: Digests)
    requires Sound(a, front, g) && Remembers(seen, front)
    ensures Sound(a, front + [e], g) <==> Admitted(a, |front|, seen, e, g)
  {
    LoopAgrees(a, seen, front, e);
    LinksAppend(a, front, e);
    EntriesAppend(front, e, g);
  }

  lemma SoundPrefix(a: Attempt, history: seq<Entry>, k: nat, g: Digests)
    requires Sound(a, history, g) && k <= |history|
    ensures Sound(a, history[..k], g)
  {
    LinksPrefix(a, history, k);
    forall i | 0 <= i < k ensures ValidEntry(history[..k][i], g) { assert ValidEntry(history[i], g); }
  }

  lemma PrefixStep(history: seq<Entry>, k: nat)
    requires k < |history|
    ensures history[..k + 1] == history[..k] + [history[k]]
  {
  }

  // One iteration that admits its entry.
  lemma Advances(a: Attempt, history: seq<Entry>, k: nat, seen: Seen, g: Digests)
    requires k < |history| && Sound(a, history[..k], g) && Remembers(seen, history[..k]) && Admitted(a, k, seen, history[k], g)
    ensures Sound(a, history[..k + 1], g) && Remembers(Remember(seen, history[k]), history[..k + 1])
    ensures Cumulative(history[..k + 1]) == Cumulative(history[..k]) + ExactSeconds(a.policy, history[k].disposition, history[k].deferred).value
  {
    PrefixStep(history, k);
    SoundExtends(a, seen, history[..k], history[k], g);
    RemembersNext(seen, history[..k], history[k]);
    ExactSecondsMeaning(a.policy, history[k].disposition, history[k].deferred);
    CumulativeAppend(history[..k], history[k]);
  }

  // One iteration that does not.
  lemma Rejects(a: Attempt, history: seq<Entry>, k: nat, seen: Seen, g: Digests)
    requires k < |history| && Sound(a, history[..k], g) && Remembers(seen, history[..k]) && !Admitted(a, k, seen, history[k], g)
    ensures !Sound(a, history, g)
  {
    PrefixStep(history, k);
    SoundExtends(a, seen, history[..k], history[k], g);
    if Sound(a, history, g) { SoundPrefix(a, history, k + 1, g); }
  }

  // The loop over prior_history in validate_execution_availability_graph.
  method WalkHistory(a: Attempt, history: seq<Entry>, g: Digests) returns (ok: bool, cumulative: int)
    ensures ok == Sound(a, history, g)
    ensures ok ==> cumulative == Cumulative(history)
  {
    hide ValidEntry;
    var seen := Seen({}, None, None, None);
    cumulative := 0;
    var index := 0;
    while index < |history|
      invariant 0 <= index <= |history|
      invariant Sound(a, history[..index], g) && Remembers(seen, history[..index]) && cumulative == Cumulative(history[..index])
    {
      var e := history[index];
      if !Admitted(a, index, seen, e, g) {
        Rejects(a, history, index, seen, g);
        return false, cumulative;
      }
      Advances(a, history, index, seen, g);
      cumulative := cumulative + ExactSeconds(a.policy, e.disposition, e.deferred).value;
      seen := Remember(seen, e);
      index := index + 1;
    }
    assert history[..index] == history;
    ok := true;
  }

  // The loop together with the cumulative budget test that follows it.
  method CheckHistory(a: Attempt, history: seq<Entry>, g: Digests) returns (ok: bool)
    ensures ok == ValidHistory(a, history, g)
  {
    var sound, cumulative := WalkHistory(a, history, g);
    ok := sound && cumulative <= a.policy.maximumTotalSeconds;
  }

  // ---- the one acceptable park record ----

  // The record that derive_provider_deferral builds; None when it cannot be built or sealed.
  function DerivedDeferral(a: Attempt, dispatch: DispatchRecord, d: Disposition, seal: Deferred -> string): Option<Deferred> {
    var index := dispatch.ordinal - 1;
    if !(0 <= index < |a.policy.backoffSeconds|) then None
    else
      var wakeAt := if d.retryAfter.Some? then d.retryAfter.value else d.receivedAt + a.policy.backoffSeconds[index] * SECOND;
      var blank := Deferred(
        "", a.requirement.scope, d.digest, dispatch.workItem, dispatch.attempt, dispatch.occurrence,
        dispatch.selection.provider, dispatch.selection.model, dispatch.modelOrdinal, Remaining(a, dispatch.modelOrdinal),
        d.receivedAt, if d.retryAfter.Some? then ProviderRetryAfter else PolicyBackoff, index,
        (wakeAt - d.receivedAt) / SECOND, d.retryAfter, wakeAt, a.policy.lockPolicy, true, false);
      var value := blank.(digest := seal(blank));
      if (wakeAt - d.receivedAt) / SECOND >= 0 && ValidDeferred(value, seal) then Some(value) else None
  }

  // derive_provider_deferral: None is an error, Some(None) a dispatch that does not park.
  function Derive(a: Attempt, dispatch: DispatchRecord, o: Observation, d: Disposition, history: seq<Entry>, g: Digests): Option<Option<Deferred>> {
    var derived := DerivedDeferral(a, dispatch, d, g.seal);
    if PermitsPark(d) && derived.None? then None
    else
      var deferred := if PermitsPark(d) then derived else None;
      if Graph(a, dispatch, o, d, history, deferred, g) then Some(deferred) else None
  }

  lemma ParkedIsUnique(a: Attempt, dispatch: DispatchRecord, d: Disposition, x: Deferred, y: Deferred, seal: Deferred -> string)
    requires ValidDeferred(x, seal) && ValidDeferred(y, seal)
    requires BoundDeferral(a, dispatch, d, x) && BoundDeferral(a, dispatch, d, y)
    requires ExactSeconds(a.policy, d, x).Some? && ExactSeconds(a.policy, d, y).Some?
    ensures x == y
  {
    ExactSecondsMeaning(a.policy, d, x);
    ExactSecondsMeaning(a.policy, d, y);
    assert x.(digest := "") == y.(digest := "");
  }

  // The graph accepts at most one deferral outcome for given inputs.
  lemma DeferralIsUnique(a: Attempt, dispatch: DispatchRecord, d: Disposition, history: seq<Entry>,
                         x: Option<Deferred>, y: Option<Deferred>, seal: Deferred -> string)
    requires ParkLaw(a, history, dispatch, d, x, seal) && ParkLaw(a, history, dispatch, d, y, seal)
    ensures x == y
  {
    if PermitsPark(d) { ParkedIsUnique(a, dispatch, d, x.value, y.value, seal); }
  }

  lemma DerivedIsParked(a: Attempt, dispatch: DispatchRecord, d: Disposition, x: Deferred, seal: Deferred -> string)
    requires ValidDeferred(x, seal) && BoundDeferral(a, dispatch, d, x) && BoundRecordsAttempt(a, dispatch)
    requires ExactSeconds(a.policy, d, x).Some? && dispatch.ordinal <= |a.policy.backoffSeconds|
    ensures DerivedDeferral(a, dispatch, d, seal) == Some(x)
  {
    ExactSecondsMeaning(a.policy, d, x);
    var index := dispatch.ordinal - 1;
    assert x.backoffOrdinal == index && 0 <= index;
    assert (x.wakeAt - d.receivedAt) / SECOND == x.backoffSeconds;
    assert x.(digest := "") == Deferred(
      "", a.requirement.scope, d.digest, dispatch.workItem, dispatch.attempt, dispatch.occurrence,
      dispatch.selection.provider, dispatch.selection.model, dispatch.modelOrdinal, Remaining(a, dispatch.modelOrdinal),
      d.receivedAt, x.basis, index, (x.wakeAt - d.receivedAt) / SECOND, d.retryAfter, x.wakeAt, a.policy.lockPolicy, true, false);
  }

  predicate BoundRecordsAttempt(a: Attempt, dispatch: DispatchRecord) { dispatch.workItem == a.workItem && dispatch.attempt == a.attempt }

  // Derivation returns an outcome exactly when the graph accepts that outcome and, if it parks,
  // the dispatch lies inside the policy's backoff schedule.
  lemma DeriveIsExact(a: Attempt, dispatch: DispatchRecord, o: Observation, d: Disposition, history: seq<Entry>, g: Digests, x: Option<Deferred>)
    ensures Derive(a, dispatch, o, d, history, g) == Some(x) <==>
            Graph(a, dispatch, o, d, history, x, g) && (x.Some? ==> dispatch.ordinal <= |a.policy.backoffSeconds|)
  {
    if Graph(a, dispatch, o, d, history, x, g) && x.Some? && dispatch.ordinal <= |a.policy.backoffSeconds| {
      DerivedIsParked(a, dispatch, d, x.value, g.seal);
    }
  }
}
