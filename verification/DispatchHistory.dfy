// Laws of a whole attempt: time, budget, model order, and that the history check is exactly
// step-by-step admission.
module DispatchHistory {
  import opened Wire
  import opened Evidence
  import opened Admission
  import opened DispositionLaw
  import opened Dispatch
  import opened Replay

  // ---- sums ----

  lemma SumAppend(values: seq<int>, v: int)
    ensures Sum(values + [v]) == Sum(values) + v
  {
    assert (values + [v])[..|values|] == values;
  }

  lemma {:induction false} SumPrefix(values: seq<int>, k: nat)
    requires k <= |values| && forall i | 0 <= i < |values| :: values[i] >= 0
    ensures 0 <= Sum(values[..k]) <= Sum(values)
  {
    if k == |values| {
      assert values[..k] == values;
      if values != [] { SumPrefix(values[..k - 1], k - 1); }
    } else {
      var front := values[..|values| - 1];
      SumPrefix(front, k);
      assert front[..k] == values[..k];
    }
  }

  lemma CumulativeAppend(history: seq<Entry>, e: Entry)
    ensures Cumulative(history + [e]) == Cumulative(history) + e.deferred.backoffSeconds
  {
    SumAppend(Seconds(history), e.deferred.backoffSeconds);
    SecondsAppend(history, e);
  }

  lemma LinksAppend(a: Attempt, history: seq<Entry>, e: Entry)
    ensures HistoryLinks(a, history + [e]) <==> HistoryLinks(a, history) && EntryLinks(a, history, e)
  {
    hide EntryLinks;
    var all := history + [e];
    assert all[..|history|] == history && all[|history|] == e;
    forall i | 0 <= i < |history| ensures LinksAt(a, all, i) <==> LinksAt(a, history, i) {
      assert all[..i] == history[..i] && all[i] == history[i];
    }
    if HistoryLinks(a, all) {
      assert LinksAt(a, all, |history|);
      forall i | 0 <= i < |history| ensures LinksAt(a, history, i) { assert LinksAt(a, all, i); }
    }
    if HistoryLinks(a, history) && EntryLinks(a, history, e) {
      forall i | 0 <= i < |all| ensures LinksAt(a, all, i) {
        if i < |history| { assert LinksAt(a, history, i); }
      }
    }
  }

  lemma LinksPrefix(a: Attempt, history: seq<Entry>, k: nat)
    requires HistoryLinks(a, history) && k <= |history|
    ensures HistoryLinks(a, history[..k])
  {
    hide EntryLinks;
    forall i | 0 <= i < k ensures LinksAt(a, history[..k], i) {
      assert LinksAt(a, history, i);
      assert history[..k][..i] == history[..i] && history[..k][i] == history[i];
    }
  }

  // ---- one deferral ----

  // A deferral lasts at least its seconds, and less than a millisecond more.
  lemma ExactSecondsMeaning(policy: Policy, d: Disposition, deferred: Deferred)
    requires ExactSeconds(policy, d, deferred).Some?
    ensures ExactSeconds(policy, d, deferred).value == deferred.backoffSeconds
    ensures d.receivedAt + deferred.backoffSeconds * SECOND <= deferred.wakeAt
            < d.receivedAt + deferred.backoffSeconds * SECOND + MILLISECOND
    ensures deferred.basis == if d.retryAfter.Some? then ProviderRetryAfter else PolicyBackoff
  {
  }

  // ---- times of a history ----

  // Positions of one entry in the order of the attempt.
  ghost predicate EntryTimes(e: Entry) {
    && e.dispatch.openedAt <= e.disposition.receivedAt
    && e.disposition.receivedAt + e.deferred.backoffSeconds * SECOND <= e.deferred.wakeAt
    && e.disposition.receivedAt == e.deferred.refusalReceivedAt
    && e.deferred.backoffSeconds >= 1
  }

  ghost predicate Follows(e: Entry, f: Entry) {
    e.deferred.wakeAt <= f.dispatch.openedAt && e.deferred.modelOrdinal <= f.deferred.modelOrdinal <= e.deferred.modelOrdinal + 1
  }

  lemma EntryHasTimes(a: Attempt, front: seq<Entry>, e: Entry)
    requires EntryLinks(a, front, e) && e.deferred.backoffSeconds >= 1
    ensures EntryTimes(e) && e.deferred.backoffOrdinal == |front| && e.dispatch.ordinal == |front| + 1
    ensures front != [] ==> Follows(front[|front| - 1], e)
    ensures !a.policy.allowFallback ==> e.deferred.modelOrdinal == 0
  {
    ExactSecondsMeaning(a.policy, e.disposition, e.deferred);
  }

  ghost predicate Positive(history: seq<Entry>) { forall i | 0 <= i < |history| :: history[i].deferred.backoffSeconds >= 1 }

  ghost predicate EntryAt(a: Attempt, history: seq<Entry>, i: nat)
    requires i < |history|
  {
    && EntryTimes(history[i]) && history[i].dispatch.ordinal == i + 1 && history[i].deferred.backoffOrdinal == i
    && (!a.policy.allowFallback ==> history[i].deferred.modelOrdinal == 0)
    && (0 < i ==> Follows(history[i - 1], history[i]))
  }

  // Each dispatch opens after the wake before it, is refused, and wakes strictly later.
  ghost predicate Chained(a: Attempt, history: seq<Entry>) { forall i | 0 <= i < |history| :: EntryAt(a, history, i) }

  lemma ChainedFront(a: Attempt, history: seq<Entry>)
    requires Chained(a, history) && history != []
    ensures Chained(a, history[..|history| - 1])
  {
    var front := history[..|history| - 1];
    forall i | 0 <= i < |front| ensures EntryAt(a, front, i) { assert EntryAt(a, history, i); }
  }

  lemma HistoryChained(a: Attempt, history: seq<Entry>)
    requires HistoryLinks(a, history) && Positive(history)
    ensures Chained(a, history)
  {
    forall i | 0 <= i < |history| ensures EntryAt(a, history, i) {
      assert LinksAt(a, history, i);
      EntryHasTimes(a, history[..i], history[i]);
    }
  }

  lemma {:induction false} WakesAdvance(a: Attempt, history: seq<Entry>, i: nat, j: nat)
    requires Chained(a, history) && i < j < |history|
    ensures history[i].dispatch.openedAt < history[i].deferred.wakeAt <= history[j].dispatch.openedAt < history[j].deferred.wakeAt
    ensures history[i].deferred.modelOrdinal <= history[j].deferred.modelOrdinal <= history[i].deferred.modelOrdinal + (j - i)
  {
    assert EntryAt(a, history, i) && EntryAt(a, history, j) && EntryAt(a, history, j - 1);
    if i < j - 1 { WakesAdvance(a, history, i, j - 1); }
  }

  // The last wake is at least the first receipt plus every deferral in between.
  lemma {:induction false} WakeCoversDeferrals(a: Attempt, history: seq<Entry>)
    requires Chained(a, history) && history != []
    ensures history[0].disposition.receivedAt + Cumulative(history) * SECOND <= history[|history| - 1].deferred.wakeAt
  {
    var front, e := history[..|history| - 1], history[|history| - 1];
    CumulativeAppend(front, e);
    assert history == front + [e] && EntryAt(a, history, |front|);
    if front == [] {
      assert Cumulative(front) == 0;
    } else {
      ChainedFront(a, history);
      WakeCoversDeferrals(a, front);
    }
  }

  // ---- policy backoff alone stays in budget ----

  lemma BackoffEntry(a: Attempt, front: seq<Entry>, e: Entry)
    requires EntryLinks(a, front, e) && e.deferred.basis.PolicyBackoff?
    ensures |front| < |a.policy.backoffSeconds| && e.deferred.backoffSeconds == a.policy.backoffSeconds[|front|]
  {
    ExactSecondsMeaning(a.policy, e.disposition, e.deferred);
  }

  lemma BackoffSeconds(a: Attempt, history: seq<Entry>)
    requires HistoryLinks(a, history) && forall i | 0 <= i < |history| :: history[i].deferred.basis.PolicyBackoff?
    ensures |history| <= |a.policy.backoffSeconds| && Seconds(history) == a.policy.backoffSeconds[..|history|]
  {
    forall i | 0 <= i < |history|
      ensures i < |a.policy.backoffSeconds| && history[i].deferred.backoffSeconds == a.policy.backoffSeconds[i] {
      assert LinksAt(a, history, i);
      BackoffEntry(a, history[..i], history[i]);
    }
    if history != [] {
      assert LinksAt(a, history, |history| - 1);
      BackoffEntry(a, history[..|history| - 1], history[|history| - 1]);
    }
  }

  lemma PrefixGrows(values: seq<int>, n: nat)
    requires n < |values|
    ensures values[..n] + [values[n]] == values[..n + 1]
  {
  }

  lemma SecondsAppend(history: seq<Entry>, e: Entry)
    ensures Seconds(history + [e]) == Seconds(history) + [e.deferred.backoffSeconds]
  {
  }

  // When every deferral is a policy backoff, the cumulative limit can never refuse the history.
  lemma BackoffNeverExceedsBudget(a: Attempt, history: seq<Entry>)
    requires ValidPolicy(a.policy) && HistoryLinks(a, history)
    requires forall i | 0 <= i < |history| :: history[i].deferred.basis.PolicyBackoff?
    ensures Cumulative(history) <= a.policy.maximumTotalSeconds
  {
    BackoffSeconds(a, history);
    SumPrefix(a.policy.backoffSeconds, |history|);
  }

  // ... nor the deferral that follows it.
  lemma BackoffNeverExceedsBudgetNext(a: Attempt, history: seq<Entry>, dispatch: DispatchRecord, d: Disposition, deferred: Deferred)
    requires ValidPolicy(a.policy) && HistoryLinks(a, history)
    requires forall i | 0 <= i < |history| :: history[i].deferred.basis.PolicyBackoff?
    requires Continues(a, history, dispatch, d) && BoundDeferral(a, dispatch, d, deferred)
    requires ExactSeconds(a.policy, d, deferred).Some? && deferred.basis.PolicyBackoff?
    ensures Cumulative(history) + deferred.backoffSeconds <= a.policy.maximumTotalSeconds
  {
    BackoffSeconds(a, history);
    ExactSecondsMeaning(a.policy, d, deferred);
    var n := |history|;
    SumAppend(a.policy.backoffSeconds[..n], a.policy.backoffSeconds[n]);
    PrefixGrows(a.policy.backoffSeconds, n);
    SumPrefix(a.policy.backoffSeconds, n + 1);
  }

  // ---- history check and step-by-step admission ----

  lemma EntryIsStep(a: Attempt, history: seq<Entry>, e: Entry, seal: Deferred -> string)
    requires HistoryLinks(a, history) && Positive(history) && |history| < a.policy.maximumDispatches
    requires ValidDeferred(e.deferred, seal) && PermitsPark(e.disposition) && !e.disposition.mechanism.PostAdmissionInterrupted?
    ensures EntryLinks(a, history, e) && Cumulative(history) + e.deferred.backoffSeconds <= a.policy.maximumTotalSeconds
       <==> StepAdmits(a, history, e.dispatch, e.disposition, Some(e.deferred), seal) && Fresh(history, e.dispatch.occurrence)
  {
    HistoryChained(a, history);
    if history != [] { assert EntryAt(a, history, |history| - 1); }
    if StepAdmits(a, history, e.dispatch, e.disposition, Some(e.deferred), seal) {
      ExactSecondsMeaning(a.policy, e.disposition, e.deferred);
    }
  }

  // The deferral `deferred` resealed for a dispatch named x.
  function Renamed(deferred: Deferred, seal: Deferred -> string, x: string): Deferred {
    var renamed := deferred.(lastDispatch := x, digest := "");
    renamed.(digest := seal(renamed))
  }

  lemma RenamedIsValid(deferred: Deferred, seal: Deferred -> string, x: string)
    requires ValidDeferred(deferred, seal) && IsId(x)
    ensures ValidDeferred(Renamed(deferred, seal, x), seal)
  {
    assert Renamed(deferred, seal, x).(digest := "") == deferred.(lastDispatch := x, digest := "");
  }

  lemma RenamedIsExact(policy: Policy, d: Disposition, deferred: Deferred, seal: Deferred -> string, x: string)
    ensures ExactSeconds(policy, d.(dispatchOccurrence := x), Renamed(deferred, seal, x)) == ExactSeconds(policy, d, deferred)
  {
  }

  // The current-step half never looks at the occurrence ids of earlier dispatches: renaming the
  // dispatch to any identifier, used or not, leaves it admitted.
  lemma OccurrenceIsFree(a: Attempt, history: seq<Entry>, dispatch: DispatchRecord, d: Disposition, deferred: Deferred,
                         seal: Deferred -> string, x: string)
    requires StepAdmits(a, history, dispatch, d, Some(deferred), seal) && IsId(x)
    ensures StepAdmits(a, history, dispatch.(occurrence := x), d.(dispatchOccurrence := x), Some(Renamed(deferred, seal, x)), seal)
  {
    RenamedIsValid(deferred, seal, x);
    RenamedIsExact(a.policy, d, deferred, seal, x);
    assert BoundRecords(a, dispatch.(occurrence := x), d.(dispatchOccurrence := x));
    assert BoundDeferral(a, dispatch.(occurrence := x), d.(dispatchOccurrence := x), Renamed(deferred, seal, x));
  }
}
