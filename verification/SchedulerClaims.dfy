// Who holds a lock key at the end of a replay, and when an item is ready.
module SchedulerClaims {
  import opened Wire
  import opened Scheduler
  import opened SchedulerOrder

  // ---- provenance of claims ----

  // The event at i claims key k, no later known event claims it again, and none releases the claim.
  ghost predicate Origin(known: set<string>, events: seq<Event>, i: int, k: string) {
    && 0 <= i < |events| && Known(known, events[i]) && k in Acquired(events[i])
    && forall j | i < j < |events| && Known(known, events[j]) :: k !in Acquired(events[j]) && !Releases(events[j], ClaimOf(events[i]))
  }

  lemma OriginExtends(known: set<string>, events: seq<Event>, e: Event, i: int, k: string)
    requires 0 <= i < |events|
    ensures Origin(known, events + [e], i, k) <==>
            Origin(known, events, i, k) && (Known(known, e) ==> k !in Acquired(e) && !Releases(e, ClaimOf(events[i])))
  {
    var all := events + [e];
    assert all[i] == events[i];
    if Origin(known, all, i, k) {
      assert all[|events|] == e;
      forall j | i < j < |events| && Known(known, events[j])
        ensures k !in Acquired(events[j]) && !Releases(events[j], ClaimOf(events[i])) { assert all[j] == events[j]; }
    }
  }

  lemma FoldHolds(w: World, events: seq<Event>, e: Event, k: string)
    ensures Held(Fold(w, events + [e]).claims, k) ==
            if Known(w.items.Keys, e) then ClaimAfter(Held(Fold(w, events).claims, k), e, k) else Held(Fold(w, events).claims, k)
  {
    FoldAppend(w, events, e);
    FoldKeepsItems(w, events);
    if Known(w.items.Keys, e) { UpdateHolds(Fold(w, events).claims, e, k); }
  }

  // Key k is claimed by (item, attempt) after a replay from no claims if and only if the last known
  // event that claimed k was theirs and nothing released it since.
  lemma {:induction false} ClaimProvenance(w: World, events: seq<Event>, k: string, c: Claim)
    requires w.claims == map[]
    ensures Held(Fold(w, events).claims, k) == Some(c) <==>
            exists i :: Origin(w.items.Keys, events, i, k) && ClaimOf(events[i]) == c
  {
    if events != [] {
      var known := w.items.Keys;
      var front, e := events[..|events| - 1], events[|events| - 1];
      assert events == front + [e];
      ClaimProvenance(w, front, k, c);
      FoldHolds(w, front, e, k);
      if Held(Fold(w, events).claims, k) == Some(c) {
        if Known(known, e) && k in Acquired(e) {
          assert Origin(known, events, |front|, k);
        } else {
          var i :| Origin(known, front, i, k) && ClaimOf(front[i]) == c;
          OriginExtends(known, front, e, i, k);
          assert Origin(known, events, i, k);
        }
      }
      if i :| Origin(known, events, i, k) && ClaimOf(events[i]) == c {
        if i < |front| {
          OriginExtends(known, front, e, i, k);
          assert Origin(known, front, i, k);
        }
      }
    }
  }

  // ---- readiness ----

  lemma TerminalIsStable(w: World, id: string)
    requires id in w.items
    ensures Terminal(Project(w).items[id].state) <==> Terminal(w.items[id].state)
  {
  }

  // Replay never leaves an item READY by itself: the state only arises in the projection.
  lemma {:induction false} ReplayNeverReady(packet: map<string, Work>, events: seq<Event>, id: string)
    requires id in packet
    ensures id in Fold(Start(packet), events).items && Fold(Start(packet), events).items[id].state != ReadyEntryEvaluation
  {
    if events != [] { ReplayNeverReady(packet, events[..|events| - 1], id); }
  }

  // The conditions under which an item may be entered.
  ghost predicate Enterable(item: Item, shown: map<string, Item>, held: set<string>) {
    && item.activeAttempt.None? && !Terminal(item.state)
    && !item.state.TerminalReceiptRefused? && !item.state.IndeterminateMechanismState?
    && (forall d | d in item.dependencies :: d in shown && Terminal(shown[d].state))
    && (forall k | k in item.lockKeys :: k !in held)
  }

  // An item is shown READY exactly when it has no active attempt, is not terminal, refused or
  // indeterminate, its dependencies are all shown terminal, and none of its keys is held.
  lemma ReadyIff(packet: map<string, Work>, events: seq<Event>, id: string)
    requires id in packet
    ensures var w := Fold(Start(packet), events);
            id in w.items && (Project(w).items[id].state == ReadyEntryEvaluation <==> Enterable(w.items[id], Project(w).items, w.claims.Keys))
  {
    var w := Fold(Start(packet), events);
    ReplayNeverReady(packet, events, id);
    forall d | d in w.items ensures Terminal(Project(w).items[d].state) <==> Terminal(w.items[d].state) { TerminalIsStable(w, d); }
    ReadyItem(w, id);
  }

  lemma ReadyItem(w: World, id: string)
    requires id in w.items && w.items[id].state != ReadyEntryEvaluation
    requires forall d | d in w.items :: Terminal(Project(w).items[d].state) <==> Terminal(w.items[d].state)
    ensures Project(w).items[id].state == ReadyEntryEvaluation <==> Enterable(w.items[id], Project(w).items, w.claims.Keys)
  {
  }

  lemma {:induction false} ReplayKeepsWork(packet: map<string, Work>, events: seq<Event>, id: string)
    requires id in packet
    ensures var items := Fold(Start(packet), events).items;
            id in items && items[id].dependencies == packet[id].dependencies && items[id].lockKeys == packet[id].lockKeys
  {
    if events != [] { ReplayKeepsWork(packet, events[..|events| - 1], id); }
  }

  // ---- no deadlock ----

  // Every dependency is in the packet and has a smaller rank.
  ghost predicate Acyclic(packet: map<string, Work>, rank: string -> nat) {
    forall id, d | id in packet && d in packet[id].dependencies :: d in packet && rank(d) < rank(id)
  }

  lemma {:induction false} LowestRank(s: set<string>, rank: string -> nat) returns (low: string)
    requires s != {}
    ensures low in s && forall x | x in s :: rank(low) <= rank(x)
  {
    low :| low in s;
    if s != {low} {
      var other := LowestRank(s - {low}, rank);
      if rank(other) < rank(low) { low := other; }
    }
  }

  // Over an acyclic packet with no claims, if some item is unfinished and every unfinished item has
  // no attempt and is neither refused nor indeterminate, then some item is shown READY.
  lemma SomeItemIsReady(packet: map<string, Work>, events: seq<Event>, rank: string -> nat)
    requires Acyclic(packet, rank)
    requires var w := Fold(Start(packet), events);
             && w.claims == map[]
             && (exists id :: id in w.items && !Terminal(w.items[id].state))
             && (forall id | id in w.items && !Terminal(w.items[id].state) :: !Settled(w.items[id]))
    ensures var shown := Project(Fold(Start(packet), events)).items;
            exists id :: id in shown && shown[id].state == ReadyEntryEvaluation
  {
    var w := Fold(Start(packet), events);
    FoldKeepsItems(Start(packet), events);
    var open := set id | id in w.items && !Terminal(w.items[id].state);
    var some :| some in w.items && !Terminal(w.items[some].state);
    assert some in open;
    var low := LowestRank(open, rank);
    ReplayKeepsWork(packet, events, low);
    forall d | d in w.items[low].dependencies ensures d in w.items && Terminal(w.items[d].state) {
      assert rank(d) < rank(low);
      assert d !in open;
    }
    assert Project(w).items[low].state == ReadyEntryEvaluation;
  }
}
