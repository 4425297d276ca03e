// Interleaving of a journal: which events commute, and why per-item order decides the projection.
module SchedulerOrder {
  import opened Wire
  import opened Scheduler

  predicate Known(known: set<string>, e: Event) { e.workItem.Some? && e.workItem.value in known }

  // Whether a RunClosed event takes effect: it is bound to no item, or to a known one.
  predicate Closes(known: set<string>, e: Event) { e.kind.RunClosed? && (e.workItem.None? || Known(known, e)) }

  predicate Relevant(known: set<string>, e: Event) { Known(known, e) || Closes(known, e) }

  // ---- adjacent events ----

  predicate Independent(known: set<string>, a: Event, b: Event) {
    && !(Closes(known, a) && Closes(known, b))
    && (Known(known, a) && Known(known, b) ==> a.workItem != b.workItem && Acquired(a) !! Acquired(b))
  }

  lemma ClaimsCommute(claims: map<string, Claim>, a: Event, b: Event)
    requires a.workItem.Some? && b.workItem.Some? && a.workItem != b.workItem && Acquired(a) !! Acquired(b)
    ensures UpdateClaims(UpdateClaims(claims, a), b) == UpdateClaims(UpdateClaims(claims, b), a)
  {
    forall k ensures Held(UpdateClaims(UpdateClaims(claims, a), b), k) == Held(UpdateClaims(UpdateClaims(claims, b), a), k) {
      UpdateHolds(claims, a, k);
      UpdateHolds(claims, b, k);
      UpdateHolds(UpdateClaims(claims, a), b, k);
      UpdateHolds(UpdateClaims(claims, b), a, k);
    }
    ClaimsAgree(UpdateClaims(UpdateClaims(claims, a), b), UpdateClaims(UpdateClaims(claims, b), a));
  }

  lemma Commute(w: World, a: Event, b: Event)
    requires Independent(w.items.Keys, a, b)
    ensures Apply(Apply(w, a), b) == Apply(Apply(w, b), a)
  {
    hide UpdateItem, UpdateClaims, Acquired;
    if Known(w.items.Keys, a) && Known(w.items.Keys, b) {
      ClaimsCommute(w.claims, a, b);
      assert Apply(Apply(w, a), b).items == Apply(Apply(w, b), a).items;
    }
  }

  // Two events that claim a common key for different items never commute.
  lemma SharedKeyConflicts(w: World, a: Event, b: Event, k: string)
    requires Known(w.items.Keys, a) && Known(w.items.Keys, b) && a.workItem != b.workItem
    requires k in Acquired(a) && k in Acquired(b)
    ensures Apply(Apply(w, a), b) != Apply(Apply(w, b), a)
  {
    UpdateHolds(UpdateClaims(w.claims, a), b, k);
    UpdateHolds(UpdateClaims(w.claims, b), a, k);
    assert Held(Apply(Apply(w, a), b).claims, k) == Some(ClaimOf(b));
    assert Held(Apply(Apply(w, b), a).claims, k) == Some(ClaimOf(a));
  }

  // Events of different known items, not both closing the run, commute exactly when they claim no
  // common key.
  lemma CommuteIffDisjoint(w: World, a: Event, b: Event)
    requires Known(w.items.Keys, a) && Known(w.items.Keys, b) && a.workItem != b.workItem
    requires !(Closes(w.items.Keys, a) && Closes(w.items.Keys, b))
    ensures Apply(Apply(w, a), b) == Apply(Apply(w, b), a) <==> Acquired(a) !! Acquired(b)
  {
    if Acquired(a) !! Acquired(b) {
      Commute(w, a, b);
    } else {
      var k :| k in Acquired(a) && k in Acquired(b);
      SharedKeyConflicts(w, a, b, k);
    }
  }

  lemma {:induction false} FoldKeepsItems(w: World, events: seq<Event>)
    ensures Fold(w, events).items.Keys == w.items.Keys
  {
    if events != [] {
      FoldKeepsItems(w, events[..|events| - 1]);
    }
  }

  // ---- whole journals ----

  // What must keep its order: the events of one item, and the events that close the run.
  datatype Channel = OfItem(id: string) | OfClosing

  predicate On(known: set<string>, c: Channel, e: Event) {
    match c
    case OfItem(id) => id in known && e.workItem == Some(id)
    case OfClosing => Closes(known, e)
  }

  function Filter(known: set<string>, c: Channel, events: seq<Event>): seq<Event> {
    if events == [] then []
    else Filter(known, c, events[..|events| - 1]) + (if On(known, c, events[|events| - 1]) then [events[|events| - 1]] else [])
  }

  ghost predicate SameOrder(known: set<string>, e: seq<Event>, f: seq<Event>) {
    forall c: Channel :: Filter(known, c, e) == Filter(known, c, f)
  }

  // No two events of different known items claim a common key.
  ghost predicate DisjointClaims(known: set<string>, events: seq<Event>) {
    forall a, b | a in events && b in events && Known(known, a) && Known(known, b) && a.workItem != b.workItem :: Acquired(a) !! Acquired(b)
  }

  lemma {:induction false} FilterConcat(known: set<string>, c: Channel, e: seq<Event>, f: seq<Event>)
    ensures Filter(known, c, e + f) == Filter(known, c, e) + Filter(known, c, f)
  {
    if f == [] {
      assert e + f == e;
    } else {
      var front := f[..|f| - 1];
      FilterConcat(known, c, e, front);
      assert (e + f)[..|e + f| - 1] == e + front && (e + f)[|e + f| - 1] == f[|f| - 1];
    }
  }

  lemma {:induction false} FilterMember(known: set<string>, c: Channel, events: seq<Event>, e: Event)
    ensures e in Filter(known, c, events) <==> e in events && On(known, c, e)
  {
    if events != [] {
      FilterMember(known, c, events[..|events| - 1], e);
      assert events == events[..|events| - 1] + [events[|events| - 1]];
    }
  }

  // Splits a journal at its last event on a channel.
  lemma {:induction false} LastOn(known: set<string>, c: Channel, events: seq<Event>) returns (pre: seq<Event>, a: Event, post: seq<Event>)
    requires Filter(known, c, events) != []
    ensures events == pre + [a] + post && On(known, c, a) && Filter(known, c, post) == []
    ensures a == Filter(known, c, events)[|Filter(known, c, events)| - 1]
  {
    var last := |events| - 1;
    if On(known, c, events[last]) {
      pre, a, post := events[..last], events[last], [];
    } else {
      pre, a, post := LastOn(known, c, events[..last]);
      FilterConcat(known, c, post, [events[last]]);
      post := post + [events[last]];
    }
  }

  lemma {:induction false} MoveToEnd(w: World, pre: seq<Event>, a: Event, post: seq<Event>)
    requires forall b | b in post :: Independent(w.items.Keys, a, b)
    ensures Fold(w, pre + [a] + post) == Fold(w, pre + post + [a])
  {
    if post == [] {
      assert pre + [a] + post == pre + post + [a];
    } else {
      var front, b := post[..|post| - 1], post[|post| - 1];
      MoveToEnd(w, pre, a, front);
      assert pre + [a] + post == (pre + [a] + front) + [b] && pre + post == (pre + front) + [b];
      FoldAppend(w, pre + [a] + front, b);
      FoldAppend(w, pre + front, a);
      FoldAppend(w, pre + front, b);
      FoldAppend(w, pre + post, a);
      FoldKeepsItems(w, pre + front);
      Commute(Fold(w, pre + front), a, b);
    }
  }

  lemma IrrelevantIsIdle(w: World, events: seq<Event>)
    requires events != [] && !Relevant(w.items.Keys, events[|events| - 1])
    ensures Fold(w, events) == Fold(w, events[..|events| - 1])
    ensures forall c: Channel :: Filter(w.items.Keys, c, events) == Filter(w.items.Keys, c, events[..|events| - 1])
  {
    FoldKeepsItems(w, events[..|events| - 1]);
  }

  // The channel on which a relevant event is found again in the other journal.
  function HomeOf(known: set<string>, e: Event): Channel { if Known(known, e) then OfItem(e.workItem.value) else OfClosing }

  lemma SameMembers(known: set<string>, e: seq<Event>, f: seq<Event>, x: Event)
    requires SameOrder(known, e, f) && x in f && Relevant(known, x)
    ensures x in e
  {
    var c := HomeOf(known, x);
    FilterMember(known, c, f, x);
    FilterMember(known, c, e, x);
    assert Filter(known, c, e) == Filter(known, c, f);
  }

  // The last event of e, found in f, is independent of everything after it there.
  lemma NothingBlocks(known: set<string>, e: seq<Event>, f: seq<Event>, pre: seq<Event>, a: Event, post: seq<Event>, b: Event)
    requires SameOrder(known, e, f) && DisjointClaims(known, e) && e != [] && a == e[|e| - 1] && Relevant(known, a)
    requires f == pre + [a] + post && Filter(known, HomeOf(known, a), post) == [] && b in post
    ensures Independent(known, a, b)
  {
    FilterMember(known, HomeOf(known, a), post, b);
    if Known(known, a) && Known(known, b) {
      SameMembers(known, e, f, b);
    }
    if Closes(known, a) && Closes(known, b) {
      FilterMember(known, OfClosing, post, b);
      FilterConcat(known, OfClosing, pre + [a], post);
      var closings := Filter(known, OfClosing, post);
      assert Filter(known, OfClosing, f)[|Filter(known, OfClosing, f)| - 1] == closings[|closings| - 1];
      assert Filter(known, OfClosing, e) == Filter(known, OfClosing, f);
      assert closings[|closings| - 1] == a;
      FilterMember(known, OfClosing, post, a);
      FilterMember(known, HomeOf(known, a), post, a);
    }
  }

  lemma NoneAfter(known: set<string>, c: Channel, a: Event, post: seq<Event>)
    requires On(known, c, a) && forall b | b in post :: Independent(known, a, b)
    ensures Filter(known, c, post) == []
  {
    if Filter(known, c, post) != [] {
      FilterMember(known, c, post, Filter(known, c, post)[0]);
      assert false;
    }
  }

  lemma DropLast(known: set<string>, e: seq<Event>, f: seq<Event>, pre: seq<Event>, a: Event, post: seq<Event>, c: Channel)
    requires SameOrder(known, e, f) && e != [] && a == e[|e| - 1] && f == pre + [a] + post
    requires forall b | b in post :: Independent(known, a, b)
    ensures Filter(known, c, e[..|e| - 1]) == Filter(known, c, pre + post)
  {
    FilterConcat(known, c, pre + [a], post);
    FilterConcat(known, c, pre, [a]);
    FilterConcat(known, c, pre, post);
    assert Filter(known, c, e) == Filter(known, c, f);
    assert [a][..0] == [];
    if On(known, c, a) { NoneAfter(known, c, a, post); }
    var x, y, z := Filter(known, c, e[..|e| - 1]), Filter(known, c, pre), Filter(known, c, post);
    if On(known, c, a) {
      assert z == [] && x + [a] == y + [a];
      assert x == (x + [a])[..|x|] && y == (y + [a])[..|y|];
    } else {
      assert Filter(known, c, [a]) == [] && x + [] == x && y + [] == y;
    }
  }

  // Two journals with the same order of events per item and per run closing, in which different
  // items claim no common key, replay to the same projection.
  lemma {:induction false} SameOrderSameWorld(w: World, e: seq<Event>, f: seq<Event>)
    requires SameOrder(w.items.Keys, e, f) && DisjointClaims(w.items.Keys, e)
    ensures Fold(w, e) == Fold(w, f)
    decreases |e| + |f|
  {
    var known := w.items.Keys;
    if f != [] && !Relevant(known, f[|f| - 1]) {
      IrrelevantIsIdle(w, f);
      SameOrderSameWorld(w, e, f[..|f| - 1]);
    } else if e == [] {
      if f != [] { SameMembers(known, e, f, f[|f| - 1]); }
    } else if !Relevant(known, e[|e| - 1]) {
      IrrelevantIsIdle(w, e);
      SameOrderSameWorld(w, e[..|e| - 1], f);
    } else {
      var a := e[|e| - 1];
      var c := HomeOf(known, a);
      assert Filter(known, c, e) == Filter(known, c, f);
      var pre, x, post := LastOn(known, c, f);
      assert x == a;
      forall b | b in post ensures Independent(known, a, b) { NothingBlocks(known, e, f, pre, a, post, b); }
      MoveToEnd(w, pre, a, post);
      forall d: Channel ensures Filter(known, d, e[..|e| - 1]) == Filter(known, d, pre + post) { DropLast(known, e, f, pre, a, post, d); }
      SameOrderSameWorld(w, e[..|e| - 1], pre + post);
      FoldAppend(w, pre + post, a);
    }
  }

  lemma InterleavingIsIrrelevant(packet: map<string, Work>, e: seq<Event>, f: seq<Event>)
    requires SameOrder(packet.Keys, e, f) && DisjointClaims(packet.Keys, e)
    ensures Project(Fold(Start(packet), e)) == Project(Fold(Start(packet), f))
  {
    assert Start(packet).items.Keys == packet.Keys;
    SameOrderSameWorld(Start(packet), e, f);
  }
}
