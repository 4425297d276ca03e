// The language of the echo lifecycle, and the proof that the replay accepts exactly that language.
module EchoLaws {
  import opened Wire
  import opened Evidence
  import opened Echo

  // ---- events alone ----

  predicate IsLifecycle(e: Event) { e.AgentStarted? || e.AgentProgress? || e.AgentCompleted? }

  predicate IsUser(e: Event) { e.UserStarted? || e.UserCompleted? }

  function Lifecycle(es: seq<Event>): seq<Event> {
    if es == [] then [] else
      var front := Lifecycle(es[..|es| - 1]);
      if IsLifecycle(es[|es| - 1]) then front + [es[|es| - 1]] else front
  }

  function UserEvents(es: seq<Event>): seq<Event> {
    if es == [] then [] else
      var front := UserEvents(es[..|es| - 1]);
      if IsUser(es[|es| - 1]) then front + [es[|es| - 1]] else front
  }

  // Bytes of completed agent text, selected or not.
  function OutputBytes(e: Event): nat { if e.AgentCompleted? || e.Loose? then TextBytes(e.text) else 0 }

  function TotalBytes(es: seq<Event>): nat {
    if es == [] then 0 else TotalBytes(es[..|es| - 1]) + OutputBytes(es[|es| - 1])
  }

  // Agent items carry string identities; the selectors guarantee it.
  predicate Identified(e: Event) { IsLifecycle(e) || e.Summary? ==> e.id.Str? }

  predicate AllIdentified(es: seq<Event>) { forall i | 0 <= i < |es| :: Identified(es[i]) }

  // ---- the language ----

  // One agent item: a start, any number of deltas and, once closed, a completion.
  datatype Item = Item(id: string, opening: Frame, deltas: nat, closing: Option<Frame>)

  function Deltas(id: string, n: nat): seq<Event> { if n == 0 then [] else Deltas(id, n - 1) + [AgentProgress(Str(id))] }

  function ItemEvents(item: Item): seq<Event> {
    [AgentStarted(Str(item.id), item.opening)] + Deltas(item.id, item.deltas)
    + (if item.closing.Some? then [AgentCompleted(Str(item.id), item.closing.value)] else [])
  }

  function Written(items: seq<Item>): seq<Event> {
    if items == [] then [] else Written(items[..|items| - 1]) + ItemEvents(items[|items| - 1])
  }

  // One item open at a time, identities never reused.
  predicate Serial(items: seq<Item>) {
    && (forall i, j | 0 <= i < j < |items| :: items[i].id != items[j].id)
    && (forall i | 0 <= i < |items| - 1 :: items[i].closing.Some?)
  }

  predicate UserOnce(us: seq<Event>) {
    || us == []
    || (|us| == 1 && us[0].UserStarted?)
    || (|us| == 2 && us[0].UserStarted? && us[1] == UserCompleted(us[0].id))
  }

  // A summary repeats the item completed last, with nothing started since.
  predicate SummaryMatches(es: seq<Event>, k: nat)
    requires k < |es|
  {
    var before := Lifecycle(es[..k]);
    es[k].Summary? ==> before != [] && before[|before| - 1] == AgentCompleted(es[k].id, es[k].text)
  }

  predicate Framed(es: seq<Event>, items: seq<Item>) {
    && Lifecycle(es) == Written(items) && Serial(items)
    && UserOnce(UserEvents(es))
    && (forall k | 0 <= k < |es| :: SummaryMatches(es, k))
    && TotalBytes(es) <= OUTPUT_BYTES
  }

  ghost predicate Lawful(es: seq<Event>) { exists items :: Framed(es, items) }

  // ---- the machine over events ----

  function AdvanceAll(es: seq<Event>): Option<Progress> {
    if es == [] then Some(START)
    else
      var prior := AdvanceAll(es[..|es| - 1]);
      if prior.None? || Advance(prior.value, es[|es| - 1]).1.Some? then None
      else Some(Advance(prior.value, es[|es| - 1]).0)
  }

  function ClosedIds(items: seq<Item>): set<string> {
    set i | 0 <= i < |items| && items[i].closing.Some? :: items[i].id
  }

  // The machine state that a framed trace leads to.
  ghost predicate Tracks(p: Progress, es: seq<Event>, items: seq<Item>) {
    var us := UserEvents(es);
    && UserOnce(us)
    && p.userId == (if us == [] then None else Some(us[0].id))
    && p.userCompleted == (|us| == 2)
    && p.completedBytes == TotalBytes(es)
    && p.completedIds == ClosedIds(items)
    && (items == [] ==> p.agentId.None? && !p.agentCompleted)
    && (items != [] ==>
          var last := items[|items| - 1];
          p.agentId == Some(Str(last.id)) && p.agentCompleted == last.closing.Some?
          && (last.closing.Some? ==> p.agentText == last.closing))
  }

  // ---- one lifecycle event on the item list ----

  predicate Grows(items: seq<Item>, e: Event) {
    var open := items != [] && items[|items| - 1].closing.None?;
    match e
    case AgentStarted(id, _) => !open && id.Str? && forall i | 0 <= i < |items| :: items[i].id != id.s
    case AgentProgress(id) => open && id == Str(items[|items| - 1].id)
    case AgentCompleted(id, _) => open && id == Str(items[|items| - 1].id)
    case _ => false
  }

  function Grow(items: seq<Item>, e: Event): seq<Item>
    requires Grows(items, e)
  {
    match e
    case AgentStarted(id, text) => items + [Item(id.s, text, 0, None)]
    case AgentProgress(_) =>
      var last := items[|items| - 1];
      items[..|items| - 1] + [last.(deltas := last.deltas + 1)]
    case AgentCompleted(_, text) => items[..|items| - 1] + [items[|items| - 1].(closing := Some(text))]
  }

  lemma GrowWrites(items: seq<Item>, e: Event)
    requires Serial(items) && Grows(items, e)
    ensures Serial(Grow(items, e)) && Written(Grow(items, e)) == Written(items) + [e]
  {
    var grown := Grow(items, e);
    var front := grown[..|grown| - 1];
    if e.AgentStarted? {
      assert front == items;
      assert ItemEvents(grown[|items|]) == [e];
    } else {
      assert front == items[..|items| - 1];
      var last := items[|items| - 1];
      assert ItemEvents(grown[|items| - 1]) == ItemEvents(last) + [e];
      assert Written(grown) == Written(front) + (ItemEvents(last) + [e]);
    }
  }

  // Taking the last event off again.
  function Shrink(items: seq<Item>): (seq<Item>, Event)
    requires items != []
  {
    var front, last := items[..|items| - 1], items[|items| - 1];
    if last.closing.Some? then (front + [last.(closing := None)], AgentCompleted(Str(last.id), last.closing.value))
    else if last.deltas > 0 then (front + [last.(deltas := last.deltas - 1)], AgentProgress(Str(last.id)))
    else (front, AgentStarted(Str(last.id), last.opening))
  }

  lemma ShrinkUndoesGrow(items: seq<Item>)
    requires Serial(items) && items != []
    ensures var (fewer, e) := Shrink(items); Serial(fewer) && Grows(fewer, e) && Grow(fewer, e) == items
  {
    var (fewer, e) := Shrink(items);
    assert items == items[..|items| - 1] + [items[|items| - 1]];
    if e.AgentStarted? {
      assert fewer == items[..|items| - 1];
    } else {
      assert fewer[..|fewer| - 1] == items[..|items| - 1];
    }
  }

  // ---- one event on a framed trace ----

  // What the language asks of the next event.
  predicate Fits(es: seq<Event>, items: seq<Item>, e: Event) {
    && (IsLifecycle(e) ==> Grows(items, e))
    && (IsUser(e) ==> UserOnce(UserEvents(es) + [e]))
    && (e.Summary? ==> items != [] && Str(items[|items| - 1].id) == e.id && items[|items| - 1].closing == Some(e.text))
    && TotalBytes(es) + OutputBytes(e) <= OUTPUT_BYTES
  }

  function After(items: seq<Item>, e: Event): seq<Item>
    requires IsLifecycle(e) ==> Grows(items, e)
  {
    if IsLifecycle(e) then Grow(items, e) else items
  }

  lemma Appended(es: seq<Event>, e: Event)
    ensures Lifecycle(es + [e]) == (if IsLifecycle(e) then Lifecycle(es) + [e] else Lifecycle(es))
    ensures UserEvents(es + [e]) == (if IsUser(e) then UserEvents(es) + [e] else UserEvents(es))
    ensures TotalBytes(es + [e]) == TotalBytes(es) + OutputBytes(e)
  {
    assert (es + [e])[..|es|] == es;
  }

  lemma SummariesAppend(es: seq<Event>, e: Event)
    ensures (forall k | 0 <= k < |es + [e]| :: SummaryMatches(es + [e], k))
            <==> (forall k | 0 <= k < |es| :: SummaryMatches(es, k)) && SummaryMatches(es + [e], |es|)
  {
    forall k | 0 <= k < |es| ensures SummaryMatches(es + [e], k) <==> SummaryMatches(es, k) {
      assert (es + [e])[..k] == es[..k];
    }
  }

  lemma {:induction false} LastDeltas(id: string, n: nat)
    ensures n > 0 ==> |Deltas(id, n)| > 0 && Deltas(id, n)[|Deltas(id, n)| - 1] == AgentProgress(Str(id))
  {
  }

  // The last written event is a completion exactly when the last item is closed by it.
  lemma LastWritten(items: seq<Item>, id: Frame, text: Frame)
    ensures var w := Written(items);
            (w != [] && w[|w| - 1] == AgentCompleted(id, text))
            <==> (items != [] && Str(items[|items| - 1].id) == id && items[|items| - 1].closing == Some(text))
  {
    if items != [] {
      var last := items[|items| - 1];
      LastDeltas(last.id, last.deltas);
      assert Written(items)[|Written(items)| - 1] == ItemEvents(last)[|ItemEvents(last)| - 1];
    }
  }

  lemma FitsExtends(es: seq<Event>, items: seq<Item>, e: Event)
    requires Framed(es, items) && Fits(es, items, e)
    ensures Framed(es + [e], After(items, e))
  {
    Appended(es, e);
    SummariesAppend(es, e);
    assert (es + [e])[..|es|] == es;
    if IsLifecycle(e) { GrowWrites(items, e); }
    if e.Summary? { LastWritten(items, e.id, e.text); }
  }

  lemma FramedSplits(es: seq<Event>, e: Event, grown: seq<Item>) returns (items: seq<Item>)
    requires Framed(es + [e], grown)
    ensures Framed(es, items) && Fits(es, items, e) && After(items, e) == grown
  {
    Appended(es, e);
    SummariesAppend(es, e);
    assert (es + [e])[..|es|] == es;
    if IsLifecycle(e) {
      assert grown != [];
      var (fewer, last) := Shrink(grown);
      ShrinkUndoesGrow(grown);
      GrowWrites(fewer, last);
      assert Lifecycle(es + [e])[|Lifecycle(es)|] == e && |Written(fewer)| == |Lifecycle(es)|;
      assert (Lifecycle(es) + [e])[..|Lifecycle(es)|] == (Written(fewer) + [last])[..|Lifecycle(es)|];
      items := fewer;
    } else {
      items := grown;
      if e.Summary? { LastWritten(items, e.id, e.text); }
    }
    if IsUser(e) { assert UserEvents(es) == UserEvents(es + [e])[..|UserEvents(es)|]; }
  }

  lemma FitsIffAccepted(p: Progress, es: seq<Event>, items: seq<Item>, e: Event)
    requires Framed(es, items) && Tracks(p, es, items) && Identified(e)
    ensures Advance(p, e).1.None? <==> Fits(es, items, e)
  {
    hide Lifecycle, UserEvents, TotalBytes, Written;
    if e.AgentStarted? && (p.agentId.None? || p.agentCompleted) {
      assert forall i | 0 <= i < |items| :: items[i].closing.Some?;
      assert e.id.s in p.completedIds <==> exists i | 0 <= i < |items| :: items[i].id == e.id.s;
    }
  }

  lemma ClosedGrow(items: seq<Item>, e: Event)
    requires Grows(items, e)
    ensures ClosedIds(Grow(items, e)) == ClosedIds(items) + (if e.AgentCompleted? then {IdText(e.id)} else {})
  {
    var grown := Grow(items, e);
    forall i | 0 <= i < |items| && items[i].closing.Some? ensures items[i].id in ClosedIds(grown) { assert grown[i] == items[i]; }
    forall i | 0 <= i < |grown| && grown[i].closing.Some?
      ensures grown[i].id in ClosedIds(items) || (e.AgentCompleted? && grown[i].id == IdText(e.id))
    {
      if i < |items| - 1 || e.AgentStarted? { assert grown[i] == items[i]; }
    }
    if e.AgentCompleted? { assert grown[|items| - 1].closing.Some?; }
  }

  lemma AcceptedTracks(p: Progress, es: seq<Event>, items: seq<Item>, e: Event)
    requires Framed(es, items) && Tracks(p, es, items) && Fits(es, items, e) && Advance(p, e).1.None?
    ensures Tracks(Advance(p, e).0, es + [e], After(items, e))
  {
    hide Lifecycle, UserEvents, TotalBytes, Written;
    Appended(es, e);
    if IsLifecycle(e) { ClosedGrow(items, e); }
  }

  // ---- the machine accepts exactly the language ----

  lemma {:induction false} AcceptedIsFramed(es: seq<Event>) returns (items: seq<Item>)
    requires AllIdentified(es) && AdvanceAll(es).Some?
    ensures Framed(es, items) && Tracks(AdvanceAll(es).value, es, items)
  {
    hide Advance;
    if es == [] {
      items := [];
    } else {
      var front, e := es[..|es| - 1], es[|es| - 1];
      var prior := AcceptedIsFramed(front);
      var p := AdvanceAll(front).value;
      FitsIffAccepted(p, front, prior, e);
      FitsExtends(front, prior, e);
      AcceptedTracks(p, front, prior, e);
      assert front + [e] == es;
      items := After(prior, e);
    }
  }

  lemma {:induction false} FramedIsAccepted(es: seq<Event>, items: seq<Item>)
    requires AllIdentified(es) && Framed(es, items)
    ensures AdvanceAll(es).Some? && Tracks(AdvanceAll(es).value, es, items)
  {
    hide Advance, Fits;
    if es != [] {
      var front, e := es[..|es| - 1], es[|es| - 1];
      assert front + [e] == es;
      var fewer := FramedSplits(front, e, items);
      FramedIsAccepted(front, fewer);
      FitsIffAccepted(AdvanceAll(front).value, front, fewer, e);
      AcceptedTracks(AdvanceAll(front).value, front, fewer, e);
    }
  }

  // An event list replays without a refusal if and only if it is in the language.
  lemma AcceptedIffLawful(es: seq<Event>)
    requires AllIdentified(es)
    ensures AdvanceAll(es).Some? <==> Lawful(es)
  {
    if AdvanceAll(es).Some? {
      var items := AcceptedIsFramed(es);
    }
    if items :| Framed(es, items) { FramedIsAccepted(es, items); }
  }

  // ---- which failure is named ----

  // The agent item that the events leave open: started or continued by the last lifecycle event.
  function OpenItem(es: seq<Event>): Option<Frame> {
    var l := Lifecycle(es);
    if l != [] && (l[|l| - 1].AgentStarted? || l[|l| - 1].AgentProgress?) then Some(l[|l| - 1].id) else None
  }

  // What an event that leaves the language is refused for.
  function Breach(es: seq<Event>, e: Event): Detail {
    match e
    case UserStarted(_) => UserStart
    case UserCompleted(id) => if UserStarted(id) in UserEvents(es) then UserDuplicate else UserComplete
    case AgentStarted(_, _) => AgentStart
    case AgentProgress(_) => AgentDelta
    case AgentCompleted(id, _) => if OpenItem(es) == Some(id) then AgentTotal else AgentComplete
    case Summary(_, _) => AgentSummary
    case Loose(_) => AgentTotal
  }

  lemma {:induction false} AgentDeltas(id: string, n: nat)
    requires n > 0
    ensures Deltas(id, n) != [] && Deltas(id, n)[|Deltas(id, n)| - 1] == AgentProgress(Str(id))
  {
  }

  // The open item is the last one, when it is not closed.
  lemma OpenItemIs(es: seq<Event>, items: seq<Item>)
    requires Framed(es, items)
    ensures OpenItem(es) == if items != [] && items[|items| - 1].closing.None? then Some(Str(items[|items| - 1].id)) else None
  {
    hide Lifecycle, UserEvents, TotalBytes, SummaryMatches;
    if items != [] {
      var last := items[|items| - 1];
      if last.deltas > 0 { AgentDeltas(last.id, last.deltas); }
      assert ItemEvents(last) != [];
      assert Written(items)[|Written(items)| - 1] == ItemEvents(last)[|ItemEvents(last)| - 1];
    }
  }

  lemma BreachIsNamed(p: Progress, es: seq<Event>, items: seq<Item>, e: Event)
    requires Framed(es, items) && Tracks(p, es, items) && Advance(p, e).1.Some?
    ensures Advance(p, e).1.value == Breach(es, e)
  {
    hide Lifecycle, UserEvents, TotalBytes, Written, OpenItem, Framed, ClosedIds, TextBytes, IdText;
    OpenItemIs(es, items);
  }

  // After a lawful event list, an event that leaves the language is refused with its breach.
  lemma RefusalIsBreach(es: seq<Event>, e: Event)
    requires AllIdentified(es) && Identified(e) && Lawful(es) && !Lawful(es + [e])
    ensures AdvanceAll(es).Some? && Advance(AdvanceAll(es).value, e).1 == Some(Breach(es, e))
  {
    AcceptedIffLawful(es);
    AcceptedIffLawful(es + [e]);
    assert (es + [e])[..|es|] == es;
    var items := AcceptedIsFramed(es);
    BreachIsNamed(AdvanceAll(es).value, es, items, e);
  }
}
