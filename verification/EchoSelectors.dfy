// The frames that the echo selectors accept, given by construction.
module EchoSelectors {
  import opened Wire
  import opened Evidence
  import opened Echo

  // ---- items ----

  predicate ValidPhase(phase: Frame) { phase == Null || phase == Str("commentary") || phase == Str("final_answer") }

  predicate ItemText(id: string, text: string) { 1 <= |id| <= 512 && Utf8Len(text) <= 32768 }

  function MakeItem(id: string, text: string, phase: Frame): Frame {
    Obj(map[KType := Str("agentMessage"), KId := Str(id), KText := Str(text), KPhase := phase, KMemoryCitation := Null, KDelivery := Null])
  }

  // The agent items are exactly those made from an identity, a bounded text and a phase.
  lemma AgentItemIff(item: Frame)
    ensures AgentItem(item) <==> exists id, text, phase :: item == MakeItem(id, text, phase) && ItemText(id, text) && ValidPhase(phase)
  {
    hide Utf8Len;
    if AgentItem(item) {
      var f := item.fields;
      assert f.Keys == {KType, KId, KText, KPhase, KMemoryCitation, KDelivery};
      var id, text, phase := f[KId].s, f[KText].s, f[KPhase];
      assert f[KType] == Str("agentMessage") && f[KMemoryCitation] == Null && f[KDelivery] == Null;
      assert MakeItem(id, text, phase).fields == f;
    }
    if id, text, phase :| item == MakeItem(id, text, phase) && ItemText(id, text) && ValidPhase(phase) {
      assert item.fields.Keys == {KType, KId, KText, KPhase, KMemoryCitation, KDelivery};
    }
  }

  function MakeUserItem(id: string, content: Frame): Frame {
    Obj(map[KType := Str("userMessage"), KId := Str(id), KClientId := Null, KContent := content])
  }

  // ---- parameters ----

  function ItemParams(b: Scope, item: Frame, started: bool, at: int): Frame {
    if started then Obj(map[KThreadId := Str(b.thread), KTurnId := Str(b.turn), KItem := item, KStartedAtMs := Int(at)])
    else Obj(map[KThreadId := Str(b.thread), KTurnId := Str(b.turn), KItem := item, KCompletedAtMs := Int(at)])
  }

  predicate Tick(at: int) { -SAFE <= at <= SAFE }

  // Parameters of an item notification: the bound thread and turn, one item and a time.
  ghost predicate MadeItem(params: Frame, b: Scope, started: bool, item: Frame) {
    params.Obj? && exists at :: Tick(at) && params == ItemParams(b, item, started, at)
  }

  lemma ItemParamsIff(m: ItemMethod, params: Frame, b: Scope)
    requires m.ItemStarted? || m.ItemCompleted?
    ensures (&& KeysAre(params, {KThreadId, KTurnId, KItem, Timestamp(m)}) && Echo.At(params, KThreadId) == Str(b.thread)
             && Echo.At(params, KTurnId) == Str(b.turn) && IsTick(Echo.At(params, Timestamp(m))))
       <==> MadeItem(params, b, m.ItemStarted?, Echo.At(params, KItem))
  {
    if KeysAre(params, {KThreadId, KTurnId, KItem, Timestamp(m)}) && Echo.At(params, KThreadId) == Str(b.thread)
       && Echo.At(params, KTurnId) == Str(b.turn) && IsTick(Echo.At(params, Timestamp(m))) {
      var at := Echo.At(params, Timestamp(m)).n;
      assert params.fields.Keys == {KThreadId, KTurnId, KItem, Timestamp(m)};
      assert params.fields == ItemParams(b, Echo.At(params, KItem), m.ItemStarted?, at).fields;
      assert params == ItemParams(b, Echo.At(params, KItem), m.ItemStarted?, at) && Tick(at);
    }
    if at :| Tick(at) && params == ItemParams(b, Echo.At(params, KItem), m.ItemStarted?, at) {
      assert params.fields.Keys == {KThreadId, KTurnId, KItem, Timestamp(m)};
    }
  }

  // A user echo is exactly an item notification of the bound turn whose item carries the captured input.
  lemma UserEchoIff(m: ItemMethod, params: Frame, b: Scope, input: Option<Frame>)
    ensures UserEcho(m, params, b, input) <==>
            && (m.ItemStarted? || m.ItemCompleted?) && input.Some?
            && exists id :: 1 <= |id| <= 512 && MadeItem(params, b, m.ItemStarted?, MakeUserItem(id, input.value))
  {
    if m.ItemStarted? || m.ItemCompleted? {
      hide MadeItem;
      ItemParamsIff(m, params, b);
      if UserEcho(m, params, b, input) {
        var item := Echo.At(params, KItem);
        assert item.fields.Keys == {KType, KId, KClientId, KContent};
        var id := item.fields[KId].s;
        assert item.fields == MakeUserItem(id, input.value).fields;
        assert MadeItem(params, b, m.ItemStarted?, MakeUserItem(id, input.value));
      }
      if input.Some? {
        if id :| 1 <= |id| <= 512 && MadeItem(params, b, m.ItemStarted?, MakeUserItem(id, input.value)) {
          MadeHasItem(params, b, m.ItemStarted?, MakeUserItem(id, input.value));
          assert MakeUserItem(id, input.value).fields.Keys == {KType, KId, KClientId, KContent};
        }
      }
    }
  }

  lemma MadeHasItem(params: Frame, b: Scope, started: bool, item: Frame)
    requires MadeItem(params, b, started, item)
    ensures Echo.At(params, KItem) == item
  {
  }

  // Agent starts and completions are exactly item notifications of the bound turn with an agent item.
  lemma AgentNotificationIff(m: ItemMethod, params: Frame, b: Scope)
    requires m.ItemStarted? || m.ItemCompleted?
    ensures AgentOutput(m, params, b) <==>
            exists id, text, phase :: MadeItem(params, b, m.ItemStarted?, MakeItem(id, text, phase)) && ItemText(id, text) && ValidPhase(phase)
  {
    hide MadeItem, AgentItem, ItemText, ValidPhase;
    ItemParamsIff(m, params, b);
    AgentItemIff(Echo.At(params, KItem));
    if id, text, phase :| MadeItem(params, b, m.ItemStarted?, MakeItem(id, text, phase)) && ItemText(id, text) && ValidPhase(phase) {
      MadeHasItem(params, b, m.ItemStarted?, MakeItem(id, text, phase));
    }
  }

  // A delta carries the bound turn, an item id and a bounded text.
  lemma DeltaIff(params: Frame, b: Scope)
    ensures AgentOutput(ItemDelta, params, b) <==>
            exists id, delta :: ItemText(id, delta)
                                && params == Obj(map[KThreadId := Str(b.thread), KTurnId := Str(b.turn), KItemId := Str(id), KDelta := Str(delta)])
  {
    hide Utf8Len;
    if AgentOutput(ItemDelta, params, b) {
      var f := params.fields;
      assert f.Keys == {KThreadId, KTurnId, KItemId, KDelta};
      var id, delta := f[KItemId].s, f[KDelta].s;
      assert f == map[KThreadId := Str(b.thread), KTurnId := Str(b.turn), KItemId := Str(id), KDelta := Str(delta)];
      assert ItemText(id, delta);
    }
    if id, delta :| ItemText(id, delta) && params == Obj(map[KThreadId := Str(b.thread), KTurnId := Str(b.turn), KItemId := Str(id), KDelta := Str(delta)]) {
      assert params.fields.Keys == {KThreadId, KTurnId, KItemId, KDelta};
    }
  }

  // ---- turn summaries ----

  predicate MaybeTick(v: Frame) { v == Null || (v.Int? && -SAFE <= v.n <= SAFE) }

  function MakeTurn(b: Scope, item: Frame, started: Frame, completed: Frame, duration: Frame): Frame {
    Obj(map[KId := Str(b.turn), KItems := Arr([item]), KItemsView := Str("summary"), KStatus := Str("completed"), KError := Null,
            KStartedAt := started, KCompletedAt := completed, KDurationMs := duration])
  }

  ghost predicate MadeSummary(params: Frame, b: Scope, item: Frame, started: Frame, completed: Frame, duration: Frame, at: int) {
    && Tick(at) && MaybeTick(started) && MaybeTick(completed) && MaybeTick(duration)
    && params == Obj(map[KThreadId := Str(b.thread), KTurn := MakeTurn(b, item, started, completed, duration), KEmittedAtMs := Int(at)])
  }

  lemma SummaryIsMade(params: Frame, b: Scope)
    requires AgentOutput(TurnDone, params, b)
    ensures exists item, started, completed, duration, at :: AgentItem(item) && MadeSummary(params, b, item, started, completed, duration, at)
  {
    hide AgentItem;
    var f := params.fields;
    assert f.Keys == {KThreadId, KTurn, KEmittedAtMs};
    var t := f[KTurn].fields;
    assert t.Keys == {KId, KItems, KItemsView, KStatus, KError, KStartedAt, KCompletedAt, KDurationMs};
    var item := t[KItems].items[0];
    assert t[KItems] == Arr([item]) && t[KError] == Null;
    assert t == MakeTurn(b, item, t[KStartedAt], t[KCompletedAt], t[KDurationMs]).fields;
    assert f == map[KThreadId := Str(b.thread), KTurn := MakeTurn(b, item, t[KStartedAt], t[KCompletedAt], t[KDurationMs]), KEmittedAtMs := f[KEmittedAtMs]];
    assert MadeSummary(params, b, item, t[KStartedAt], t[KCompletedAt], t[KDurationMs], f[KEmittedAtMs].n);
  }

  lemma MadeIsSummary(params: Frame, b: Scope, item: Frame, started: Frame, completed: Frame, duration: Frame, at: int)
    requires AgentItem(item) && MadeSummary(params, b, item, started, completed, duration, at)
    ensures AgentOutput(TurnDone, params, b)
  {
    hide AgentItem;
    assert params.fields.Keys == {KThreadId, KTurn, KEmittedAtMs};
    assert params.fields[KTurn].fields.Keys == {KId, KItems, KItemsView, KStatus, KError, KStartedAt, KCompletedAt, KDurationMs};
  }

  // A selected turn summary is a completed turn with one agent item.
  lemma SummaryIff(params: Frame, b: Scope)
    ensures AgentOutput(TurnDone, params, b) <==>
            exists item, started, completed, duration, at :: AgentItem(item) && MadeSummary(params, b, item, started, completed, duration, at)
  {
    hide AgentItem, AgentOutput, MadeSummary;
    if AgentOutput(TurnDone, params, b) { SummaryIsMade(params, b); }
    if item, started, completed, duration, at :| AgentItem(item) && MadeSummary(params, b, item, started, completed, duration, at) {
      MadeIsSummary(params, b, item, started, completed, duration, at);
    }
  }

  // ---- the events that selected frames carry ----

  lemma ItemEvent(params: Frame, b: Scope, started: bool, id: string, text: string, phase: Frame)
    requires MadeItem(params, b, started, MakeItem(id, text, phase))
    ensures Selected(if started then ItemStarted else ItemCompleted, params, false)
         == if started then AgentStarted(Str(id), Str(text)) else AgentCompleted(Str(id), Str(text))
  {
    MadeHasItem(params, b, started, MakeItem(id, text, phase));
  }

  lemma UserEvent(params: Frame, b: Scope, started: bool, id: string, content: Frame)
    requires MadeItem(params, b, started, MakeUserItem(id, content))
    ensures Selected(if started then ItemStarted else ItemCompleted, params, true)
         == if started then UserStarted(Str(id)) else UserCompleted(Str(id))
  {
    MadeHasItem(params, b, started, MakeUserItem(id, content));
  }

  lemma SummaryEvent(params: Frame, b: Scope, id: string, text: string, phase: Frame, started: Frame, completed: Frame, duration: Frame, at: int)
    requires MadeSummary(params, b, MakeItem(id, text, phase), started, completed, duration, at)
    ensures Selected(TurnDone, params, false) == Summary(Str(id), Str(text))
  {
  }

  // The input that can be captured is one text element, and the echo must repeat it with empty text elements.
  lemma NormalizeInputIff(input: Frame, normal: Frame)
    ensures NormalizeInput(input) == Some(normal) <==>
            exists text :: input == Arr([Obj(map[KType := Str("text"), KText := Str(text)])])
                           && normal == Arr([Obj(map[KType := Str("text"), KText := Str(text), KTextElements := Arr([])])])
  {
    if NormalizeInput(input) == Some(normal) {
      var f := input.items[0].fields;
      assert f.Keys == {KType, KText};
      var text := f[KText].s;
      assert f == map[KType := Str("text"), KText := Str(text)];
      assert input.items == [Obj(map[KType := Str("text"), KText := Str(text)])];
    }
    if text :| input == Arr([Obj(map[KType := Str("text"), KText := Str(text)])])
               && normal == Arr([Obj(map[KType := Str("text"), KText := Str(text), KTextElements := Arr([])])]) {
      assert input.items[0].fields.Keys == {KType, KText};
    }
  }
}
