// Selector and ordered replay of the bounded turn echo: which frames carry the selected user
// input and agent output, and the item lifecycle they must follow under one output cap.
module Echo {
  import opened Wire
  import opened Evidence

  const OUTPUT_BYTES: nat := 32768

  // Thread and turn to which a snapshot is bound.
  datatype Scope = Scope(thread: string, turn: string)

  function CharBytes(c: char): nat {
    if c as int < 0x80 then 1 else if c as int < 0x800 then 2 else if c as int < 0x1_0000 then 3 else 4
  }

  // Length of the UTF-8 encoding.
  function Utf8Len(text: string): nat {
    if text == [] then 0 else CharBytes(text[0]) + Utf8Len(text[1..])
  }

  datatype ItemMethod = ItemStarted | ItemCompleted | ItemDelta | TurnDone | OtherItem

  function ItemClass(name: string): ItemMethod {
    if name == "item/started" then ItemStarted
    else if name == "item/completed" then ItemCompleted
    else if name == "item/agentMessage/delta" then ItemDelta
    else if name == "turn/completed" then TurnDone
    else OtherItem
  }

  predicate KnownError(d: Detail) {
    d.InputShape? || d.InputDuplicate? || d.ItemShape? || d.UserStart? || d.UserComplete? || d.UserDuplicate?
    || d.AgentStart? || d.AgentComplete? || d.AgentDelta? || d.AgentSummary? || d.AgentTotal?
  }

  // ---- selectors ----

  function At(j: Frame, key: Key): Frame {
    if j.Obj? && key in j.fields then j.fields[key] else Null
  }

  predicate KeysAre(j: Frame, expected: set<Key>) { j.Obj? && j.fields.Keys == expected }

  predicate IsIdentity(j: Frame) { j.Str? && BoundedId(j.s) }

  predicate IsTick(j: Frame) { AsInt(j).Some? && SafeInt(AsInt(j).value) }

  predicate IsOutput(j: Frame) { j.Str? && Utf8Len(j.s) <= OUTPUT_BYTES }

  predicate NotificationWire(wire: Frame) {
    KeysAre(wire, {KMethod, KParams, KEmittedAtMs})
    && AsInt(At(wire, KEmittedAtMs)).Some? && 1 <= AsInt(At(wire, KEmittedAtMs)).value <= SAFE
  }

  function NormalizeInput(input: Frame): Option<Frame> {
    if input.Arr? && |input.items| == 1 && KeysAre(input.items[0], {KType, KText})
       && At(input.items[0], KType) == Str("text") && At(input.items[0], KText).Str?
    then Some(Arr([Obj(map[KType := Str("text"), KText := At(input.items[0], KText), KTextElements := Arr([])])]))
    else None
  }

  predicate AgentItem(item: Frame) {
    && KeysAre(item, {KType, KId, KText, KPhase, KMemoryCitation, KDelivery})
    && At(item, KType) == Str("agentMessage")
    && IsIdentity(At(item, KId))
    && IsOutput(At(item, KText))
    && (At(item, KPhase).Null? || At(item, KPhase) == Str("commentary") || At(item, KPhase) == Str("final_answer"))
    && At(item, KMemoryCitation).Null?
    && At(item, KDelivery).Null?
  }

  function Timestamp(m: ItemMethod): Key {
    if m.ItemStarted? then KStartedAtMs else KCompletedAtMs
  }

  predicate UserEcho(m: ItemMethod, params: Frame, b: Scope, input: Option<Frame>) {
    var item := At(params, KItem);
    && (m.ItemStarted? || m.ItemCompleted?)
    && KeysAre(params, {KThreadId, KTurnId, KItem, Timestamp(m)})
    && At(params, KThreadId) == Str(b.thread)
    && At(params, KTurnId) == Str(b.turn)
    && IsTick(At(params, Timestamp(m)))
    && KeysAre(item, {KType, KId, KClientId, KContent})
    && At(item, KType) == Str("userMessage")
    && IsIdentity(At(item, KId))
    && At(item, KClientId).Null?
    && input.Some? && At(item, KContent) == input.value
  }

  predicate TurnSummary(params: Frame, b: Scope) {
    var turn := At(params, KTurn);
    && KeysAre(params, {KThreadId, KTurn, KEmittedAtMs})
    && IsTick(At(params, KEmittedAtMs))
    && KeysAre(turn, {KId, KItems, KItemsView, KStatus, KError, KStartedAt, KCompletedAt, KDurationMs})
    && At(turn, KId) == Str(b.turn)
    && At(turn, KItems).Arr? && |At(turn, KItems).items| == 1 && AgentItem(At(turn, KItems).items[0])
    && At(turn, KItemsView) == Str("summary")
    && At(turn, KStatus) == Str("completed")
    && At(turn, KError).Null?
    && (At(turn, KStartedAt).Null? || IsTick(At(turn, KStartedAt)))
    && (At(turn, KCompletedAt).Null? || IsTick(At(turn, KCompletedAt)))
    && (At(turn, KDurationMs).Null? || IsTick(At(turn, KDurationMs)))
  }

  predicate AgentOutput(m: ItemMethod, params: Frame, b: Scope) {
    At(params, KThreadId) == Str(b.thread) &&
    match m
    case ItemDelta =>
      KeysAre(params, {KThreadId, KTurnId, KItemId, KDelta}) && At(params, KTurnId) == Str(b.turn)
      && IsIdentity(At(params, KItemId)) && IsOutput(At(params, KDelta))
    case TurnDone => TurnSummary(params, b)
    case OtherItem => false
    case _ =>
      KeysAre(params, {KThreadId, KTurnId, KItem, Timestamp(m)}) && At(params, KTurnId) == Str(b.turn)
      && IsTick(At(params, Timestamp(m))) && AgentItem(At(params, KItem))
  }

  // A completed agent message that the closed selector does not accept; its text still counts.
  predicate LooseCompletion(m: ItemMethod, params: Frame, b: Scope) {
    m.ItemCompleted? && At(params, KThreadId) == Str(b.thread) && At(params, KTurnId) == Str(b.turn)
    && At(At(params, KItem), KType) == Str("agentMessage")
  }

  // ---- replay ----

  // What a frame contributes to the item lifecycle.
  datatype Event =
    | UserStarted(id: Frame)
    | UserCompleted(id: Frame)
    | AgentStarted(id: Frame, text: Frame)
    | AgentProgress(id: Frame)
    | AgentCompleted(id: Frame, text: Frame)
    | Summary(id: Frame, text: Frame)
    | Loose(text: Frame)

  datatype Progress = Progress(
    input: Option<Frame>, userId: Option<Frame>, userCompleted: bool,
    agentId: Option<Frame>, agentText: Option<Frame>, agentCompleted: bool,
    completedIds: set<string>, completedBytes: nat)

  const START := Progress(None, None, false, None, None, false, {}, 0)

  function TextBytes(text: Frame): nat { if text.Str? then Utf8Len(text.s) else 0 }

  function IdText(id: Frame): string { if id.Str? then id.s else "" }

  // The event of a selected frame.
  function Selected(m: ItemMethod, params: Frame, user: bool): Event {
    var item := At(params, KItem);
    if user then (if m.ItemStarted? then UserStarted(At(item, KId)) else UserCompleted(At(item, KId)))
    else match m
      case ItemStarted => AgentStarted(At(item, KId), At(item, KText))
      case ItemCompleted => AgentCompleted(At(item, KId), At(item, KText))
      case ItemDelta => AgentProgress(At(params, KItemId))
      case _ =>
        var items := At(At(params, KTurn), KItems);
        var first := if items.Arr? && |items.items| > 0 then items.items[0] else Null;
        Summary(At(first, KId), At(first, KText))
  }

  // One lifecycle event: the state after it, and the failure detail if the event is refused.
  function Advance(p: Progress, e: Event): (Progress, Option<Detail>) {
    match e
    case UserStarted(id) =>
      if p.userId.Some? then (p, Some(Detail.UserStart)) else (p.(userId := Some(id)), None)
    case UserCompleted(id) =>
      if p.userId != Some(id) then (p, Some(UserComplete))
      else if p.userCompleted then (p, Some(UserDuplicate))
      else (p.(userCompleted := true), None)
    case AgentStarted(id, text) =>
      if (p.agentId.Some? && !p.agentCompleted) || IdText(id) in p.completedIds then (p, Some(AgentStart))
      else (p.(agentId := Some(id), agentText := Some(text), agentCompleted := false), None)
    case AgentCompleted(id, text) =>
      if p.agentId != Some(id) || p.agentCompleted then (p, Some(AgentComplete))
      else if p.completedBytes + TextBytes(text) > OUTPUT_BYTES then (p, Some(AgentTotal))
      else (p.(completedBytes := p.completedBytes + TextBytes(text), completedIds := p.completedIds + {IdText(id)},
               agentText := Some(text), agentCompleted := true), None)
    case AgentProgress(id) =>
      if p.agentCompleted || p.agentId != Some(id) then (p, Some(Detail.AgentDelta)) else (p, None)
    case Summary(id, text) =>
      if !p.agentCompleted || p.agentId != Some(id) || p.agentText != Some(text) then (p, Some(AgentSummary)) else (p, None)
    case Loose(text) =>
      var q := p.(completedBytes := p.completedBytes + TextBytes(text));
      (q, if q.completedBytes > OUTPUT_BYTES then Some(AgentTotal) else None)
  }

  function RetainedError(rec: Record): Option<Detail> {
    if rec.evidence.Discrepancy? && KnownError(rec.evidence.detail) then Some(rec.evidence.detail) else None
  }

  // A record whose frame takes part in the echo: any accepted one, or one refused by the echo itself.
  predicate Participates(rec: Record) { !rec.evidence.Discrepancy? || RetainedError(rec).Some? }

  predicate InputRecord(rec: Record) {
    rec.name == "client-request/turn/start" && (rec.evidence.ClientRequestIssued? || RetainedError(rec).Some?)
  }

  // The lifecycle event carried by a record whose decoded frame is `wire`, if any.
  function EventOf(b: Scope, p: Progress, rec: Record, wire: Frame): Option<Event> {
    var m := ItemClass(rec.name);
    var params := At(wire, KParams);
    var user := NotificationWire(wire) && UserEcho(m, params, b, p.input);
    var agent := NotificationWire(wire) && AgentOutput(m, params, b);
    if InputRecord(rec) || rec.lane != Some(NotificationLane) || !Participates(rec) then None
    else if user || agent then Some(Selected(m, params, user))
    else if LooseCompletion(m, params, b) && At(At(params, KItem), KText).Str? then Some(Loose(At(At(params, KItem), KText)))
    else None
  }

  function Consume(b: Scope, p: Progress, rec: Record, wire: Frame): (Progress, Option<Detail>) {
    if InputRecord(rec) then
      var input := NormalizeInput(At(At(wire, KParams), KInput));
      if input.None? then (p, Some(InputShape))
      else if p.input.Some? then (p, Some(InputDuplicate))
      else (p.(input := input), None)
    else
      var event := EventOf(b, p, rec, wire);
      if event.Some? then Advance(p, event.value) else (p, None)
  }

  // A large notification must be one of the selected frames.
  predicate SelectorAdmits(b: Scope, p: Progress, rec: Record, wire: Frame) {
    (!InputRecord(rec) && rec.lane == Some(NotificationLane) && rec.raw.Some? && rec.raw.value.byteLength > MAXIMUM_EVIDENCE_BYTES)
    ==> var m, params := ItemClass(rec.name), At(wire, KParams);
        NotificationWire(wire) && (UserEcho(m, params, b, p.input) || AgentOutput(m, params, b))
  }

  // The wire shape that a recorded echo failure must have.
  predicate FailureWire(b: Scope, rec: Record, wire: Frame) {
    if rec.name == "client-request/turn/start" then
      && rec.lane == Some(ClientRequestLane)
      && KeysAre(wire, {KId, KMethod, KParams})
      && At(wire, KMethod) == Str("turn/start")
      && AsInt(At(wire, KId)).Some? && 0 <= AsInt(At(wire, KId)).value <= SAFE
      && At(wire, KParams).Obj?
      && At(At(wire, KParams), KThreadId) == Str(b.thread)
    else
      rec.lane == Some(NotificationLane) && NotificationWire(wire) && At(wire, KMethod) == Str(rec.name)
  }

  // One record of the ordered echo replay; None is a rejected snapshot.
  function EchoStep(b: Scope, p: Progress, rec: Record): Option<(Progress, Option<Detail>)> {
    if rec.raw.None? then Some((p, None))
    else if rec.raw.value.wire.None? then None
    else
      var wire := rec.raw.value.wire.value;
      var (q, expected) := Consume(b, p, rec, wire);
      if !SelectorAdmits(b, p, rec, wire) then None
      else if expected.Some? then
        if rec.evidence.Discrepancy? && RetainedError(rec) == expected && FailureWire(b, rec, wire) then Some((q, expected)) else None
      else if RetainedError(rec).Some? then None
      else Some((q, None))
  }

  // Progress and verdicts after a prefix of the records.
  function EchoRun(b: Scope, records: seq<Record>): (run: Option<(Progress, seq<Option<Detail>>)>)
    ensures run.Some? ==> |run.value.1| == |records|
  {
    if records == [] then Some((START, []))
    else
      var prior := EchoRun(b, records[..|records| - 1]);
      if prior.None? then None
      else
        var next := EchoStep(b, prior.value.0, records[|records| - 1]);
        if next.None? then None
        else Some((next.value.0, prior.value.1 + [next.value.1]))
  }

  predicate Enables(rec: Record) {
    (rec.lane == Some(NotificationLane) && rec.raw.Some? && rec.raw.value.byteLength > MAXIMUM_EVIDENCE_BYTES)
    || RetainedError(rec).Some?
  }

  // Verdict per record; None is a rejected snapshot.
  function EchoVerdicts(b: Scope, records: seq<Record>, enrolled: bool): (verdicts: Option<seq<Option<Detail>>>)
    ensures verdicts.Some? ==> |verdicts.value| == |records|
  {
    if enrolled || exists i | 0 <= i < |records| :: Enables(records[i]) then
      var run := EchoRun(b, records);
      if run.None? then None else Some(run.value.1)
    else Some(seq(|records|, i => None))
  }
}
