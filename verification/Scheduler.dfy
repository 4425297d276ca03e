// Scheduler replay: a journal folded into item states and resource-lock claims, then readiness
// derived over the dependency graph.
module Scheduler {
  import opened Wire

  datatype ItemState =
    | WaitingDependencies | ReadyEntryEvaluation | WaitingResource | Dispatching | Running | WaitingProvider
    | WaitingApproval | WaitingHuman | Checkpointed | TerminalReceiptAccepted | TerminalReceiptRefused | NotStarted
    | IndeterminateMechanismState

  predicate Terminal(s: ItemState) { s.TerminalReceiptAccepted? || s.NotStarted? }

  datatype Identities = Identities(
    provider: Option<string>, model: Option<string>, session: Option<string>, thread: Option<string>,
    turn: Option<string>, queue: Option<string>)

  datatype Execution = Execution(provider: string, model: string, session: string, thread: string, turn: string)

  datatype Question = Question(id: string, text: string)
  datatype Outcome = Outcome(state: string, classification: string, receiptDigest: string)

  datatype Item = Item(
    dependencies: seq<string>, lockKeys: seq<string>, state: ItemState, dependencyTerminality: map<string, bool>,
    activeAttempt: Option<string>, identities: Identities, lastSequence: Option<nat>, lastDigest: Option<string>,
    questions: seq<Question>, outcome: Option<Outcome>, resultAbsent: bool)

  datatype AdapterKind =
    | AdapterAccepted | ProviderIdentity | WorkerStarted | CheckpointKind | ApprovalKind | HumanQuestion
    | CompletionObservation | AdapterDiagnostic | MechanismIndeterminate

  datatype Mechanism = Parked | Indeterminate | Admitted | Interrupted | AwaitingApproval | Completed

  datatype Kind =
    | RunAdmitted
    | AttemptCreated(keys: seq<string>)
    | DispatchRequested
    | ResumeRequested
    | Adapter(adapter: AdapterKind, seen: Identities, question: Option<Question>)
    | TerminalAccepted(accepted: Outcome)
    | TerminalRefused
    | NotStartedAccepted(accepted: Outcome)
    | ResourcesReleased
    | CapacityEvidence
    | ExecutionAvailabilityConfigured
    | ProviderDispatchOpened
    | ProviderDispositionRecorded(mechanism: Mechanism, execution: Option<Execution>)
    | ProviderWakeOpened
    | ProviderExecutionResumeRequested
    | ProviderResourcesReleased
    | ProviderResourcesReacquired(keys: seq<string>)
    | RunClosed(finalDigest: string)

  datatype Event = Event(sequence: nat, workItem: Option<string>, attempt: Option<string>, kind: Kind, rawDigest: string)

  datatype Claim = Claim(workItem: string, attempt: string)

  datatype World = World(items: map<string, Item>, claims: map<string, Claim>, closed: Option<string>)

  // ---- one event, item side ----

  function Later(now: Option<string>, seen: Option<string>): Option<string> { if seen.Some? then seen else now }

  function Merge(now: Identities, seen: Identities): Identities {
    Identities(Later(now.provider, seen.provider), Later(now.model, seen.model), Later(now.session, seen.session),
               Later(now.thread, seen.thread), Later(now.turn, seen.turn), Later(now.queue, seen.queue))
  }

  function Bind(now: Identities, x: Execution): Identities {
    Identities(Some(x.provider), Some(x.model), Some(x.session), Some(x.thread), Some(x.turn), now.queue)
  }

  function AdapterState(s: ItemState, kind: AdapterKind): ItemState {
    match kind
    case AdapterAccepted => Running
    case WorkerStarted => Running
    case ProviderIdentity => WaitingProvider
    case CheckpointKind => Checkpointed
    case ApprovalKind => WaitingApproval
    case HumanQuestion => WaitingHuman
    case CompletionObservation => WaitingProvider
    case AdapterDiagnostic => s
    case MechanismIndeterminate => IndeterminateMechanismState
  }

  function Ask(asked: seq<Question>, q: Option<Question>): seq<Question> {
    if q.None? || exists i | 0 <= i < |asked| :: asked[i].id == q.value.id then asked else asked + [q.value]
  }

  function MechanismItemState(m: Mechanism): ItemState {
    match m
    case Indeterminate => IndeterminateMechanismState
    case AwaitingApproval => WaitingApproval
    case _ => WaitingProvider
  }

  function UpdateKind(item: Item, e: Event): Item {
    match e.kind
    case AttemptCreated(_) => item.(activeAttempt := e.attempt, state := Dispatching)
    case DispatchRequested => item.(state := Dispatching)
    case ResumeRequested => item.(state := Dispatching)
    case Adapter(kind, seen, question) =>
      item.(identities := Merge(item.identities, seen), state := AdapterState(item.state, kind), questions := Ask(item.questions, question))
    case TerminalAccepted(outcome) => item.(state := TerminalReceiptAccepted, outcome := Some(outcome), resultAbsent := false)
    case NotStartedAccepted(outcome) => item.(state := NotStarted, outcome := Some(outcome), resultAbsent := false)
    case TerminalRefused => item.(state := TerminalReceiptRefused)
    case ProviderDispatchOpened => item.(state := Dispatching)
    case ProviderWakeOpened => item.(state := Dispatching)
    case ProviderDispositionRecorded(mechanism, execution) =>
      item.(identities := if execution.Some? then Bind(item.identities, execution.value) else item.identities,
            state := MechanismItemState(mechanism))
    case ProviderExecutionResumeRequested => item.(state := Dispatching)
    case _ => item
  }

  function UpdateItem(item: Item, e: Event): Item {
    UpdateKind(item.(lastSequence := Some(e.sequence), lastDigest := Some(e.rawDigest)), e)
  }

  // ---- one event, claim side ----

  // Keys that an event claims for its item and attempt.
  function Acquired(e: Event): set<string> {
    if e.attempt.Some? && (e.kind.AttemptCreated? || e.kind.ProviderResourcesReacquired?) then set k | k in e.kind.keys else {}
  }

  // Whether an event ends a claim it did not itself just make.
  predicate Releases(e: Event, c: Claim) {
    e.workItem == Some(c.workItem)
    && (e.kind.ResourcesReleased? || (e.kind.ProviderResourcesReleased? && e.attempt == Some(c.attempt)))
  }

  function ClaimOf(e: Event): Claim
    requires e.workItem.Some? && e.attempt.Some?
  {
    Claim(e.workItem.value, e.attempt.value)
  }

  // The claim on one key after an event of a known item.
  function ClaimAfter(c: Option<Claim>, e: Event, key: string): Option<Claim>
    requires e.workItem.Some?
  {
    if key in Acquired(e) then Some(ClaimOf(e)) else if c.Some? && Releases(e, c.value) then None else c
  }

  function Held(claims: map<string, Claim>, key: string): Option<Claim> { if key in claims then Some(claims[key]) else None }

  function UpdateClaims(claims: map<string, Claim>, e: Event): map<string, Claim>
    requires e.workItem.Some?
  {
    map k | k in claims.Keys + Acquired(e) && ClaimAfter(Held(claims, k), e, k).Some? :: ClaimAfter(Held(claims, k), e, k).value
  }

  // ---- the fold ----

  function Apply(w: World, e: Event): World {
    var closed := if e.kind.RunClosed? then Some(e.kind.finalDigest) else w.closed;
    if e.workItem.None? then w.(closed := closed)
    else if e.workItem.value !in w.items then w
    else World(w.items[e.workItem.value := UpdateItem(w.items[e.workItem.value], e)], UpdateClaims(w.claims, e), closed)
  }

  function Fold(w: World, events: seq<Event>): World {
    if events == [] then w else Apply(Fold(w, events[..|events| - 1]), events[|events| - 1])
  }

  // ---- readiness ----

  predicate Settled(item: Item) {
    item.activeAttempt.Some? || Terminal(item.state) || item.state.TerminalReceiptRefused? || item.state.IndeterminateMechanismState?
  }

  function TerminalItems(items: map<string, Item>): set<string> { set id | id in items && Terminal(items[id].state) }

  function ProjectItem(item: Item, terminal: set<string>, held: set<string>): Item {
    var shown := item.(dependencyTerminality := map d | d in item.dependencies :: d in terminal);
    if Settled(item) then shown
    else if !(forall d | d in item.dependencies :: d in terminal) then shown.(state := WaitingDependencies)
    else if exists k | k in item.lockKeys :: k in held then shown.(state := WaitingResource)
    else shown.(state := ReadyEntryEvaluation)
  }

  function Project(w: World): World {
    w.(items := map id | id in w.items :: ProjectItem(w.items[id], TerminalItems(w.items), w.claims.Keys))
  }

  // A packet's item before any event.
  function FreshItem(dependencies: seq<string>, lockKeys: seq<string>): Item {
    Item(dependencies, lockKeys, WaitingDependencies, map[], None, Identities(None, None, None, None, None, None), None, None, [], None, true)
  }

  datatype Work = Work(dependencies: seq<string>, lockKeys: seq<string>)

  function Start(packet: map<string, Work>): World {
    World(map id | id in packet :: FreshItem(packet[id].dependencies, packet[id].lockKeys), map[], None)
  }

  // ---- the replay loop ----

  lemma FoldAppend(w: World, events: seq<Event>, e: Event)
    ensures Fold(w, events + [e]) == Apply(Fold(w, events), e)
  {
    assert (events + [e])[..|events|] == events;
  }

  lemma FoldPrefix(w: World, events: seq<Event>, k: nat)
    requires k < |events|
    ensures Fold(w, events[..k + 1]) == Apply(Fold(w, events[..k]), events[k])
  {
    assert events[..k + 1] == events[..k] + [events[k]];
    FoldAppend(w, events[..k], events[k]);
  }

  lemma ClaimsAgree(a: map<string, Claim>, b: map<string, Claim>)
    requires forall k :: Held(a, k) == Held(b, k)
    ensures a == b
  {
    forall k ensures k in a <==> k in b { assert Held(a, k) == Held(b, k); }
    forall k | k in a ensures a[k] == b[k] { assert Held(a, k) == Held(b, k); }
  }

  lemma UpdateHolds(claims: map<string, Claim>, e: Event, k: string)
    requires e.workItem.Some?
    ensures Held(UpdateClaims(claims, e), k) == ClaimAfter(Held(claims, k), e, k)
  {
  }

  // Claims the keys one after the other: each is then held by `claim`, and no other claim changes.
  method Acquire(claims: map<string, Claim>, keys: seq<string>, claim: Claim) returns (after: map<string, Claim>)
    ensures forall k :: Held(after, k) == if k in keys then Some(claim) else Held(claims, k)
  {
    after := claims;
    for i := 0 to |keys|
      invariant forall k :: Held(after, k) == if k in keys[..i] then Some(claim) else Held(claims, k)
    {
      assert keys[..i + 1] == keys[..i] + [keys[i]];
      after := after[keys[i] := claim];
    }
    assert keys[..|keys|] == keys;
  }

  // The claims after an event: acquired keys one by one, released claims filtered out.
  method ApplyClaims(claims: map<string, Claim>, e: Event) returns (after: map<string, Claim>)
    requires e.workItem.Some?
    ensures after == UpdateClaims(claims, e)
  {
    if e.kind.AttemptCreated? || e.kind.ProviderResourcesReacquired? {
      after := claims;
      if e.attempt.Some? { after := Acquire(claims, e.kind.keys, ClaimOf(e)); }
    } else {
      after := map k | k in claims && !Releases(e, claims[k]) :: claims[k];
    }
    forall k ensures Held(after, k) == Held(UpdateClaims(claims, e), k) { UpdateHolds(claims, e, k); }
    ClaimsAgree(after, UpdateClaims(claims, e));
  }

  // The second loop: dependency terminality and readiness of every item, rewritten in place.
  method DeriveReadiness(w: World) returns (projection: World)
    ensures projection == Project(w)
  {
    var terminal, held := TerminalItems(w.items), w.claims.Keys;
    var items, left := w.items, w.items.Keys;
    while left != {}
      invariant left <= w.items.Keys == items.Keys
      invariant forall id | id in items :: items[id] == if id in left then w.items[id] else ProjectItem(w.items[id], terminal, held)
      decreases |left|
    {
      var id :| id in left;
      items := items[id := ProjectItem(items[id], terminal, held)];
      left := left - {id};
    }
    projection := w.(items := items);
    assert items == Project(w).items;
  }

  // Scheduler::replay
  method Replay(packet: map<string, Work>, events: seq<Event>) returns (projection: World)
    ensures projection == Project(Fold(Start(packet), events))
  {
    var items := Start(packet).items;
    var claims: map<string, Claim> := map[];
    var closed: Option<string> := None;
    for index := 0 to |events|
      invariant World(items, claims, closed) == Fold(Start(packet), events[..index])
    {
      var e := events[index];
      FoldPrefix(Start(packet), events, index);
      if e.workItem.Some? {
        if e.workItem.value !in items { continue; }
        items := items[e.workItem.value := UpdateItem(items[e.workItem.value], e)];
        claims := ApplyClaims(claims, e);
      }
      if e.kind.RunClosed? {
        closed := Some(e.kind.finalDigest);
      }
    }
    assert events[..|events|] == events;
    projection := DeriveReadiness(World(items, claims, closed));
  }
}
