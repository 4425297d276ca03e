// Where an item's projected fields come from: each is that of the last event of the item that carries
// it, and readiness is a property of the journal alone.
module SchedulerItems {
  import opened Wire
  import opened Scheduler
  import opened SchedulerOrder
  import opened SchedulerClaims

  // ---- which events put an item in which state ----

  predicate Dispatches(e: Event) {
    e.kind.AttemptCreated? || e.kind.DispatchRequested? || e.kind.ResumeRequested? || e.kind.ProviderDispatchOpened?
    || e.kind.ProviderWakeOpened? || e.kind.ProviderExecutionResumeRequested?
  }

  predicate AdapterIs(e: Event, kind: AdapterKind) { e.kind.Adapter? && e.kind.adapter == kind }

  predicate DispositionIs(e: Event, m: Mechanism) { e.kind.ProviderDispositionRecorded? && e.kind.mechanism == m }

  predicate Sets(e: Event, s: ItemState) {
    match s
    case Dispatching => Dispatches(e)
    case Running => AdapterIs(e, AdapterAccepted) || AdapterIs(e, WorkerStarted)
    case WaitingProvider =>
      AdapterIs(e, ProviderIdentity) || AdapterIs(e, CompletionObservation)
      || DispositionIs(e, Parked) || DispositionIs(e, Admitted) || DispositionIs(e, Interrupted) || DispositionIs(e, Completed)
    case WaitingApproval => AdapterIs(e, ApprovalKind) || DispositionIs(e, AwaitingApproval)
    case WaitingHuman => AdapterIs(e, HumanQuestion)
    case Checkpointed => AdapterIs(e, CheckpointKind)
    case TerminalReceiptAccepted => e.kind.TerminalAccepted?
    case NotStarted => e.kind.NotStartedAccepted?
    case TerminalReceiptRefused => e.kind.TerminalRefused?
    case IndeterminateMechanismState => AdapterIs(e, MechanismIndeterminate) || DispositionIs(e, Indeterminate)
    case _ => false
  }

  ghost predicate SetsState(e: Event) { exists s :: Sets(e, s) }

  // Events that leave the state as it is.
  predicate Quiet(e: Event) {
    e.kind.RunAdmitted? || e.kind.ResourcesReleased? || e.kind.CapacityEvidence? || e.kind.ExecutionAvailabilityConfigured?
    || e.kind.ProviderResourcesReleased? || e.kind.ProviderResourcesReacquired? || e.kind.RunClosed? || AdapterIs(e, AdapterDiagnostic)
  }

  lemma QuietSetsNothing(e: Event)
    requires Quiet(e)
    ensures !SetsState(e)
  {
  }

  lemma LoudSets(item: Item, e: Event)
    ensures if Quiet(e) then UpdateKind(item, e).state == item.state else Sets(e, UpdateKind(item, e).state)
  {
  }

  lemma KindSets(item: Item, e: Event)
    ensures SetsState(e) ==> Sets(e, UpdateKind(item, e).state)
    ensures !SetsState(e) ==> UpdateKind(item, e).state == item.state
  {
    hide Sets, UpdateKind;
    LoudSets(item, e);
    if Quiet(e) { QuietSetsNothing(e); }
  }

  lemma OneStatePerEvent(e: Event, s: ItemState, r: ItemState)
    requires Sets(e, s) && Sets(e, r)
    ensures s == r
  {
  }

  // ---- the last event of an item with a property ----

  ghost predicate LastOf(events: seq<Event>, id: string, i: int, has: Event -> bool) {
    && 0 <= i < |events| && events[i].workItem == Some(id) && has(events[i])
    && forall j | i < j < |events| && events[j].workItem == Some(id) :: !has(events[j])
  }

  ghost predicate NoneOf(events: seq<Event>, id: string, has: Event -> bool) {
    forall j | 0 <= j < |events| && events[j].workItem == Some(id) :: !has(events[j])
  }

  lemma LastAppends(events: seq<Event>, e: Event, id: string, i: int, has: Event -> bool)
    ensures LastOf(events + [e], id, i, has) <==>
            if e.workItem == Some(id) && has(e) then i == |events| else LastOf(events, id, i, has)
    ensures NoneOf(events + [e], id, has) <==> NoneOf(events, id, has) && !(e.workItem == Some(id) && has(e))
  {
    var all := events + [e];
    assert all[|events|] == e && forall j | 0 <= j < |events| :: all[j] == events[j];
    if NoneOf(all, id, has) { forall j | 0 <= j < |events| && events[j].workItem == Some(id) ensures !has(events[j]) { assert all[j] == events[j]; } }
    if LastOf(all, id, i, has) && i < |events| {
      forall j | i < j < |events| && events[j].workItem == Some(id) ensures !has(events[j]) { assert all[j] == events[j]; }
    }
  }

  // The item after one more event.
  lemma ItemAfter(packet: map<string, Work>, events: seq<Event>, e: Event, id: string)
    requires id in packet
    ensures var before, after := Fold(Start(packet), events).items, Fold(Start(packet), events + [e]).items;
            id in before && id in after && after[id] == if e.workItem == Some(id) then UpdateItem(before[id], e) else before[id]
  {
    FoldAppend(Start(packet), events, e);
    FoldKeepsItems(Start(packet), events);
    FoldKeepsItems(Start(packet), events + [e]);
  }

  // ---- state ----

  // The journal leaves the item in state s.
  ghost predicate JournalState(events: seq<Event>, id: string, s: ItemState) {
    (exists i :: LastOf(events, id, i, SetsState) && Sets(events[i], s))
    || (s == WaitingDependencies && NoneOf(events, id, SetsState))
  }

  // After a replay an item is in the state that its last state-setting event sets, or waits for its
  // dependencies when there is none.
  lemma {:induction false} StateProvenance(packet: map<string, Work>, events: seq<Event>, id: string, s: ItemState)
    requires id in packet
    ensures id in Fold(Start(packet), events).items
    ensures Fold(Start(packet), events).items[id].state == s <==> JournalState(events, id, s)
  {
    if events == [] {
      assert NoneOf(events, id, SetsState);
    } else {
      var front, e := events[..|events| - 1], events[|events| - 1];
      assert events == front + [e];
      StateProvenance(packet, front, id, s);
      ItemAfter(packet, front, e, id);
      JournalStep(front, e, id, s);
      if e.workItem == Some(id) {
        var item := Fold(Start(packet), front).items[id];
        KindSets(item.(lastSequence := Some(e.sequence), lastDigest := Some(e.rawDigest)), e);
        if SetsState(e) && Sets(e, s) { OneStatePerEvent(e, s, UpdateItem(item, e).state); }
      }
    }
  }

  lemma JournalStep(front: seq<Event>, e: Event, id: string, s: ItemState)
    ensures JournalState(front + [e], id, s) <==> if e.workItem == Some(id) && SetsState(e) then Sets(e, s) else JournalState(front, id, s)
  {
    hide Sets;
    var all := front + [e];
    assert all[|front|] == e && forall j | 0 <= j < |front| :: all[j] == front[j];
    LastAppends(front, e, id, |front|, SetsState);
    if i :| LastOf(all, id, i, SetsState) && Sets(all[i], s) { LastAppends(front, e, id, i, SetsState); }
    if i :| LastOf(front, id, i, SetsState) && Sets(front[i], s) { LastAppends(front, e, id, i, SetsState); }
  }

  // ---- fields carried by the last event that has them ----

  ghost predicate Carried<T(!new)>(events: seq<Event>, id: string, value: Event -> Option<T>, v: Option<T>) {
    if v.Some? then exists i :: LastOf(events, id, i, e => value(e).Some?) && value(events[i]) == v
    else NoneOf(events, id, e => value(e).Some?)
  }

  lemma CarriedStep<T(!new)>(front: seq<Event>, e: Event, id: string, value: Event -> Option<T>, v: Option<T>)
    ensures Carried(front + [e], id, value, v) <==>
            if e.workItem == Some(id) && value(e).Some? then value(e) == v else Carried(front, id, value, v)
  {
    var all, has := front + [e], (x: Event) => value(x).Some?;
    assert all[|front|] == e && forall j | 0 <= j < |front| :: all[j] == front[j];
    LastAppends(front, e, id, |front|, has);
    if v.Some? {
      if i :| LastOf(all, id, i, has) && value(all[i]) == v { LastAppends(front, e, id, i, has); }
      if i :| LastOf(front, id, i, has) && value(front[i]) == v { LastAppends(front, e, id, i, has); }
    }
  }

  datatype Field = ProviderField | ModelField | SessionField | ThreadField | TurnField | QueueField

  function FieldOf(x: Identities, f: Field): Option<string> {
    match f
    case ProviderField => x.provider
    case ModelField => x.model
    case SessionField => x.session
    case ThreadField => x.thread
    case TurnField => x.turn
    case QueueField => x.queue
  }

  // The identity that an event shows: an adapter event the ones it saw, a disposition those of its
  // execution, which has no queue.
  function Shows(e: Event, f: Field): Option<string> {
    if e.kind.Adapter? then FieldOf(e.kind.seen, f)
    else if e.kind.ProviderDispositionRecorded? && e.kind.execution.Some? then
      match f
      case ProviderField => Some(e.kind.execution.value.provider)
      case ModelField => Some(e.kind.execution.value.model)
      case SessionField => Some(e.kind.execution.value.session)
      case ThreadField => Some(e.kind.execution.value.thread)
      case TurnField => Some(e.kind.execution.value.turn)
      case QueueField => None
    else None
  }

  function CreatedAttempt(e: Event): Option<Option<string>> { if e.kind.AttemptCreated? then Some(e.attempt) else None }

  function AcceptedOutcome(e: Event): Option<Outcome> {
    if e.kind.TerminalAccepted? || e.kind.NotStartedAccepted? then Some(e.kind.accepted) else None
  }

  lemma KindCarries(item: Item, e: Event)
    ensures var after := UpdateItem(item, e);
            && after.activeAttempt == (if CreatedAttempt(e).Some? then CreatedAttempt(e).value else item.activeAttempt)
            && after.outcome == (if AcceptedOutcome(e).Some? then AcceptedOutcome(e) else item.outcome)
            && (after.resultAbsent <==> item.resultAbsent && AcceptedOutcome(e).None?)
            && after.lastSequence == Some(e.sequence) && after.lastDigest == Some(e.rawDigest)
  {
  }

  lemma KindShows(item: Item, e: Event, f: Field)
    ensures FieldOf(UpdateItem(item, e).identities, f) == if Shows(e, f).Some? then Shows(e, f) else FieldOf(item.identities, f)
  {
  }

  function SequenceOf(e: Event): Option<nat> { Some(e.sequence) }
  function DigestOf(e: Event): Option<string> { Some(e.rawDigest) }

  // The active attempt is that of the last AttemptCreated, the outcome that of the last accepted receipt,
  // which alone makes a result present, and sequence and digest are those of the last event.
  lemma {:induction false} FieldProvenance(packet: map<string, Work>, events: seq<Event>, id: string)
    requires id in packet
    ensures id in Fold(Start(packet), events).items
    ensures var item := Fold(Start(packet), events).items[id];
            && (Carried(events, id, CreatedAttempt, Some(item.activeAttempt)) || (item.activeAttempt.None? && Carried(events, id, CreatedAttempt, None)))
            && Carried(events, id, AcceptedOutcome, item.outcome) && (item.resultAbsent <==> item.outcome.None?)
            && Carried(events, id, SequenceOf, item.lastSequence) && Carried(events, id, DigestOf, item.lastDigest)
  {
    hide UpdateItem;
    if events != [] {
      var front, e := events[..|events| - 1], events[|events| - 1];
      assert events == front + [e];
      FieldProvenance(packet, front, id);
      ItemAfter(packet, front, e, id);
      var before, after := Fold(Start(packet), front).items[id], Fold(Start(packet), events).items[id];
      KindCarries(before, e);
      CarriedStep(front, e, id, CreatedAttempt, Some(after.activeAttempt));
      CarriedStep(front, e, id, CreatedAttempt, None);
      CarriedStep(front, e, id, AcceptedOutcome, after.outcome);
      CarriedStep(front, e, id, SequenceOf, after.lastSequence);
      CarriedStep(front, e, id, DigestOf, after.lastDigest);
    }
  }

  // Each identity is the last one shown.
  lemma {:induction false} IdentityProvenance(packet: map<string, Work>, events: seq<Event>, id: string, f: Field)
    requires id in packet
    ensures id in Fold(Start(packet), events).items
    ensures Carried(events, id, e => Shows(e, f), FieldOf(Fold(Start(packet), events).items[id].identities, f))
  {
    hide UpdateItem, Shows, FieldOf;
    if events == [] {
      NothingShown(packet, id, f);
    } else {
      var front, e := events[..|events| - 1], events[|events| - 1];
      assert events == front + [e];
      IdentityProvenance(packet, front, id, f);
      ItemAfter(packet, front, e, id);
      KindShows(Fold(Start(packet), front).items[id], e, f);
      CarriedStep(front, e, id, x => Shows(x, f), FieldOf(Fold(Start(packet), events).items[id].identities, f));
    }
  }

  lemma NothingShown(packet: map<string, Work>, id: string, f: Field)
    requires id in packet
    ensures id in Fold(Start(packet), []).items && FieldOf(Fold(Start(packet), []).items[id].identities, f).None?
  {
  }

  lemma CarriedUnique<T(!new)>(events: seq<Event>, id: string, value: Event -> Option<T>, v: Option<T>, w: Option<T>)
    requires Carried(events, id, value, v) && Carried(events, id, value, w)
    ensures v == w
  {
    var has := (e: Event) => value(e).Some?;
    if v.Some? && w.Some? {
      var i :| LastOf(events, id, i, has) && value(events[i]) == v;
      var j :| LastOf(events, id, j, has) && value(events[j]) == w;
      assert !(i < j) && !(j < i);
    }
  }

  // ---- questions ----

  function Asks(e: Event): Option<Question> { if e.kind.Adapter? then e.kind.question else None }

  predicate AsksAt(events: seq<Event>, id: string, i: int) { 0 <= i < |events| && events[i].workItem == Some(id) && Asks(events[i]).Some? }

  // The event at i is the first of the item to ask a question with this id.
  ghost predicate FirstAsk(events: seq<Event>, id: string, i: int) {
    AsksAt(events, id, i) && forall j | 0 <= j < i && AsksAt(events, id, j) :: Asks(events[j]).value.id != Asks(events[i]).value.id
  }

  lemma {:induction false} HasFirstAsk(events: seq<Event>, id: string, j: nat) returns (i: nat)
    requires AsksAt(events, id, j)
    ensures i <= j && FirstAsk(events, id, i) && Asks(events[i]).value.id == Asks(events[j]).value.id
    decreases j
  {
    if FirstAsk(events, id, j) {
      i := j;
    } else {
      var k :| 0 <= k < j && AsksAt(events, id, k) && Asks(events[k]).value.id == Asks(events[j]).value.id;
      i := HasFirstAsk(events, id, k);
    }
  }

  // `at` lists the first asks in journal order, and `asked` their questions.
  ghost predicate ListsQuestions(events: seq<Event>, id: string, asked: seq<Question>, at: seq<nat>) {
    && |at| == |asked|
    && (forall k | 0 <= k < |at| :: FirstAsk(events, id, at[k]) && Asks(events[at[k]]).value == asked[k])
    && (forall k, l | 0 <= k < l < |at| :: at[k] < at[l])
    && (forall i: nat | FirstAsk(events, id, i) :: i in at)
  }

  lemma FirstAskAppends(events: seq<Event>, e: Event, id: string, i: int)
    requires i < |events|
    ensures FirstAsk(events + [e], id, i) <==> FirstAsk(events, id, i)
  {
    var all := events + [e];
    forall j | 0 <= j < |events| ensures AsksAt(all, id, j) <==> AsksAt(events, id, j) { assert all[j] == events[j]; }
    forall j | 0 <= j < |events| ensures all[j] == events[j] {}
  }

  lemma AsksAgain(events: seq<Event>, id: string, asked: seq<Question>, at: seq<nat>, q: Question)
    requires ListsQuestions(events, id, asked, at)
    ensures (exists k | 0 <= k < |asked| :: asked[k].id == q.id) <==> (exists j :: AsksAt(events, id, j) && Asks(events[j]).value.id == q.id)
  {
    if k :| 0 <= k < |asked| && asked[k].id == q.id { assert AsksAt(events, id, at[k]); }
    if j :| AsksAt(events, id, j) && Asks(events[j]).value.id == q.id {
      var i := HasFirstAsk(events, id, j);
      var k :| 0 <= k < |at| && at[k] == i;
      assert asked[k].id == q.id;
    }
  }

  // An event that is no first ask leaves the list as it is.
  lemma ListKept(front: seq<Event>, e: Event, id: string, asked: seq<Question>, at: seq<nat>)
    requires ListsQuestions(front, id, asked, at) && !FirstAsk(front + [e], id, |front|)
    ensures ListsQuestions(front + [e], id, asked, at)
  {
    var all := front + [e];
    forall i | 0 <= i < |front| ensures all[i] == front[i] && (FirstAsk(all, id, i) <==> FirstAsk(front, id, i)) { FirstAskAppends(front, e, id, i); }
    forall i: nat | FirstAsk(all, id, i) ensures i in at { assert i < |all|; }
    forall k | 0 <= k < |at| ensures FirstAsk(all, id, at[k]) && Asks(all[at[k]]).value == asked[k] { assert FirstAsk(front, id, at[k]); }
  }

  // A first ask is added at the end.
  lemma ListGrows(front: seq<Event>, e: Event, id: string, asked: seq<Question>, at: seq<nat>)
    requires ListsQuestions(front, id, asked, at) && FirstAsk(front + [e], id, |front|)
    ensures ListsQuestions(front + [e], id, asked + [Asks(e).value], at + [|front|])
  {
    var all, now, questions := front + [e], at + [|front|], asked + [Asks(e).value];
    assert all[|front|] == e;
    forall i | 0 <= i < |front| ensures all[i] == front[i] && (FirstAsk(all, id, i) <==> FirstAsk(front, id, i)) { FirstAskAppends(front, e, id, i); }
    forall i: nat | FirstAsk(all, id, i) ensures i in now {
      if i < |front| { assert i in at; } else { assert now[|at|] == i; }
    }
    forall k | 0 <= k < |now| ensures FirstAsk(all, id, now[k]) && Asks(all[now[k]]).value == questions[k] {
      if k < |at| { assert FirstAsk(front, id, at[k]); }
    }
    forall k, l | 0 <= k < l < |now| ensures now[k] < now[l] { assert FirstAsk(front, id, at[k]); }
  }

  lemma FirstIffNew(front: seq<Event>, e: Event, id: string, asked: seq<Question>, at: seq<nat>)
    requires ListsQuestions(front, id, asked, at) && e.workItem == Some(id) && Asks(e).Some?
    ensures FirstAsk(front + [e], id, |front|) <==> !exists k | 0 <= k < |asked| :: asked[k].id == Asks(e).value.id
  {
    hide ListsQuestions;
    var all := front + [e];
    AsksAgain(front, id, asked, at, Asks(e).value);
    assert all[|front|] == e && AsksAt(all, id, |front|);
    forall j | 0 <= j < |front| ensures all[j] == front[j] && (AsksAt(all, id, j) <==> AsksAt(front, id, j)) {}
    if !FirstAsk(all, id, |front|) {
      var j :| 0 <= j < |front| && AsksAt(all, id, j) && Asks(all[j]).value.id == Asks(e).value.id;
      assert AsksAt(front, id, j);
    }
  }

  lemma AskStep(front: seq<Event>, e: Event, id: string, asked: seq<Question>, at: seq<nat>) returns (now: seq<nat>)
    requires ListsQuestions(front, id, asked, at)
    ensures ListsQuestions(front + [e], id, if e.workItem == Some(id) then Ask(asked, Asks(e)) else asked, now)
  {
    hide ListsQuestions;
    now := at;
    if e.workItem == Some(id) && Asks(e).Some? {
      hide FirstAsk;
      FirstIffNew(front, e, id, asked, at);
      if FirstAsk(front + [e], id, |front|) {
        ListGrows(front, e, id, asked, at);
        now := at + [|front|];
      } else {
        ListKept(front, e, id, asked, at);
      }
    } else {
      assert (front + [e])[|front|] == e && !FirstAsk(front + [e], id, |front|);
      ListKept(front, e, id, asked, at);
    }
  }

  lemma KindAsks(item: Item, e: Event)
    ensures UpdateItem(item, e).questions == Ask(item.questions, Asks(e))
  {
  }

  // The questions of an item are the first of each id, in journal order.
  lemma {:induction false} QuestionProvenance(packet: map<string, Work>, events: seq<Event>, id: string) returns (at: seq<nat>)
    requires id in packet
    ensures id in Fold(Start(packet), events).items && ListsQuestions(events, id, Fold(Start(packet), events).items[id].questions, at)
  {
    hide UpdateItem, Ask;
    if events == [] {
      at := [];
    } else {
      var front, e := events[..|events| - 1], events[|events| - 1];
      assert events == front + [e];
      var before := QuestionProvenance(packet, front, id);
      ItemAfter(packet, front, e, id);
      KindAsks(Fold(Start(packet), front).items[id], e);
      at := AskStep(front, e, id, Fold(Start(packet), front).items[id].questions, before);
    }
  }

  // ---- closing ----

  ghost predicate LastClosing(known: set<string>, events: seq<Event>, i: int) {
    0 <= i < |events| && Closes(known, events[i]) && forall j | i < j < |events| :: !Closes(known, events[j])
  }

  // The run is closed with the digest of its last effective closing event.
  lemma {:induction false} ClosedProvenance(packet: map<string, Work>, events: seq<Event>, digest: string)
    ensures Fold(Start(packet), events).closed == Some(digest) <==>
            exists i :: LastClosing(packet.Keys, events, i) && events[i].kind.finalDigest == digest
  {
    if events != [] {
      var front, e := events[..|events| - 1], events[|events| - 1];
      assert events == front + [e];
      ClosedProvenance(packet, front, digest);
      FoldAppend(Start(packet), front, e);
      FoldKeepsItems(Start(packet), front);
      if Closes(packet.Keys, e) {
        assert LastClosing(packet.Keys, events, |front|);
      } else {
        if i :| LastClosing(packet.Keys, front, i) && front[i].kind.finalDigest == digest {
          assert LastClosing(packet.Keys, events, i);
        }
        if i :| LastClosing(packet.Keys, events, i) && events[i].kind.finalDigest == digest {
          assert LastClosing(packet.Keys, front, i);
        }
      }
    }
  }

  // ---- readiness, said of the journal ----

  ghost predicate Done(events: seq<Event>, id: string) {
    JournalState(events, id, TerminalReceiptAccepted) || JournalState(events, id, NotStarted)
  }

  // No attempt was created, or the last one created has no id.
  ghost predicate NoAttempt(events: seq<Event>, id: string) {
    Carried(events, id, CreatedAttempt, None) || Carried(events, id, CreatedAttempt, Some(None))
  }

  ghost predicate Untouched(events: seq<Event>, id: string) {
    NoAttempt(events, id) && !Done(events, id) && !JournalState(events, id, TerminalReceiptRefused)
    && !JournalState(events, id, IndeterminateMechanismState)
  }

  // The event takes key k for its item and attempt.
  predicate Takes(e: Event, k: string) {
    e.attempt.Some? && ((e.kind.AttemptCreated? && k in e.kind.keys) || (e.kind.ProviderResourcesReacquired? && k in e.kind.keys))
  }

  // The event gives up what the item holds, or what one of its attempts holds.
  predicate Frees(e: Event, item: string, attempt: string) {
    e.workItem == Some(item) && (e.kind.ResourcesReleased? || (e.kind.ProviderResourcesReleased? && e.attempt == Some(attempt)))
  }

  ghost predicate TakenAt(known: set<string>, events: seq<Event>, i: int, k: string) {
    && 0 <= i < |events| && events[i].workItem.Some? && events[i].workItem.value in known && Takes(events[i], k)
    && forall j | i < j < |events| && events[j].workItem.Some? && events[j].workItem.value in known ::
         !Takes(events[j], k) && !Frees(events[j], events[i].workItem.value, events[i].attempt.value)
  }

  lemma TakenIsOrigin(known: set<string>, events: seq<Event>, i: int, k: string)
    ensures TakenAt(known, events, i, k) <==> Origin(known, events, i, k)
  {
  }

  // A key is held by an item and attempt exactly when they took it last and neither the item nor that
  // attempt gave it up since.
  lemma ClaimFromJournal(packet: map<string, Work>, events: seq<Event>, k: string, item: string, attempt: string)
    ensures Held(Fold(Start(packet), events).claims, k) == Some(Claim(item, attempt)) <==>
            exists i :: TakenAt(packet.Keys, events, i, k) && events[i].workItem == Some(item) && events[i].attempt == Some(attempt)
  {
    hide Fold;
    assert Start(packet).items.Keys == packet.Keys;
    ClaimProvenance(Start(packet), events, k, Claim(item, attempt));
    if i :| Origin(packet.Keys, events, i, k) && ClaimOf(events[i]) == Claim(item, attempt) {
      TakenIsOrigin(packet.Keys, events, i, k);
      OriginClaims(packet.Keys, events, i, k);
      assert events[i].workItem == Some(item) && events[i].attempt == Some(attempt);
    }
    if i :| TakenAt(packet.Keys, events, i, k) && events[i].workItem == Some(item) && events[i].attempt == Some(attempt) {
      TakenIsOrigin(packet.Keys, events, i, k);
    }
  }

  ghost predicate HeldKey(known: set<string>, events: seq<Event>, k: string) { exists i :: TakenAt(known, events, i, k) }

  lemma AttemptNone(packet: map<string, Work>, events: seq<Event>, id: string)
    requires id in packet
    ensures id in Fold(Start(packet), events).items && (Fold(Start(packet), events).items[id].activeAttempt.None? <==> NoAttempt(events, id))
  {
    hide Fold, Carried;
    FieldProvenance(packet, events, id);
    var a := Fold(Start(packet), events).items[id].activeAttempt;
    if NoAttempt(events, id) && a.Some? {
      if Carried(events, id, CreatedAttempt, None) { CarriedUnique(events, id, CreatedAttempt, None, Some(a)); }
      else { CarriedUnique(events, id, CreatedAttempt, Some(None), Some(a)); }
    }
  }

  lemma UntouchedIff(packet: map<string, Work>, events: seq<Event>, id: string)
    requires id in packet
    ensures id in Fold(Start(packet), events).items
    ensures !Settled(Fold(Start(packet), events).items[id]) <==> Untouched(events, id)
    ensures Terminal(Fold(Start(packet), events).items[id].state) <==> Done(events, id)
  {
    hide Fold, JournalState, NoAttempt;
    AttemptNone(packet, events, id);
    StateProvenance(packet, events, id, TerminalReceiptAccepted);
    StateProvenance(packet, events, id, NotStarted);
    StateProvenance(packet, events, id, TerminalReceiptRefused);
    StateProvenance(packet, events, id, IndeterminateMechanismState);
  }

  lemma HeldIff(packet: map<string, Work>, events: seq<Event>, k: string)
    ensures k in Fold(Start(packet), events).claims <==> HeldKey(packet.Keys, events, k)
  {
    hide Fold, TakenAt;
    var claims := Fold(Start(packet), events).claims;
    if k in claims { ClaimFromJournal(packet, events, k, claims[k].workItem, claims[k].attempt); }
    if i :| TakenAt(packet.Keys, events, i, k) {
      TakenClaims(packet.Keys, events, i, k);
      ClaimFromJournal(packet, events, k, events[i].workItem.value, events[i].attempt.value);
    }
  }

  lemma TakenClaims(known: set<string>, events: seq<Event>, i: int, k: string)
    requires TakenAt(known, events, i, k)
    ensures 0 <= i < |events| && events[i].workItem.Some? && events[i].attempt.Some?
  {
  }

  lemma OriginClaims(known: set<string>, events: seq<Event>, i: int, k: string)
    requires Origin(known, events, i, k)
    ensures 0 <= i < |events| && events[i].workItem.Some? && events[i].attempt.Some?
  {
  }

  // What an item is shown as, for every journal: its own state once an attempt, a terminal receipt, a
  // refusal or an indeterminate mechanism has settled it, and otherwise whether it waits for its
  // dependencies, for a key, or is ready.
  lemma ShownFromJournal(packet: map<string, Work>, events: seq<Event>, id: string, s: ItemState)
    requires id in packet
    ensures var shown := Project(Fold(Start(packet), events)).items;
            var waits := exists d :: d in packet[id].dependencies && !(d in packet && Done(events, d));
            var held := exists k :: k in packet[id].lockKeys && HeldKey(packet.Keys, events, k);
            && id in shown
            && (shown[id].state == s <==>
                  if !Untouched(events, id) then JournalState(events, id, s)
                  else s == if waits then WaitingDependencies else if held then WaitingResource else ReadyEntryEvaluation)
            && shown[id].dependencyTerminality.Keys == (set d | d in packet[id].dependencies)
            && (forall d | d in packet[id].dependencies :: shown[id].dependencyTerminality[d] <==> d in packet && Done(events, d))
  {
    hide Fold, JournalState, Untouched, Done, HeldKey, TerminalItems, ProjectItem, Settled;
    var w := Fold(Start(packet), events);
    FoldKeepsItems(Start(packet), events);
    assert w.items.Keys == packet.Keys;
    UntouchedIff(packet, events, id);
    StateProvenance(packet, events, id, s);
    ReplayKeepsWork(packet, events, id);
    ShownItem(w.items[id], TerminalItems(w.items), w.claims.Keys);
    forall d ensures d in TerminalItems(w.items) <==> d in packet && Done(events, d) { DoneIff(packet, events, d); }
    forall k ensures k in w.claims.Keys <==> HeldKey(packet.Keys, events, k) { HeldIff(packet, events, k); }
  }

  lemma DoneIff(packet: map<string, Work>, events: seq<Event>, d: string)
    ensures d in TerminalItems(Fold(Start(packet), events).items) <==> d in packet && Done(events, d)
  {
    hide Fold, Done, Untouched;
    FoldKeepsItems(Start(packet), events);
    assert Start(packet).items.Keys == packet.Keys;
    if d in packet { UntouchedIff(packet, events, d); }
  }

  lemma ShownItem(item: Item, terminal: set<string>, held: set<string>)
    ensures var shown := ProjectItem(item, terminal, held);
            && shown.state == (if Settled(item) then item.state
                               else if exists d :: d in item.dependencies && d !in terminal then WaitingDependencies
                               else if exists k :: k in item.lockKeys && k in held then WaitingResource
                               else ReadyEntryEvaluation)
            && shown.dependencyTerminality.Keys == (set d | d in item.dependencies)
            && forall d | d in item.dependencies :: shown.dependencyTerminality[d] <==> d in terminal
  {
  }
}
