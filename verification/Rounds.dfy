// Frames and records of one provider round, for arbitrary identities, times and sizes, and the
// proof that the replay accepts them.
module Rounds {
  import opened Wire
  import opened Evidence
  import opened Replay
  import opened UniqueReading

  predicate Usable(b: Binding) { BindingIds(b) && IsId(b.requestOccurrence) }

  // When and how large a round's frames are, and what a refusal says.
  datatype Capture = Capture(bytes: nat, startedAt: int, observedAt: int, retry: Option<int>, diagnostic: string)

  predicate ValidCapture(c: Capture) {
    1 <= c.bytes <= MAXIMUM_EVIDENCE_BYTES && SafeInt(c.startedAt) && SafeInt(c.observedAt) && c.startedAt <= c.observedAt
    && (c.retry.Some? ==> U53(c.retry.value)) && |c.diagnostic| <= 4096
  }

  function Call(name: string, p: Fields): Frame { Obj(map[KMethod := Str(name), KParams := Obj(p)]) }

  function Notify(c: Capture, e: Evidence, name: string, ordinal: int, p: Fields): Record {
    Record(e, name, Some(ordinal), Some(NotificationLane), Some(Raw(WireBytes, c.bytes, Some(Call(name, p)))))
  }

  // ---- frames; x is the occurrence id of the request ----

  const STARTED := "providerRequest/started"
  const CREATED := "rawResponse/started"
  const COMPLETED := "rawResponse/completed"
  const REFUSED := "providerAdmission/refused"

  function StartParams(b: Binding, x: string, c: Capture): Fields {
    map[KThreadId := Str(b.thread), KTurnId := Str(b.turn), KProvider := Str(b.provider), KModel := Str(b.model),
        KRequestOccurrenceId := Str(x), KSamplingOrdinal := Int(0), KRequestOrder := Int(0), KStartedAtMs := Int(c.startedAt)]
  }

  function StepParams(b: Binding, x: string, response: string, c: Capture): Fields {
    map[KThreadId := Str(b.thread), KTurnId := Str(b.turn), KProvider := Str(b.provider), KModel := Str(b.model),
        KRequestOccurrenceId := Str(x), KSamplingOrdinal := Int(0), KRequestOrder := Int(0),
        KResponseId := Str(response), KObservedAtMs := Int(c.observedAt)]
  }

  function CompletionParams(b: Binding, response: Frame): Fields {
    map[KThreadId := Str(b.thread), KTurnId := Str(b.turn), KResponseId := response, KUsage := Null]
  }

  function RefusalParams(b: Binding, c: Capture): Fields {
    map[KThreadId := Str(b.thread), KTurnId := Str(b.turn), KProvider := Str(b.provider), KModel := Str(b.model),
        KRequestOccurrenceId := Str(b.requestOccurrence), KSamplingOrdinal := Int(0), KRequestOrder := Int(0),
        KResponseCreated := Bool(false), KWillRetry := Bool(false), KRefusalKind := Str("modelAtCapacity"),
        KCodexErrorInfo := Str("serverOverloaded"), KRetryAfterMs := if c.retry.Some? then Int(c.retry.value) else Null,
        KDiagnostic := Str(c.diagnostic), KObservedAtMs := Int(c.observedAt)]
  }

  // ---- states ----

  function AfterRequest(x: string, c: Capture): State { INIT.(next := 1, pending := Some(Pending(x, 0, 0, c.startedAt))) }

  function AfterStep(b: Binding, response: string, c: Capture): State {
    INIT.(next := 2, completedRequests := {b.requestOccurrence}, lastBoundaryMs := Some(c.observedAt),
          execution := Some(Identity(b.provider, b.model, b.session, b.thread, b.turn, response)), openResponse := Some(response))
  }

  function AfterCompletion(b: Binding, response: string, c: Capture): State {
    AfterStep(b, response, c).(next := 3, openResponse := None, completedResponses := {response})
  }

  function AfterRefusal(b: Binding, c: Capture): State {
    INIT.(next := 2, completedRequests := {b.requestOccurrence}, lastBoundaryMs := Some(c.observedAt),
          refusal := Some(Refusal(b.requestOccurrence, c.retry, c.observedAt)))
  }

  // ---- records ----

  function RequestRecord(b: Binding, x: string, c: Capture): Record {
    Notify(c, RequestOf(StartParams(b, x, c)), STARTED, 0, StartParams(b, x, c))
  }

  function StepRecord(b: Binding, response: string, c: Capture): Record {
    var p := StepParams(b, b.requestOccurrence, response, c);
    Notify(c, StepOf(b, AfterRequest(b.requestOccurrence, c), p), CREATED, 1, p)
  }

  function CompletionRecord(b: Binding, response: string, c: Capture): Record {
    Notify(c, ResponseCompleted(response), COMPLETED, 2, CompletionParams(b, Str(response)))
  }

  function RefusalRecord(b: Binding, c: Capture): Record { Notify(c, RefusalOf(RefusalParams(b, c)), REFUSED, 1, RefusalParams(b, c)) }

  // ---- requests ----

  lemma RequestFaultless(b: Binding, x: string, c: Capture)
    requires BindingIds(b) && BoundedId(x) && ValidCapture(c)
    ensures RequestDetail(b, INIT, StartParams(b, x, c)).None?
    ensures RequestOf(StartParams(b, x, c)) == RequestStarted(x, 0, 0, c.startedAt)
  {
    assert StartParams(b, x, c).Keys == REQUEST_FIELDS;
  }

  lemma RequestAccepted(b: Binding, x: string, c: Capture)
    requires BindingIds(b) && BoundedId(x) && ValidCapture(c)
    ensures Step(b, INIT, RequestRecord(b, x, c), None) == Some(AfterRequest(x, c))
  {
    hide StartParams, RequestDetail, RequestOf;
    RequestFaultless(b, x, c);
    var rec := RequestRecord(b, x, c);
    AdmissibleIffReading(b, INIT, rec, rec.raw.value, rec.raw.value.wire.value, STARTED);
    assert ApplyRequest(INIT, rec.evidence).Some?;
  }

  // ---- steps and completions ----

  lemma StepFaultless(b: Binding, x: string, response: string, c: Capture)
    requires BindingIds(b) && BoundedId(x) && BoundedId(response) && ValidCapture(c)
    ensures StepDetail(b, AfterRequest(x, c), StepParams(b, x, response, c)).None?
    ensures Text(StepParams(b, x, response, c), KResponseId) == response
  {
    assert StepParams(b, x, response, c).Keys == STEP_FIELDS;
  }

  lemma StepEvidence(b: Binding, response: string, c: Capture)
    requires ValidCapture(c)
    ensures StepRecord(b, response, c).evidence == ExecutionStep(
              Identity(b.provider, b.model, b.session, b.thread, b.turn, response),
              StepIdentity(b.provider, b.model, b.thread, b.turn, b.requestOccurrence, 0, 0, response), true, c.observedAt)
  {
  }

  lemma StepAccepted(b: Binding, response: string, c: Capture)
    requires Usable(b) && IsId(response) && ValidCapture(c)
    ensures Step(b, AfterRequest(b.requestOccurrence, c), StepRecord(b, response, c), None) == Some(AfterStep(b, response, c))
  {
    hide StepParams, StepDetail, StepOf;
    StepFaultless(b, b.requestOccurrence, response, c);
    StepEvidence(b, response, c);
    var rec := StepRecord(b, response, c);
    AdmissibleIffReading(b, AfterRequest(b.requestOccurrence, c), rec, rec.raw.value, rec.raw.value.wire.value, CREATED);
    assert {} + {b.requestOccurrence} == {b.requestOccurrence};
  }

  lemma CompletionFaultless(b: Binding, response: string, c: Capture)
    ensures CompletionDetail(b, AfterStep(b, response, c), CompletionParams(b, Str(response))).None?
    ensures StrAt(CompletionParams(b, Str(response)), KResponseId) == Some(response)
  {
    assert CompletionParams(b, Str(response)).Keys == COMPLETION_FIELDS;
  }

  lemma CompletionAccepted(b: Binding, response: string, c: Capture)
    requires Usable(b) && IsId(response) && ValidCapture(c)
    ensures Step(b, AfterStep(b, response, c), CompletionRecord(b, response, c), None) == Some(AfterCompletion(b, response, c))
  {
    hide CompletionParams, CompletionDetail;
    CompletionFaultless(b, response, c);
    var rec := CompletionRecord(b, response, c);
    AdmissibleIffReading(b, AfterStep(b, response, c), rec, rec.raw.value, rec.raw.value.wire.value, COMPLETED);
    assert {} + {response} == {response};
  }

  // ---- refusals ----

  lemma RefusalIdentities(b: Binding, c: Capture)
    ensures var p := RefusalParams(b, c);
            && CommonMatches(b, p)
            && StrAt(p, KRequestOccurrenceId) == Some(b.requestOccurrence)
            && IntAt(p, KSamplingOrdinal) == Some(0) && IntAt(p, KRequestOrder) == Some(0)
  {
  }

  lemma RefusalFields(b: Binding, c: Capture)
    ensures RefusalParams(b, c).Keys == REFUSAL_FIELDS
  {
  }

  lemma RefusalContents(b: Binding, c: Capture)
    requires ValidCapture(c)
    ensures var p := RefusalParams(b, c);
            && Get(p, KResponseCreated) == Some(Bool(false)) && Get(p, KWillRetry) == Some(Bool(false))
            && StrAt(p, KRefusalKind) == Some("modelAtCapacity") && StrAt(p, KCodexErrorInfo) == Some("serverOverloaded")
            && Get(p, KRetryAfterMs) == Some(if c.retry.Some? then Int(c.retry.value) else Null) && IntAt(p, KRetryAfterMs) == c.retry
            && StrAt(p, KDiagnostic) == Some(c.diagnostic) && IntAt(p, KObservedAtMs) == Some(c.observedAt)
  {
  }

  lemma BoundaryFaultless(b: Binding, c: Capture)
    requires Usable(b) && ValidCapture(c)
    ensures BoundaryDetail(b, AfterRequest(b.requestOccurrence, c), RefusalParams(b, c), REFUSAL_FIELDS).None?
  {
    hide RefusalParams, StrAt, IntAt;
    RefusalIdentities(b, c);
    RefusalFields(b, c);
  }

  lemma RefusalFaultless(b: Binding, c: Capture)
    requires Usable(b) && ValidCapture(c)
    ensures RefusalDetail(b, AfterRequest(b.requestOccurrence, c), RefusalParams(b, c)).None?
    ensures RefusalOf(RefusalParams(b, c)) == AdmissionRefused(b.requestOccurrence, 0, 0, c.retry, c.diagnostic, c.observedAt)
  {
    hide RefusalParams, BoundaryDetail, StrAt, IntAt, Get;
    RefusalIdentities(b, c);
    RefusalContents(b, c);
    BoundaryFaultless(b, c);
  }

  lemma RefusalAccepted(b: Binding, c: Capture)
    requires Usable(b) && ValidCapture(c)
    ensures Step(b, AfterRequest(b.requestOccurrence, c), RefusalRecord(b, c), None) == Some(AfterRefusal(b, c))
  {
    hide RefusalParams, RefusalDetail, RefusalOf;
    RefusalFaultless(b, c);
    var rec := RefusalRecord(b, c);
    AdmissibleIffReading(b, AfterRequest(b.requestOccurrence, c), rec, rec.raw.value, rec.raw.value.wire.value, REFUSED);
    assert {} + {b.requestOccurrence} == {b.requestOccurrence};
  }

  // ---- runs ----

  lemma RunAppend(b: Binding, records: seq<Record>, echo: seq<Option<Detail>>, rec: Record, verdict: Option<Detail>)
    requires |records| == |echo| && Run(b, records, echo).Some?
    ensures Run(b, records + [rec], echo + [verdict]) == Step(b, Run(b, records, echo).value, rec, verdict)
  {
    assert (records + [rec])[..|records|] == records && (echo + [verdict])[..|records|] == echo;
  }

  // No echo verdict on any of n records.
  function Silent(n: nat): seq<Option<Detail>> { seq(n, i => None) }

  lemma RunsOn(b: Binding, records: seq<Record>, rec: Record, s: State, t: State)
    requires Run(b, records, Silent(|records|)) == Some(s) && Step(b, s, rec, None) == Some(t)
    ensures Run(b, records + [rec], Silent(|records| + 1)) == Some(t)
  {
    RunAppend(b, records, Silent(|records|), rec, None);
    assert Silent(|records|) + [None] == Silent(|records| + 1);
  }

  function Requested(b: Binding, x: string, c: Capture): seq<Record> { [] + [RequestRecord(b, x, c)] }

  function Refused(b: Binding, c: Capture): seq<Record> { Requested(b, b.requestOccurrence, c) + [RefusalRecord(b, c)] }

  function Created(b: Binding, response: string, c: Capture): seq<Record> {
    Requested(b, b.requestOccurrence, c) + [StepRecord(b, response, c)]
  }

  function Completed(b: Binding, response: string, c: Capture): seq<Record> {
    Created(b, response, c) + [CompletionRecord(b, response, c)]
  }

  lemma RequestRuns(b: Binding, x: string, c: Capture)
    requires BindingIds(b) && BoundedId(x) && ValidCapture(c)
    ensures Run(b, Requested(b, x, c), Silent(1)) == Some(AfterRequest(x, c))
  {
    hide Step;
    RequestAccepted(b, x, c);
    RunsOn(b, [], RequestRecord(b, x, c), INIT, AfterRequest(x, c));
  }

  lemma RefusalRuns(b: Binding, c: Capture)
    requires Usable(b) && ValidCapture(c)
    ensures Run(b, Refused(b, c), Silent(2)) == Some(AfterRefusal(b, c))
  {
    hide Step, Run;
    var x := b.requestOccurrence;
    RequestRuns(b, x, c);
    RefusalAccepted(b, c);
    RunsOn(b, Requested(b, x, c), RefusalRecord(b, c), AfterRequest(x, c), AfterRefusal(b, c));
  }

  lemma CreatedRuns(b: Binding, response: string, c: Capture)
    requires Usable(b) && IsId(response) && ValidCapture(c)
    ensures Run(b, Created(b, response, c), Silent(2)) == Some(AfterStep(b, response, c))
  {
    hide Step, Run;
    var x := b.requestOccurrence;
    RequestRuns(b, x, c);
    StepAccepted(b, response, c);
    RunsOn(b, Requested(b, x, c), StepRecord(b, response, c), AfterRequest(x, c), AfterStep(b, response, c));
  }

  lemma CompletedRuns(b: Binding, response: string, c: Capture)
    requires Usable(b) && IsId(response) && ValidCapture(c)
    ensures Run(b, Completed(b, response, c), Silent(3)) == Some(AfterCompletion(b, response, c))
  {
    hide Step, Run;
    CreatedRuns(b, response, c);
    CompletionAccepted(b, response, c);
    RunsOn(b, Created(b, response, c), CompletionRecord(b, response, c), AfterStep(b, response, c), AfterCompletion(b, response, c));
  }
}
