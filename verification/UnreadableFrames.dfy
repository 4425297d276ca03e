// The exceptions to unique reading do occur: frames without any admissible record, in states
// that accepted evidence reaches.
module UnreadableFrames {
  import opened Wire
  import opened Evidence
  import opened Replay
  import opened UniqueReading
  import opened Rounds

  // `rec` records the frame of a call, next after n accepted records.
  predicate RecordsCall(rec: Record, n: int, c: Capture, name: string, p: Fields) {
    rec.ordinal == Some(n) && rec.lane == Some(NotificationLane) && rec.raw == Some(Raw(WireBytes, c.bytes, Some(Call(name, p))))
  }

  // After one accepted request, a first response with an id outside the owner alphabet, such as a
  // single space, has no admissible record at all.
  lemma ForeignResponseHasNoRecord(b: Binding, response: string, c: Capture, rec: Record)
    requires Usable(b) && ValidCapture(c) && BoundedId(response) && !IsId(response)
    requires RecordsCall(rec, 1, c, CREATED, StepParams(b, b.requestOccurrence, response, c))
    ensures Run(b, Requested(b, b.requestOccurrence, c), Silent(1)) == Some(AfterRequest(b.requestOccurrence, c))
    ensures Step(b, AfterRequest(b.requestOccurrence, c), rec, None).None?
  {
    RequestRuns(b, b.requestOccurrence, c);
    FirstResponseRefused(b, b.requestOccurrence, response, c, rec);
  }

  // After one accepted request that the disposition does not name, no first response has an
  // admissible record, whatever its id.
  lemma OtherRequestHasNoRecord(b: Binding, x: string, response: string, c: Capture, rec: Record)
    requires BindingIds(b) && ValidCapture(c) && BoundedId(x) && x != b.requestOccurrence && BoundedId(response)
    requires RecordsCall(rec, 1, c, CREATED, StepParams(b, x, response, c))
    ensures Run(b, Requested(b, x, c), Silent(1)) == Some(AfterRequest(x, c))
    ensures Step(b, AfterRequest(x, c), rec, None).None?
  {
    RequestRuns(b, x, c);
    FirstResponseRefused(b, x, response, c, rec);
  }

  lemma FirstResponseRefused(b: Binding, x: string, response: string, c: Capture, rec: Record)
    requires BindingIds(b) && ValidCapture(c) && BoundedId(x) && BoundedId(response)
    requires x != b.requestOccurrence || !IsId(response)
    requires RecordsCall(rec, 1, c, CREATED, StepParams(b, x, response, c))
    ensures Step(b, AfterRequest(x, c), rec, None).None?
  {
    hide StepParams, StepDetail, Reading, Step;
    StepFaultless(b, x, response, c);
    AdmissibleIffReading(b, AfterRequest(x, c), rec, rec.raw.value, rec.raw.value.wire.value, CREATED);
  }

  // After a completed round, another completion whose response id is not a string has no
  // admissible record at all.
  lemma NullCompletionHasNoRecord(b: Binding, response: string, c: Capture, rec: Record)
    requires Usable(b) && IsId(response) && ValidCapture(c) && RecordsCall(rec, 3, c, COMPLETED, CompletionParams(b, Null))
    ensures Run(b, Completed(b, response, c), Silent(3)) == Some(AfterCompletion(b, response, c))
    ensures Step(b, AfterCompletion(b, response, c), rec, None).None?
  {
    CompletedRuns(b, response, c);
    NullCompletionRefused(b, response, c, rec);
  }

  lemma NullCompletionRefused(b: Binding, response: string, c: Capture, rec: Record)
    requires Usable(b) && IsId(response) && ValidCapture(c) && RecordsCall(rec, 3, c, COMPLETED, CompletionParams(b, Null))
    ensures Step(b, AfterCompletion(b, response, c), rec, None).None?
  {
    hide Step;
    assert CompletionParams(b, Null).Keys == COMPLETION_FIELDS;
    AdmissibleIffReading(b, AfterCompletion(b, response, c), rec, rec.raw.value, rec.raw.value.wire.value, COMPLETED);
  }
}
