// Records without a frame on a wire lane: what they may say, and nothing else.
module UnframedRecords {
  import opened Wire
  import opened Evidence
  import opened Replay

  predicate OrderedLoss(d: Detail) {
    d == OrdinalGap || d == EnvelopeShape || d == UnexpectedRequestMethod || d == ClientRequestMethodMissing || d == ClientResponseMethodMissing
  }

  predicate CustodyLoss(d: Detail) {
    d == WireBytesRequired || d == WireBytesExceedBound || d == WireBytesUnterminated || d == WireBytesDiffer || d.InvalidRetainedJson?
  }

  // Where a record without a wire frame may stand and which reason it may give.
  predicate LossFits(s: State, rec: Record) {
    rec.evidence.Discrepancy? &&
    match rec.lane
    case None => rec.ordinal.None? && rec.name == "adapter/acquisition" && rec.raw.None?
    case Some(LossLane) =>
      rec.ordinal.Some? && rec.name == "adapter/acquisition" && (rec.raw.Some? ==> rec.raw.value.representation == AcquiredFrameBytes)
    case Some(UnknownLane) => rec.ordinal.Some? && rec.raw.None? && rec.name == "adapter/acquisition" && rec.evidence.detail == UnknownEnvelopeKind
    case Some(lane) =>
      && rec.ordinal.Some? && rec.raw.None?
      && (if rec.name == "adapter/acquisition" then OrderedLoss(rec.evidence.detail)
          else (lane == NotificationLane || lane == ServerRequestLane) && CustodyLoss(rec.evidence.detail))
  }

  predicate Framed(rec: Record) { rec.raw.Some? && rec.lane != Some(LossLane) }

  // A record without a wire frame is accepted if and only if it is a well-formed discrepancy that fits its
  // place, is in order or names the gap, gives a reason and carries the execution known so far.
  lemma UnframedIff(b: Binding, s: State, rec: Record)
    requires !Framed(rec) && !rec.evidence.AcquisitionCut?
    ensures Step(b, s, rec, None).Some? <==>
            && WellFormed(rec) && LossFits(s, rec)
            && rec.evidence.detail != Free("") && rec.evidence.admitted == s.execution && (rec.evidence.resumeSameAttemptOnly <==> s.execution.Some?)
            && (rec.ordinal.Some? && rec.ordinal.value != s.next ==> rec.name == "adapter/acquisition" && rec.evidence.detail == OrdinalGap)
  {
    hide BoundedEvidence, RawBound, Classify, ApplyRequest, ApplyStep, ApplyRefusal, HasPrefix;
  }
}
