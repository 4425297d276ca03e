// What a replay without discrepancy says about acquisition order and the client lane.
module ReplayClosure {
  import opened Wire
  import opened Evidence
  import opened Replay

  lemma StepOrders(b: Binding, s: State, rec: Record, echo: Option<Detail>)
    requires Step(b, s, rec, echo).Some? && !Step(b, s, rec, echo).value.discrepancy
    ensures !s.discrepancy && !rec.evidence.Discrepancy? && !rec.evidence.AcquisitionCut?
    ensures rec.ordinal == Some(s.next) && Step(b, s, rec, echo).value.next == s.next + 1
  {
  }

  ghost predicate InOrder(records: seq<Record>) {
    forall i | 0 <= i < |records| :: records[i].ordinal == Some(i) && !records[i].evidence.Discrepancy?
  }

  lemma InOrderExtends(records: seq<Record>, rec: Record)
    requires InOrder(records) && rec.ordinal == Some(|records|) && !rec.evidence.Discrepancy?
    ensures InOrder(records + [rec])
  {
  }

  // Without a discrepancy, acquisition ordinals are 0, 1, 2, ... in record order.
  lemma {:induction false} RunOrders(b: Binding, records: seq<Record>, echo: seq<Option<Detail>>)
    requires |records| == |echo| && Run(b, records, echo).Some? && !Run(b, records, echo).value.discrepancy
    ensures Run(b, records, echo).value.next == |records|
    ensures InOrder(records)
  {
    if records != [] {
      var last := |records| - 1;
      StepOrders(b, Run(b, records[..last], echo[..last]).value, records[last], echo[last]);
      RunOrders(b, records[..last], echo[..last]);
      InOrderExtends(records[..last], records[last]);
      assert records == records[..last] + [records[last]];
    }
  }

  // ---- client requests and their responses ----

  predicate TouchesClient(e: Evidence, id: int) {
    (e.ClientRequestIssued? || e.ClientResponseRetained?) && e.requestId == id
  }

  // Nothing in records[lo..hi] issues or answers client request `id`.
  ghost predicate Quiet(records: seq<Record>, id: int, lo: int, hi: int) {
    forall k | lo <= k < hi && 0 <= k < |records| :: !TouchesClient(records[k].evidence, id)
  }

  // The response at j answers the request at i, with nothing about that id in between.
  ghost predicate Answers(records: seq<Record>, i: int, j: int) {
    && 0 <= i < j < |records|
    && records[i].evidence.ClientRequestIssued? && records[j].evidence.ClientResponseRetained?
    && records[i].evidence.requestId == records[j].evidence.requestId
    && records[i].evidence.requestMethod == records[j].evidence.requestMethod
    && records[i].evidence.paramsDigest == records[j].evidence.paramsDigest
    && Quiet(records, records[i].evidence.requestId, i + 1, j)
  }

  // The request at i is still outstanding in s.
  ghost predicate Outstanding(records: seq<Record>, s: State, i: int)
    requires 0 <= i < |records| && records[i].evidence.ClientRequestIssued?
  {
    var e := records[i].evidence;
    e.requestId in s.clientRequests && s.clientRequests[e.requestId] == (e.requestMethod, e.paramsDigest)
    && Quiet(records, e.requestId, i + 1, |records|)
  }

  ghost predicate Paired(records: seq<Record>, s: State) {
    && (forall i | 0 <= i < |records| && records[i].evidence.ClientRequestIssued? ::
          Outstanding(records, s, i) || exists j :: Answers(records, i, j))
    && (forall j | 0 <= j < |records| && records[j].evidence.ClientResponseRetained? :: exists i :: Answers(records, i, j))
    && (forall id | id in s.clientRequests ::
          exists i :: 0 <= i < |records| && records[i].evidence.ClientRequestIssued? && records[i].evidence.requestId == id
                      && Outstanding(records, s, i))
  }

  lemma AnswersExtend(records: seq<Record>, rec: Record, i: int, j: int)
    requires Answers(records, i, j)
    ensures Answers(records + [rec], i, j)
  {
  }

  lemma OutstandingExtends(records: seq<Record>, rec: Record, s: State, u: State, i: int)
    requires 0 <= i < |records| && records[i].evidence.ClientRequestIssued? && Outstanding(records, s, i)
    requires !TouchesClient(rec.evidence, records[i].evidence.requestId)
    requires records[i].evidence.requestId in u.clientRequests
    requires u.clientRequests[records[i].evidence.requestId] == s.clientRequests[records[i].evidence.requestId]
    ensures Outstanding(records + [rec], u, i)
  {
  }

  // The effect of one transition on the client lane.
  ghost predicate ClientMove(s: State, u: State, e: Evidence) {
    && (e.ClientRequestIssued? ==> e.requestId !in s.clientRequests
                                   && u.clientRequests == s.clientRequests[e.requestId := (e.requestMethod, e.paramsDigest)])
    && (e.ClientResponseRetained? ==> e.requestId in s.clientRequests
                                      && s.clientRequests[e.requestId] == (e.requestMethod, e.paramsDigest)
                                      && u.clientRequests == s.clientRequests - {e.requestId})
    && (!e.ClientRequestIssued? && !e.ClientResponseRetained? ==> u.clientRequests == s.clientRequests)
  }

  lemma ClientEffect(b: Binding, s: State, rec: Record)
    requires Transition(b, s, rec).Some?
    ensures ClientMove(s, Transition(b, s, rec).value, rec.evidence)
  {
  }

  lemma StepClientEffect(b: Binding, s: State, rec: Record, echo: Option<Detail>)
    requires Step(b, s, rec, echo).Some?
    ensures ClientMove(s, Step(b, s, rec, echo).value, rec.evidence)
  {
    hide Transition, RawReplay, WellFormed, OrdinalAdmits, LaneAdmits, NextOrdinal;
    ClientEffect(b, s, rec);
  }

  lemma RequestsStayPaired(records: seq<Record>, rec: Record, s: State, u: State, i: int)
    requires Paired(records, s) && ClientMove(s, u, rec.evidence)
    requires 0 <= i < |records| + 1 && (records + [rec])[i].evidence.ClientRequestIssued?
    ensures Outstanding(records + [rec], u, i) || exists j :: Answers(records + [rec], i, j)
  {
    var all := records + [rec];
    if i < |records| {
      assert all[i] == records[i];
      var id := records[i].evidence.requestId;
      if Outstanding(records, s, i) {
        if rec.evidence.ClientResponseRetained? && rec.evidence.requestId == id {
          assert Answers(all, i, |records|);
        } else {
          OutstandingExtends(records, rec, s, u, i);
        }
      } else {
        var j :| Answers(records, i, j);
        AnswersExtend(records, rec, i, j);
      }
    }
  }

  lemma ResponsesStayPaired(records: seq<Record>, rec: Record, s: State, u: State, j: int)
    requires Paired(records, s) && ClientMove(s, u, rec.evidence)
    requires 0 <= j < |records| + 1 && (records + [rec])[j].evidence.ClientResponseRetained?
    ensures exists i :: Answers(records + [rec], i, j)
  {
    if j < |records| {
      assert (records + [rec])[j] == records[j];
      var i :| Answers(records, i, j);
      AnswersExtend(records, rec, i, j);
    } else {
      var i :| 0 <= i < |records| && records[i].evidence.ClientRequestIssued?
               && records[i].evidence.requestId == rec.evidence.requestId && Outstanding(records, s, i);
      assert Answers(records + [rec], i, j);
    }
  }

  lemma OutstandingHasRequest(records: seq<Record>, rec: Record, s: State, u: State, id: int)
    requires Paired(records, s) && ClientMove(s, u, rec.evidence) && id in u.clientRequests
    ensures exists i :: 0 <= i < |records| + 1 && (records + [rec])[i].evidence.ClientRequestIssued?
                        && (records + [rec])[i].evidence.requestId == id && Outstanding(records + [rec], u, i)
  {
    if rec.evidence.ClientRequestIssued? && rec.evidence.requestId == id {
      assert Outstanding(records + [rec], u, |records|);
    } else {
      var i :| 0 <= i < |records| && records[i].evidence.ClientRequestIssued? && records[i].evidence.requestId == id
               && Outstanding(records, s, i);
      OutstandingExtends(records, rec, s, u, i);
      assert (records + [rec])[i] == records[i];
    }
  }

  lemma PairedExtends(records: seq<Record>, rec: Record, s: State, u: State)
    requires Paired(records, s) && ClientMove(s, u, rec.evidence)
    ensures Paired(records + [rec], u)
  {
    var all := records + [rec];
    forall i | 0 <= i < |all| && all[i].evidence.ClientRequestIssued?
      ensures Outstanding(all, u, i) || exists j :: Answers(all, i, j) {
      RequestsStayPaired(records, rec, s, u, i);
    }
    forall j | 0 <= j < |all| && all[j].evidence.ClientResponseRetained?
      ensures exists i :: Answers(all, i, j) {
      ResponsesStayPaired(records, rec, s, u, j);
    }
    forall id | id in u.clientRequests
      ensures exists i :: 0 <= i < |all| && all[i].evidence.ClientRequestIssued? && all[i].evidence.requestId == id && Outstanding(all, u, i) {
      OutstandingHasRequest(records, rec, s, u, id);
    }
  }

  // Every client response answers the latest request with its id, and every client request is
  // answered or still outstanding.
  lemma {:induction false} RunPairs(b: Binding, records: seq<Record>, echo: seq<Option<Detail>>)
    requires |records| == |echo| && Run(b, records, echo).Some?
    ensures Paired(records, Run(b, records, echo).value)
  {
    hide Step, Paired, ClientMove;
    if records != [] {
      var last := |records| - 1;
      var s := Run(b, records[..last], echo[..last]).value;
      RunPairs(b, records[..last], echo[..last]);
      StepClientEffect(b, s, records[last], echo[last]);
      PairedExtends(records[..last], records[last], s, Run(b, records, echo).value);
      assert records == records[..last] + [records[last]];
    } else {
      NothingPaired();
    }
  }

  lemma NothingPaired()
    ensures Paired([], INIT)
  {
  }
}
