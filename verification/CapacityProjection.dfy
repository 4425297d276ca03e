// Matching of capacity journal events to retained admissions.
module CapacityProjection {
  import opened Wire
  import opened Capacity

  datatype CostClass = Cheap | Expensive

  // Adapter and model class that the execution profile gives a work item.
  datatype Execution = Execution(adapter: string, modelClass: string)

  // What packet, admission, profile and capacity requirement fix for the run.
  datatype Run = Run(
    requirementDigest: string, packetDigest: string, admissionDigest: string, profileDigest: string, runId: string,
    provider: string, policyId: string, classes: map<string, string>, executions: map<string, Execution>, costs: map<string, CostClass>)

  // The admission record of one attempt.
  datatype Binding = Binding(
    requirementDigest: string, packetDigest: string, admissionDigest: string, profileDigest: string, runId: string, workItem: string,
    adapter: string, provider: string, packetClass: string, profileClass: string, cost: CostClass, policyId: string,
    observationDigest: string, policyDigest: string, decisionDigest: string, evaluatedAt: int)

  // Identities of the evidence records: model family of the observation, policy id, the digests of
  // the three records, and the digests that the decision names.
  datatype Marks = Marks(
    family: Option<string>, policyId: string, observation: string, policy: string, decision: string,
    decisionObservation: string, decisionPolicy: string)

  // A retained admission with its decoded evidence and the lengths of its four exact records.
  datatype Retained = Retained(
    attempt: string, workItem: string, binding: Binding, marks: Marks, observation: Observation, policy: Policy, decision: Decision,
    recordedAt: int, lengths: seq<nat>)

  // A capacity_admission journal row; `record` is what it reopens to.
  datatype Row = Row(sequence: nat, attempt: Option<string>, record: Option<Retained>)

  datatype Attempt = Attempt(sequence: nat, admission: Retained)

  const MAXIMUM_RECORD_BYTES: nat := 1024 * 1024
  const MAXIMUM_HISTORY_BYTES: nat := 16 * 1024 * 1024

  function Total(lengths: seq<nat>): nat { if lengths == [] then 0 else Total(lengths[..|lengths| - 1]) + lengths[|lengths| - 1] }

  predicate RecordBounds(r: Retained) {
    |r.lengths| == 4 && forall i | 0 <= i < 4 :: 1 <= r.lengths[i] <= MAXIMUM_RECORD_BYTES
  }

  function Bytes(retained: seq<Retained>): nat {
    if retained == [] then 0 else Bytes(retained[..|retained| - 1]) + Total(retained[|retained| - 1].lengths)
  }

  // The admission record names this run, its work item and exactly the evidence beside it.
  predicate Bound(run: Run, r: Retained) {
    var b, m := r.binding, r.marks;
    && r.workItem in run.classes && r.workItem in run.executions
    && b.requirementDigest == run.requirementDigest && b.packetDigest == run.packetDigest && b.admissionDigest == run.admissionDigest
    && b.profileDigest == run.profileDigest && b.runId == run.runId && b.workItem == r.workItem
    && b.adapter == run.executions[r.workItem].adapter
    && b.provider == run.provider == r.observation.provider && b.provider == r.decision.provider
    && b.packetClass == run.classes[r.workItem] && b.profileClass == run.executions[r.workItem].modelClass
    && b.packetClass in run.costs && run.costs[b.packetClass] == b.cost
    && (m.family.Some? ==> m.family.value == b.packetClass)
    && b.policyId == run.policyId == m.policyId
    && b.observationDigest == m.observation == m.decisionObservation && b.policyDigest == m.policy == m.decisionPolicy
    && b.decisionDigest == m.decision && b.evaluatedAt == r.recordedAt
  }

  // The recorded decision is the exact replayed one, made inside the observation's life, and its
  // disposition admits the attempt's cost class.
  predicate Admits(run: Run, r: Retained) {
    && Bound(run, r)
    && Decide(r.observation, r.policy, r.decision.decisionAt) == Some(r.decision)
    && r.decision.decisionAt == r.recordedAt
    && r.observation.observedAt <= r.recordedAt < r.observation.expiresAt
    && !r.decision.admission.NoNewWork?
    && (r.decision.admission.CheapBoundedOnly? ==> r.binding.cost.Cheap?)
  }

  // ---- what the projection accepts, said without its maps ----

  ghost predicate Distinct(retained: seq<Retained>) {
    forall i, j | 0 <= i < j < |retained| :: retained[i].attempt != retained[j].attempt
  }

  ghost predicate Bounded(retained: seq<Retained>, requirementBytes: nat) {
    && (forall i | 0 <= i < |retained| :: RecordBounds(retained[i]))
    && requirementBytes + Bytes(retained) <= MAXIMUM_HISTORY_BYTES
  }

  // Row i names an attempt whose retained admission it reopens to.
  ghost predicate Matches(run: Run, retained: seq<Retained>, row: Row) {
    row.attempt.Some? && row.record.Some? && row.record.value in retained && row.record.value.attempt == row.attempt.value
    && Admits(run, row.record.value)
  }

  ghost predicate Aligned(run: Run, retained: seq<Retained>, rows: seq<Row>) {
    && |rows| == |retained|
    && (forall i | 0 <= i < |rows| :: Matches(run, retained, rows[i]))
    && (forall i, j | 0 <= i < j < |rows| :: rows[i].attempt != rows[j].attempt)
  }

  function AttemptOf(row: Row): Attempt
    requires row.record.Some?
  {
    Attempt(row.sequence, row.record.value)
  }

  // ---- the loops ----

  // The admissions by attempt that `left` still has to match.
  ghost predicate Index(left: map<string, Retained>, retained: seq<Retained>, used: set<string>) {
    && (forall a | a in left :: left[a] in retained && left[a].attempt == a && a !in used)
    && (forall i | 0 <= i < |retained| :: retained[i].attempt in left || retained[i].attempt in used)
  }

  lemma IndexFinds(left: map<string, Retained>, retained: seq<Retained>, used: set<string>, r: Retained)
    requires Index(left, retained, used) && Distinct(retained) && r in retained && r.attempt !in used
    ensures r.attempt in left && left[r.attempt] == r
  {
    var i :| 0 <= i < |retained| && retained[i] == r;
    var j :| 0 <= j < |retained| && retained[j] == left[r.attempt];
  }

  ghost predicate IndexInv(retained: seq<Retained>, i: nat, requirementBytes: nat, total: nat, left: map<string, Retained>)
    requires i <= |retained|
  {
    && Distinct(retained[..i]) && (i > 0 ==> Bounded(retained[..i], requirementBytes))
    && total == requirementBytes + Bytes(retained[..i])
    && Index(left, retained[..i], {}) && |left| == i
  }

  // First loop: bounds, aggregate size, and one admission per attempt.
  method IndexAdmissions(retained: seq<Retained>, requirementBytes: nat) returns (ok: bool, left: map<string, Retained>)
    ensures ok <==> Distinct(retained) && (retained != [] ==> Bounded(retained, requirementBytes))
    ensures ok ==> Index(left, retained, {}) && |left| == |retained|
  {
    hide Index, RecordBounds, Total;
    left := map[];
    var total: nat := requirementBytes;
    assert IndexInv(retained, 0, requirementBytes, total, left) by { EmptyIndex(retained); }
    for i := 0 to |retained|
      invariant IndexInv(retained, i, requirementBytes, total, left)
    {
      var r := retained[i];
      PrefixBounds(retained, i, requirementBytes);
      if !RecordBounds(r) || total + Total(r.lengths) > MAXIMUM_HISTORY_BYTES { return false, left; }
      if r.attempt in left {
        DuplicateAttempt(left, retained, i);
        return false, left;
      }
      IndexStep(retained, i, requirementBytes, total, left);
      total := total + Total(r.lengths);
      left := left[r.attempt := r];
    }
    assert retained[..|retained|] == retained;
    ok := true;
  }

  lemma EmptyIndex(retained: seq<Retained>)
    ensures Index(map[], retained[..0], {}) && Bytes(retained[..0]) == 0 && Distinct(retained[..0])
  {
  }

  lemma IndexStep(retained: seq<Retained>, i: nat, requirementBytes: nat, total: nat, left: map<string, Retained>)
    requires i < |retained| && IndexInv(retained, i, requirementBytes, total, left)
    requires RecordBounds(retained[i]) && total + Total(retained[i].lengths) <= MAXIMUM_HISTORY_BYTES && retained[i].attempt !in left
    ensures IndexInv(retained, i + 1, requirementBytes, total + Total(retained[i].lengths), left[retained[i].attempt := retained[i]])
  {
    hide RecordBounds, Total, Index;
    PrefixBounds(retained, i, requirementBytes);
    IndexGrows(left, retained, i);
    var all := retained[..i + 1];
    forall j | 0 <= j < |all| ensures RecordBounds(all[j]) {
      if j < i { assert all[j] == retained[..i][j]; }
    }
  }

  lemma {:induction false} BytesGrow(retained: seq<Retained>, k: nat)
    requires k <= |retained|
    ensures Bytes(retained[..k]) <= Bytes(retained)
  {
    if k == |retained| {
      assert retained[..k] == retained;
    } else {
      BytesGrow(retained[..|retained| - 1], k);
      assert retained[..|retained| - 1][..k] == retained[..k];
    }
  }

  // What prefix i + 1 costs, and that an overrun there is an overrun of the whole.
  lemma PrefixBounds(retained: seq<Retained>, i: nat, requirementBytes: nat)
    requires i < |retained|
    ensures Bytes(retained[..i + 1]) == Bytes(retained[..i]) + Total(retained[i].lengths) <= Bytes(retained)
    ensures retained[..i + 1] == retained[..i] + [retained[i]]
  {
    hide Total, RecordBounds, Bytes;
    assert retained[..i + 1] == retained[..i] + [retained[i]];
    BytesAppend(retained[..i], retained[i]);
    BytesGrow(retained, i + 1);
  }

  lemma BytesAppend(front: seq<Retained>, r: Retained)
    ensures Bytes(front + [r]) == Bytes(front) + Total(r.lengths)
  {
    assert (front + [r])[..|front|] == front;
  }

  lemma DuplicateAttempt(left: map<string, Retained>, retained: seq<Retained>, i: nat)
    requires i < |retained| && Index(left, retained[..i], {}) && retained[i].attempt in left
    ensures !Distinct(retained)
  {
    var j :| 0 <= j < i && retained[..i][j] == left[retained[i].attempt];
    assert retained[j].attempt == retained[i].attempt;
  }

  lemma IndexGrows(left: map<string, Retained>, retained: seq<Retained>, i: nat)
    requires i < |retained| && Index(left, retained[..i], {}) && Distinct(retained[..i]) && retained[i].attempt !in left
    ensures Index(left[retained[i].attempt := retained[i]], retained[..i + 1], {}) && Distinct(retained[..i + 1])
    ensures |left[retained[i].attempt := retained[i]]| == |left| + 1
  {
    assert retained[..i + 1] == retained[..i] + [retained[i]];
    IndexAppends(left, retained[..i], retained[i]);
  }

  lemma IndexAppends(left: map<string, Retained>, front: seq<Retained>, r: Retained)
    requires Index(left, front, {}) && Distinct(front) && r.attempt !in left
    ensures Index(left[r.attempt := r], front + [r], {}) && Distinct(front + [r])
    ensures |left[r.attempt := r]| == |left| + 1
  {
    var grown, all := left[r.attempt := r], front + [r];
    forall j | 0 <= j < |front| ensures all[j].attempt != r.attempt { assert front[j].attempt in left; }
    forall a | a in grown ensures grown[a] in all && grown[a].attempt == a { if a != r.attempt { assert left[a] in front; } }
    assert grown.Keys == left.Keys + {r.attempt};
  }

  function Attempts(rows: seq<Row>): set<string> { set i | 0 <= i < |rows| && rows[i].attempt.Some? :: rows[i].attempt.value }

  ghost predicate MatchInv(run: Run, retained: seq<Retained>, rows: seq<Row>, i: nat, left: map<string, Retained>, taken: seq<Attempt>)
    requires i <= |rows|
  {
    && (forall j | 0 <= j < i :: Matches(run, retained, rows[j]))
    && (forall j, k | 0 <= j < k < i :: rows[j].attempt != rows[k].attempt)
    && Index(left, retained, Attempts(rows[..i]))
    && |taken| == i && forall j | 0 <= j < i :: rows[j].record.Some? && taken[j] == AttemptOf(rows[j])
  }

  // Second loop: each row takes its admission out of the index.
  method MatchRows(run: Run, retained: seq<Retained>, rows: seq<Row>, index: map<string, Retained>) returns (attempts: Option<seq<Attempt>>)
    requires Distinct(retained) && Index(index, retained, {}) && |index| == |retained|
    ensures attempts.Some? <==> Aligned(run, retained, rows)
    ensures attempts.Some? ==> |attempts.value| == |rows|
                               && forall i | 0 <= i < |rows| :: rows[i].record.Some? && attempts.value[i] == AttemptOf(rows[i])
  {
    hide Admits, Index;
    if |rows| != |index| { return None; }
    var left := index;
    var taken: seq<Attempt> := [];
    assert Attempts(rows[..0]) == {};
    for i := 0 to |rows|
      invariant MatchInv(run, retained, rows, i, left, taken)
    {
      var row := rows[i];
      if row.attempt.None? {
        assert !Matches(run, retained, rows[i]);
        return None;
      }
      if row.attempt.value !in left {
        Unmatched(run, left, retained, rows, i);
        return None;
      }
      var admission := left[row.attempt.value];
      if row.record != Some(admission) || !Admits(run, admission) {
        Mismatched(run, left, retained, rows, i);
        return None;
      }
      MatchStep(run, retained, rows, i, left, taken);
      left := left - {row.attempt.value};
      taken := taken + [AttemptOf(row)];
    }
    assert rows[..|rows|] == rows;
    assert Aligned(run, retained, rows);
    NothingLeftBehind(run, left, retained, rows);
    assert left == map[];
    attempts := Some(taken);
  }

  // The test after the loop, that no admission is left in the index, can never fail.
  lemma NothingLeftBehind(run: Run, left: map<string, Retained>, retained: seq<Retained>, rows: seq<Row>)
    requires Aligned(run, retained, rows) && Distinct(retained) && Index(left, retained, Attempts(rows))
    ensures left == map[]
  {
    hide Admits;
    forall r | r in retained ensures r.attempt in Attempts(rows) {
      EveryAdmissionIsProjected(run, retained, rows, r);
      var i :| 0 <= i < |rows| && rows[i].record == Some(r);
      assert Matches(run, retained, rows[i]);
    }
  }

  // project_provider_capacity; without a recorded requirement there must be no admission at all.
  method ProjectCapacity(run: Option<Run>, requirementBytes: nat, retained: seq<Retained>, rows: seq<Row>) returns (attempts: Option<seq<Attempt>>)
    ensures run.None? ==> attempts == if retained == [] && rows == [] then Some([]) else None
    ensures run.Some? ==> (attempts.Some? <==> Accepted(run.value, requirementBytes, retained, rows))
    ensures attempts.Some? ==> |attempts.value| == |rows|
                               && forall i | 0 <= i < |rows| :: rows[i].record.Some? && attempts.value[i] == AttemptOf(rows[i])
  {
    hide Aligned, Bounded, Index;
    if run.None? {
      return if retained == [] && rows == [] then Some([]) else None;
    }
    if !(1 <= requirementBytes <= MAXIMUM_RECORD_BYTES) { return None; }
    var ok, index := IndexAdmissions(retained, requirementBytes);
    if !ok { return None; }
    attempts := MatchRows(run.value, retained, rows, index);
  }

  ghost predicate Accepted(run: Run, requirementBytes: nat, retained: seq<Retained>, rows: seq<Row>) {
    && 1 <= requirementBytes <= MAXIMUM_RECORD_BYTES
    && Distinct(retained) && (retained != [] ==> Bounded(retained, requirementBytes))
    && Aligned(run, retained, rows)
  }

  lemma MatchStep(run: Run, retained: seq<Retained>, rows: seq<Row>, i: nat, left: map<string, Retained>, taken: seq<Attempt>)
    requires i < |rows| && MatchInv(run, retained, rows, i, left, taken)
    requires rows[i].attempt.Some? && rows[i].attempt.value in left
    requires rows[i].record == Some(left[rows[i].attempt.value]) && Admits(run, left[rows[i].attempt.value])
    ensures MatchInv(run, retained, rows, i + 1, left - {rows[i].attempt.value}, taken + [AttemptOf(rows[i])])
  {
    hide Admits;
    TakesOne(left, retained, rows, i);
    assert Matches(run, retained, rows[i]);
  }

  lemma Unmatched(run: Run, left: map<string, Retained>, retained: seq<Retained>, rows: seq<Row>, i: nat)
    requires i < |rows| && rows[i].attempt.Some? && rows[i].attempt.value !in left
    requires Index(left, retained, Attempts(rows[..i])) && Distinct(retained)
    ensures !Aligned(run, retained, rows)
  {
    if Matches(run, retained, rows[i]) {
      var r := rows[i].record.value;
      var k :| 0 <= k < |retained| && retained[k] == r;
      var j :| 0 <= j < i && rows[..i][j].attempt.Some? && rows[..i][j].attempt.value == r.attempt;
      assert rows[j].attempt == rows[i].attempt;
    }
  }

  lemma Mismatched(run: Run, left: map<string, Retained>, retained: seq<Retained>, rows: seq<Row>, i: nat)
    requires i < |rows| && rows[i].attempt.Some? && rows[i].attempt.value in left
    requires rows[i].record != Some(left[rows[i].attempt.value]) || !Admits(run, left[rows[i].attempt.value])
    requires Index(left, retained, Attempts(rows[..i])) && Distinct(retained)
    ensures !Aligned(run, retained, rows)
  {
    if Matches(run, retained, rows[i]) { IndexFinds(left, retained, Attempts(rows[..i]), rows[i].record.value); }
  }

  lemma TakesOne(left: map<string, Retained>, retained: seq<Retained>, rows: seq<Row>, i: nat)
    requires i < |rows| && rows[i].attempt.Some? && rows[i].attempt.value in left
    requires Index(left, retained, Attempts(rows[..i]))
    ensures Index(left - {rows[i].attempt.value}, retained, Attempts(rows[..i + 1]))
    ensures forall j | 0 <= j < i :: rows[j].attempt != rows[i].attempt
  {
    assert rows[..i + 1] == rows[..i] + [rows[i]];
    forall j | 0 <= j < i ensures rows[j].attempt != rows[i].attempt {
      assert rows[..i][j] == rows[j];
      if rows[j].attempt.Some? { assert rows[j].attempt.value in Attempts(rows[..i]); }
    }
    assert Attempts(rows[..i + 1]) == Attempts(rows[..i]) + {rows[i].attempt.value};
  }

  // ---- expensive work rests on current capacity ----

  // In an accepted projection every expensive attempt was admitted by the decision replayed at its
  // record time, while the observation was current and every fractional window was at or above the
  // normal threshold.
  lemma ExpensiveRestsOnCapacity(run: Run, retained: seq<Retained>, rows: seq<Row>, i: nat)
    requires Aligned(run, retained, rows) && i < |rows| && AttemptOf(rows[i]).admission.binding.cost.Expensive?
    ensures var r := AttemptOf(rows[i]).admission;
            && r in retained && r.attempt == rows[i].attempt.value
            && r.workItem in run.classes && run.classes[r.workItem] in run.costs && run.costs[run.classes[r.workItem]] == Expensive
            && r.observation.provider == run.provider
            && Decide(r.observation, r.policy, r.recordedAt) == Some(r.decision)
            && Current(r.observation, r.policy, r.recordedAt) && AllAtLeast(r.observation, r.policy.normal)
  {
    assert Matches(run, retained, rows[i]);
    var r := rows[i].record.value;
    OrdinaryIff(r.observation, r.policy, r.recordedAt);
  }

  // Every projected attempt is bound to the run, to its own work item and to exactly the evidence
  // retained beside it.
  lemma AttemptsAreBound(run: Run, retained: seq<Retained>, rows: seq<Row>, i: nat)
    requires Aligned(run, retained, rows) && i < |rows|
    ensures var r := AttemptOf(rows[i]).admission;
            var b := r.binding;
            && r.workItem in run.classes && r.workItem in run.executions && run.classes[r.workItem] in run.costs
            && b == Binding(run.requirementDigest, run.packetDigest, run.admissionDigest, run.profileDigest, run.runId, r.workItem,
                            run.executions[r.workItem].adapter, run.provider, run.classes[r.workItem], run.executions[r.workItem].modelClass,
                            run.costs[run.classes[r.workItem]], run.policyId, r.marks.observation, r.marks.policy, r.marks.decision, r.recordedAt)
            && r.observation.provider == run.provider && r.decision.provider == run.provider && r.marks.policyId == run.policyId
            && r.marks.decisionObservation == r.marks.observation && r.marks.decisionPolicy == r.marks.policy
            && (r.marks.family.Some? ==> r.marks.family.value == run.classes[r.workItem])
  {
    assert Matches(run, retained, rows[i]);
  }

  // The rows and the retained admissions are in one-to-one correspondence.
  lemma EveryAdmissionIsProjected(run: Run, retained: seq<Retained>, rows: seq<Row>, r: Retained)
    requires Aligned(run, retained, rows) && Distinct(retained) && r in retained
    ensures exists i :: 0 <= i < |rows| && rows[i].record == Some(r)
  {
    var named := set k | 0 <= k < |retained| :: retained[k].attempt;
    DistinctCount(retained);
    RowsCount(run, retained, rows, |rows|);
    assert rows[..|rows|] == rows;
    var used := Attempts(rows);
    forall a | a in used ensures a in named {
      var i :| 0 <= i < |rows| && rows[i].attempt.Some? && rows[i].attempt.value == a;
      assert Matches(run, retained, rows[i]);
    }
    assert used <= named && |used| == |named|;
    SubsetOfSameSize(used, named);
    assert r.attempt in named;
    var i :| 0 <= i < |rows| && rows[i].attempt.Some? && rows[i].attempt.value == r.attempt;
    assert Matches(run, retained, rows[i]);
    SameAttemptSameRecord(retained, r, rows[i].record.value);
  }

  lemma SameAttemptSameRecord(retained: seq<Retained>, r: Retained, q: Retained)
    requires Distinct(retained) && r in retained && q in retained && r.attempt == q.attempt
    ensures r == q
  {
    var i :| 0 <= i < |retained| && retained[i] == r;
    var j :| 0 <= j < |retained| && retained[j] == q;
  }

  lemma {:induction false} DistinctCount(retained: seq<Retained>)
    requires Distinct(retained)
    ensures |set k | 0 <= k < |retained| :: retained[k].attempt| == |retained|
  {
    if retained != [] {
      var front, last := retained[..|retained| - 1], retained[|retained| - 1];
      DistinctCount(front);
      var names := set k | 0 <= k < |front| :: front[k].attempt;
      assert (set k | 0 <= k < |retained| :: retained[k].attempt) == names + {last.attempt} by {
        assert retained == front + [last];
      }
      assert last.attempt !in names;
    }
  }

  lemma {:induction false} RowsCount(run: Run, retained: seq<Retained>, rows: seq<Row>, n: nat)
    requires Aligned(run, retained, rows) && n <= |rows|
    ensures |Attempts(rows[..n])| == n
  {
    hide Admits, Attempts;
    if n > 0 {
      RowsCount(run, retained, rows, n - 1);
      assert Matches(run, retained, rows[n - 1]);
      assert rows[..n] == rows[..n - 1] + [rows[n - 1]];
      AttemptsGrow(rows[..n - 1], rows[n - 1]);
    } else {
      NoAttempts();
    }
  }

  lemma NoAttempts()
    ensures Attempts([]) == {}
  {
  }

  lemma AttemptsGrow(rows: seq<Row>, row: Row)
    requires row.attempt.Some? && forall i | 0 <= i < |rows| :: rows[i].attempt != row.attempt
    ensures |Attempts(rows + [row])| == |Attempts(rows)| + 1
  {
    var all := rows + [row];
    forall i | 0 <= i < |rows| && rows[i].attempt.Some? ensures rows[i].attempt.value in Attempts(all) { assert all[i] == rows[i]; }
    assert all[|rows|] == row;
    assert Attempts(all) == Attempts(rows) + {row.attempt.value};
  }

  lemma {:induction false} SubsetOfSameSize(a: set<string>, b: set<string>)
    requires a <= b && |a| == |b|
    ensures a == b
  {
    if x :| x in b && x !in a {
      SizeOfSubset(a, b - {x});
    }
  }

  lemma {:induction false} SizeOfSubset(a: set<string>, b: set<string>)
    requires a <= b
    ensures |a| <= |b|
  {
    if x :| x in a { SizeOfSubset(a - {x}, b - {x}); }
  }
}
