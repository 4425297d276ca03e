// Provider capacity: the decision rule.
module Capacity {
  import opened Wire

  datatype WindowType = FiveHour | Weekly | ProviderDefined
  datatype SourceClass = Authoritative | Observed | Inferred | UnknownSource
  datatype Confidence = UnknownConfidence | Low | Medium | High

  datatype Window = Window(kind: WindowType, fraction: Option<real>, units: Option<(nat, nat)>, resetsAt: Option<int>)

  datatype Observation = Observation(
    provider: string, observedAt: int, expiresAt: int, source: SourceClass, confidence: Confidence, usable: bool,
    unknownReasons: seq<string>, windows: seq<Window>)

  datatype Policy = Policy(
    abundant: real, normal: real, conserve: real, minimumConfidence: Confidence, required: seq<WindowType>, unknownAllowsCheap: bool)

  datatype CapacityState = Abundant | Normal | Conserve | Critical | Unknown
  datatype Admission = OrdinaryBounded | CheapBoundedOnly | NoNewWork

  datatype Reason =
    | Reported(text: string) | Missing(kind: WindowType) | DecisionPrecedesObservation | ObservationStale | ResetRollover
    | SourceOrConfidence | NoFraction | MinimumRemaining(state: CapacityState)

  datatype Decision = Decision(
    provider: string, decisionAt: int, state: CapacityState, admission: Admission, expensive: bool, speculative: bool, reasons: seq<Reason>)

  function Rank(c: Confidence): nat {
    match c case UnknownConfidence => 0 case Low => 1 case Medium => 2 case High => 3
  }

  function TypeRank(w: WindowType): nat {
    match w case FiveHour => 0 case Weekly => 1 case ProviderDefined => 2
  }

  predicate ValidWindow(w: Window) {
    && (w.fraction.Some? ==> 0.0 <= w.fraction.value <= 1.0)
    && (w.units.Some? ==> w.units.value.1 != 0 && w.units.value.0 <= w.units.value.1)
    && (w.fraction.Some? || w.units.Some?)
  }

  predicate ValidObservation(o: Observation) {
    && o.observedAt < o.expiresAt
    && (o.usable ==> o.windows != [] && o.unknownReasons == [])
    && (!o.usable ==> o.unknownReasons != [])
    && forall i | 0 <= i < |o.windows| :: ValidWindow(o.windows[i])
  }

  predicate ValidPolicy(p: Policy) {
    0.0 <= p.abundant <= 1.0 && 0.0 <= p.conserve <= 1.0 && p.conserve < p.normal < p.abundant
    && p.required != [] && forall i | 0 < i < |p.required| :: TypeRank(p.required[i - 1]) < TypeRank(p.required[i])
  }

  // ---- the decision ----

  predicate Present(o: Observation, kind: WindowType) { exists i | 0 <= i < |o.windows| :: o.windows[i].kind == kind }

  function MissingReasons(o: Observation, required: seq<WindowType>): seq<Reason> {
    if required == [] then []
    else MissingReasons(o, required[..|required| - 1])
         + (if Present(o, required[|required| - 1]) then [] else [Missing(required[|required| - 1])])
  }

  // The least remaining fraction, over the windows that report one.
  function Least(windows: seq<Window>): Option<real> {
    if windows == [] then None
    else
      var rest, last := Least(windows[..|windows| - 1]), windows[|windows| - 1].fraction;
      if last.None? then rest else if rest.None? || last.value < rest.value then last else rest
  }

  predicate RolledOver(o: Observation, at: int) {
    exists i | 0 <= i < |o.windows| :: o.windows[i].resetsAt.Some? && o.windows[i].resetsAt.value <= at
  }

  function Graded(p: Policy, least: real): CapacityState {
    if least >= p.abundant then Abundant else if least >= p.normal then Normal else if least >= p.conserve then Conserve else Critical
  }

  // State and the reasons recorded for it; no reason is recorded for a graded state.
  function Assess(o: Observation, p: Policy, at: int): (CapacityState, seq<Reason>) {
    var missing := MissingReasons(o, p.required);
    if !o.usable then (Unknown, seq(|o.unknownReasons|, i requires 0 <= i < |o.unknownReasons| => Reported(o.unknownReasons[i])) + missing)
    else if at < o.observedAt then (Unknown, [DecisionPrecedesObservation])
    else if at >= o.expiresAt then (Unknown, [ObservationStale])
    else if RolledOver(o, at) then (Unknown, [ResetRollover])
    else if o.source.UnknownSource? || Rank(o.confidence) < Rank(p.minimumConfidence) then (Unknown, [SourceOrConfidence])
    else if missing != [] then (Unknown, missing)
    else if Least(o.windows).None? then (Unknown, [NoFraction])
    else (Graded(p, Least(o.windows).value), [])
  }

  function AdmissionOf(s: CapacityState, p: Policy): Admission {
    match s
    case Abundant => OrdinaryBounded
    case Normal => OrdinaryBounded
    case Conserve => CheapBoundedOnly
    case Critical => NoNewWork
    case Unknown => if p.unknownAllowsCheap then CheapBoundedOnly else NoNewWork
  }

  // decide_capacity; None is an invalid observation or policy.
  function Decide(o: Observation, p: Policy, at: int): Option<Decision> {
    if !ValidObservation(o) || !ValidPolicy(p) then None
    else
      var (state, reasons) := Assess(o, p, at);
      Some(Decision(o.provider, at, state, AdmissionOf(state, p), state.Abundant? || state.Normal?, state.Abundant?,
                    if reasons == [] then [MinimumRemaining(state)] else reasons))
  }

  // ---- what an ordinary admission rests on ----

  lemma {:induction false} NothingMissing(o: Observation, required: seq<WindowType>)
    ensures MissingReasons(o, required) == [] <==> forall k | k in required :: Present(o, k)
  {
    if required != [] {
      var front := required[..|required| - 1];
      NothingMissing(o, front);
      assert required == front + [required[|required| - 1]];
    }
  }

  lemma {:induction false} LeastIsLeast(windows: seq<Window>)
    ensures Least(windows).None? <==> forall i | 0 <= i < |windows| :: windows[i].fraction.None?
    ensures Least(windows).Some? ==>
              && (forall i | 0 <= i < |windows| && windows[i].fraction.Some? :: Least(windows).value <= windows[i].fraction.value)
              && (exists i :: 0 <= i < |windows| && windows[i].fraction == Least(windows))
  {
    if windows != [] {
      var front := windows[..|windows| - 1];
      LeastIsLeast(front);
      assert forall i | 0 <= i < |front| :: windows[i] == front[i];
    }
  }

  // The observation is usable and inside its life at `at`, before every window reset, from a known
  // source of enough confidence, with every required window and at least one fraction.
  ghost predicate Current(o: Observation, p: Policy, at: int) {
    && o.usable && o.observedAt <= at < o.expiresAt
    && (forall i | 0 <= i < |o.windows| && o.windows[i].resetsAt.Some? :: at < o.windows[i].resetsAt.value)
    && !o.source.UnknownSource? && Rank(p.minimumConfidence) <= Rank(o.confidence)
    && (forall k | k in p.required :: Present(o, k))
    && (exists i :: 0 <= i < |o.windows| && o.windows[i].fraction.Some?)
  }

  ghost predicate AllAtLeast(o: Observation, threshold: real) {
    forall i | 0 <= i < |o.windows| && o.windows[i].fraction.Some? :: threshold <= o.windows[i].fraction.value
  }

  lemma GradedIffCurrent(o: Observation, p: Policy, at: int)
    ensures !Assess(o, p, at).0.Unknown? <==> Current(o, p, at)
    ensures Current(o, p, at) ==> Least(o.windows).Some? && Assess(o, p, at).0 == Graded(p, Least(o.windows).value)
  {
    NothingMissing(o, p.required);
    LeastIsLeast(o.windows);
  }

  // Ordinary work is admitted exactly when the observation is current and every fractional window
  // is at or above the normal threshold; speculative work needs the abundant threshold.
  lemma OrdinaryIff(o: Observation, p: Policy, at: int)
    requires ValidObservation(o) && ValidPolicy(p)
    ensures var d := Decide(o, p, at).value;
            && (d.admission.OrdinaryBounded? <==> Current(o, p, at) && AllAtLeast(o, p.normal))
            && (d.expensive <==> d.admission.OrdinaryBounded?)
            && (d.speculative <==> Current(o, p, at) && AllAtLeast(o, p.abundant))
  {
    GradedIffCurrent(o, p, at);
    LeastIsLeast(o.windows);
  }

  // ---- raising fractions never makes a decision stricter ----

  ghost predicate Raised(o: Observation, q: Observation) {
    && q == o.(windows := q.windows) && |q.windows| == |o.windows|
    && forall i | 0 <= i < |o.windows| ::
         q.windows[i] == o.windows[i].(fraction := q.windows[i].fraction)
         && (q.windows[i].fraction.Some? <==> o.windows[i].fraction.Some?)
         && (o.windows[i].fraction.Some? ==> o.windows[i].fraction.value <= q.windows[i].fraction.value)
  }

  function Liberality(a: Admission): nat {
    match a case NoNewWork => 0 case CheapBoundedOnly => 1 case OrdinaryBounded => 2
  }

  lemma RaisedLeast(o: Observation, q: Observation)
    requires Raised(o, q) && Least(o.windows).Some?
    ensures Least(q.windows).Some? && Least(o.windows).value <= Least(q.windows).value
  {
    LeastIsLeast(o.windows);
    LeastIsLeast(q.windows);
    var i :| 0 <= i < |o.windows| && o.windows[i].fraction == Least(o.windows);
    assert q.windows[i].fraction.Some?;
    var j :| 0 <= j < |q.windows| && q.windows[j].fraction == Least(q.windows);
    assert o.windows[j].fraction.Some?;
  }

  lemma RaisedCurrent(o: Observation, q: Observation, p: Policy, at: int)
    requires Raised(o, q)
    ensures Current(q, p, at) <==> Current(o, p, at)
  {
    forall k ensures Present(q, k) <==> Present(o, k) {
      if i :| 0 <= i < |o.windows| && o.windows[i].kind == k { assert q.windows[i].kind == k; }
      if i :| 0 <= i < |q.windows| && q.windows[i].kind == k { assert o.windows[i].kind == k; }
    }
    forall i | 0 <= i < |o.windows| ensures q.windows[i].resetsAt == o.windows[i].resetsAt {}
    if i :| 0 <= i < |o.windows| && o.windows[i].fraction.Some? { assert q.windows[i].fraction.Some?; }
    if i :| 0 <= i < |q.windows| && q.windows[i].fraction.Some? { assert o.windows[i].fraction.Some?; }
  }

  lemma RaisingIsMonotone(o: Observation, q: Observation, p: Policy, at: int)
    requires ValidObservation(o) && ValidObservation(q) && ValidPolicy(p) && Raised(o, q)
    ensures var d, e := Decide(o, p, at).value, Decide(q, p, at).value;
            Liberality(d.admission) <= Liberality(e.admission) && (d.expensive ==> e.expensive) && (d.speculative ==> e.speculative)
  {
    GradedIffCurrent(o, p, at);
    GradedIffCurrent(q, p, at);
    RaisedCurrent(o, q, p, at);
    if Current(o, p, at) { RaisedLeast(o, q); }
  }

  // ---- the whole decision ----

  // Below the threshold in some fractional window.
  ghost predicate SomeBelow(o: Observation, threshold: real) {
    exists i :: 0 <= i < |o.windows| && o.windows[i].fraction.Some? && o.windows[i].fraction.value < threshold
  }

  lemma BelowIff(o: Observation, threshold: real)
    ensures SomeBelow(o, threshold) <==> !AllAtLeast(o, threshold)
  {
  }

  // The state is unknown exactly when the observation is not current, and otherwise the highest grade
  // that every fractional window reaches; admission and flags follow from it.
  lemma DecisionLaw(o: Observation, p: Policy, at: int)
    requires ValidObservation(o) && ValidPolicy(p)
    ensures var d, current := Decide(o, p, at).value, Current(o, p, at);
            && d.provider == o.provider && d.decisionAt == at
            && (d.state == Unknown <==> !current)
            && (d.state == Abundant <==> current && AllAtLeast(o, p.abundant))
            && (d.state == Normal <==> current && AllAtLeast(o, p.normal) && SomeBelow(o, p.abundant))
            && (d.state == Conserve <==> current && AllAtLeast(o, p.conserve) && SomeBelow(o, p.normal))
            && (d.state == Critical <==> current && SomeBelow(o, p.conserve))
            && (d.admission == OrdinaryBounded <==> current && AllAtLeast(o, p.normal))
            && (d.admission == CheapBoundedOnly <==> if current then AllAtLeast(o, p.conserve) && SomeBelow(o, p.normal) else p.unknownAllowsCheap)
            && (d.admission == NoNewWork <==> if current then SomeBelow(o, p.conserve) else !p.unknownAllowsCheap)
  {
    GradedIffCurrent(o, p, at);
    LeastIsLeast(o.windows);
    hide Assess, Current, Least;
    LeastDecides(o, p.abundant);
    LeastDecides(o, p.normal);
    LeastDecides(o, p.conserve);
  }

  lemma LeastDecides(o: Observation, threshold: real)
    ensures Least(o.windows).Some? ==> (AllAtLeast(o, threshold) <==> threshold <= Least(o.windows).value) && (SomeBelow(o, threshold) <==> !AllAtLeast(o, threshold))
  {
    LeastIsLeast(o.windows);
    BelowIff(o, threshold);
  }

  // Inside its life, before every reset, and from a known source of enough confidence.
  ghost predicate Live(o: Observation, at: int) { o.usable && o.observedAt <= at < o.expiresAt }

  ghost predicate Unreset(o: Observation, at: int) {
    Live(o, at) && forall i | 0 <= i < |o.windows| && o.windows[i].resetsAt.Some? :: at < o.windows[i].resetsAt.value
  }

  ghost predicate Trusted(o: Observation, p: Policy, at: int) {
    Unreset(o, at) && !o.source.UnknownSource? && Rank(p.minimumConfidence) <= Rank(o.confidence)
  }

  // The reason names the first obstacle: what the observation reports, a time outside its life, a window
  // that was reset, or weak evidence ...
  lemma ReasonNamesObstacle(o: Observation, p: Policy, at: int)
    requires ValidObservation(o) && ValidPolicy(p) && !Trusted(o, p, at)
    ensures var r := Decide(o, p, at).value.reasons;
            if !o.usable then |r| >= |o.unknownReasons| > 0 && forall i | 0 <= i < |o.unknownReasons| :: r[i] == Reported(o.unknownReasons[i])
            else if at < o.observedAt then r == [DecisionPrecedesObservation]
            else if o.expiresAt <= at then r == [ObservationStale]
            else if !Unreset(o, at) then r == [ResetRollover]
            else r == [SourceOrConfidence]
  {
    hide MissingReasons, Least, Graded;
  }

  // ... and then exactly the missing windows, the absence of any fraction, or the state itself.
  lemma TrustedReason(o: Observation, p: Policy, at: int)
    requires ValidObservation(o) && ValidPolicy(p) && Trusted(o, p, at)
    ensures var d := Decide(o, p, at).value;
            if exists k :: k in p.required && !Present(o, k)
            then (forall i | 0 <= i < |d.reasons| :: d.reasons[i].Missing?) && (forall k :: Missing(k) in d.reasons <==> k in p.required && !Present(o, k))
            else if forall i | 0 <= i < |o.windows| :: o.windows[i].fraction.None? then d.reasons == [NoFraction]
            else d.reasons == [MinimumRemaining(d.state)] && Current(o, p, at)
  {
    hide MissingReasons, Least, Graded;
    NothingMissing(o, p.required);
    MissingAre(o, p.required);
    LeastIsLeast(o.windows);
  }

  lemma {:induction false} MissingAre(o: Observation, required: seq<WindowType>)
    ensures forall i | 0 <= i < |MissingReasons(o, required)| :: MissingReasons(o, required)[i].Missing?
    ensures forall k :: Missing(k) in MissingReasons(o, required) <==> k in required && !Present(o, k)
  {
    if required != [] {
      var front, last := required[..|required| - 1], required[|required| - 1];
      MissingAre(o, front);
      assert required == front + [last];
    }
  }
}
