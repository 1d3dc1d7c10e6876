/** Summaries of dispatch decisions and of efficiency events. */
module TelemetryDecisions {
  import opened Text
  import opened Grouping
  import opened Telemetry

  // ----- Dispatch decisions

  predicate Expensive(lane: string) { lane == "claude_supervisor" || lane == "codex_cli" }

  function LaneKey(r: Fields): string { StringBucket(Get(r, "resolved_lane"), "unresolved") }
  function ReasonKey(r: Fields): string { StringBucket(Get(r, "refusal_reason"), "none") }
  function Decision(r: Fields): string { StringBucket(Get(r, "decision"), "unknown") }

  predicate IsDispatched(r: Fields) { Decision(r) == "dispatched" }
  predicate IsRefused(r: Fields) { Decision(r) == "refused" }
  predicate HasLane(r: Fields) { IsDispatched(r) && LaneKey(r) != "unresolved" }
  predicate IsCheap(r: Fields) { HasLane(r) && !Expensive(LaneKey(r)) }

  function Where(seen: seq<Fields>, p: Fields -> bool): seq<Fields> {
    if seen == [] then []
    else
      var last := seen[|seen| - 1];
      Where(seen[..|seen| - 1], p) + if p(last) then [last] else []
  }

  lemma WhereAdds(seen: seq<Fields>, r: Fields, p: Fields -> bool)
    ensures Where(seen + [r], p) == Where(seen, p) + if p(r) then [r] else []
  {
    var more := seen + [r];
    assert more[..|more| - 1] == seen;
  }

  lemma {:induction false} WhereMerges(a: seq<Fields>, b: seq<Fields>, p: Fields -> bool)
    ensures Where(a + b, p) == Where(a, p) + Where(b, p)
  {
    if b == [] {
      assert a + b == a;
    } else {
      WhereMerges(a, b[..|b| - 1], p);
      assert (a + b)[..|a + b| - 1] == a + b[..|b| - 1];
    }
  }

  /** Everything the summary counts; the percentage is worked out from the last two at the end. */
  datatype Decisions = Decisions(
    total: nat, excluded: nat, dispatched: nat, refused: nat, byReason: map<string, Cell>, byMode: map<string, Cell>,
    byLane: map<string, Cell>, withLane: nat, cheap: nat)

  function DecisionsOf(seen: seq<Fields>, excluded: nat): Decisions {
    Decisions(
      |seen|, excluded, |Where(seen, IsDispatched)|, |Where(seen, IsRefused)|,
      Tally(Where(seen, IsRefused), ReasonKey), Tally(seen, ModeKey), Tally(seen, LaneKey),
      |Where(seen, HasLane)|, |Where(seen, IsCheap)|)
  }

  function DecisionsSummaryOf(records: seq<Entry>, w: Window): (s: Decisions)
    ensures s.total + s.excluded == |records|
  {
    IncludedLength(records, w);
    DecisionsOf(Included(records, w), |records| - |Included(records, w)|)
  }

  function CheapPercentage(withLane: nat, cheap: nat): Option<real> {
    if withLane == 0 then None else Some(cheap as real / withLane as real * 100.0)
  }

  method SummarizeDispatchDecisions(records: seq<Entry>, w: Window)
    returns (s: Decisions, cheapLaneDispatchedPct: Option<real>)
    ensures s == DecisionsSummaryOf(records, w)
    ensures cheapLaneDispatchedPct == CheapPercentage(s.withLane, s.cheap)
  {
    hide Tally, Where, Increment, WithinSince, Included, Decision, LaneKey, ReasonKey, ModeKey, Expensive,
         CheapPercentage;
    var byReason: map<string, Cell>, byMode: map<string, Cell>, byLane: map<string, Cell> := map[], map[], map[];
    var total, excluded, dispatched, refused, withLane, cheap := 0, 0, 0, 0, 0, 0;
    ghost var seen: seq<Fields> := [];
    NoDecisions(w);
    var i := 0;
    while i < |records|
      invariant 0 <= i <= |records|
      invariant seen == Included(records[..i], w)
      invariant total + excluded == i && total >= 0 && excluded >= 0
      invariant dispatched >= 0 && refused >= 0 && withLane >= 0 && cheap >= 0
      invariant Decisions(total, excluded, dispatched, refused, byReason, byMode, byLane, withLane, cheap) ==
        DecisionsOf(seen, excluded)
    {
      var record := records[i];
      assert records[..i + 1] == records[..i] + [record];
      IncludedAdds(records[..i], record, w);
      if !Counts(record, w) {
        excluded := excluded + 1;
      } else {
        var r := record.fields;
        DecisionAdds(seen, excluded, r);
        total := total + 1;
        var decision, resolvedLane := Decision(r), LaneKey(r);
        byMode := Increment(byMode, ModeKey(r));
        byLane := Increment(byLane, resolvedLane);
        if decision == "dispatched" {
          dispatched := dispatched + 1;
          if resolvedLane != "unresolved" {
            withLane := withLane + 1;
            if !Expensive(resolvedLane) {
              cheap := cheap + 1;
            }
          }
        } else if decision == "refused" {
          refused := refused + 1;
          byReason := Increment(byReason, ReasonKey(r));
        }
        seen := seen + [r];
      }
      i := i + 1;
    }
    assert records[..i] == records;
    s := Decisions(total, excluded, dispatched, refused, byReason, byMode, byLane, withLane, cheap);
    cheapLaneDispatchedPct := CheapPercentage(withLane, cheap);
  }

  lemma NoDecisions(w: Window)
    ensures Included([], w) == []
    ensures DecisionsOf([], 0) == Decisions(0, 0, 0, 0, map[], map[], map[], 0, 0)
  {
  }

  lemma DecisionAdds(seen: seq<Fields>, excluded: nat, r: Fields)
    ensures var s := DecisionsOf(seen, excluded);
      DecisionsOf(seen + [r], excluded) == Decisions(
        s.total + 1, s.excluded, s.dispatched + (if IsDispatched(r) then 1 else 0),
        s.refused + (if IsRefused(r) then 1 else 0),
        if IsRefused(r) then Increment(s.byReason, ReasonKey(r)) else s.byReason,
        Increment(s.byMode, ModeKey(r)), Increment(s.byLane, LaneKey(r)), s.withLane + (if HasLane(r) then 1 else 0),
        s.cheap + (if IsCheap(r) then 1 else 0))
  {
    hide Tally, Where, Increment, IsDispatched, IsRefused, HasLane, IsCheap, ReasonKey, LaneKey, ModeKey;
    WhereAdds(seen, r, IsDispatched);
    WhereAdds(seen, r, IsRefused);
    WhereAdds(seen, r, HasLane);
    WhereAdds(seen, r, IsCheap);
    TallyAdds(Where(seen, IsRefused), r, ReasonKey);
    TallyAdds(seen, r, ModeKey);
    TallyAdds(seen, r, LaneKey);
    assert Where(seen, IsRefused) + [] == Where(seen, IsRefused);
  }

  /** The summary of one decision: what counts as dispatched, refused, with a lane, and cheap. */
  lemma OneDecision(r: Fields)
    ensures var decision, lane := TextOr(r, "decision", "unknown"), TextOr(r, "resolved_lane", "unresolved");
      DecisionsOf([r], 0) == Decisions(
        1, 0, if decision == "dispatched" then 1 else 0, if decision == "refused" then 1 else 0,
        if decision == "refused" then Increment(map[], TextOr(r, "refusal_reason", "none")) else map[],
        Increment(map[], TextOr(r, "routing_mode", "none")), Increment(map[], lane),
        if decision == "dispatched" && lane != "unresolved" then 1 else 0,
        if decision == "dispatched" && lane != "unresolved" && lane != "claude_supervisor" && lane != "codex_cli"
        then 1 else 0)
  {
    DecisionAdds([], 0, r);
    assert [] + [r] == [r];
    assert DecisionsOf([], 0) == Decisions(0, 0, 0, 0, map[], map[], map[], 0, 0);
    OneDecisionParts(r);
    hide DecisionsOf, Increment, TextOr, Decision, LaneKey, ReasonKey, ModeKey;
  }

  lemma OneDecisionParts(r: Fields)
    ensures Decision(r) == TextOr(r, "decision", "unknown") && LaneKey(r) == TextOr(r, "resolved_lane", "unresolved")
    ensures ReasonKey(r) == TextOr(r, "refusal_reason", "none") && ModeKey(r) == TextOr(r, "routing_mode", "none")
  {
  }

  /** The percentage is that of the cheap among those with a lane. */
  lemma PercentageIs(withLane: nat, cheap: nat)
    ensures withLane > 0 ==>
      CheapPercentage(withLane, cheap).Some? &&
      CheapPercentage(withLane, cheap).value * withLane as real == 100.0 * cheap as real
  {
  }

  lemma {:induction false} CountsNested(seen: seq<Fields>)
    ensures |Where(seen, IsDispatched)| + |Where(seen, IsRefused)| <= |seen|
    ensures |Where(seen, IsCheap)| <= |Where(seen, HasLane)| <= |Where(seen, IsDispatched)|
  {
    hide Decision, LaneKey, Expensive;
    if seen != [] {
      CountsNested(seen[..|seen| - 1]);
    }
  }

  lemma Percentage(withLane: nat, cheap: nat)
    requires cheap <= withLane
    ensures CheapPercentage(withLane, cheap).None? <==> withLane == 0
    ensures CheapPercentage(withLane, cheap).Some? ==>
      0.0 <= CheapPercentage(withLane, cheap).value <= 100.0 &&
      (CheapPercentage(withLane, cheap).value == 100.0 <==> cheap == withLane)
  {
    if withLane > 0 {
      var q := cheap as real / withLane as real;
      assert q * withLane as real == cheap as real;
      Ratio(q, withLane as real, cheap as real);
    }
  }

  lemma Ratio(q: real, n: real, c: real)
    requires n > 0.0 && 0.0 <= c <= n && q * n == c
    ensures 0.0 <= q <= 1.0 && (q == 1.0 <==> c == n)
  {
    assert q < 0.0 ==> q * n < 0.0;
    assert q > 1.0 ==> (q - 1.0) * n > 0.0;
    assert q != 1.0 ==> (q - 1.0) * n != 0.0;
  }

  /**
   * No decision is both dispatched and refused; the percentage lies between 0 and 100 and is absent exactly when no
   * dispatch named a lane; refusal reasons sum to the refusals unless one of them is an inherited key.
   */
  lemma DecisionsConserve(seen: seq<Fields>, excluded: nat)
    ensures var s := DecisionsOf(seen, excluded);
      s.dispatched + s.refused <= s.total && s.cheap <= s.withLane <= s.dispatched &&
      (CheapPercentage(s.withLane, s.cheap).Some? ==>
        0.0 <= CheapPercentage(s.withLane, s.cheap).value <= 100.0) &&
      (BucketSum(s.byReason) == s.refused <==>
        forall i :: 0 <= i < s.refused ==> !Inherited(ReasonKey(Where(seen, IsRefused)[i]))) &&
      (BucketSum(s.byMode) == s.total <==> forall i :: 0 <= i < |seen| ==> !Inherited(ModeKey(seen[i]))) &&
      (BucketSum(s.byLane) == s.total <==> forall i :: 0 <= i < |seen| ==> !Inherited(LaneKey(seen[i])))
  {
    hide Tally, Where, BucketSum, Inherited, ReasonKey, ModeKey, LaneKey, CheapPercentage;
    CountsNested(seen);
    Percentage(|Where(seen, HasLane)|, |Where(seen, IsCheap)|);
    BucketConserves(Where(seen, IsRefused), ReasonKey);
    BucketConserves(seen, ModeKey);
    BucketConserves(seen, LaneKey);
  }

  function MergeDecisions(a: Decisions, b: Decisions): Decisions {
    Decisions(
      a.total + b.total, a.excluded + b.excluded, a.dispatched + b.dispatched, a.refused + b.refused,
      MergeBuckets(a.byReason, b.byReason), MergeBuckets(a.byMode, b.byMode), MergeBuckets(a.byLane, b.byLane),
      a.withLane + b.withLane, a.cheap + b.cheap)
  }

  /** Summarising a concatenation is merging the two summaries. */
  lemma DecisionsMerge(a: seq<Entry>, b: seq<Entry>, w: Window)
    ensures DecisionsSummaryOf(a + b, w) == MergeDecisions(DecisionsSummaryOf(a, w), DecisionsSummaryOf(b, w))
  {
    hide Tally, Where, MergeBuckets, Included;
    IncludedMerges(a, b, w);
    var s, t := Included(a, w), Included(b, w);
    WhereMerges(s, t, IsDispatched);
    WhereMerges(s, t, IsRefused);
    WhereMerges(s, t, HasLane);
    WhereMerges(s, t, IsCheap);
    TallyMerges(Where(s, IsRefused), Where(t, IsRefused), ReasonKey);
    TallyMerges(s, t, ModeKey);
    TallyMerges(s, t, LaneKey);
  }

  // ----- Efficiency events

  function ClassKey(r: Fields): string { StringBucket(Get(r, "work_unit_class"), "unknown") }
  function StatusKey(r: Fields): string { StringBucket(Get(r, "status"), "unknown") }
  function ActualModelKey(r: Fields): string { StringBucket(Get(r, "actual_model"), "unknown") }
  function EffortKey(r: Fields): string { StringBucket(Get(r, "actual_reasoning_effort"), "unknown") }

  function Attempts(r: Fields): real { NumberBucket(Get(r, "total_attempts")) }
  predicate DeltaRecorded(r: Fields) { Get(r, "attempt_delta_recorded") == Bool(true) }

  predicate Given(v: Value) { v != Null && v != Missing }

  predicate Recommends(r: Fields) {
    Given(Get(r, "recommended_model")) || Given(Get(r, "recommended_reasoning_effort"))
  }

  function AddReal(x: real, y: real): real { x + y }

  function Reals(): Monoid<real> { Monoid(0.0, AddReal) }

  datatype Efficiency = Efficiency(
    total: nat, excluded: nat, observed: bool, byClass: map<string, Cell>, byStatus: map<string, Cell>,
    byModel: map<string, Cell>, byEffort: map<string, Cell>, totalAttempts: real, deltas: nat, recommendations: nat)

  function EfficiencyOf(seen: seq<Fields>, excluded: nat): Efficiency {
    Efficiency(
      |seen|, excluded, seen != [], Tally(seen, ClassKey), Tally(seen, StatusKey), Tally(seen, ActualModelKey),
      Tally(seen, EffortKey), Total(seen, Attempts, Reals()), |Where(seen, DeltaRecorded)|, |Where(seen, Recommends)|)
  }

  function EfficiencySummaryOf(records: seq<Entry>, w: Window): (s: Efficiency)
    ensures s.total + s.excluded == |records|
  {
    IncludedLength(records, w);
    EfficiencyOf(Included(records, w), |records| - |Included(records, w)|)
  }

  method SummarizeEfficiencyEvents(records: seq<Entry>, w: Window) returns (s: Efficiency)
    ensures s == EfficiencySummaryOf(records, w)
  {
    hide Tally, Total, Where, Increment, WithinSince, Included, Attempts, DeltaRecorded, Recommends, Reals;
    var byClass: map<string, Cell>, byStatus: map<string, Cell> := map[], map[];
    var byModel: map<string, Cell>, byEffort: map<string, Cell> := map[], map[];
    var total, excluded, totalAttempts, deltas, recommendations := 0, 0, 0.0, 0, 0;
    ghost var seen: seq<Fields> := [];
    NoEvents(w);
    var i := 0;
    while i < |records|
      invariant 0 <= i <= |records|
      invariant seen == Included(records[..i], w)
      invariant total + excluded == i && total >= 0 && excluded >= 0 && deltas >= 0 && recommendations >= 0
      invariant Efficiency(total, excluded, total != 0, byClass, byStatus, byModel, byEffort, totalAttempts, deltas,
                           recommendations) == EfficiencyOf(seen, excluded)
    {
      var record := records[i];
      assert records[..i + 1] == records[..i] + [record];
      IncludedAdds(records[..i], record, w);
      if !Counts(record, w) {
        excluded := excluded + 1;
      } else {
        var r := record.fields;
        EventAdds(seen, excluded, r);
        total := total + 1;
        byClass := Increment(byClass, ClassKey(r));
        byStatus := Increment(byStatus, StatusKey(r));
        byModel := Increment(byModel, ActualModelKey(r));
        byEffort := Increment(byEffort, EffortKey(r));
        totalAttempts := totalAttempts + Attempts(r);
        if DeltaRecorded(r) {
          deltas := deltas + 1;
        }
        if Recommends(r) {
          recommendations := recommendations + 1;
        }
        seen := seen + [r];
      }
      i := i + 1;
    }
    assert records[..i] == records;
    return Efficiency(total, excluded, total != 0, byClass, byStatus, byModel, byEffort, totalAttempts, deltas,
                      recommendations);
  }

  lemma NoEvents(w: Window)
    ensures Included([], w) == []
    ensures EfficiencyOf([], 0) == Efficiency(0, 0, false, map[], map[], map[], map[], 0.0, 0, 0)
  {
  }

  lemma EventAdds(seen: seq<Fields>, excluded: nat, r: Fields)
    ensures var s := EfficiencyOf(seen, excluded);
      EfficiencyOf(seen + [r], excluded) == Efficiency(
        s.total + 1, s.excluded, true, Increment(s.byClass, ClassKey(r)), Increment(s.byStatus, StatusKey(r)),
        Increment(s.byModel, ActualModelKey(r)), Increment(s.byEffort, EffortKey(r)), s.totalAttempts + Attempts(r),
        s.deltas + (if DeltaRecorded(r) then 1 else 0), s.recommendations + (if Recommends(r) then 1 else 0))
  {
    hide Tally, Total, Where, Increment, Attempts, DeltaRecorded, Recommends, ClassKey, StatusKey, ActualModelKey,
         EffortKey;
    TallyAdds(seen, r, ClassKey);
    TallyAdds(seen, r, StatusKey);
    TallyAdds(seen, r, ActualModelKey);
    TallyAdds(seen, r, EffortKey);
    TotalAdds(seen, r, Attempts, Reals());
    WhereAdds(seen, r, DeltaRecorded);
    WhereAdds(seen, r, Recommends);
  }

  /** Something recommended: a model or an effort that is neither absent nor null. */
  predicate Recommended(r: Fields, field: string) { field in r && r[field] != Null && r[field] != Missing }

  /** The summary of one efficiency event. */
  lemma OneEvent(r: Fields)
    ensures EfficiencyOf([r], 0) == Efficiency(
      1, 0, true, Increment(map[], TextOr(r, "work_unit_class", "unknown")),
      Increment(map[], TextOr(r, "status", "unknown")), Increment(map[], TextOr(r, "actual_model", "unknown")),
      Increment(map[], TextOr(r, "actual_reasoning_effort", "unknown")), NumberOf(r, "total_attempts"),
      if "attempt_delta_recorded" in r && r["attempt_delta_recorded"] == Bool(true) then 1 else 0,
      if Recommended(r, "recommended_model") || Recommended(r, "recommended_reasoning_effort") then 1 else 0)
  {
    EventAdds([], 0, r);
    assert [] + [r] == [r];
    assert EfficiencyOf([], 0) == Efficiency(0, 0, false, map[], map[], map[], map[], 0.0, 0, 0);
    OneEventParts(r);
    hide EfficiencyOf, Increment, TextOr, NumberOf, Recommended, Attempts, DeltaRecorded, Recommends, ClassKey,
         StatusKey, ActualModelKey, EffortKey;
  }

  lemma OneEventParts(r: Fields)
    ensures ClassKey(r) == TextOr(r, "work_unit_class", "unknown") && StatusKey(r) == TextOr(r, "status", "unknown")
    ensures ActualModelKey(r) == TextOr(r, "actual_model", "unknown")
    ensures EffortKey(r) == TextOr(r, "actual_reasoning_effort", "unknown")
    ensures Attempts(r) == NumberOf(r, "total_attempts")
    ensures DeltaRecorded(r) <==> "attempt_delta_recorded" in r && r["attempt_delta_recorded"] == Bool(true)
    ensures Recommends(r) <==> Recommended(r, "recommended_model") || Recommended(r, "recommended_reasoning_effort")
  {
  }

  function MergeEfficiency(a: Efficiency, b: Efficiency): Efficiency {
    Efficiency(
      a.total + b.total, a.excluded + b.excluded, a.observed || b.observed, MergeBuckets(a.byClass, b.byClass),
      MergeBuckets(a.byStatus, b.byStatus), MergeBuckets(a.byModel, b.byModel), MergeBuckets(a.byEffort, b.byEffort),
      a.totalAttempts + b.totalAttempts, a.deltas + b.deltas, a.recommendations + b.recommendations)
  }

  /** Summarising a concatenation is merging the two summaries. */
  lemma EfficiencyMerges(a: seq<Entry>, b: seq<Entry>, w: Window)
    ensures EfficiencySummaryOf(a + b, w) == MergeEfficiency(EfficiencySummaryOf(a, w), EfficiencySummaryOf(b, w))
  {
    hide Tally, Total, Where, MergeBuckets, Lawful, Attempts, Included;
    IncludedMerges(a, b, w);
    var s, t := Included(a, w), Included(b, w);
    RealsLawful();
    TallyMerges(s, t, ClassKey);
    TallyMerges(s, t, StatusKey);
    TallyMerges(s, t, ActualModelKey);
    TallyMerges(s, t, EffortKey);
    TotalMerges(s, t, Attempts, Reals());
    WhereMerges(s, t, DeltaRecorded);
    WhereMerges(s, t, Recommends);
  }

  lemma RealsLawful()
    ensures Lawful(Reals())
  {
  }

  /** Each of the four buckets sums to the total, unless a record in it falls under an inherited key. */
  lemma EfficiencyConserves(seen: seq<Fields>, excluded: nat)
    ensures var s := EfficiencyOf(seen, excluded);
      (BucketSum(s.byClass) == s.total <==> forall i :: 0 <= i < |seen| ==> !Inherited(ClassKey(seen[i]))) &&
      (BucketSum(s.byStatus) == s.total <==> forall i :: 0 <= i < |seen| ==> !Inherited(StatusKey(seen[i]))) &&
      (BucketSum(s.byModel) == s.total <==> forall i :: 0 <= i < |seen| ==> !Inherited(ActualModelKey(seen[i]))) &&
      (BucketSum(s.byEffort) == s.total <==> forall i :: 0 <= i < |seen| ==> !Inherited(EffortKey(seen[i])))
  {
    hide Tally, BucketSum, Inherited, ClassKey, StatusKey, ActualModelKey, EffortKey, Total, Where;
    BucketConserves(seen, ClassKey);
    BucketConserves(seen, StatusKey);
    BucketConserves(seen, ActualModelKey);
    BucketConserves(seen, EffortKey);
  }
}
