/** Safety of every run of interleaved dispatches. */
module DispatchSafety {
  import opened Text
  import opened DispatchGates
  import opened DispatchProtocol

  // ----- Reading a trace

  /** Worker starts, reservations granted, reservations passed to settle or release, telemetry. */
  datatype Reading = Reading(starts: nat, grants: seq<nat>, closings: seq<nat>, statuses: seq<Status>, gateway: bool)

  const BLANK := Reading(0, [], [], [], false)

  function ReadEvent(e: Event): Reading {
    match e
    case WorkerStarted => BLANK.(starts := 1)
    case ReserveCall(Granted(id)) => BLANK.(grants := [id], gateway := true)
    case ReserveCall(_) => BLANK.(gateway := true)
    case SettleCall(id, _) => BLANK.(closings := [id], gateway := true)
    case ReleaseCall(id, _) => BLANK.(closings := [id], gateway := true)
    case Efficiency(status) => BLANK.(statuses := [status])
    case Decision(_, _, _) => BLANK
  }

  function Merge(x: Reading, y: Reading): Reading {
    Reading(x.starts + y.starts, x.grants + y.grants, x.closings + y.closings, x.statuses + y.statuses,
            x.gateway || y.gateway)
  }

  function Read(trace: seq<Event>): Reading {
    if trace == [] then BLANK else Merge(ReadEvent(trace[0]), Read(trace[1..]))
  }

  lemma MergeLaws(x: Reading, y: Reading, z: Reading)
    ensures Merge(Merge(x, y), z) == Merge(x, Merge(y, z))
    ensures Merge(BLANK, x) == x && Merge(x, BLANK) == x
  {
    assert (x.grants + y.grants) + z.grants == x.grants + (y.grants + z.grants);
    assert (x.closings + y.closings) + z.closings == x.closings + (y.closings + z.closings);
    assert (x.statuses + y.statuses) + z.statuses == x.statuses + (y.statuses + z.statuses);
  }

  lemma {:induction false} ReadConcat(x: seq<Event>, y: seq<Event>)
    ensures Read(x + y) == Merge(Read(x), Read(y))
  {
    hide ReadEvent, Merge;
    if x == [] {
      assert x + y == y;
      MergeLaws(Read(y), BLANK, BLANK);
    } else {
      assert (x + y)[1..] == x[1..] + y;
      ReadConcat(x[1..], y);
      MergeLaws(ReadEvent(x[0]), Read(x[1..]), Read(y));
    }
  }

  lemma ReadOne(e: Event)
    ensures Read([]) == BLANK && Read([e]) == ReadEvent(e)
  {
    hide ReadEvent, Merge;
    assert [e][1..] == [];
    MergeLaws(ReadEvent(e), BLANK, BLANK);
  }

  predicate IsStatusTrace(statuses: seq<Status>) {
    statuses == [RefusedStatus] || statuses == [Started, Completed] || statuses == [Started, Failed] || statuses == []
  }

  function GrantsOf(held: Option<nat>): seq<nat> { if held.Some? then [held.value] else [] }

  function StatusOf(h: Handoff, status: Status): seq<Status> { if h.tracksEfficiency then [status] else [] }

  lemma ReadEffect(h: Handoff, status: Status)
    ensures Read(Effect(h, status)) == BLANK.(statuses := StatusOf(h, status))
  {
    ReadOne(Efficiency(status));
  }

  lemma ReadRefusal(h: Handoff, reason: Reason, tier: Option<string>)
    ensures Read(RefusalEvents(h, reason, tier)) == BLANK.(statuses := StatusOf(h, RefusedStatus))
  {
    hide Read, Effect, Merge, StatusOf;
    var decision := Decision(false, Some(reason), tier);
    ReadEffect(h, RefusedStatus);
    ReadOne(decision);
    ReadConcat(Effect(h, RefusedStatus), [decision]);
    MergeLaws(Read(Effect(h, RefusedStatus)), BLANK, BLANK);
  }

  lemma ReadLaunched(h: Handoff, held: Option<nat>)
    ensures Read(Launched(h, held)) == Reading(1, GrantsOf(held), [], StatusOf(h, Started), held.Some?)
  {
    hide Read, Effect, StatusOf, Merge;
    var reserve: seq<Event> := if held.Some? then [ReserveCall(Granted(held.value))] else [];
    if held.Some? { ReadOne(ReserveCall(Granted(held.value))); }
    ReadEffect(h, Started);
    ReadOne(WorkerStarted);
    ReadConcat(reserve, Effect(h, Started));
    ReadConcat(reserve + Effect(h, Started), [WorkerStarted]);
    MergeReadings(GrantsOf(held), StatusOf(h, Started), held.Some?);
  }

  lemma MergeReadings(grants: seq<nat>, statuses: seq<Status>, gateway: bool)
    ensures Merge(Merge(BLANK.(grants := grants, gateway := gateway), BLANK.(statuses := statuses)),
                  BLANK.(starts := 1)) ==
            Reading(1, grants, [], statuses, gateway)
  {
    assert grants + [] + [] == grants;
    assert [] + statuses + [] == statuses;
  }

  /** A launched dispatch that then makes one closing call and records one status, in either order. */
  lemma ReadClosed(h: Handoff, held: Option<nat>, closing: seq<Event>, status: Status)
    requires if held.Some? then
               |closing| == 1 && ReadEvent(closing[0]) == BLANK.(closings := [held.value], gateway := true)
             else closing == []
    ensures var r := Reading(1, GrantsOf(held), GrantsOf(held), StatusOf(h, Started) + StatusOf(h, status), held.Some?);
            Read(Launched(h, held) + closing + Effect(h, status)) == r &&
            Read(Launched(h, held) + Effect(h, status) + closing) == r
  {
    hide Read, Launched, Effect;
    ReadLaunched(h, held);
    ReadEffect(h, status);
    if held.Some? {
      ReadOne(closing[0]);
      assert closing == [closing[0]];
    } else {
      ReadOne(WorkerStarted);
    }
    ReadConcat(Launched(h, held), closing);
    ReadConcat(Launched(h, held) + closing, Effect(h, status));
    ReadConcat(Launched(h, held), Effect(h, status));
    ReadConcat(Launched(h, held) + Effect(h, status), closing);
  }

  function FinalStatuses(h: Handoff, ending: Ending): seq<Status> {
    match ending
    case GateRefused(_, _, _) => StatusOf(h, RefusedStatus)
    case BudgetRefused(_) => StatusOf(h, RefusedStatus)
    case ReserveThrew(_) => []
    case Dispatched(_, _, _, result) =>
      StatusOf(h, Started) + StatusOf(h, if Succeeded(result) then Completed else Failed)
    case _ => StatusOf(h, Started) + StatusOf(h, Failed)
  }

  /** What the closed form of a dispatch's trace says about its calls and its telemetry. */
  lemma ReadTrace(h: Handoff, phase: Phase)
    ensures var r := Read(TraceOf(h, phase));
            r.starts == (if WorkerLaunched(phase) then 1 else 0) &&
            r.grants == GrantsOf(HeldBy(phase)) &&
            r.closings == (if phase.Finished? then GrantsOf(HeldBy(phase)) else []) &&
            (r.gateway <==> TouchesGateway(phase)) &&
            (phase.Finished? ==> r.statuses == FinalStatuses(h, phase.ending))
  {
    hide Read, Launched, Effect, RefusalEvents, StatusOf;
    ReadNothing();
    match phase
    case Holding(_, id) => ReadOne(ReserveCall(Granted(id)));
    case Running(_, held) => ReadLaunched(h, held);
    case Returned(_, held, _) => ReadLaunched(h, held);
    case Failing(id) =>
      ReadLaunched(h, Some(id));
      ReadEffect(h, Failed);
      ReadConcat(Launched(h, Some(id)), Effect(h, Failed));
    case Finished(ending) => ReadEnding(h, ending);
    case _ =>
  }

  lemma ReadNothing()
    ensures Read([]) == BLANK
  {
  }

  lemma ReadEnding(h: Handoff, ending: Ending)
    ensures var r, phase := Read(TraceOf(h, Finished(ending))), Finished(ending);
            r.starts == (if WorkerLaunched(phase) then 1 else 0) &&
            r.grants == GrantsOf(HeldBy(phase)) && r.closings == GrantsOf(HeldBy(phase)) &&
            (r.gateway <==> TouchesGateway(phase)) && r.statuses == FinalStatuses(h, ending)
  {
    hide Read, Launched, Effect, RefusalEvents, StatusOf;
    match ending
    case GateRefused(reason, tier, _) => ReadRefusal(h, reason, tier);
    case BudgetRefused(tier) => ReadBudgetRefusal(h, tier);
    case ReserveThrew(left) => ReadOne(ReserveCall(ReserveFault(left)));
    case WorkerThrew(None, ok) => ReadClosed(h, None, [], Failed);
      assert Launched(h, None) + Effect(h, Failed) + [] == Launched(h, None) + Effect(h, Failed);
    case WorkerThrew(Some(id), ok) => ReadClosed(h, Some(id), [ReleaseCall(id, ok)], Failed);
    case SettlementRefused(_, id, _) => ReadClosed(h, Some(id), [SettleCall(id, SettleRejected)], Failed);
    case Dispatched(tier, held, settle, result) => ReadDispatched(h, tier, held, settle, result);
  }

  lemma ReadBudgetRefusal(h: Handoff, tier: Option<string>)
    ensures Read(TraceOf(h, Finished(BudgetRefused(tier)))) ==
            BLANK.(gateway := true, statuses := StatusOf(h, RefusedStatus))
  {
    hide Read, RefusalEvents, StatusOf;
    ReadRefusal(h, TokenBudgetExhausted, tier);
    ReadOne(ReserveCall(Rejected));
    ReadConcat([ReserveCall(Rejected)], RefusalEvents(h, TokenBudgetExhausted, tier));
    assert [] + StatusOf(h, RefusedStatus) == StatusOf(h, RefusedStatus);
  }

  lemma ReadDispatched(h: Handoff, tier: Option<string>, held: Option<nat>, settle: SettleAnswer, result: WorkerResult)
    ensures Read(TraceOf(h, Finished(Dispatched(tier, held, settle, result)))) ==
            Reading(1, GrantsOf(held), GrantsOf(held),
                    StatusOf(h, Started) + StatusOf(h, if Succeeded(result) then Completed else Failed), held.Some?)
  {
    hide Read, Launched, Effect, StatusOf, Merge;
    var closing: seq<Event> := if held.Some? then [SettleCall(held.value, settle)] else [];
    var status := if Succeeded(result) then Completed else Failed;
    var before := Launched(h, held) + closing + Effect(h, status);
    ReadClosed(h, held, closing, status);
    ReadOne(Decision(true, None, tier));
    ReadConcat(before, [Decision(true, None, tier)]);
    MergeLaws(Read(before), BLANK, BLANK);
  }

  /**
   * In every state of every run, whatever the interleaving: a dispatch starts its worker at most once
   * and only after its gates passed; it closes only what it was granted, and once it has finished it
   * has closed each grant exactly once; a caller-owned dispatch never calls the gateway; and a
   * finished dispatch has left one of the four efficiency traces.
   */
  lemma RunSafety(r: Run, hash: Digest, k: nat, i: nat)
    requires IsRun(r, hash) && k < |r.states| && i < |r.states[k].ds|
    ensures var d := r.states[k].ds[i];
            var seen := Read(d.trace);
            seen.starts <= 1 &&
            (seen.starts == 1 ==> d.evidence.Some? && Gate(d.h, d.evidence.value, hash).Pass?) &&
            (seen.starts == 1 && d.h.owner.ByDispatch? ==> |seen.grants| == 1) &&
            |seen.grants| <= 1 && seen.closings <= seen.grants &&
            (d.phase.Finished? ==> seen.closings == seen.grants) &&
            (d.h.owner.ByCaller? ==> !seen.gateway) &&
            (d.phase.Finished? ==> IsStatusTrace(seen.statuses))
  {
    hide IsRun, Gate, TraceOf, Read;
    DispatchCount(r, hash, k);
    TracesInRun(r, hash, k, i);
    var d := r.states[k].ds[i];
    ReadTrace(d.h, d.phase);
  }

  lemma {:induction false} DispatchCount(r: Run, hash: Digest, k: nat)
    requires IsRun(r, hash) && k < |r.states|
    ensures |r.states[k].ds| == |r.states[0].ds|
  {
    if k > 0 {
      DispatchCount(r, hash, k - 1);
      assert Step(r.states[k - 1], r.labels[k - 1], r.states[k], hash);
    }
  }

  /** No worker runs on a packet other than the one its handoff was issued for. */
  lemma WorkerRunsIssuedPacket(r: Run, hash: Digest, k: nat, i: nat, packet: Packet, mode: Option<Mode>)
    requires IsRun(r, hash) && k < |r.states| && i < |r.states[k].ds| && Injective(hash)
    requires IssuedFor(r.states[k].ds[i].h, packet, mode, hash) && Read(r.states[k].ds[i].trace).starts == 1
    ensures var d := r.states[k].ds[i];
            d.evidence.Some? && SamePacket(d.evidence.value.live, packet) && d.h.mode == mode &&
            d.h.requiredChecks != []
  {
    RunSafety(r, hash, k, i);
    var d := r.states[k].ds[i];
    GatePassesExactly(d.h, d.evidence.value, packet, mode, hash);
  }
}
