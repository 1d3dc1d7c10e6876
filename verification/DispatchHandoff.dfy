/** `dispatchHandoff` over the one gateway object all calls share, in the stretches before and after its worker runs. */
module DispatchHandoff {
  import opened Text
  import opened DispatchGates
  import opened DispatchProtocol
  import opened DispatchAccounting

  class TokenGateway {
    const limits: Limits
    var state: Gateway

    constructor (limits: Limits, file: Gateway)
      ensures this.limits == limits && state == file
    {
      this.limits, state := limits, file;
    }

    /** `persists` and `newId` are what the file system and the id generator answer. */
    method Reserve(r: Reservation, persists: bool, newId: nat, ghost issued: set<nat>) returns (answer: ReserveAnswer)
      requires OnePerHandoff(state) && state.active.Keys <= issued && newId !in issued && r.handoffId.Some?
      modifies this
      ensures Reserves(old(state), r, limits, answer, state, issued)
      ensures NoneActive(old(state), r.handoffId) ==>
        answer == if !Admits(old(state), r, limits) then Rejected
                  else if persists then Granted(newId) else ReserveFault(Some(newId))
      ensures !NoneActive(old(state), r.handoffId) ==> answer.Granted? || answer.Rejected?
    {
      hide Admits, AddUsage;
      if id :| id in state.active && state.active[id].handoffId == r.handoffId {
        return if state.active[id] == r then Granted(id) else Rejected;
      }
      if !Admits(state, r, limits) {
        return Rejected;
      }
      state := Gateway(state.active[newId := r], state.terminal, AddUsage(state.used, r, Total(r)));
      answer := if persists then Granted(newId) else ReserveFault(Some(newId));
    }

    method Settle(id: nat, input: nat, output: nat, persists: bool) returns (answer: SettleAnswer)
      modifies this
      ensures Settles(old(state), id, input, output, limits, answer, state)
      ensures id in old(state).active && !answer.SettleRejected? ==> (answer.Settled? <==> persists)
    {
      hide Accepts;
      if id !in state.active {
        return if id in state.terminal && state.terminal[id].WasSettled? then Settled else SettleRejected;
      }
      if !Accepts(state, state.active[id], input, output, limits) {
        return SettleRejected;
      }
      Close(id, WasSettled, input + output);
      answer := if persists then Settled else SettleFault;
    }

    method Release(id: nat, persists: bool) returns (ok: bool)
      modifies this
      ensures Releases(old(state), id, ok, state)
      ensures id in old(state).active ==> ok == persists
    {
      if id !in state.active {
        return id in state.terminal;
      }
      Close(id, WasReleased, 0);
      ok := persists;
    }

    method Close(id: nat, how: Terminal, spent: nat)
      requires id in state.active
      modifies this
      ensures Closes(old(state), id, how, spent, state)
    {
      hide AddUsage, Prunes, Total;
      var r := state.active[id];
      var given := AddUsage(state.used, r, -(Total(r) as int));
      state := Gateway(state.active - {id}, state.terminal[id := how], AddUsage(given, r, spent));
      PruneTerminal();
    }

    /** The oldest go first; any of them may be the oldest. */
    method PruneTerminal()
      modifies this
      ensures state == old(state).(terminal := state.terminal) && Prunes(old(state).terminal, state.terminal)
    {
      while |state.terminal| > MAX_TERMINAL
        invariant state == old(state).(terminal := state.terminal)
        invariant state.terminal.Keys <= old(state).terminal.Keys
        invariant forall id :: id in state.terminal ==> state.terminal[id] == old(state).terminal[id]
        invariant |state.terminal| == |old(state).terminal| || |old(state).terminal| > |state.terminal| >= MAX_TERMINAL
        decreases |state.terminal|
      {
        var oldest :| oldest in state.terminal;
        assert (state.terminal - {oldest}).Keys == state.terminal.Keys - {oldest};
        state := state.(terminal := state.terminal - {oldest});
      }
    }
  }

  /** What is to be recorded: gateway calls, worker starts, efficiency events and decisions. */
  class Journal {
    var events: seq<Event>

    constructor ()
      ensures events == []
    {
      events := [];
    }

    method Record(more: seq<Event>)
      modifies this
      ensures events == old(events) + more
    {
      events := events + more;
    }
  }

  /** What the outside world answers before the worker runs. */
  datatype World = World(evidence: Evidence, persists: bool, newId: nat)

  /** The call has ended, or it waits for its worker. */
  datatype Progress = Ended(ending: Ending) | Awaits(tier: Option<string>, held: Option<nat>)

  function PhaseAt(p: Progress): Phase { if p.Ended? then Finished(p.ending) else Running(p.tier, p.held) }

  /** A run of dispatches over one gateway object, which is now in state `g`. */
  ghost predicate Follows(r: Run, i: nat, g: Gateway, hash: Digest) {
    r.states != [] && IsRun(r, hash) && r.states[0].shared && Last(r).shared && i < |Last(r).ds| && Last(r).store == g
  }

  /** The dispatch is of this handoff and looks at this gateway object. */
  predicate Bound(d: Dispatch, h: Handoff, gateway: TokenGateway) { d.h == h && d.limits == gateway.limits }

  /** `r'` continues `r` by steps of dispatch `i` alone, which record `said`. */
  ghost predicate Continues(r: Run, i: nat, said: seq<Event>, r': Run, hash: Digest)
    requires r.states != []
  {
    IsRun(r', hash) && r.states <= r'.states && r.labels <= r'.labels && OnlyMoves(Last(r), i, Last(r')) &&
    Last(r').ds[i].trace == Last(r).ds[i].trace + said
  }

  lemma NextShared(s: State, i: nat, a: Action, g': Gateway, hash: Digest)
    requires s.shared && i < |s.ds| && Enabled(s.ds[i], a) && GatewayStep(s.ds[i], a, s.store, g', s.issued)
    ensures var s' := Next(s, Label(i, a, g', false), hash);
            OnlyMoves(s, i, s') && s'.store == g' && s'.issued == s.issued + IssuedBy(a) &&
            s'.ds[i].phase == After(s.ds[i], a, hash).phase && s'.ds[i].trace == After(s.ds[i], a, hash).trace
  {
    HandoffStays(s.ds[i], a, hash);
    assert !TouchesStore(a) ==> g' == s.store;
    hide After, Enabled, GatewayStep;
  }

  lemma Act(r: Run, i: nat, g: Gateway, a: Action, g': Gateway, more: seq<Event>, hash: Digest) returns (r': Run)
    requires Follows(r, i, g, hash) && Enabled(Last(r).ds[i], a)
    requires GatewayStep(Last(r).ds[i], a, g, g', Last(r).issued)
    requires After(Last(r).ds[i], a, hash).trace == Last(r).ds[i].trace + more
    ensures Follows(r', i, g', hash) && Continues(r, i, more, r', hash)
    ensures Last(r').ds[i].phase == After(Last(r).ds[i], a, hash).phase
    ensures Last(r').issued == Last(r).issued + IssuedBy(a)
  {
    hide After, Enabled, GatewayStep, Next, IsRun;
    NextShared(Last(r), i, a, g', hash);
    r' := Extend(r, Label(i, a, g', false), hash);
    assert r'.states[0] == r.states[0];
  }

  lemma ContinuesOn(r: Run, i: nat, said: seq<Event>, r': Run, more: seq<Event>, r'': Run, hash: Digest)
    requires r.states != [] && Continues(r, i, said, r', hash) && r'.states != [] && Continues(r', i, more, r'', hash)
    ensures Continues(r, i, said + more, r'', hash)
  {
    hide IsRun;
    assert Last(r).ds[i].trace + said + more == Last(r).ds[i].trace + (said + more);
  }

  lemma GatewayFit(r: Run, i: nat, g: Gateway, hash: Digest)
    requires Follows(r, i, g, hash)
    ensures OnePerHandoff(g) && g.active.Keys <= Last(r).issued
  {
    hide IsRun;
    GatewayInRun(r, hash, |r.states| - 1);
  }

  /**
   * From the call to the wait for the worker, or to an early end. Whatever run of dispatches has led to the state of
   * the gateway object, this stretch continues it by steps of this dispatch, and records what they record.
   */
  method StartDispatch(h: Handoff, hash: Digest, world: World, gateway: TokenGateway, journal: Journal,
                       ghost r: Run, ghost i: nat)
    returns (progress: Progress, ghost r': Run, ghost said: seq<Event>)
    requires Follows(r, i, gateway.state, hash) && Last(r).ds[i].phase.Waiting? && Bound(Last(r).ds[i], h, gateway)
    requires world.newId !in Last(r).issued
    modifies gateway, journal
    ensures Follows(r', i, gateway.state, hash) && Continues(r, i, said, r', hash)
    ensures Last(r').ds[i].phase == PhaseAt(progress) && journal.events == old(journal.events) + said
  {
    hide Gate, RequestOf, RefusalEvents, IsRun;
    var verdict := Gate(h, world.evidence, hash);
    if verdict.Refuse? {
      var refusal := RefusalEvents(h, verdict.reason, verdict.tier);
      journal.Record(refusal);
      r' := Act(r, i, gateway.state, PassGates(world.evidence), gateway.state, refusal, hash);
      return Ended(GateRefused(verdict.reason, verdict.tier, verdict.verified)), r', refusal;
    }
    ghost var cleared := Act(r, i, gateway.state, PassGates(world.evidence), gateway.state, [], hash);
    progress, r', said := ReserveAndLaunch(h, hash, verdict.tier, world, gateway, journal, cleared, i);
    ContinuesOn(r, i, [], cleared, said, r', hash);
    assert [] + said == said;
  }

  /** Past the gates: the reservation, unless the caller has one, and the start of the worker. */
  method ReserveAndLaunch(h: Handoff, hash: Digest, tier: Option<string>, world: World, gateway: TokenGateway,
                          journal: Journal, ghost r: Run, ghost i: nat)
    returns (progress: Progress, ghost r': Run, ghost said: seq<Event>)
    requires Follows(r, i, gateway.state, hash) && Bound(Last(r).ds[i], h, gateway)
    requires Last(r).ds[i].phase == Cleared(tier)
    requires world.newId !in Last(r).issued
    modifies gateway, journal
    ensures Follows(r', i, gateway.state, hash) && Continues(r, i, said, r', hash)
    ensures Last(r').ds[i].phase == PhaseAt(progress) && journal.events == old(journal.events) + said
  {
    hide RequestOf, Reserves, Effect, RefusalEvents, IsRun, Admits, NoneActive;
    var launch := Effect(h, Started) + [WorkerStarted];
    if h.owner.ByCaller? {
      journal.Record(launch);
      r' := Act(r, i, gateway.state, Launch, gateway.state, launch, hash);
      return Awaits(tier, None), r', launch;
    }
    ghost var before := gateway.state;
    GatewayFit(r, i, before, hash);
    var answer := gateway.Reserve(RequestOf(h), world.persists, world.newId, Last(r).issued);
    var refusal := if answer.Rejected? then RefusalEvents(h, TokenBudgetExhausted, tier) else [];
    journal.Record([ReserveCall(answer)] + refusal);
    r' := Act(r, i, before, Action.Reserve(answer), gateway.state, [ReserveCall(answer)] + refusal, hash);
    match answer {
      case Rejected => return Ended(BudgetRefused(tier)), r', [ReserveCall(answer)] + refusal;
      case ReserveFault(left) => return Ended(ReserveThrew(left)), r', [ReserveCall(answer)] + refusal;
      case Granted(id) =>
        ghost var held := r';
        journal.Record(launch);
        r' := Act(held, i, gateway.state, Launch, gateway.state, launch, hash);
        ContinuesOn(r, i, [ReserveCall(answer)] + refusal, held, launch, r', hash);
        return Awaits(tier, Some(id)), r', [ReserveCall(answer)] + refusal + launch;
    }
  }

  /** The catch branch: the failure is recorded, then whatever is held is released. */
  method AfterWorkerThrew(h: Handoff, hash: Digest, held: Option<nat>, persists: bool, gateway: TokenGateway,
                          journal: Journal, ghost r: Run, ghost i: nat)
    returns (ending: Ending, ghost r': Run, ghost said: seq<Event>)
    requires Follows(r, i, gateway.state, hash) && Bound(Last(r).ds[i], h, gateway)
    requires Last(r).ds[i].phase.Running? && Last(r).ds[i].phase.held == held
    modifies gateway, journal
    ensures Follows(r', i, gateway.state, hash) && Continues(r, i, said, r', hash)
    ensures Last(r').ds[i].phase == Finished(ending) && journal.events == old(journal.events) + said
  {
    hide Effect, Releases, IsRun;
    journal.Record(Effect(h, Failed));
    ghost var before := gateway.state;
    ghost var failing := Act(r, i, before, WorkerThrows, before, Effect(h, Failed), hash);
    if held.None? {
      return WorkerThrew(None, false), failing, Effect(h, Failed);
    }
    var ok := gateway.Release(held.value, persists);
    journal.Record([ReleaseCall(held.value, ok)]);
    r' := Act(failing, i, before, Action.Release(ok), gateway.state, [ReleaseCall(held.value, ok)], hash);
    ContinuesOn(r, i, Effect(h, Failed), failing, [ReleaseCall(held.value, ok)], r', hash);
    said := Effect(h, Failed) + [ReleaseCall(held.value, ok)];
    ending := WorkerThrew(held, ok);
  }

  /** The worker returned: settle what is held, then report. */
  method AfterWorkerReturned(h: Handoff, hash: Digest, tier: Option<string>, held: Option<nat>, result: WorkerResult,
                             persists: bool, gateway: TokenGateway, journal: Journal,
                             ghost r: Run, ghost i: nat)
    returns (ending: Ending, ghost r': Run, ghost said: seq<Event>)
    requires Follows(r, i, gateway.state, hash) && Bound(Last(r).ds[i], h, gateway)
    requires Last(r).ds[i].phase == Running(tier, held)
    modifies gateway, journal
    ensures Follows(r', i, gateway.state, hash) && Continues(r, i, said, r', hash)
    ensures Last(r').ds[i].phase == Finished(ending) && journal.events == old(journal.events) + said
  {
    hide Effect, Settles, IsRun;
    ghost var before := gateway.state;
    var settled := Settled;
    if held.Some? {
      settled := gateway.Settle(held.value, h.inputTokens, result.outputTokens, persists);
      journal.Record([SettleCall(held.value, settled)]);
    }
    var refused := held.Some? && settled.SettleRejected? && result.errorFree;
    var report := if refused then Effect(h, Failed)
      else Effect(h, if Succeeded(result) then Completed else Failed) + [Decision(true, None, tier)];
    ending := if refused then SettlementRefused(tier, held.value, result) else Dispatched(tier, held, settled, result);
    journal.Record(report);
    said := if held.Some? then [SettleCall(held.value, settled)] + report else report;
    r' := Concluding(r, i, before, result, settled, gateway.state, said, ending, hash);
  }

  /** The steps of a dispatch whose worker returned, when it has settled and reported. */
  lemma Concluding(r: Run, i: nat, g: Gateway, result: WorkerResult, settled: SettleAnswer, g': Gateway,
                   said: seq<Event>, ending: Ending, hash: Digest)
    returns (r': Run)
    requires Follows(r, i, g, hash) && Last(r).ds[i].phase.Running?
    requires var held := Last(r).ds[i].phase.held;
             var d := Last(r).ds[i];
             if held.Some? then
               Settles(g, held.value, d.h.inputTokens, result.outputTokens, d.limits, settled, g')
             else g' == g && settled.Settled?
    requires var d := Last(r).ds[i];
             AfterSettle(d.(phase := Returned(d.phase.tier, d.phase.held, result)), settled) ==
             d.(phase := Finished(ending), trace := d.trace + said)
    ensures Follows(r', i, g', hash) && Continues(r, i, said, r', hash) && Last(r').ds[i].phase == Finished(ending)
  {
    hide Effect, Settles, IsRun;
    var returned := Act(r, i, g, WorkerReturns(result), g, [], hash);
    hide AfterSettle;
    CopyApart(Last(returned).ds[i], Last(r).ds[i].(phase := Last(returned).ds[i].phase), settled);
    r' := Act(returned, i, g, Conclude(settled), g', said, hash);
    ContinuesOn(r, i, [], returned, said, r', hash);
    assert [] + said == said;
  }
  lemma CopyApart(d: Dispatch, d': Dispatch, settled: SettleAnswer)
    requires d.phase.Returned? && d'.h == d.h && d'.phase == d.phase && d'.trace == d.trace
    ensures AfterSettle(d, settled).phase == AfterSettle(d', settled).phase
    ensures AfterSettle(d, settled).trace == AfterSettle(d', settled).trace
  {
  }
}
