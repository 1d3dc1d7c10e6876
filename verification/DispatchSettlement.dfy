/** Which settlements a gateway refuses, and so when a run leaves nothing reserved, said of what workers put out. */
module DispatchSettlement {
  import opened Text
  import opened DispatchGates
  import opened DispatchProtocol
  import opened DispatchAccounting

  // ----- Budgets

  /** On its own the reservation is within every limit. */
  predicate Fits(r: Reservation, limits: Limits) {
    r.inputTokens <= limits.inputCap && r.outputTokens <= limits.outputCap &&
    forall k :: k in UsageKeys(r) ==> Total(r) <= Cap(k, limits)
  }

  /** Every counter is within its budget, and every active reservation within the limits. */
  ghost predicate Bounded(g: Gateway, limits: Limits) {
    (forall k :: Used(g.used, k) <= Cap(k, limits)) && forall id :: id in g.active ==> Fits(g.active[id], limits)
  }

  lemma UsageAdded(used: map<UsageKey, nat>, r: Reservation, amount: int, k: UsageKey)
    ensures Used(AddUsage(used, r, amount), k) ==
      if k !in UsageKeys(r) then Used(used, k)
      else if Used(used, k) + amount > 0 then Used(used, k) + amount
      else 0
  {
  }

  /**
   * While the gateway is within its budgets, they never refuse a settlement of what was reserved for: it is accepted
   * exactly when the output is no more than the output reserved.
   */
  lemma OutputAloneDecides(g: Gateway, id: nat, output: nat, limits: Limits)
    requires Bounded(g, limits) && id in g.active
    ensures Accepts(g, g.active[id], g.active[id].inputTokens, output, limits) <==> output <= g.active[id].outputTokens
  {
    assert Fits(g.active[id], limits);
  }

  lemma InsertKeepsBounds(g: Gateway, r: Reservation, limits: Limits, id: nat, g': Gateway, issued: set<nat>)
    requires Bounded(g, limits) && Inserts(g, r, limits, id, g', issued)
    ensures Bounded(g', limits)
  {
    hide AddUsage, NoneActive;
    forall k ensures Used(g'.used, k) <= Cap(k, limits) {
      UsageAdded(g.used, r, Total(r), k);
    }
  }

  lemma CloseKeepsBounds(g: Gateway, id: nat, how: Terminal, spent: nat, g': Gateway, limits: Limits)
    requires Bounded(g, limits) && Closes(g, id, how, spent, g') && spent <= Total(g.active[id])
    ensures Bounded(g', limits)
  {
    hide AddUsage, Prunes;
    var r := g.active[id];
    assert Fits(r, limits);
    var given := AddUsage(g.used, r, -(Total(r) as int));
    forall k ensures Used(g'.used, k) <= Cap(k, limits) {
      UsageAdded(g.used, r, -(Total(r) as int), k);
      UsageAdded(given, r, spent, k);
    }
  }

  /** No call takes a gateway out of its budgets, faults included. */
  lemma BoundsKept(d: Dispatch, a: Action, g: Gateway, g': Gateway, issued: set<nat>)
    requires Enabled(d, a) && GatewayStep(d, a, g, g', issued) && Bounded(g, d.limits)
    ensures Bounded(g', d.limits)
  {
    hide Bounded, Closes, Inserts, RequestOf;
    match a
    case Reserve(Granted(id)) =>
      if id !in g.active { InsertKeepsBounds(g, RequestOf(d.h), d.limits, id, g', issued); }
    case Reserve(ReserveFault(Some(id))) => InsertKeepsBounds(g, RequestOf(d.h), d.limits, id, g', issued);
    case Conclude(answer) =>
      if d.phase.held.Some? && d.phase.held.value in g.active && !answer.SettleRejected? {
        var spent := d.h.inputTokens + d.phase.result.outputTokens;
        CloseKeepsBounds(g, d.phase.held.value, WasSettled, spent, g', d.limits);
      }
    case Release(ok) =>
      if d.phase.id in g.active { CloseKeepsBounds(g, d.phase.id, WasReleased, 0, g', d.limits); }
    case _ =>
  }

  // ----- What a dispatch does to what it holds

  /** It ended in a close that was not refused. */
  predicate HasClosed(phase: Phase) { phase.Finished? && !CloseRefused(phase) }

  /** Its worker threw, or put out no more than was reserved for it. */
  predicate StayedWithin(phase: Phase) {
    phase.Finished? &&
    match phase.ending
    case WorkerThrew(_, _) => true
    case SettlementRefused(_, _, result) => result.outputTokens <= OUTPUT_ALLOWANCE
    case Dispatched(_, _, _, result) => result.outputTokens <= OUTPUT_ALLOWANCE
    case _ => false
  }

  ghost predicate ClosedFor(ds: seq<Dispatch>, id: nat) {
    exists i :: 0 <= i < |ds| && HeldBy(ds[i].phase) == Some(id) && HasClosed(ds[i].phase)
  }

  ghost predicate WithinFor(ds: seq<Dispatch>, id: nat) {
    exists i :: 0 <= i < |ds| && HeldBy(ds[i].phase) == Some(id) && StayedWithin(ds[i].phase)
  }

  /** Where what is held is active, it is closed in the end exactly when the worker stayed within. */
  lemma EndsAsItRan(d: Dispatch, a: Action, g: Gateway, g': Gateway, issued: set<nat>, hash: Digest)
    requires Enabled(d, a) && GatewayStep(d, a, g, g', issued) && Bounded(g, d.limits)
    requires HeldBy(d.phase).Some? && HeldBy(d.phase).value in g.active
    requires g.active[HeldBy(d.phase).value] == RequestOf(d.h)
    ensures var d' := After(d, a, hash);
      HeldBy(d'.phase) == HeldBy(d.phase) && (HasClosed(d'.phase) <==> StayedWithin(d'.phase))
  {
    hide Gate, RequestOf, Accepts, Bounded, Closes, Effect;
    if a.Conclude? {
      OutputAloneDecides(g, d.phase.held.value, d.phase.result.outputTokens, d.limits);
    }
  }

  /** A dispatch that has yet to end has neither; one that holds nothing in the end is of no account. */
  lemma NotYet(d: Dispatch, a: Action, hash: Digest)
    requires Enabled(d, a)
    ensures !HasClosed(d.phase) && !StayedWithin(d.phase)
    ensures HeldBy(d.phase).Some? ==> HeldBy(After(d, a, hash).phase) == HeldBy(d.phase)
    ensures var y := After(d, a, hash).phase;
      HeldBy(d.phase).None? && HeldBy(y).Some? ==> !HasClosed(y) && !StayedWithin(y)
  {
    hide Gate, Effect;
  }

  // ----- One step

  predicate SameLimits(ds: seq<Dispatch>, limits: Limits) { forall i :: 0 <= i < |ds| ==> ds[i].limits == limits }

  /** The gateway is within its budgets, and each reservation is closed exactly if some worker stayed within it. */
  ghost predicate SettlementInv(s: State, limits: Limits) {
    SameLimits(s.ds, limits) && Bounded(s.store, limits) &&
    forall id: nat :: ClosedFor(s.ds, id) <==> WithinFor(s.ds, id)
  }

  lemma ClosedForAfter(ds: seq<Dispatch>, i: nat, d': Dispatch, id: nat)
    requires i < |ds| && !HasClosed(ds[i].phase) && !StayedWithin(ds[i].phase)
    ensures ClosedFor(ds[i := d'], id) <==>
      ClosedFor(ds, id) || (HeldBy(d'.phase) == Some(id) && HasClosed(d'.phase))
    ensures WithinFor(ds[i := d'], id) <==>
      WithinFor(ds, id) || (HeldBy(d'.phase) == Some(id) && StayedWithin(d'.phase))
  {
    hide HeldBy, HasClosed, StayedWithin;
    var ds' := ds[i := d'];
    assert ds'[i] == d' && forall j :: 0 <= j < |ds| && j != i ==> ds'[j] == ds[j];
    if j :| 0 <= j < |ds| && HeldBy(ds[j].phase) == Some(id) && HasClosed(ds[j].phase) { assert ds'[j] == ds[j]; }
    if j :| 0 <= j < |ds| && HeldBy(ds[j].phase) == Some(id) && StayedWithin(ds[j].phase) { assert ds'[j] == ds[j]; }
  }

  lemma StepKeepsSettlement(start: set<nat>, s: State, l: Label, s': State, limits: Limits, hash: Digest)
    requires StateInv(start, s) && SettlementInv(s, limits) && Step(s, l, s', hash)
    ensures SettlementInv(s', limits)
  {
    var d, a := s.ds[l.i], l.action;
    var y := s'.ds[l.i];
    NotYet(d, a, hash);
    HandoffStays(d, a, hash);
    BoundsKept(d, a, s.store, l.gateway, s.issued);
    StoreFollows(s, l, s', hash);
    assert y.phase == After(d, a, hash).phase;
    if HeldBy(d.phase).Some? {
      HeldIsActive(start, s, l.i);
      if HeldBy(d.phase).value in s.store.active {
        EndsAsItRan(d, a, s.store, l.gateway, s.issued, hash);
      }
    }
    hide Step, After, GatewayStep, Bounded, StateInv, HeldBy, HasClosed, StayedWithin;
    forall id: nat ensures ClosedFor(s'.ds, id) <==> WithinFor(s'.ds, id) {
      ClosedForAfter(s.ds, l.i, y, id);
    }
  }

  lemma StoreFollows(s: State, l: Label, s': State, hash: Digest)
    requires s.shared && Step(s, l, s', hash)
    ensures s'.store == l.gateway && s'.ds == s.ds[l.i := s'.ds[l.i]]
    ensures GatewayStep(s.ds[l.i], l.action, s.store, l.gateway, s.issued)
    ensures s'.ds[l.i].phase == After(s.ds[l.i], l.action, hash).phase
    ensures s'.ds[l.i].limits == After(s.ds[l.i], l.action, hash).limits
  {
    hide After, Gate, Reserves, Settles, Releases;
  }

  /** What a dispatch holds is its own request, and active unless some holder has closed it. */
  lemma HeldIsActive(start: set<nat>, s: State, i: nat)
    requires StateInv(start, s) && i < |s.ds| && HeldBy(s.ds[i].phase).Some?
    ensures var id := HeldBy(s.ds[i].phase).value;
      if id in s.store.active then s.store.active[id] == RequestOf(s.ds[i].h) else ClosedFor(s.ds, id)
  {
    hide HeldBy, CloseRefused, RequestOf, LeftBy;
    var hs, id := HoldersOf(s.ds), HeldBy(s.ds[i].phase).value;
    assert Accounted(hs[i], s.store, s.issued);
    assert Held(hs, id);
    HoldersAre(s.ds, id);
    assert id in s.store.active <==> Live(start, hs, id);
  }

  // ----- Every run

  lemma {:induction false} SettlementInRun(r: Run, hash: Digest, k: nat, limits: Limits)
    requires IsRun(r, hash) && k < |r.states| && r.states[0].shared
    requires SameLimits(r.states[0].ds, limits) && Bounded(r.states[0].store, limits)
    ensures SettlementInv(r.states[k], limits)
  {
    hide Step, Bounded, StateInv, Apart, NothingShared;
    if k == 0 {
      forall id: nat ensures !ClosedFor(r.states[0].ds, id) && !WithinFor(r.states[0].ds, id) {
      }
    } else {
      SettlementInRun(r, hash, k - 1, limits);
      GatewayInRun(r, hash, k - 1);
      assert Step(r.states[k - 1], r.labels[k - 1], r.states[k], hash);
      StepKeepsSettlement(StartOf(r), r.states[k - 1], r.labels[k - 1], r.states[k], limits, hash);
    }
  }

  ghost predicate SomeoneHeld(ds: seq<Dispatch>, id: nat) {
    exists i :: 0 <= i < |ds| && HeldBy(ds[i].phase) == Some(id)
  }

  ghost predicate SomeoneLeft(ds: seq<Dispatch>, id: nat) {
    exists i :: 0 <= i < |ds| && LeftBy(ds[i].phase) == Some(id)
  }

  /**
   * When all dispatches over one gateway object within its budgets have finished, nothing is left reserved exactly when
   * every reservation held had a holder whose worker threw or put out no more than the tokens reserved, and every one
   * that was there at the start or left by a faulting reserve call was granted to some dispatch.
   */
  lemma NothingLeaksExactly(r: Run, hash: Digest, k: nat, limits: Limits)
    requires IsRun(r, hash) && k < |r.states| && r.states[0].shared && AllFinished(r.states[k].ds)
    requires SameLimits(r.states[0].ds, limits) && Bounded(r.states[0].store, limits)
    ensures var ds := r.states[k].ds;
      r.states[k].store.active == map[] <==>
      (forall id: nat :: SomeoneHeld(ds, id) ==> WithinFor(ds, id)) &&
      (forall id: nat :: id in StartOf(r) || SomeoneLeft(ds, id) ==> SomeoneHeld(ds, id))
  {
    var ds := r.states[k].ds;
    SettlementInRun(r, hash, k, limits);
    WhatStaysReserved(r, hash, k);
    hide IsRun, SettlementInv;
    forall id: nat
      ensures id in r.states[k].store.active <==>
        (SomeoneHeld(ds, id) && !WithinFor(ds, id)) ||
        ((id in StartOf(r) || SomeoneLeft(ds, id)) && !SomeoneHeld(ds, id))
    {
      assert ClosedFor(ds, id) <==> WithinFor(ds, id) by { assert SettlementInv(r.states[k], limits); }
      RefusedAre(ds, id);
    }
  }

  lemma RefusedAre(ds: seq<Dispatch>, id: nat)
    requires AllFinished(ds)
    ensures NeverSettled(ds, id) <==> SomeoneHeld(ds, id) && !ClosedFor(ds, id)
  {
    hide HeldBy, CloseRefused;
  }
}
