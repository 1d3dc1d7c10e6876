/** Which reservations are active, over every run of dispatches that share one gateway object. */
module DispatchAccounting {
  import opened Text
  import opened DispatchGates
  import opened DispatchProtocol

  /**
   * The dispatch has finished, and the gateway refused to settle what it held. A settle or release that fails in any
   * other way has closed the reservation by the time it fails.
   */
  predicate CloseRefused(phase: Phase) {
    phase.Finished? &&
    match phase.ending
    case SettlementRefused(_, _, _) => true
    case Dispatched(_, held, settle, _) => held.Some? && settle.SettleRejected?
    case _ => false
  }

  /** What a faulting reserve call left in the gateway. */
  function LeftBy(phase: Phase): Option<nat> {
    if phase.Finished? && phase.ending.ReserveThrew? then phase.ending.left else None
  }

  /** A dispatch as the gateway sees it. */
  datatype Holder = Holder(
    request: Reservation, limits: Limits, held: Option<nat>, closed: bool, left: Option<nat>)

  function HolderOf(d: Dispatch): Holder {
    Holder(RequestOf(d.h), d.limits, HeldBy(d.phase),
           d.phase.Finished? && HeldBy(d.phase).Some? && !CloseRefused(d.phase), LeftBy(d.phase))
  }

  function HoldersOf(ds: seq<Dispatch>): (hs: seq<Holder>)
    ensures |hs| == |ds| && forall i :: 0 <= i < |hs| ==> hs[i] == HolderOf(ds[i])
  {
    seq(|ds|, i requires 0 <= i < |ds| => HolderOf(ds[i]))
  }

  ghost predicate DistinctHandoffs(hs: seq<Holder>) {
    forall i, j :: 0 <= i < |hs| && 0 <= j < |hs| && i != j ==> hs[i].request.handoffId != hs[j].request.handoffId
  }

  ghost predicate DistinctHoldings(hs: seq<Holder>) {
    forall i, j :: 0 <= i < |hs| && 0 <= j < |hs| && i != j && hs[i].held.Some? ==> hs[i].held != hs[j].held
  }

  ghost predicate Held(hs: seq<Holder>, id: nat) { exists i :: 0 <= i < |hs| && hs[i].held == Some(id) }

  ghost predicate ClosedBySome(hs: seq<Holder>, id: nat) {
    exists i :: 0 <= i < |hs| && hs[i].held == Some(id) && hs[i].closed
  }

  ghost predicate Left(hs: seq<Holder>, id: nat) { exists i :: 0 <= i < |hs| && hs[i].left == Some(id) }

  /** There at the start, held, or left by a faulting reserve call; and closed by nobody. */
  ghost predicate Live(start: set<nat>, hs: seq<Holder>, id: nat) {
    (id in start || Held(hs, id) || Left(hs, id)) && !ClosedBySome(hs, id)
  }

  /** The ids of a holder have been issued, and what it holds is active with its request if it is active at all. */
  predicate Accounted(h: Holder, g: Gateway, issued: set<nat>) {
    (h.held.Some? ==>
      h.held.value in issued && (h.held.value in g.active ==> g.active[h.held.value] == h.request)) &&
    (h.left.Some? ==> h.left.value in issued)
  }

  /** What is active is exactly what is live. */
  ghost predicate GatewayInv(start: set<nat>, hs: seq<Holder>, g: Gateway, issued: set<nat>) {
    OnePerHandoff(g) && g.active.Keys <= issued && start <= issued &&
    (forall i :: 0 <= i < |hs| ==> Accounted(hs[i], g, issued)) &&
    (forall id :: id in g.active <==> Live(start, hs, id))
  }

  /** Another holder has a reservation for the same handoff that nobody has closed. */
  ghost predicate Contended(hs: seq<Holder>, i: nat)
    requires i < |hs|
  {
    exists j :: 0 <= j < |hs| && Contends(hs, i, j)
  }

  ghost predicate Contends(hs: seq<Holder>, i: nat, j: nat)
    requires i < |hs| && j < |hs|
  {
    j != i && hs[j].held.Some? && !ClosedBySome(hs, hs[j].held.value) &&
    hs[j].request.handoffId == hs[i].request.handoffId
  }

  // ----- A grant, a fault, a close

  function AfterGrant(hs: seq<Holder>, i: nat, id: nat): seq<Holder>
    requires i < |hs|
  {
    hs[i := hs[i].(held := Some(id), closed := false)]
  }

  /** A granted reservation is one that another holds exactly when there is contention for the handoff. */
  lemma GrantSharesExactly(start: set<nat>, hs: seq<Holder>, g: Gateway, issued: set<nat>, i: nat, id: nat,
                           g': Gateway)
    requires GatewayInv(start, hs, g, issued) && i < |hs| && hs[i].held.None?
    requires Reserves(g, hs[i].request, hs[i].limits, Granted(id), g', issued)
    requires hs[i].request.handoffId.Some?
    ensures Held(hs, id) <==> Contended(hs, i)
  {
    if Contended(hs, i) {
      var j :| 0 <= j < |hs| && Contends(hs, i, j);
      var held := hs[j].held.value;
      assert Accounted(hs[j], g, issued) && Held(hs, held);
      assert held in g.active;
    }
    if Held(hs, id) {
      var j :| 0 <= j < |hs| && hs[j].held == Some(id);
      assert Accounted(hs[j], g, issued);
      assert Contends(hs, i, j);
    }
  }

  /** So holdings that were apart stay apart exactly without contention. */
  lemma GrantStaysApart(hs: seq<Holder>, i: nat, id: nat)
    requires i < |hs| && hs[i].held.None?
    ensures DistinctHoldings(AfterGrant(hs, i, id)) <==> DistinctHoldings(hs) && !Held(hs, id)
  {
    var hs' := AfterGrant(hs, i, id);
    if Held(hs, id) {
      var j :| 0 <= j < |hs| && hs[j].held == Some(id);
      assert hs'[i].held == hs'[j].held;
    }
    if DistinctHoldings(hs') {
      forall j, k | 0 <= j < |hs| && 0 <= k < |hs| && j != k && hs[j].held.Some? ensures hs[j].held != hs[k].held {
        if k != i {
          assert hs'[j].held == hs[j].held && hs'[k].held == hs[k].held;
        }
      }
    }
  }

  lemma GrantChanges(hs: seq<Holder>, i: nat, id: nat, x: nat)
    requires i < |hs| && hs[i].held.None?
    ensures Held(AfterGrant(hs, i, id), x) <==> Held(hs, x) || x == id
    ensures ClosedBySome(AfterGrant(hs, i, id), x) <==> ClosedBySome(hs, x)
    ensures Left(AfterGrant(hs, i, id), x) <==> Left(hs, x)
  {
    var hs' := AfterGrant(hs, i, id);
    assert hs'[i].held == Some(id) && hs'[i].left == hs[i].left;
    assert forall j :: 0 <= j < |hs| && j != i ==> hs'[j] == hs[j];
    if Held(hs, x) {
      var j :| 0 <= j < |hs| && hs[j].held == Some(x);
      assert hs'[j].held == Some(x);
    }
    if ClosedBySome(hs, x) {
      var j :| 0 <= j < |hs| && hs[j].held == Some(x) && hs[j].closed;
      assert hs'[j].held == Some(x) && hs'[j].closed;
    }
    if Left(hs, x) {
      var j :| 0 <= j < |hs| && hs[j].left == Some(x);
      assert hs'[j].left == Some(x);
    }
  }

  lemma GrantKeeps(start: set<nat>, hs: seq<Holder>, g: Gateway, issued: set<nat>, i: nat, id: nat, g': Gateway)
    requires GatewayInv(start, hs, g, issued) && i < |hs| && hs[i].held.None?
    requires Reserves(g, hs[i].request, hs[i].limits, Granted(id), g', issued)
    ensures GatewayInv(start, AfterGrant(hs, i, id), g', issued + {id})
  {
    var hs' := AfterGrant(hs, i, id);
    if ClosedBySome(hs, id) {
      ClosedIsIssued(start, hs, g, issued, id);
      assert false;
    }
    forall x: nat ensures Live(start, hs', x) <==> Live(start, hs, x) || x == id {
      GrantChanges(hs, i, id, x);
    }
    forall j | 0 <= j < |hs'| ensures Accounted(hs'[j], g', issued + {id}) {
      assert Accounted(hs[j], g, issued);
    }
  }

  lemma ClosedIsIssued(start: set<nat>, hs: seq<Holder>, g: Gateway, issued: set<nat>, id: nat)
    requires GatewayInv(start, hs, g, issued) && (ClosedBySome(hs, id) || Held(hs, id))
    ensures id in issued
  {
    var j :| 0 <= j < |hs| && hs[j].held == Some(id);
    assert Accounted(hs[j], g, issued);
  }

  function AfterFault(hs: seq<Holder>, i: nat, left: Option<nat>): seq<Holder>
    requires i < |hs|
  {
    hs[i := hs[i].(left := left)]
  }

  lemma FaultChanges(hs: seq<Holder>, i: nat, left: Option<nat>, x: nat)
    requires i < |hs| && hs[i].left.None?
    ensures Held(AfterFault(hs, i, left), x) <==> Held(hs, x)
    ensures ClosedBySome(AfterFault(hs, i, left), x) <==> ClosedBySome(hs, x)
    ensures Left(AfterFault(hs, i, left), x) <==> Left(hs, x) || Some(x) == left
  {
    var hs' := AfterFault(hs, i, left);
    assert forall j :: 0 <= j < |hs| ==> hs'[j].held == hs[j].held && hs'[j].closed == hs[j].closed;
    assert forall j :: 0 <= j < |hs| && j != i ==> hs'[j] == hs[j];
    if Held(hs, x) {
      var j :| 0 <= j < |hs| && hs[j].held == Some(x);
      assert hs'[j].held == Some(x);
    }
    if ClosedBySome(hs, x) {
      var j :| 0 <= j < |hs| && hs[j].held == Some(x) && hs[j].closed;
      assert hs'[j].held == Some(x) && hs'[j].closed;
    }
    if Left(hs, x) {
      var j :| 0 <= j < |hs| && hs[j].left == Some(x);
      assert hs'[j].left == Some(x);
    }
    assert hs'[i].left == left;
  }

  lemma FaultKeeps(start: set<nat>, hs: seq<Holder>, g: Gateway, issued: set<nat>, i: nat, left: Option<nat>,
                   g': Gateway)
    requires GatewayInv(start, hs, g, issued) && i < |hs| && hs[i].held.None? && hs[i].left.None?
    requires Reserves(g, hs[i].request, hs[i].limits, ReserveFault(left), g', issued)
    ensures GatewayInv(start, AfterFault(hs, i, left), g', issued + if left.Some? then {left.value} else {})
  {
    var hs' := AfterFault(hs, i, left);
    if left.Some? && ClosedBySome(hs, left.value) {
      ClosedIsIssued(start, hs, g, issued, left.value);
      assert false;
    }
    forall x: nat ensures Live(start, hs', x) <==> Live(start, hs, x) || Some(x) == left {
      FaultChanges(hs, i, left, x);
    }
    forall j | 0 <= j < |hs'| ensures Accounted(hs'[j], g', issued + if left.Some? then {left.value} else {}) {
      assert Accounted(hs[j], g, issued);
    }
  }

  function AfterClose(hs: seq<Holder>, i: nat): seq<Holder>
    requires i < |hs|
  {
    hs[i := hs[i].(closed := true)]
  }

  lemma CloseChanges(hs: seq<Holder>, i: nat, x: nat)
    requires i < |hs| && hs[i].held.Some?
    ensures Held(AfterClose(hs, i), x) <==> Held(hs, x)
    ensures ClosedBySome(AfterClose(hs, i), x) <==> ClosedBySome(hs, x) || hs[i].held == Some(x)
    ensures Left(AfterClose(hs, i), x) <==> Left(hs, x)
  {
    var hs' := AfterClose(hs, i);
    assert forall j :: 0 <= j < |hs| ==> hs'[j].held == hs[j].held && hs'[j].left == hs[j].left;
    assert forall j :: 0 <= j < |hs| && j != i ==> hs'[j] == hs[j];
    if Held(hs, x) {
      var j :| 0 <= j < |hs| && hs[j].held == Some(x);
      assert hs'[j].held == Some(x);
    }
    if ClosedBySome(hs, x) {
      var j :| 0 <= j < |hs| && hs[j].held == Some(x) && hs[j].closed;
      assert hs'[j].held == Some(x) && hs'[j].closed;
    }
    if Left(hs, x) {
      var j :| 0 <= j < |hs| && hs[j].left == Some(x);
      assert hs'[j].left == Some(x);
    }
    assert hs'[i].closed;
  }

  lemma CloseKeeps(start: set<nat>, hs: seq<Holder>, g: Gateway, issued: set<nat>, i: nat, g': Gateway)
    requires GatewayInv(start, hs, g, issued) && i < |hs| && hs[i].held.Some?
    requires g'.active == g.active - {hs[i].held.value}
    ensures GatewayInv(start, AfterClose(hs, i), g', issued)
  {
    var hs' := AfterClose(hs, i);
    forall x: nat ensures Live(start, hs', x) <==> Live(start, hs, x) && Some(x) != hs[i].held {
      CloseChanges(hs, i, x);
    }
    forall j | 0 <= j < |hs'| ensures Accounted(hs'[j], g', issued) {
      assert Accounted(hs[j], g, issued);
    }
  }

  // ----- One step

  /** How one step of a dispatch shows to the gateway: a grant, a fault, a close, or nothing. */
  ghost predicate Shows(x: Holder, a: Action, g: Gateway, g': Gateway, issued: set<nat>, y: Holder) {
    if a.Reserve? && !a.answer.Rejected? then
      x.held.None? && x.left.None? && x.request.handoffId.Some? &&
      Reserves(g, x.request, x.limits, a.answer, g', issued) &&
      y == if a.answer.Granted? then x.(held := Some(a.answer.id), closed := false) else x.(left := a.answer.left)
    else if y == x then g' == g
    else x.held.Some? && y == x.(closed := true) && g'.active == g.active - {x.held.value}
  }

  lemma StepAsHolder(d: Dispatch, a: Action, g: Gateway, g': Gateway, issued: set<nat>, hash: Digest)
    requires Enabled(d, a) && GatewayStep(d, a, g, g', issued)
    ensures Shows(HolderOf(d), a, g, g', issued, HolderOf(After(d, a, hash)))
  {
    hide Gate, RequestOf, Prunes;
  }

  lemma StepAsUpdate(s: State, l: Label, s': State, hash: Digest)
    requires s.shared && Step(s, l, s', hash)
    ensures HoldersOf(s'.ds) == HoldersOf(s.ds)[l.i := HolderOf(After(s.ds[l.i], l.action, hash))]
    ensures s'.store == l.gateway && s'.shared && s'.issued == s.issued + IssuedBy(l.action)
    ensures GatewayStep(s.ds[l.i], l.action, s.store, l.gateway, s.issued)
  {
    hide After, Gate, RequestOf, HeldBy, CloseRefused, Prunes, Reserves, Closes;
  }

  /** The gateway grants a dispatch what another one of the same handoff holds and nobody has closed. */
  ghost predicate SharesGrant(s: State, l: Label) {
    l.i < |s.ds| && l.action.Reserve? && l.action.answer.Granted? && Contended(HoldersOf(s.ds), l.i)
  }

  ghost predicate StateInv(start: set<nat>, s: State) {
    s.shared && GatewayInv(start, HoldersOf(s.ds), s.store, s.issued)
  }

  lemma HolderStepKeeps(start: set<nat>, hs: seq<Holder>, g: Gateway, issued: set<nat>, i: nat, y: Holder,
                        g': Gateway, a: Action)
    requires GatewayInv(start, hs, g, issued) && i < |hs| && Shows(hs[i], a, g, g', issued, y)
    ensures GatewayInv(start, hs[i := y], g', issued + IssuedBy(a))
    ensures DistinctHoldings(hs[i := y]) <==>
            DistinctHoldings(hs) && !(a.Reserve? && a.answer.Granted? && Contended(hs, i))
  {
    hide GatewayInv, Contended, Reserves, DistinctHoldings, Held;
    if a.Reserve? && a.answer.Granted? {
      GrantSharesExactly(start, hs, g, issued, i, a.answer.id, g');
      GrantStaysApart(hs, i, a.answer.id);
      GrantKeeps(start, hs, g, issued, i, a.answer.id, g');
    } else if a.Reserve? && a.answer.ReserveFault? {
      FaultKeeps(start, hs, g, issued, i, a.answer.left, g');
      SameHoldings(hs, AfterFault(hs, i, a.answer.left));
    } else if y == hs[i] {
      assert hs[i := y] == hs && issued + {} == issued;
    } else {
      CloseKeeps(start, hs, g, issued, i, g');
      SameHoldings(hs, AfterClose(hs, i));
      assert issued + {} == issued;
    }
  }

  /** The gateway stays accounted for; and holdings stay apart over a step exactly when it shares no grant. */
  lemma StepKeepsGateway(start: set<nat>, s: State, l: Label, s': State, hash: Digest)
    requires StateInv(start, s) && Step(s, l, s', hash)
    ensures StateInv(start, s')
    ensures DistinctHoldings(HoldersOf(s'.ds)) <==> DistinctHoldings(HoldersOf(s.ds)) && !SharesGrant(s, l)
  {
    StepAsUpdate(s, l, s', hash);
    StepAsHolder(s.ds[l.i], l.action, s.store, l.gateway, s.issued, hash);
    hide GatewayStep, After, HolderOf, GatewayInv, Enabled, Contended, Shows, DistinctHoldings;
    HolderStepKeeps(start, HoldersOf(s.ds), s.store, s.issued, l.i, HolderOf(After(s.ds[l.i], l.action, hash)),
                    l.gateway, l.action);
  }

  lemma SameHoldings(hs: seq<Holder>, hs': seq<Holder>)
    requires |hs| == |hs'| && forall i :: 0 <= i < |hs| ==> hs[i].held == hs'[i].held
    ensures DistinctHoldings(hs) <==> DistinctHoldings(hs')
  {
    if DistinctHoldings(hs') {
      forall i, j | 0 <= i < |hs| && 0 <= j < |hs| && i != j && hs[i].held.Some? ensures hs[i].held != hs[j].held {
        assert hs'[i].held != hs'[j].held;
      }
    }
  }

  // ----- Every run

  /** No grant before step `k` shares a reservation. */
  ghost predicate NothingShared(r: Run, k: nat)
    requires k <= |r.labels| < |r.states|
  {
    forall m :: 0 <= m < k ==> !SharesGrant(r.states[m], r.labels[m])
  }

  /** The reservations a run starts with. */
  function StartOf(r: Run): set<nat>
    requires r.states != []
  {
    r.states[0].store.active.Keys
  }

  ghost predicate Apart(s: State) { DistinctHoldings(HoldersOf(s.ds)) }

  lemma InitialAccounted(s: State)
    requires Initial(s) && s.shared
    ensures StateInv(s.store.active.Keys, s) && Apart(s)
  {
    forall i | 0 <= i < |s.ds| ensures HolderOf(s.ds[i]).held.None? && HolderOf(s.ds[i]).left.None? {
      assert s.ds[i].phase.Waiting?;
    }
  }

  lemma {:induction false} GatewayInRun(r: Run, hash: Digest, k: nat)
    requires IsRun(r, hash) && k < |r.states| && r.states[0].shared
    ensures StateInv(StartOf(r), r.states[k]) && (Apart(r.states[k]) <==> NothingShared(r, k))
  {
    hide Step, HoldersOf, GatewayInv, SharesGrant, Initial;
    if k == 0 {
      InitialAccounted(r.states[0]);
    } else {
      GatewayInRun(r, hash, k - 1);
      assert Step(r.states[k - 1], r.labels[k - 1], r.states[k], hash);
      StepKeepsGateway(StartOf(r), r.states[k - 1], r.labels[k - 1], r.states[k], hash);
    }
  }

  /**
   * Over one gateway object, no two dispatches have held the same reservation exactly when none was granted one while
   * another of the same handoff held one that nobody had closed.
   */
  lemma HoldingsApartExactly(r: Run, hash: Digest, k: nat)
    requires IsRun(r, hash) && k < |r.states| && r.states[0].shared
    ensures Apart(r.states[k]) <==> NothingShared(r, k)
    ensures Apart(r.states[k]) ==> forall m :: 0 <= m <= k ==> Apart(r.states[m])
  {
    hide Step, Initial, Apart, SharesGrant, StateInv;
    GatewayInRun(r, hash, k);
    forall m | 0 <= m <= k ensures Apart(r.states[m]) <==> NothingShared(r, m) {
      GatewayInRun(r, hash, m);
    }
  }

  /** Handoffs that the gateway can tell apart never share. */
  lemma DistinctHandoffsNeverShare(r: Run, hash: Digest, k: nat)
    requires IsRun(r, hash) && k < |r.states| && DistinctHandoffs(HoldersOf(r.states[0].ds))
    ensures NothingShared(r, k)
  {
    hide Step, Initial, RequestOf, ClosedBySome;
    forall m | 0 <= m < k ensures !SharesGrant(r.states[m], r.labels[m]) {
      RequestsStay(r, hash, m);
    }
  }

  lemma {:induction false} RequestsStay(r: Run, hash: Digest, k: nat)
    requires IsRun(r, hash) && k < |r.states|
    ensures |r.states[k].ds| == |r.states[0].ds|
    ensures forall i :: 0 <= i < |r.states[0].ds| ==> r.states[k].ds[i].h == r.states[0].ds[i].h
  {
    hide GatewayStep, Gate;
    if k > 0 {
      RequestsStay(r, hash, k - 1);
      var s, l := r.states[k - 1], r.labels[k - 1];
      assert Step(s, l, r.states[k], hash);
      HandoffStays(s.ds[l.i], l.action, hash);
    }
  }

  lemma HandoffStays(d: Dispatch, a: Action, hash: Digest)
    requires Enabled(d, a)
    ensures After(d, a, hash).h == d.h && After(d, a, hash).limits == d.limits
  {
    hide Gate;
  }

  /** Somebody held it, and everybody who did was refused when settling it. */
  ghost predicate NeverSettled(ds: seq<Dispatch>, id: nat) {
    (exists i :: 0 <= i < |ds| && HeldBy(ds[i].phase) == Some(id)) &&
    forall i :: 0 <= i < |ds| && HeldBy(ds[i].phase) == Some(id) ==> CloseRefused(ds[i].phase)
  }

  /** It was there at the start, or a faulting reserve call left it, and nobody was granted it. */
  ghost predicate NeverResumed(start: set<nat>, ds: seq<Dispatch>, id: nat) {
    (id in start || exists i :: 0 <= i < |ds| && LeftBy(ds[i].phase) == Some(id)) &&
    forall i :: 0 <= i < |ds| ==> HeldBy(ds[i].phase) != Some(id)
  }

  /**
   * When all dispatches over one gateway object have finished, what is still reserved is exactly what all its holders
   * were refused to settle, and what was there before them, or was left by a faulting reserve call, and nobody resumed.
   */
  lemma WhatStaysReserved(r: Run, hash: Digest, k: nat)
    requires IsRun(r, hash) && k < |r.states| && r.states[0].shared && AllFinished(r.states[k].ds)
    ensures forall id :: id in r.states[k].store.active <==>
      NeverSettled(r.states[k].ds, id) || NeverResumed(StartOf(r), r.states[k].ds, id)
  {
    GatewayInRun(r, hash, k);
    var ds, hs := r.states[k].ds, HoldersOf(r.states[k].ds);
    hide IsRun, HeldBy, CloseRefused, RequestOf, LeftBy;
    forall id: nat ensures Live(StartOf(r), hs, id) <==> NeverSettled(ds, id) || NeverResumed(StartOf(r), ds, id) {
      LiveAtEnd(StartOf(r), ds, id);
    }
  }

  /** What holding and closing come to, said of the dispatches themselves. */
  lemma HoldersAre(ds: seq<Dispatch>, id: nat)
    ensures Held(HoldersOf(ds), id) <==> exists i :: 0 <= i < |ds| && HeldBy(ds[i].phase) == Some(id)
    ensures Left(HoldersOf(ds), id) <==> exists i :: 0 <= i < |ds| && LeftBy(ds[i].phase) == Some(id)
    ensures ClosedBySome(HoldersOf(ds), id) <==>
      exists i :: 0 <= i < |ds| && HeldBy(ds[i].phase) == Some(id) && ds[i].phase.Finished? &&
        !CloseRefused(ds[i].phase)
  {
    hide HeldBy, CloseRefused, RequestOf, LeftBy;
    var hs := HoldersOf(ds);
    if i :| 0 <= i < |ds| && HeldBy(ds[i].phase) == Some(id) { assert hs[i].held == Some(id); }
    if i :| 0 <= i < |ds| && LeftBy(ds[i].phase) == Some(id) { assert hs[i].left == Some(id); }
    if i :| 0 <= i < |ds| && HeldBy(ds[i].phase) == Some(id) && ds[i].phase.Finished? && !CloseRefused(ds[i].phase) {
      assert hs[i].held == Some(id) && hs[i].closed;
    }
  }

  lemma LiveAtEnd(start: set<nat>, ds: seq<Dispatch>, id: nat)
    requires AllFinished(ds)
    ensures Live(start, HoldersOf(ds), id) <==> NeverSettled(ds, id) || NeverResumed(start, ds, id)
  {
    hide HeldBy, CloseRefused, RequestOf, LeftBy, Held, Left, ClosedBySome;
    HoldersAre(ds, id);
  }
}
