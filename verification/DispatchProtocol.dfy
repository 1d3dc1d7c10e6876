/** Interleaved governed dispatches over a token gateway, as a state machine over their steps. */
module DispatchProtocol {
  import opened Text
  import opened ExecutionProfile
  import opened DispatchGates

  // ----- The token gateway

  datatype Reservation = Reservation(handoffId: Option<string>, vendor: Vendor, model: Option<string>,
                                     session: Option<string>, inputTokens: nat, outputTokens: nat)

  function Total(r: Reservation): nat { r.inputTokens + r.outputTokens }

  datatype Terminal = WasSettled | WasReleased

  /** What tokens are counted under. */
  datatype UsageKey = ByProvider(vendor: Vendor) | ByModel(vendor: Vendor, model: string) | BySession(session: string)

  /** Reservations that hold tokens, what became of the others, and the tokens held or spent under each key. */
  datatype Gateway = Gateway(active: map<nat, Reservation>, terminal: map<nat, Terminal>, used: map<UsageKey, nat>)

  datatype Limits = Limits(inputCap: nat, outputCap: nat, providerBudget: nat, modelBudget: nat, sessionBudget: nat)

  /** A faulting call may have put a reservation in the gateway that its caller never hears of. */
  datatype ReserveAnswer = Granted(id: nat) | Rejected | ReserveFault(left: Option<nat>)

  datatype SettleAnswer = Settled | SettleRejected | SettleFault

  // ----- Usage

  function UsageKeys(r: Reservation): set<UsageKey> {
    { ByProvider(r.vendor), ByModel(r.vendor, if r.model.None? then "default" else r.model.value),
      BySession(if r.session.None? then "unscoped" else r.session.value) }
  }

  function Cap(k: UsageKey, limits: Limits): nat {
    match k
    case ByProvider(_) => limits.providerBudget
    case ByModel(_, _) => limits.modelBudget
    case BySession(_) => limits.sessionBudget
  }

  function Used(used: map<UsageKey, nat>, k: UsageKey): nat { if k in used then used[k] else 0 }

  /** The counters of the route move by `amount`, stop at zero, and are dropped there. */
  function AddUsage(used: map<UsageKey, nat>, r: Reservation, amount: int): map<UsageKey, nat> {
    map k | k in used.Keys + UsageKeys(r) && (k in UsageKeys(r) ==> Used(used, k) + amount > 0) ::
      if k in UsageKeys(r) then Used(used, k) + amount else used[k]
  }

  // ----- Reserving and closing

  const MAX_ACTIVE := 512
  const MAX_KEYS := 1536

  /** There is room for the request by number, by size and under every budget. */
  predicate Admits(g: Gateway, r: Reservation, limits: Limits) {
    |g.active| < MAX_ACTIVE && |g.used.Keys + UsageKeys(r)| <= MAX_KEYS &&
    r.inputTokens <= limits.inputCap && r.outputTokens <= limits.outputCap &&
    forall k :: k in UsageKeys(r) ==> Used(g.used, k) + Total(r) <= Cap(k, limits)
  }

  ghost predicate NoneActive(g: Gateway, handoffId: Option<string>) {
    forall id :: id in g.active ==> g.active[id].handoffId != handoffId
  }

  /** The gateway keeps one active reservation per handoff, and opens no file that has more. */
  ghost predicate OnePerHandoff(g: Gateway) {
    forall x, y :: x in g.active && y in g.active && SameHandoff(g.active[x], g.active[y]) ==> x == y
  }

  predicate SameHandoff(a: Reservation, b: Reservation) { a.handoffId.Some? && a.handoffId == b.handoffId }

  /** A reservation under an id that no gateway has made before. */
  ghost predicate Inserts(g: Gateway, r: Reservation, limits: Limits, id: nat, g': Gateway, issued: set<nat>) {
    id !in issued && NoneActive(g, r.handoffId) && Admits(g, r, limits) &&
    g' == Gateway(g.active[id := r], g.terminal, AddUsage(g.used, r, Total(r)))
  }

  /**
   * Reserving is idempotent per handoff. Otherwise it takes a new id, or is refused where there is no room. The new
   * reservation is in memory before the state file is written, and stays there when the write fails.
   */
  ghost predicate Reserves(g: Gateway, r: Reservation, limits: Limits, answer: ReserveAnswer, g': Gateway,
                           issued: set<nat>) {
    match answer
    case Granted(id) => if id in g.active then g.active[id] == r && g' == g else Inserts(g, r, limits, id, g', issued)
    case Rejected =>
      g' == g && (forall id :: id in g.active ==> g.active[id] != r) &&
      (NoneActive(g, r.handoffId) ==> !Admits(g, r, limits))
    case ReserveFault(None) => g' == g
    case ReserveFault(Some(id)) => Inserts(g, r, limits, id, g', issued)
  }

  const MAX_TERMINAL := 1024

  /** What is left of the closed reservations when the oldest are dropped; which those are is up to the clocks. */
  ghost predicate Prunes(all: map<nat, Terminal>, kept: map<nat, Terminal>) {
    kept.Keys <= all.Keys && (forall id :: id in kept ==> kept[id] == all[id]) &&
    |kept| == if |all| <= MAX_TERMINAL then |all| else MAX_TERMINAL
  }

  /** An active reservation gives back what it holds, less what was spent. */
  ghost predicate Closes(g: Gateway, id: nat, how: Terminal, spent: nat, g': Gateway) {
    id in g.active && g'.active == g.active - {id} && Prunes(g.terminal[id := how], g'.terminal) &&
    g'.used == AddUsage(AddUsage(g.used, g.active[id], -(Total(g.active[id]) as int)), g.active[id], spent)
  }

  /** What was used is within the caps, within what was reserved, and leaves every budget kept. */
  predicate Accepts(g: Gateway, r: Reservation, input: nat, output: nat, limits: Limits) {
    input <= limits.inputCap && output <= limits.outputCap && input + output <= Total(r) &&
    forall k :: k in UsageKeys(r) ==> Used(g.used, k) - Total(r) + input + output <= Cap(k, limits)
  }

  /**
   * Settling is refused exactly when the usage is not accepted, and then leaves the reservation active. Otherwise it is
   * closed in memory, and stays closed when the write after that fails. Settling twice is harmless while the first is
   * remembered.
   */
  ghost predicate Settles(g: Gateway, id: nat, input: nat, output: nat, limits: Limits, answer: SettleAnswer,
                          g': Gateway) {
    if id in g.active then
      if Accepts(g, g.active[id], input, output, limits) then
        !answer.SettleRejected? && Closes(g, id, WasSettled, input + output, g')
      else g' == g && answer.SettleRejected?
    else
      g' == g && answer == if id in g.terminal && g.terminal[id].WasSettled? then Settled else SettleRejected
  }

  /** Releasing an active reservation always closes it, whether or not the write after that works. */
  ghost predicate Releases(g: Gateway, id: nat, ok: bool, g': Gateway) {
    if id in g.active then Closes(g, id, WasReleased, 0, g') else g' == g && (ok <==> id in g.terminal)
  }

  // ----- One dispatch

  datatype Status = Started | Completed | RefusedStatus | Failed

  /** What a dispatch does that others can see, in the order it does it. */
  datatype Event =
    | Efficiency(status: Status)
    | Decision(dispatched: bool, reason: Option<Reason>, tier: Option<string>)
    | ReserveCall(answer: ReserveAnswer)
    | WorkerStarted
    | SettleCall(id: nat, settled: SettleAnswer)
    | ReleaseCall(id: nat, ok: bool)

  /** A worker's result, as far as the dispatch looks at it. */
  datatype WorkerResult = WorkerResult(exitedZero: bool, errorFree: bool, outputTokens: nat)

  predicate Succeeded(r: WorkerResult) { r.exitedZero && r.errorFree }

  datatype Ending =
    | GateRefused(reason: Reason, tier: Option<string>, verified: bool)
    | BudgetRefused(tier: Option<string>)
    | ReserveThrew(left: Option<nat>)
    | WorkerThrew(held: Option<nat>, released: bool)
    | SettlementRefused(tier: Option<string>, id: nat, result: WorkerResult)
    | Dispatched(tier: Option<string>, held: Option<nat>, settle: SettleAnswer, result: WorkerResult)

  datatype Phase =
    | Waiting
    | Cleared(tier: Option<string>)
    | Holding(tier: Option<string>, id: nat)
    | Running(tier: Option<string>, held: Option<nat>)
    | Returned(tier: Option<string>, held: Option<nat>, result: WorkerResult)
    | Failing(id: nat)
    | Finished(ending: Ending)

  /** `limits` are those of its gateway object, and `copy` is that object where it is the dispatch's own. */
  datatype Dispatch = Dispatch(
    h: Handoff, limits: Limits, phase: Phase, trace: seq<Event>, evidence: Option<Evidence>, copy: Gateway)

  function Effect(h: Handoff, status: Status): seq<Event> {
    if h.tracksEfficiency then [Efficiency(status)] else []
  }

  function RefusalEvents(h: Handoff, reason: Reason, tier: Option<string>): seq<Event> {
    Effect(h, RefusedStatus) + [Decision(false, Some(reason), tier)]
  }

  const MAX_FIELD := 128

  /** A field as the gateway compares it: line breaks and tabs blanked, cut short, nothing if that leaves it empty. */
  function BoundedField(s: string): Option<string> {
    var clean := seq(|s|, i requires 0 <= i < |s| => if s[i] in "\r\n\t" then ' ' else s[i]);
    if clean == "" then None else Some(Take(clean, MAX_FIELD))
  }

  function BoundedOption(s: Option<string>): Option<string> { if s.None? then None else BoundedField(s.value) }

  /** The output tokens that every dispatch reserves. */
  const OUTPUT_ALLOWANCE := 8000

  function RequestOf(h: Handoff): (r: Reservation)
    ensures r.handoffId.Some? && r.inputTokens == h.inputTokens && r.outputTokens == OUTPUT_ALLOWANCE
  {
    var id := BoundedField(h.id);
    Reservation(Some(if id.None? then "unknown" else id.value), h.vendor,
                BoundedOption(
                  if h.vendor == AgyCli && h.model.None? then Some("gemini-3.5-flash-medium") else h.model),
                BoundedOption(h.session), h.inputTokens, OUTPUT_ALLOWANCE)
  }

  datatype Action =
    | PassGates(evidence: Evidence)
    | Reserve(answer: ReserveAnswer)
    | Launch
    | WorkerReturns(result: WorkerResult)
    | WorkerThrows
    | Conclude(settle: SettleAnswer)
    | Release(ok: bool)

  function AfterGates(d: Dispatch, e: Evidence, hash: Digest): Dispatch {
    match Gate(d.h, e, hash)
    case Pass(tier) => d.(phase := Cleared(tier), evidence := Some(e))
    case Refuse(reason, tier, verified) =>
      d.(phase := Finished(GateRefused(reason, tier, verified)), evidence := Some(e),
         trace := d.trace + RefusalEvents(d.h, reason, tier))
  }

  function AfterReserve(d: Dispatch, answer: ReserveAnswer): Dispatch
    requires d.phase.Cleared?
  {
    var called := d.trace + [ReserveCall(answer)];
    match answer
    case Granted(id) => d.(phase := Holding(d.phase.tier, id), trace := called)
    case Rejected =>
      d.(phase := Finished(BudgetRefused(d.phase.tier)),
         trace := called + RefusalEvents(d.h, TokenBudgetExhausted, d.phase.tier))
    case ReserveFault(left) => d.(phase := Finished(ReserveThrew(left)), trace := called)
  }

  function AfterLaunch(d: Dispatch): Dispatch
    requires d.phase.Cleared? || d.phase.Holding?
  {
    d.(phase := Running(d.phase.tier, if d.phase.Holding? then Some(d.phase.id) else None),
       trace := d.trace + Effect(d.h, Started) + [WorkerStarted])
  }

  function AfterThrow(d: Dispatch): Dispatch
    requires d.phase.Running?
  {
    d.(phase := if d.phase.held.Some? then Failing(d.phase.held.value) else Finished(WorkerThrew(None, false)),
       trace := d.trace + Effect(d.h, Failed))
  }

  /** The end of a dispatch whose worker returned, once settling is behind it. */
  function AfterSettle(d: Dispatch, answer: SettleAnswer): Dispatch
    requires d.phase.Returned?
  {
    var settled := if d.phase.held.Some? then d.trace + [SettleCall(d.phase.held.value, answer)] else d.trace;
    if d.phase.held.Some? && answer.SettleRejected? && d.phase.result.errorFree then
      d.(phase := Finished(SettlementRefused(d.phase.tier, d.phase.held.value, d.phase.result)),
         trace := settled + Effect(d.h, Failed))
    else
      d.(phase := Finished(Dispatched(d.phase.tier, d.phase.held, answer, d.phase.result)),
         trace := settled + Effect(d.h, if Succeeded(d.phase.result) then Completed else Failed) +
                  [Decision(true, None, d.phase.tier)])
  }

  function AfterRelease(d: Dispatch, ok: bool): Dispatch
    requires d.phase.Failing?
  {
    d.(phase := Finished(WorkerThrew(Some(d.phase.id), ok)), trace := d.trace + [ReleaseCall(d.phase.id, ok)])
  }

  // ----- All dispatches

  /**
   * `shared`: `store` is the memory of the one gateway object. Otherwise `store` is the state file, and each dispatch
   * opens a gateway object of its own on it when it reserves. `issued`: every reservation id made so far.
   */
  datatype State = State(ds: seq<Dispatch>, store: Gateway, shared: bool, issued: set<nat>)

  /** The gateway object the action looks at. */
  function Opened(s: State, d: Dispatch, a: Action): Gateway { if s.shared || a.Reserve? then s.store else d.copy }

  predicate Enabled(d: Dispatch, a: Action) {
    match a
    case PassGates(_) => d.phase.Waiting?
    case Reserve(_) => d.phase.Cleared? && d.h.owner.ByDispatch?
    case Launch => d.phase.Holding? || (d.phase.Cleared? && d.h.owner.ByCaller?)
    case WorkerReturns(_) => d.phase.Running?
    case WorkerThrows => d.phase.Running?
    case Conclude(_) => d.phase.Returned?
    case Release(_) => d.phase.Failing?
  }

  function After(d: Dispatch, a: Action, hash: Digest): Dispatch
    requires Enabled(d, a)
  {
    match a
    case PassGates(e) => AfterGates(d, e, hash)
    case Reserve(answer) => AfterReserve(d, answer)
    case Launch => AfterLaunch(d)
    case WorkerReturns(result) => d.(phase := Returned(d.phase.tier, d.phase.held, result))
    case WorkerThrows => AfterThrow(d)
    case Conclude(answer) => AfterSettle(d, answer)
    case Release(ok) => AfterRelease(d, ok)
  }

  /** What the action does to the gateway the dispatch looks at. */
  ghost predicate GatewayStep(d: Dispatch, a: Action, g: Gateway, g': Gateway, issued: set<nat>)
    requires Enabled(d, a)
  {
    match a
    case Reserve(answer) => Reserves(g, RequestOf(d.h), d.limits, answer, g', issued)
    case Conclude(answer) =>
      if d.phase.held.Some? then
        Settles(g, d.phase.held.value, d.h.inputTokens, d.phase.result.outputTokens, d.limits, answer, g')
      else g' == g && answer.Settled?
    case Release(ok) => Releases(g, d.phase.id, ok, g')
    case _ => g' == g
  }

  function IssuedBy(a: Action): set<nat> {
    match a
    case Reserve(Granted(id)) => {id}
    case Reserve(ReserveFault(Some(id))) => {id}
    case _ => {}
  }

  predicate TouchesStore(a: Action) { a.Reserve? || a.Conclude? || a.Release? }

  /** The call threw something other than a refusal: the state file could not be written, or not for certain. */
  predicate Faults(a: Action) {
    match a
    case Reserve(answer) => answer.ReserveFault?
    case Conclude(answer) => answer.SettleFault?
    case Release(ok) => !ok
    case _ => false
  }

  /** `gateway`: the gateway object after the action. `written`: whether a faulting write reached the file after all. */
  datatype Label = Label(i: nat, action: Action, gateway: Gateway, written: bool)

  /** What the action leaves in `store`: a shared object as it is, a file only as far as it was written. */
  function Stored(s: State, l: Label, g: Gateway): Gateway {
    if TouchesStore(l.action) && l.gateway != g && (s.shared || !Faults(l.action) || l.written) then l.gateway
    else s.store
  }

  /** Dispatch `i` acts; nothing else moves. */
  function Next(s: State, l: Label, hash: Digest): State
    requires l.i < |s.ds| && Enabled(s.ds[l.i], l.action)
  {
    var d := s.ds[l.i];
    var copy := if TouchesStore(l.action) then l.gateway else d.copy;
    State(s.ds[l.i := After(d, l.action, hash).(copy := copy)], Stored(s, l, Opened(s, d, l.action)), s.shared,
          s.issued + IssuedBy(l.action))
  }

  ghost predicate Step(s: State, l: Label, s': State, hash: Digest) {
    l.i < |s.ds| && Enabled(s.ds[l.i], l.action) && s' == Next(s, l, hash) &&
    GatewayStep(s.ds[l.i], l.action, Opened(s, s.ds[l.i], l.action), l.gateway, s.issued)
  }

  /** The gateway may already hold reservations, left in its file by a process that has ended. */
  ghost predicate Initial(s: State) {
    (forall i :: 0 <= i < |s.ds| ==> s.ds[i].phase.Waiting? && s.ds[i].trace == [] && s.ds[i].evidence.None?) &&
    OnePerHandoff(s.store) && s.store.active.Keys <= s.issued
  }

  predicate AllFinished(ds: seq<Dispatch>) { forall i :: 0 <= i < |ds| ==> ds[i].phase.Finished? }

  datatype Run = Run(states: seq<State>, labels: seq<Label>)

  ghost predicate IsRun(r: Run, hash: Digest) {
    |r.states| == |r.labels| + 1 && Initial(r.states[0]) &&
    forall k :: 0 <= k < |r.labels| ==> Step(r.states[k], r.labels[k], r.states[k + 1], hash)
  }

  function Last(r: Run): State
    requires r.states != []
  {
    r.states[|r.states| - 1]
  }

  /** A run goes on with any step from its last state. */
  lemma Extend(r: Run, l: Label, hash: Digest) returns (r': Run)
    requires IsRun(r, hash) && l.i < |Last(r).ds| && Enabled(Last(r).ds[l.i], l.action)
    requires GatewayStep(Last(r).ds[l.i], l.action, Opened(Last(r), Last(r).ds[l.i], l.action), l.gateway,
                         Last(r).issued)
    ensures IsRun(r', hash) && r.states < r'.states && r.labels < r'.labels && Last(r') == Next(Last(r), l, hash)
  {
    hide Next, GatewayStep, Enabled, Initial;
    r' := Run(r.states + [Next(Last(r), l, hash)], r.labels + [l]);
    forall k | 0 <= k < |r'.labels| ensures Step(r'.states[k], r'.labels[k], r'.states[k + 1], hash) {
      if k < |r.labels| {
        assert Step(r.states[k], r.labels[k], r.states[k + 1], hash);
      }
    }
  }

  /** Only dispatch `i` has moved. */
  ghost predicate OnlyMoves(s: State, i: nat, s': State) {
    i < |s.ds| == |s'.ds| && s'.shared == s.shared &&
    forall j :: 0 <= j < |s.ds| ==>
      s'.ds[j].h == s.ds[j].h && s'.ds[j].limits == s.ds[j].limits && (j != i ==> s'.ds[j] == s.ds[j])
  }

  // ----- What a dispatch has done by each phase

  function Launched(h: Handoff, held: Option<nat>): seq<Event> {
    (if held.Some? then [ReserveCall(Granted(held.value))] else []) + Effect(h, Started) + [WorkerStarted]
  }

  function TraceOf(h: Handoff, phase: Phase): seq<Event> {
    match phase
    case Waiting => []
    case Cleared(_) => []
    case Holding(_, id) => [ReserveCall(Granted(id))]
    case Running(_, held) => Launched(h, held)
    case Returned(_, held, _) => Launched(h, held)
    case Failing(id) => Launched(h, Some(id)) + Effect(h, Failed)
    case Finished(GateRefused(reason, tier, _)) => RefusalEvents(h, reason, tier)
    case Finished(BudgetRefused(tier)) => [ReserveCall(Rejected)] + RefusalEvents(h, TokenBudgetExhausted, tier)
    case Finished(ReserveThrew(left)) => [ReserveCall(ReserveFault(left))]
    case Finished(WorkerThrew(None, _)) => Launched(h, None) + Effect(h, Failed)
    case Finished(WorkerThrew(Some(id), ok)) => Launched(h, Some(id)) + Effect(h, Failed) + [ReleaseCall(id, ok)]
    case Finished(SettlementRefused(_, id, _)) =>
      Launched(h, Some(id)) + [SettleCall(id, SettleRejected)] + Effect(h, Failed)
    case Finished(Dispatched(tier, held, settle, result)) =>
      Launched(h, held) + (if held.Some? then [SettleCall(held.value, settle)] else []) +
      Effect(h, if Succeeded(result) then Completed else Failed) + [Decision(true, None, tier)]
  }

  function HeldBy(phase: Phase): Option<nat> {
    match phase
    case Holding(_, id) => Some(id)
    case Running(_, held) => held
    case Returned(_, held, _) => held
    case Failing(id) => Some(id)
    case Finished(WorkerThrew(held, _)) => held
    case Finished(SettlementRefused(_, id, _)) => Some(id)
    case Finished(Dispatched(_, held, _, _)) => held
    case _ => None
  }

  predicate PastGates(phase: Phase) { !phase.Waiting? && !(phase.Finished? && phase.ending.GateRefused?) }

  predicate WorkerLaunched(phase: Phase) {
    phase.Running? || phase.Returned? || phase.Failing? ||
    (phase.Finished? && (phase.ending.WorkerThrew? || phase.ending.SettlementRefused? || phase.ending.Dispatched?))
  }

  predicate TouchesGateway(phase: Phase) {
    HeldBy(phase).Some? || (phase.Finished? && (phase.ending.BudgetRefused? || phase.ending.ReserveThrew?))
  }

  ghost predicate DispatchInv(d: Dispatch, hash: Digest) {
    d.trace == TraceOf(d.h, d.phase) &&
    (d.phase.Waiting? <==> d.evidence.None?) &&
    (PastGates(d.phase) ==> Gate(d.h, d.evidence.value, hash).Pass?) &&
    (d.h.owner.ByCaller? ==> !TouchesGateway(d.phase)) &&
    (d.h.owner.ByDispatch? && WorkerLaunched(d.phase) ==> HeldBy(d.phase).Some?)
  }

  lemma TraceKept(d: Dispatch, a: Action, hash: Digest)
    requires d.trace == TraceOf(d.h, d.phase) && Enabled(d, a)
    ensures After(d, a, hash).trace == TraceOf(d.h, After(d, a, hash).phase)
  {
    hide Gate, Effect, RefusalEvents, AfterSettle;
    assert d.trace + [] == d.trace && [] + Effect(d.h, Started) == Effect(d.h, Started);
    if a.Conclude? {
      SettleTraceKept(d, a.settle);
    }
  }

  lemma SettleTraceKept(d: Dispatch, answer: SettleAnswer)
    requires d.trace == TraceOf(d.h, d.phase) && d.phase.Returned?
    ensures AfterSettle(d, answer).trace == TraceOf(d.h, AfterSettle(d, answer).phase)
  {
    hide Effect, Launched;
    assert d.trace + [] == d.trace;
  }

  lemma DispatchInvKept(d: Dispatch, a: Action, hash: Digest)
    requires DispatchInv(d, hash) && Enabled(d, a)
    ensures DispatchInv(After(d, a, hash), hash)
  {
    hide Gate, TraceOf, Effect, RefusalEvents;
    TraceKept(d, a, hash);
  }

  lemma {:induction false} TracesInRun(r: Run, hash: Digest, k: nat, i: nat)
    requires IsRun(r, hash) && k < |r.states| && i < |r.states[0].ds|
    ensures |r.states[k].ds| == |r.states[0].ds| && DispatchInv(r.states[k].ds[i], hash)
    ensures r.states[k].ds[i].h == r.states[0].ds[i].h && r.states[k].shared == r.states[0].shared
  {
    hide DispatchInv, Gate, GatewayStep, After;
    if k == 0 {
      var d := r.states[0].ds[i];
      assert DispatchInv(d, hash) by { InitialInv(d, hash); }
    } else {
      TracesInRun(r, hash, k - 1, i);
      var s, l := r.states[k - 1], r.labels[k - 1];
      assert Step(s, l, r.states[k], hash);
      if l.i == i {
        DispatchInvKept(s.ds[i], l.action, hash);
        CopyIrrelevant(s.ds[i], l.action, l.gateway, hash);
      }
    }
  }

  lemma InitialInv(d: Dispatch, hash: Digest)
    requires d.phase.Waiting? && d.trace == [] && d.evidence.None?
    ensures DispatchInv(d, hash)
  {
  }

  lemma CopyIrrelevant(d: Dispatch, a: Action, g: Gateway, hash: Digest)
    requires Enabled(d, a)
    ensures After(d, a, hash).h == d.h
    ensures DispatchInv(After(d, a, hash).(copy := g), hash) <==> DispatchInv(After(d, a, hash), hash)
    ensures DispatchInv(After(d, a, hash).(copy := d.copy), hash) <==> DispatchInv(After(d, a, hash), hash)
  {
    hide Gate;
  }
}
