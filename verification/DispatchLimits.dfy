/** Gateway objects of their own over one state file, and runs in which reservations are shared, kept or revived. */
module DispatchLimits {
  import opened Text
  import opened ExecutionProfile
  import opened DispatchGates
  import opened DispatchProtocol
  import opened DispatchAccounting
  import opened DispatchSettlement

  // ----- A gateway object for each dispatch

  /** Dispatch `j` is granted `y` at step `n`. */
  ghost predicate GrantsAt(r: Run, n: nat, j: nat, y: nat) {
    n < |r.labels| && r.labels[n].i == j && r.labels[n].action == Reserve(Granted(y))
  }

  /** Dispatch `j` closes `y` at step `m`, and the close reaches the state file. */
  ghost predicate ClosesAt(r: Run, m: nat, j: nat, y: nat) {
    m < |r.labels| < |r.states| && r.labels[m].i == j && j < |r.states[m].ds| &&
    HeldBy(r.states[m].ds[j].phase) == Some(y) && (!Faults(r.labels[m].action) || r.labels[m].written) &&
    (r.labels[m].action.Release? || (r.labels[m].action.Conclude? && !r.labels[m].action.settle.SettleRejected?))
  }

  /** From its grant to its end a dispatch keeps looking at the gateway as it was then. */
  lemma {:induction false} CopyStays(r: Run, hash: Digest, n: nat, j: nat, y: nat, k: nat)
    requires IsRun(r, hash) && GrantsAt(r, n, j, y) && n < k < |r.states|
    ensures j < |r.states[k].ds| && r.states[k].shared == r.states[n].shared
    ensures var d := r.states[k].ds[j];
            d.phase.Finished? || (HeldBy(d.phase) == Some(y) && d.copy == r.labels[n].gateway)
  {
    hide GatewayStep, Gate, RequestOf, Stored;
    assert Step(r.states[k - 1], r.labels[k - 1], r.states[k], hash);
    if k > n + 1 {
      CopyStays(r, hash, n, j, y, k - 1);
    }
  }

  lemma GrantIsStored(r: Run, hash: Digest, n: nat, j: nat, y: nat)
    requires IsRun(r, hash) && GrantsAt(r, n, j, y)
    ensures r.states[n + 1].store == r.labels[n].gateway && y in r.labels[n].gateway.active
  {
    hide After, Gate, RequestOf;
    assert Step(r.states[n], r.labels[n], r.states[n + 1], hash);
  }

  /**
   * Each with a gateway object of its own, a dispatch that closes its reservation puts the state file back to what it
   * was when it reserved, less that one. So it revives exactly those that were active then, and drops exactly those
   * that were not, and the write is the right one exactly when nothing else has changed in between.
   */
  lemma PrivateCloseExactly(r: Run, hash: Digest, n: nat, m: nat, j: nat, y: nat)
    requires IsRun(r, hash) && GrantsAt(r, n, j, y) && !r.states[n].shared && n < m && ClosesAt(r, m, j, y)
    ensures var reserved, now, left := r.states[n + 1].store.active, r.states[m].store.active,
                                       r.states[m + 1].store.active;
            left == reserved - {y} &&
            (forall x :: x !in now ==> (x in left <==> x in reserved && x != y)) &&
            (forall x :: x in now ==> (x !in left <==> x !in reserved || x == y)) &&
            (left == now - {y} <==> reserved - {y} == now - {y}) &&
            (left == map[] <==> reserved.Keys == {y})
  {
    CloseWritesBack(r, hash, n, m, j, y);
    hide IsRun, GrantsAt, ClosesAt;
  }

  lemma CloseWritesBack(r: Run, hash: Digest, n: nat, m: nat, j: nat, y: nat)
    requires IsRun(r, hash) && GrantsAt(r, n, j, y) && !r.states[n].shared && n < m && ClosesAt(r, m, j, y)
    ensures r.states[m + 1].store.active == r.states[n + 1].store.active - {y} && y in r.states[n + 1].store.active
  {
    CopyStays(r, hash, n, j, y, m);
    GrantIsStored(r, hash, n, j, y);
    var s, l := r.states[m], r.labels[m];
    assert Step(s, l, r.states[m + 1], hash);
    hide Step;
    CloseIsStored(s, l, r.states[m + 1], y, hash);
  }

  lemma CloseIsStored(s: State, l: Label, s': State, y: nat, hash: Digest)
    requires Step(s, l, s', hash) && !s.shared && HeldBy(s.ds[l.i].phase) == Some(y)
    requires !s.ds[l.i].phase.Finished? && y in s.ds[l.i].copy.active && (!Faults(l.action) || l.written)
    requires l.action.Release? || (l.action.Conclude? && !l.action.settle.SettleRejected?)
    ensures s'.store.active == s.ds[l.i].copy.active - {y}
  {
    hide After, Gate, RequestOf, Prunes;
  }

  // ----- Building runs

  const BARE := Packet([], [], [], [], [])
  const BARE_EVIDENCE := Evidence(BARE, Tier(None))
  const EMPTY := Gateway(map[], map[], map[])
  const DEFAULT_LIMITS := Limits(128000, 16000, 1000000, 500000, 500000)

  /** A handoff that passes its gates. */
  function Sample(id: string, hash: Digest): Handoff {
    Handoff(id, ComputePacketHash(BARE, None, hash), ["check"], None, CodexCli, None, None, None, None, None, None, 1,
            false, ByDispatch)
  }

  function New(id: string, hash: Digest): Dispatch {
    Dispatch(Sample(id, hash), DEFAULT_LIMITS, Waiting, [], None, EMPTY)
  }

  /** Some run ends in this state. */
  ghost predicate Reached(s: State, hash: Digest) { exists r :: EndsIn(r, s, hash) }

  ghost predicate EndsIn(r: Run, s: State, hash: Digest) { IsRun(r, hash) && Last(r) == s }

  lemma Move(s: State, l: Label, hash: Digest)
    requires Reached(s, hash) && l.i < |s.ds| && Enabled(s.ds[l.i], l.action)
    requires GatewayStep(s.ds[l.i], l.action, Opened(s, s.ds[l.i], l.action), l.gateway, s.issued)
    ensures Reached(Next(s, l, hash), hash)
  {
    hide Next, GatewayStep, Enabled, Initial, Step;
    var r :| EndsIn(r, s, hash);
    var r' := Extend(r, l, hash);
    assert EndsIn(r', Next(s, l, hash), hash);
  }

  lemma Begin(ids: seq<string>, shared: bool, hash: Digest) returns (s: State)
    ensures Reached(s, hash) && s.store == EMPTY && s.issued == {} && s.shared == shared && |s.ds| == |ids|
    ensures forall i :: 0 <= i < |ids| ==> s.ds[i] == New(ids[i], hash)
  {
    s := State(seq(|ids|, i requires 0 <= i < |ids| => New(ids[i], hash)), EMPTY, shared, {});
    assert EndsIn(Run([s], []), s, hash);
  }

  lemma Reserving(s: State, i: nat, answer: ReserveAnswer, g: Gateway, hash: Digest) returns (s': State)
    requires Reached(s, hash) && i < |s.ds| && s.ds[i].phase.Waiting? && !answer.Rejected?
    requires s.ds[i].h == Sample(s.ds[i].h.id, hash) && (s.shared || answer.Granted?)
    requires Reserves(s.store, RequestOf(s.ds[i].h), s.ds[i].limits, answer, g, s.issued)
    ensures Reached(s', hash) && OnlyMoves(s, i, s')
    ensures s'.ds[i].phase == if answer.Granted? then Holding(None, answer.id) else Finished(ReserveThrew(answer.left))
    ensures s'.store == g && s'.ds[i].copy == g && s'.issued == s.issued + IssuedBy(Reserve(answer))
  {
    hide RequestOf, Reserves, Reached;
    assert Gate(s.ds[i].h, BARE_EVIDENCE, hash).Pass?;
    assert s.issued + {} == s.issued;
    var gates := Label(i, PassGates(BARE_EVIDENCE), Opened(s, s.ds[i], PassGates(BARE_EVIDENCE)), false);
    Move(s, gates, hash);
    var reserve := Label(i, Reserve(answer), g, false);
    Move(Next(s, gates, hash), reserve, hash);
    s' := Next(Next(s, gates, hash), reserve, hash);
  }

  lemma Settling(s: State, i: nat, result: WorkerResult, answer: SettleAnswer, g: Gateway, hash: Digest)
    returns (s': State)
    requires Reached(s, hash) && i < |s.ds| && s.ds[i].phase.Holding? && !answer.SettleFault? && result.errorFree
    requires Settles(if s.shared then s.store else s.ds[i].copy, s.ds[i].phase.id, s.ds[i].h.inputTokens,
                     result.outputTokens, s.ds[i].limits, answer, g)
    ensures Reached(s', hash) && OnlyMoves(s, i, s') && s'.issued == s.issued
    ensures s'.ds[i].phase ==
            Finished(if answer.Settled? then Dispatched(s.ds[i].phase.tier, Some(s.ds[i].phase.id), Settled, result)
                     else SettlementRefused(s.ds[i].phase.tier, s.ds[i].phase.id, result))
    ensures s'.store == if g != (if s.shared then s.store else s.ds[i].copy) then g else s.store
  {
    hide RequestOf, Settles, Reached, Gate;
    var mine := if s.shared then s.store else s.ds[i].copy;
    var launch, returns', conclude := Label(i, Launch, mine, false), Label(i, WorkerReturns(result), mine, false),
                                      Label(i, Conclude(answer), g, false);
    assert s.issued + {} == s.issued;
    Move(s, launch, hash);
    Move(Next(s, launch, hash), returns', hash);
    Move(Next(Next(s, launch, hash), returns', hash), conclude, hash);
    s' := Next(Next(Next(s, launch, hash), returns', hash), conclude, hash);
  }

  // ----- Small gateways, which have room

  /** At most `n` reservations of one input token and the usual output, and no more usage than theirs. */
  ghost predicate Small(g: Gateway, n: nat) {
    |g.active| <= n && |g.used.Keys| <= 3 * n && (forall k :: Used(g.used, k) <= 8001 * n) && g.terminal == map[] &&
    forall id :: id in g.active ==> g.active[id].inputTokens == 1 && g.active[id].outputTokens == OUTPUT_ALLOWANCE
  }

  function Inserted(g: Gateway, id: nat, r: Reservation): Gateway {
    Gateway(g.active[id := r], g.terminal, AddUsage(g.used, r, Total(r)))
  }

  lemma AtMostThreeMore(keys: set<UsageKey>, a: UsageKey, b: UsageKey, c: UsageKey)
    ensures |keys + {a, b, c}| <= |keys| + 3
  {
    assert |keys + {a}| <= |keys| + 1 && |keys + {a} + {b}| <= |keys| + 2;
    assert keys + {a, b, c} == keys + {a} + {b} + {c};
  }

  lemma KeysBounded(keys: set<UsageKey>, r: Reservation)
    ensures |keys + UsageKeys(r)| <= |keys| + 3
  {
    AtMostThreeMore(keys, ByProvider(r.vendor), ByModel(r.vendor, if r.model.None? then "default" else r.model.value),
                    BySession(if r.session.None? then "unscoped" else r.session.value));
  }

  lemma FewerKeys(a: set<UsageKey>, b: set<UsageKey>)
    requires a <= b
    ensures |a| <= |b|
  {
    assert b == a + (b - a);
  }

  /** A small gateway grants what it has no reservation for, and stays small. */
  lemma SmallGrants(g: Gateway, n: nat, r: Reservation, id: nat, issued: set<nat>)
    requires Small(g, n) && n <= 2 && r.inputTokens == 1 && r.outputTokens == OUTPUT_ALLOWANCE && id !in issued
    requires NoneActive(g, r.handoffId) && id !in g.active
    ensures Inserts(g, r, DEFAULT_LIMITS, id, Inserted(g, id, r), issued) && Small(Inserted(g, id, r), n + 1)
    ensures Inserted(g, id, r).active == g.active[id := r]
  {
    hide UsageKeys, AddUsage;
    KeysBounded(g.used.Keys, r);
    var more := AddUsage(g.used, r, Total(r));
    assert more.Keys <= g.used.Keys + UsageKeys(r) by { KeysOfUsage(g.used, r, Total(r)); }
    FewerKeys(more.Keys, g.used.Keys + UsageKeys(r));
    forall k ensures Used(more, k) <= 8001 * (n + 1) {
      UsageAdded(g.used, r, Total(r), k);
    }
    assert |g.active[id := r]| == |g.active| + 1;
  }

  lemma KeysOfUsage(used: map<UsageKey, nat>, r: Reservation, amount: int)
    ensures AddUsage(used, r, amount).Keys <= used.Keys + UsageKeys(r)
  {
  }

  function SettledIn(g: Gateway, id: nat, spent: nat): Gateway
    requires id in g.active
  {
    var given := AddUsage(g.used, g.active[id], -(Total(g.active[id]) as int));
    Gateway(g.active - {id}, map[id := WasSettled], AddUsage(given, g.active[id], spent))
  }

  /** A small gateway accepts what is within the allowance and refuses the rest. */
  lemma SmallSettles(g: Gateway, n: nat, id: nat, output: nat)
    requires Small(g, n) && n <= 3 && id in g.active
    ensures Bounded(g, DEFAULT_LIMITS)
    ensures SettledIn(g, id, 1 + output) != g && SettledIn(g, id, 1 + output).active == g.active - {id}
    ensures if output <= OUTPUT_ALLOWANCE then
              Settles(g, id, 1, output, DEFAULT_LIMITS, Settled, SettledIn(g, id, 1 + output))
            else Settles(g, id, 1, output, DEFAULT_LIMITS, SettleRejected, g)
  {
    hide UsageKeys, AddUsage, Accepts;
    assert |map[id := WasSettled]| == 1;
    OutputAloneDecides(g, id, output, DEFAULT_LIMITS);
  }

  // ----- The runs

  const FINE := WorkerResult(true, true, 100)
  const TOO_LONG := WorkerResult(true, true, 8001)

  lemma OneGranted(hash: Digest) returns (s: State, g: Gateway)
    ensures Reached(s, hash) && s.shared && |s.ds| == 1 && s.store == g && Small(g, 1)
    ensures s.ds[0].phase == Holding(None, 0) && g.active.Keys == {0}
    ensures s.ds[0].limits == DEFAULT_LIMITS && s.ds[0].h.inputTokens == 1
  {
    s := Begin(["a"], true, hash);
    var request := RequestOf(s.ds[0].h);
    g := Inserted(EMPTY, 0, request);
    SmallGrants(EMPTY, 0, request, 0, {});
    hide RequestOf, Inserted, Inserts, Small, Reached;
    s := Reserving(s, 0, Granted(0), g, hash);
  }

  /** A reserve call that faults after it has reserved leaves a reservation that no dispatch will ever close. */
  lemma FaultyReserveLeaks(hash: Digest) returns (s: State)
    ensures Reached(s, hash) && s.shared && AllFinished(s.ds) && s.store.active.Keys == {0}
  {
    s := Begin(["a"], true, hash);
    var request := RequestOf(s.ds[0].h);
    SmallGrants(EMPTY, 0, request, 0, {});
    hide RequestOf, Inserted, Inserts, Small, Reached;
    s := Reserving(s, 0, ReserveFault(Some(0)), Inserted(EMPTY, 0, request), hash);
  }

  /** A worker that puts out 8001 tokens, one over what was reserved for it: its reservation stays. */
  lemma RefusedSettlementLeaks(hash: Digest) returns (s: State)
    ensures Reached(s, hash) && s.shared && AllFinished(s.ds) && s.store.active.Keys == {0}
    ensures |s.ds| == 1 && s.ds[0].phase == Finished(SettlementRefused(None, 0, TOO_LONG))
  {
    var g;
    s, g := OneGranted(hash);
    SmallSettles(g, 1, 0, TOO_LONG.outputTokens);
    hide RequestOf, Settles, Small, Reached;
    s := Settling(s, 0, TOO_LONG, SettleRejected, g, hash);
  }

  /** A worker that stays within the allowance: its reservation is closed where the dispatch looks. */
  lemma SettlingFine(s: State, i: nat, g: Gateway, n: nat, hash: Digest) returns (s': State)
    requires Reached(s, hash) && i < |s.ds| && s.ds[i].phase.Holding? && s.ds[i].phase.tier.None?
    requires s.ds[i].limits == DEFAULT_LIMITS && s.ds[i].h.inputTokens == 1
    requires g == (if s.shared then s.store else s.ds[i].copy) && Small(g, n) && n <= 3 && s.ds[i].phase.id in g.active
    ensures Reached(s', hash) && |s'.ds| == |s.ds| && s'.shared == s.shared
    ensures s'.ds[i].phase == Finished(Dispatched(None, Some(s.ds[i].phase.id), Settled, FINE))
    ensures forall j :: 0 <= j < |s.ds| ==> s'.ds[j].h == s.ds[j].h && (j != i ==> s'.ds[j] == s.ds[j])
    ensures s'.store.active == g.active - {s.ds[i].phase.id}
  {
    var id := s.ds[i].phase.id;
    SmallSettles(g, n, id, FINE.outputTokens);
    hide RequestOf, Settles, Small, SettledIn, Reached;
    s' := Settling(s, i, FINE, Settled, SettledIn(g, id, 101), hash);
  }

  lemma BothGranted(hash: Digest) returns (s: State, g: Gateway)
    ensures Reached(s, hash) && s.shared && |s.ds| == 2 && s.store == g && Small(g, 1)
    ensures s.ds[0].phase == Holding(None, 0) && s.ds[1].phase == Holding(None, 0)
    ensures g.active.Keys == {0} && s.ds[0].limits == DEFAULT_LIMITS && s.ds[0].h.inputTokens == 1
  {
    s := Begin(["a", "a"], true, hash);
    var request := RequestOf(s.ds[0].h);
    g := Inserted(EMPTY, 0, request);
    SmallGrants(EMPTY, 0, request, 0, {});
    hide RequestOf, Inserted, Inserts, Small, Reached;
    s := Reserving(s, 0, Granted(0), g, hash);
    s := Reserving(s, 1, Granted(0), g, hash);
  }

  /** Two dispatches of one handoff are granted one reservation; the first closes it while the second still holds it. */
  lemma OneHandoffIsShared(hash: Digest) returns (s: State)
    ensures Reached(s, hash) && s.shared && !Apart(s) && s.store.active == map[]
    ensures |s.ds| == 2 && s.ds[0].phase.Finished? && s.ds[1].phase == Holding(None, 0)
  {
    var g;
    s, g := BothGranted(hash);
    hide *;
    s := SettlingFine(s, 0, g, 1, hash);
    BothHold(s);
  }

  lemma BothHold(s: State)
    requires |s.ds| == 2 && s.ds[1].phase == Holding(None, 0)
    requires s.ds[0].phase == Finished(Dispatched(None, Some(0), Settled, FINE))
    ensures !Apart(s)
  {
    var hs := HoldersOf(s.ds);
    assert hs[0].held == hs[1].held;
  }

  lemma SampleRequest(c: char, hash: Digest)
    requires c !in "\r\n\t"
    ensures RequestOf(Sample([c], hash)).handoffId == Some([c])
  {
    var clean := seq(1, i requires 0 <= i < 1 => if [c][i] in "\r\n\t" then ' ' else [c][i]);
    assert clean == [c];
  }

  lemma BothReserve(hash: Digest) returns (s: State, one: Gateway, two: Gateway)
    ensures Reached(s, hash) && !s.shared && |s.ds| == 2
    ensures s.ds[0].h == Sample("a", hash) && s.ds[1].h == Sample("b", hash)
    ensures s.ds[0].phase == Holding(None, 0) && s.ds[0].copy == one
    ensures s.ds[1].phase == Holding(None, 1) && s.ds[1].copy == two && s.store == two
    ensures one.active.Keys == {0} && two.active.Keys == {0, 1} && Small(one, 1) && Small(two, 2)
    ensures forall i :: 0 <= i < 2 ==> s.ds[i].limits == DEFAULT_LIMITS && s.ds[i].h.inputTokens == 1
  {
    hide RequestOf, Inserted, Inserts, Small, Reached;
    s := Begin(["a", "b"], false, hash);
    var first, second := RequestOf(s.ds[0].h), RequestOf(s.ds[1].h);
    SampleRequest('a', hash);
    SampleRequest('b', hash);
    one, two := TwoInserts(first, second);
    s := Reserving(s, 0, Granted(0), one, hash);
    s := Reserving(s, 1, Granted(1), two, hash);
  }

  lemma EmptyIsSmall()
    ensures Small(EMPTY, 0)
  {
  }

  lemma TwoInserts(first: Reservation, second: Reservation) returns (one: Gateway, two: Gateway)
    requires first.handoffId != second.handoffId && first.inputTokens == second.inputTokens == 1
    requires first.outputTokens == second.outputTokens == OUTPUT_ALLOWANCE
    ensures Reserves(EMPTY, first, DEFAULT_LIMITS, Granted(0), one, {})
    ensures Reserves(one, second, DEFAULT_LIMITS, Granted(1), two, {} + {0})
    ensures one.active.Keys == {0} && two.active.Keys == {0, 1} && Small(one, 1) && Small(two, 2)
  {
    hide Inserted, Inserts, Small, Admits;
    EmptyIsSmall();
    one := Inserted(EMPTY, 0, first);
    SmallGrants(EMPTY, 0, first, 0, {});
    two := Inserted(one, 1, second);
    SmallGrants(one, 1, second, 1, {} + {0});
    assert one.active == map[0 := first];
  }

  /**
   * Two dispatches of different handoffs, a gateway object each, both with an accepted settlement: the reservation of
   * the first is active again at the end.
   */
  lemma PrivateGatewaysRevive(hash: Digest) returns (s: State)
    ensures Reached(s, hash) && !s.shared && DistinctHandoffs(HoldersOf(s.ds))
    ensures |s.ds| == 2 && s.store.active.Keys == {0}
    ensures s.ds[0].phase == Finished(Dispatched(None, Some(0), Settled, FINE))
    ensures s.ds[1].phase == Finished(Dispatched(None, Some(1), Settled, FINE))
  {
    hide *;
    var one, two;
    s, one, two := BothReserve(hash);
    s := SettlingFine(s, 0, one, 1, hash);
    s := SettlingFine(s, 1, two, 2, hash);
    TwoHandoffs(s.ds, hash);
  }

  lemma TwoHandoffs(ds: seq<Dispatch>, hash: Digest)
    requires |ds| == 2 && ds[0].h == Sample("a", hash) && ds[1].h == Sample("b", hash)
    ensures DistinctHandoffs(HoldersOf(ds))
  {
    SampleRequest('a', hash);
    SampleRequest('b', hash);
    hide RequestOf;
  }
}
