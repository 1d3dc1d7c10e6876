/** The gateway's state file: what the loader demands of it, and that no dispatch writes one the loader refuses. */
module GatewayFile {
  import opened DispatchGates
  import opened DispatchProtocol
  import opened DispatchSettlement

  // ----- Sums over maps

  ghost function Sum<K, V>(m: map<K, V>, f: (K, V) -> nat): nat
    decreases |m|
  {
    if m == map[] then 0
    else
      var k :| k in m;
      LessWithout(m, k);
      f(k, m[k]) + Sum(m - {k}, f)
  }

  lemma LessWithout<K, V>(m: map<K, V>, k: K)
    requires k in m
    ensures |m - {k}| == |m| - 1
  {
    assert (m - {k}).Keys == m.Keys - {k};
  }

  /** Any entry can be taken out first. */
  lemma {:induction false} SumWithout<K, V>(m: map<K, V>, k: K, f: (K, V) -> nat)
    requires k in m
    ensures Sum(m, f) == f(k, m[k]) + Sum(m - {k}, f)
    decreases |m|
  {
    var j :| j in m && Sum(m, f) == f(j, m[j]) + Sum(m - {j}, f);
    if j != k {
      LessWithout(m, j);
      LessWithout(m, k);
      SumWithout(m - {j}, k, f);
      SumWithout(m - {k}, j, f);
      assert m - {j} - {k} == m - {k} - {j};
    }
  }

  lemma SumWith<K, V>(m: map<K, V>, k: K, v: V, f: (K, V) -> nat)
    ensures Sum(m[k := v], f) == f(k, v) + Sum(m - {k}, f)
  {
    SumWithout(m[k := v], k, f);
    assert m[k := v] - {k} == m - {k};
  }

  lemma SumWithoutAny<K, V>(m: map<K, V>, k: K, f: (K, V) -> nat)
    ensures Sum(m, f) == (if k in m then f(k, m[k]) else 0) + Sum(m - {k}, f)
  {
    if k in m {
      SumWithout(m, k, f);
    } else {
      assert m - {k} == m;
    }
  }

  // ----- What the loader demands

  datatype KeyKind = Providers | Models | Sessions

  function KindOf(k: UsageKey): KeyKind {
    match k
    case ByProvider(_) => Providers
    case ByModel(_, _) => Models
    case BySession(_) => Sessions
  }

  function InKind(kind: KeyKind): (UsageKey, nat) -> nat { (k, n) => if KindOf(k) == kind then n else 0 }

  function HoldsUnder(k: UsageKey): (nat, Reservation) -> nat { (_, r) => if k in UsageKeys(r) then Total(r) else 0 }

  /** All tokens counted under keys of one kind. */
  ghost function KindTotal(used: map<UsageKey, nat>, kind: KeyKind): nat { Sum(used, InKind(kind)) }

  /** The tokens that active reservations hold under one key. */
  ghost function Required(active: map<nat, Reservation>, k: UsageKey): nat { Sum(active, HoldsUnder(k)) }

  /** Counters are positive, count the same tokens by provider, by model and by session, and cover what is held. */
  ghost predicate Coherent(g: Gateway) {
    (forall k :: k in g.used ==> g.used[k] > 0) &&
    KindTotal(g.used, Providers) == KindTotal(g.used, Models) == KindTotal(g.used, Sessions) &&
    forall k :: Required(g.active, k) <= Used(g.used, k)
  }

  ghost predicate Readable(g: Gateway) {
    OnePerHandoff(g) && g.active.Keys !! g.terminal.Keys && |g.active| <= MAX_ACTIVE && |g.terminal| <= MAX_TERMINAL &&
    |g.used| <= MAX_KEYS && Coherent(g)
  }

  /** Readable, with ids that have been issued. */
  ghost predicate ReadableIn(g: Gateway, issued: set<nat>) {
    Readable(g) && g.active.Keys <= issued && g.terminal.Keys <= issued
  }

  // ----- Moving the counters of a route

  function AddOne(used: map<UsageKey, nat>, k: UsageKey, amount: int): map<UsageKey, nat> {
    if Used(used, k) + amount > 0 then used[k := Used(used, k) + amount] else used - {k}
  }

  lemma AddInTurn(used: map<UsageKey, nat>, r: Reservation, amount: int)
    ensures AddUsage(used, r, amount) == AddOne(AddOne(AddOne(used, ProviderKey(r), amount), ModelKey(r), amount),
                                                SessionKey(r), amount)
  {
  }

  function ProviderKey(r: Reservation): UsageKey { ByProvider(r.vendor) }

  function ModelKey(r: Reservation): UsageKey { ByModel(r.vendor, if r.model.None? then "default" else r.model.value) }

  function SessionKey(r: Reservation): UsageKey { BySession(if r.session.None? then "unscoped" else r.session.value) }

  lemma OneMoves(used: map<UsageKey, nat>, k: UsageKey, amount: int, kind: KeyKind)
    requires Used(used, k) + amount >= 0
    ensures KindTotal(AddOne(used, k, amount), kind) ==
      KindTotal(used, kind) + if KindOf(k) == kind then amount else 0
    ensures forall j :: j != k ==> Used(AddOne(used, k, amount), j) == Used(used, j)
  {
    var f := InKind(kind);
    SumWithoutAny(used, k, f);
    if Used(used, k) + amount > 0 {
      var more: nat := Used(used, k) + amount;
      SumWith(used, k, more, f);
    }
  }

  /** A route is counted once in each kind, so the three totals move together. */
  lemma TotalsMove(used: map<UsageKey, nat>, r: Reservation, amount: int, kind: KeyKind)
    requires forall k :: k in UsageKeys(r) ==> Used(used, k) + amount >= 0
    ensures KindTotal(AddUsage(used, r, amount), kind) == KindTotal(used, kind) + amount
  {
    hide KindTotal, AddOne, AddUsage;
    AddInTurn(used, r, amount);
    var a := AddOne(used, ProviderKey(r), amount);
    var b := AddOne(a, ModelKey(r), amount);
    OneMoves(used, ProviderKey(r), amount, kind);
    OneMoves(a, ModelKey(r), amount, kind);
    OneMoves(b, SessionKey(r), amount, kind);
  }

  lemma StaysPositive(used: map<UsageKey, nat>, r: Reservation, amount: int)
    requires forall k :: k in used ==> used[k] > 0
    ensures forall k :: k in AddUsage(used, r, amount) ==> AddUsage(used, r, amount)[k] > 0
  {
  }

  // ----- Reserving keeps the file readable

  lemma RequiredWith(active: map<nat, Reservation>, id: nat, r: Reservation, k: UsageKey)
    requires id !in active
    ensures Required(active[id := r], k) == Required(active, k) + HoldsUnder(k)(id, r)
  {
    SumWith(active, id, r, HoldsUnder(k));
    assert active - {id} == active;
  }

  lemma InsertCoherent(g: Gateway, r: Reservation, limits: Limits, id: nat, g': Gateway, issued: set<nat>)
    requires Coherent(g) && id !in g.active && Inserts(g, r, limits, id, g', issued)
    ensures Coherent(g')
  {
    hide AddUsage, Admits, NoneActive, UsageKeys, Required, KindTotal;
    forall kind: KeyKind ensures KindTotal(g'.used, kind) == KindTotal(g.used, kind) + Total(r) {
      TotalsMove(g.used, r, Total(r), kind);
    }
    StaysPositive(g.used, r, Total(r));
    forall k ensures Required(g'.active, k) <= Used(g'.used, k) {
      RequiredWith(g.active, id, r, k);
      UsageAdded(g.used, r, Total(r), k);
    }
  }

  lemma UsedKeys(used: map<UsageKey, nat>, r: Reservation, amount: int)
    ensures AddUsage(used, r, amount).Keys <= used.Keys + UsageKeys(r)
    ensures (forall k :: k in UsageKeys(r) ==> k in used) ==> AddUsage(used, r, amount).Keys <= used.Keys
  {
  }

  lemma NoMoreKeys<K, V>(a: map<K, V>, keys: set<K>)
    requires a.Keys <= keys
    ensures |a| <= |keys|
  {
    assert keys == a.Keys + (keys - a.Keys);
    assert |a| == |a.Keys|;
  }

  lemma InsertReadable(g: Gateway, r: Reservation, limits: Limits, id: nat, g': Gateway, issued: set<nat>)
    requires ReadableIn(g, issued) && Inserts(g, r, limits, id, g', issued)
    ensures ReadableIn(g', issued + {id})
  {
    hide AddUsage, UsageKeys, Coherent;
    InsertCoherent(g, r, limits, id, g', issued);
    UsedKeys(g.used, r, Total(r));
    NoMoreKeys(g'.used, g.used.Keys + UsageKeys(r));
    assert |g'.active| == |g.active| + 1;
  }

  // ----- Closing keeps it readable

  lemma HeldIsCovered(g: Gateway, id: nat, k: UsageKey)
    requires Coherent(g) && id in g.active && k in UsageKeys(g.active[id])
    ensures Total(g.active[id]) <= Used(g.used, k)
  {
    SumWithout(g.active, id, HoldsUnder(k));
  }

  function Afterwards(used: map<UsageKey, nat>, r: Reservation, spent: nat): map<UsageKey, nat> {
    AddUsage(AddUsage(used, r, -(Total(r) as int)), r, spent)
  }

  /** What is covered by the counters is given back in full, whatever is then spent. */
  lemma GivenBack(used: map<UsageKey, nat>, r: Reservation, spent: nat)
    requires forall k :: k in UsageKeys(r) ==> Total(r) <= Used(used, k)
    ensures var after := Afterwards(used, r, spent);
      (forall kind :: KindTotal(after, kind) == KindTotal(used, kind) - Total(r) + spent) &&
      forall k :: Used(after, k) == Used(used, k) + if k in UsageKeys(r) then spent - Total(r) else 0
  {
    hide AddUsage, UsageKeys, KindTotal;
    var held: int := -(Total(r) as int);
    var given := AddUsage(used, r, held);
    forall kind: KeyKind
      ensures KindTotal(AddUsage(given, r, spent), kind) == KindTotal(used, kind) - Total(r) + spent
    {
      TotalsMove(used, r, held, kind);
      TotalsMove(given, r, spent, kind);
    }
    forall k
      ensures Used(AddUsage(given, r, spent), k) == Used(used, k) + if k in UsageKeys(r) then spent - Total(r) else 0
    {
      UsageAdded(used, r, held, k);
      UsageAdded(given, r, spent, k);
    }
  }

  lemma RequiredWithout(active: map<nat, Reservation>, id: nat, k: UsageKey)
    requires id in active
    ensures Required(active - {id}, k) ==
      Required(active, k) - if k in UsageKeys(active[id]) then Total(active[id]) else 0
  {
    SumWithout(active, id, HoldsUnder(k));
  }

  lemma CloseCoherent(g: Gateway, id: nat, how: Terminal, spent: nat, g': Gateway)
    requires Coherent(g) && Closes(g, id, how, spent, g')
    ensures Coherent(g')
  {
    hide AddUsage, Prunes, UsageKeys, Required, KindTotal, Total;
    var r := g.active[id];
    forall k | k in UsageKeys(r) ensures Total(r) <= Used(g.used, k) {
      HeldIsCovered(g, id, k);
    }
    GivenBack(g.used, r, spent);
    forall k ensures Required(g'.active, k) <= Used(g'.used, k) {
      RequiredWithout(g.active, id, k);
    }
    assert forall k :: k in g'.used ==> g'.used[k] > 0 by { PositiveAfterwards(g.used, r, spent); }
  }

  lemma PositiveAfterwards(used: map<UsageKey, nat>, r: Reservation, spent: nat)
    requires forall k :: k in used ==> used[k] > 0
    ensures forall k :: k in Afterwards(used, r, spent) ==> Afterwards(used, r, spent)[k] > 0
  {
    hide AddUsage;
    StaysPositive(used, r, -(Total(r) as int));
    StaysPositive(AddUsage(used, r, -(Total(r) as int)), r, spent);
  }

  lemma CloseReadable(g: Gateway, id: nat, how: Terminal, spent: nat, g': Gateway, issued: set<nat>)
    requires ReadableIn(g, issued) && Closes(g, id, how, spent, g') && spent <= Total(g.active[id])
    ensures ReadableIn(g', issued)
  {
    CloseCoherent(g, id, how, spent, g');
    FewerUsed(g, id, how, spent, g');
    hide AddUsage, Coherent, Total, UsageKeys;
    NoMoreKeys(g'.used, g.used.Keys);
    NoMoreKeys(g'.active, g.active.Keys);
    OthersApart(g, id, how, g');
  }

  lemma OthersApart(g: Gateway, id: nat, how: Terminal, g': Gateway)
    requires id in g.active && g'.active == g.active - {id} && Prunes(g.terminal[id := how], g'.terminal)
    requires OnePerHandoff(g) && g.active.Keys !! g.terminal.Keys
    ensures OnePerHandoff(g') && g'.active.Keys !! g'.terminal.Keys && |g'.terminal| <= MAX_TERMINAL
    ensures g'.terminal.Keys <= g.terminal.Keys + {id}
  {
  }

  lemma FewerUsed(g: Gateway, id: nat, how: Terminal, spent: nat, g': Gateway)
    requires Coherent(g) && Closes(g, id, how, spent, g') && spent <= Total(g.active[id])
    ensures g'.used.Keys <= g.used.Keys
  {
    var r := g.active[id];
    var held: int := -(Total(r) as int);
    forall k | k in g'.used ensures k in g.used {
      UsageAdded(g.used, r, held, k);
      UsageAdded(AddUsage(g.used, r, held), r, spent, k);
      if k in UsageKeys(r) && Total(r) > 0 {
        HeldIsCovered(g, id, k);
      }
    }
  }

  // ----- Every run, with one gateway object or one to each dispatch

  /** No call leaves a gateway that could not be read back, faults included. */
  lemma CallKeepsReadable(d: Dispatch, a: Action, g: Gateway, g': Gateway, issued: set<nat>)
    requires Enabled(d, a) && GatewayStep(d, a, g, g', issued) && ReadableIn(g, issued)
    ensures ReadableIn(g', issued + IssuedBy(a))
  {
    hide ReadableIn, Closes, Inserts, RequestOf;
    assert issued + {} == issued;
    match a
    case Reserve(Granted(id)) =>
      if id in g.active { Wider(g, issued, issued + {id}); }
      else { InsertReadable(g, RequestOf(d.h), d.limits, id, g', issued); }
    case Reserve(ReserveFault(Some(id))) => InsertReadable(g, RequestOf(d.h), d.limits, id, g', issued);
    case Conclude(answer) =>
      if d.phase.held.Some? && d.phase.held.value in g.active && !answer.SettleRejected? {
        var spent := d.h.inputTokens + d.phase.result.outputTokens;
        CloseReadable(g, d.phase.held.value, WasSettled, spent, g', issued);
      }
    case Release(ok) =>
      if d.phase.id in g.active { CloseReadable(g, d.phase.id, WasReleased, 0, g', issued); }
    case _ =>
  }

  lemma Wider(g: Gateway, issued: set<nat>, more: set<nat>)
    requires ReadableIn(g, issued) && issued <= more
    ensures ReadableIn(g, more)
  {
  }

  /** A dispatch that holds a reservation, and its own gateway object. */
  predicate Holds(d: Dispatch) { HeldBy(d.phase).Some? && !d.phase.Finished? }

  ghost predicate FilesReadable(s: State) {
    ReadableIn(s.store, s.issued) &&
    forall i :: 0 <= i < |s.ds| && Holds(s.ds[i]) ==> ReadableIn(s.ds[i].copy, s.issued)
  }

  lemma StepKeepsReadable(s: State, l: Label, s': State, hash: Digest)
    requires FilesReadable(s) && Step(s, l, s', hash)
    ensures FilesReadable(s')
  {
    var d, a := s.ds[l.i], l.action;
    var g := Opened(s, d, a);
    StepShows(s, l, s', hash);
    if s.shared || a.Reserve? || Holds(d) {
      CallKeepsReadable(d, a, g, l.gateway, s.issued);
    }
    hide Step, GatewayStep, ReadableIn, Holds;
    Wider(s.store, s.issued, s'.issued);
    forall i | 0 <= i < |s'.ds| && Holds(s'.ds[i]) ensures ReadableIn(s'.ds[i].copy, s'.issued) {
      if i != l.i || (!TouchesStore(a) && Holds(d)) {
        Wider(s'.ds[i].copy, s.issued, s'.issued);
      }
    }
  }

  /** What a step shows of copies and of the file. */
  lemma StepShows(s: State, l: Label, s': State, hash: Digest)
    requires Step(s, l, s', hash)
    ensures |s'.ds| == |s.ds| && s'.issued == s.issued + IssuedBy(l.action)
    ensures forall i :: 0 <= i < |s.ds| && i != l.i ==> s'.ds[i] == s.ds[i]
    ensures var d, d', g := s.ds[l.i], s'.ds[l.i], Opened(s, s.ds[l.i], l.action);
      d'.copy == (if TouchesStore(l.action) then l.gateway else d.copy) &&
      (s'.store == s.store || (s'.store == l.gateway && (l.action.Reserve? || s.shared || Holds(d)))) &&
      (Holds(d') ==> l.action.Reserve? || Holds(d))
  {
    hide Gate, RequestOf, Reserves, Settles, Releases, Effect;
  }

  /** The loader never refuses a file that dispatches have written, however many gateway objects they use. */
  lemma {:induction false} FileStaysReadable(r: Run, hash: Digest, k: nat)
    requires IsRun(r, hash) && k < |r.states| && ReadableIn(r.states[0].store, r.states[0].issued)
    ensures FilesReadable(r.states[k]) && Readable(r.states[k].store)
  {
    hide Step, Readable;
    if k == 0 {
      forall i | 0 <= i < |r.states[0].ds| ensures !Holds(r.states[0].ds[i]) {
      }
    } else {
      FileStaysReadable(r, hash, k - 1);
      assert Step(r.states[k - 1], r.labels[k - 1], r.states[k], hash);
      StepKeepsReadable(r.states[k - 1], r.labels[k - 1], r.states[k], hash);
    }
  }

  /** The empty file is one to start from. */
  lemma NothingIsReadable()
    ensures ReadableIn(Gateway(map[], map[], map[]), {})
  {
  }
}
