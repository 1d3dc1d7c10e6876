/** The rules of the gateway and of a dispatch's report, on plain fields and numbers. */
module DispatchRules {
  import opened Text
  import opened ExecutionProfile
  import opened DispatchGates
  import opened DispatchProtocol

  /** Different contents have different digests. */
  lemma InjectiveMeans(hash: Digest)
    ensures Injective(hash) <==> forall x, y :: x != y ==> hash(x) != hash(y)
  {
  }

  // ----- What a dispatch asks the gateway for

  /** A field is kept as it is, but for line breaks and tabs, which become blanks, and for what is past 128. */
  lemma FieldIs(s: string)
    ensures BoundedField(s).None? <==> |s| == 0
    ensures |s| > 0 ==>
      var kept := BoundedField(s).value;
      |kept| == (if |s| > 128 then 128 else |s|) &&
      forall i :: 0 <= i < |kept| ==> kept[i] == if s[i] == '\r' || s[i] == '\n' || s[i] == '\t' then ' ' else s[i]
  {
  }

  /**
   * The request is for the handoff's id, or `unknown`, its vendor, its model, or the CLI's own where that goes by
   * model and none is given, its session and its input, and 8000 tokens of output.
   */
  lemma RequestIs(h: Handoff)
    ensures var r := RequestOf(h);
      r.handoffId == Some(if |h.id| == 0 then "unknown" else BoundedField(h.id).value) && r.vendor == h.vendor &&
      r.inputTokens == h.inputTokens && r.outputTokens == 8000 &&
      r.session == (if h.session.None? then None else BoundedField(h.session.value)) &&
      (h.model.Some? ==> r.model == BoundedField(h.model.value)) &&
      (h.model.None? && h.vendor == AgyCli ==> r.model == Some("gemini-3.5-flash-medium")) &&
      (h.model.None? && h.vendor != AgyCli ==> r.model == None)
  {
    FieldIs(h.id);
    var name := "gemini-3.5-flash-medium";
    FieldIs(name);
    assert BoundedField(name).value == name;
    hide BoundedField;
  }

  // ----- Admission and settlement, counter by counter

  /** Tokens counted for a provider, a model of it, and a session; nothing where there is no counter. */
  predicate Counts(used: map<UsageKey, nat>, r: Reservation, provider: nat, model: nat, session: nat) {
    var p, m, s := ByProvider(r.vendor), ByModel(r.vendor, if r.model == None then "default" else r.model.value),
                   BySession(if r.session == None then "unscoped" else r.session.value);
    provider == (if p in used then used[p] else 0) && model == (if m in used then used[m] else 0) &&
    session == if s in used then used[s] else 0
  }

  /** How many counters the route would add. */
  function NewCounters(used: map<UsageKey, nat>, r: Reservation): nat {
    (if ByProvider(r.vendor) in used then 0 else 1) +
    (if ByModel(r.vendor, if r.model == None then "default" else r.model.value) in used then 0 else 1) +
    (if BySession(if r.session == None then "unscoped" else r.session.value) in used then 0 else 1)
  }

  lemma CountersAdded(used: map<UsageKey, nat>, r: Reservation)
    ensures |used.Keys + UsageKeys(r)| == |used| + NewCounters(used, r)
  {
    hide UsageKeys;
    var p, m, s := ByProvider(r.vendor), ByModel(r.vendor, if r.model == None then "default" else r.model.value),
                   BySession(if r.session == None then "unscoped" else r.session.value);
    ThreeKeys(used.Keys, p, m, s);
    assert |used.Keys| == |used|;
    KeysAre(r);
    OneByOne(used.Keys, {p}, {m}, {s});
  }

  lemma OneByOne<T>(a: set<T>, x: set<T>, y: set<T>, z: set<T>)
    ensures a + (x + y + z) == a + x + y + z
  {
  }

  lemma ThreeKeys(keys: set<UsageKey>, p: UsageKey, m: UsageKey, s: UsageKey)
    requires p != m && p != s && m != s
    ensures |keys + {p} + {m} + {s}| ==
      |keys| + (if p in keys then 0 else 1) + (if m in keys then 0 else 1) + (if s in keys then 0 else 1)
  {
    OneKey(keys, p);
    OneKey(keys + {p}, m);
    OneKey(keys + {p} + {m}, s);
  }

  lemma OneKey(keys: set<UsageKey>, k: UsageKey)
    ensures |keys + {k}| == |keys| + if k in keys then 0 else 1
  {
    if k in keys {
      assert keys + {k} == keys;
    }
  }

  lemma KeysAre(r: Reservation)
    ensures UsageKeys(r) ==
      {ByProvider(r.vendor)} + {ByModel(r.vendor, if r.model == None then "default" else r.model.value)} +
      {BySession(if r.session == None then "unscoped" else r.session.value)}
  {
  }

  /**
   * A request is admitted while fewer than 512 are active and its counters fit among 1536, within the caps on input and
   * output, and while input and output together fit under the budgets of its provider, model and session.
   */
  lemma AdmitsExactly(g: Gateway, r: Reservation, limits: Limits, provider: nat, model: nat, session: nat)
    requires Counts(g.used, r, provider, model, session)
    ensures Admits(g, r, limits) <==>
      |g.active| < 512 && |g.used| + NewCounters(g.used, r) <= 1536 && r.inputTokens <= limits.inputCap &&
      r.outputTokens <= limits.outputCap &&
      provider + r.inputTokens + r.outputTokens <= limits.providerBudget &&
      model + r.inputTokens + r.outputTokens <= limits.modelBudget &&
      session + r.inputTokens + r.outputTokens <= limits.sessionBudget
  {
    CountersAdded(g.used, r);
  }

  /**
   * Usage is accepted within the caps, within what was reserved, and where putting it in place of the reservation keeps
   * the three budgets.
   */
  lemma AcceptsExactly(g: Gateway, r: Reservation, input: nat, output: nat, limits: Limits, provider: nat, model: nat,
                       session: nat)
    requires Counts(g.used, r, provider, model, session)
    ensures Accepts(g, r, input, output, limits) <==>
      var saved := r.inputTokens + r.outputTokens - input - output;
      input <= limits.inputCap && output <= limits.outputCap && saved >= 0 &&
      provider - saved <= limits.providerBudget && model - saved <= limits.modelBudget &&
      session - saved <= limits.sessionBudget
  {
    KeysAre(r);
    hide UsageKeys;
    var used := g.used;
    assert forall k :: k in UsageKeys(r) ==> Used(used, k) in {provider, model, session};
    assert forall k :: k in UsageKeys(r) ==> k.ByProvider? || k.ByModel? || k.BySession?;
    assert ByProvider(r.vendor) in UsageKeys(r);
    assert ByModel(r.vendor, if r.model == None then "default" else r.model.value) in UsageKeys(r);
    assert BySession(if r.session == None then "unscoped" else r.session.value) in UsageKeys(r);
  }

  /** Of the closed reservations all are remembered up to 1024, and above that 1024 of them, as they were. */
  lemma PrunesExactly(all: map<nat, Terminal>, kept: map<nat, Terminal>)
    requires Prunes(all, kept)
    ensures |all| <= 1024 ==> kept == all
    ensures |all| > 1024 ==> |kept| == 1024 && forall id :: id in kept ==> id in all && kept[id] == all[id]
  {
    if |all| <= 1024 {
      SameKeys(kept, all);
    }
  }

  lemma SameKeys(a: map<nat, Terminal>, b: map<nat, Terminal>)
    requires a.Keys <= b.Keys && |a| == |b| && forall id :: id in a ==> a[id] == b[id]
    ensures a == b
  {
    assert |a.Keys| == |a| && |b.Keys| == |b|;
    assert b.Keys == a.Keys + (b.Keys - a.Keys);
    assert b.Keys - a.Keys == {};
  }

  // ----- What is reported and written

  /** A worker that exits cleanly and without an error is reported as completed, and any other as failed. */
  lemma ReportedExactly(d: Dispatch, answer: SettleAnswer)
    requires d.phase.Returned? && d.h.tracksEfficiency && d.phase.held.None?
    ensures AfterSettle(d, answer).trace == d.trace + [
      Efficiency(if d.phase.result.exitedZero && d.phase.result.errorFree then Completed else Failed),
      Decision(true, None, d.phase.tier)]
  {
  }

  /**
   * What a call leaves where dispatches look next: over one gateway object the object as it is; over a file what was
   * written, which is nothing when the write fails for good.
   */
  lemma WrittenExactly(s: State, l: Label, g: Gateway)
    requires TouchesStore(l.action)
    ensures s.shared ==> Stored(s, l, g) == if l.gateway == g then s.store else l.gateway
    ensures !s.shared && l.gateway != g ==>
      var failed := match l.action
        case Reserve(answer) => answer.ReserveFault?
        case Conclude(answer) => answer == SettleFault
        case Release(ok) => !ok
        case _ => false;
      Stored(s, l, g) == if failed && !l.written then s.store else l.gateway
  {
  }
}
