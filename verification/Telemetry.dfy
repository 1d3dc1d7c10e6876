/** Folding telemetry records into summaries. */
module Telemetry {
  import opened Text
  import opened Grouping

  /** A JSON value, as far as the summaries look; `Missing` is an absent field. */
  datatype Value = Str(s: string) | Num(n: real) | Bool(b: bool) | Null | Missing | Nested

  type Fields = map<string, Value>

  /** One parsed line. */
  datatype Entry = Object(fields: Fields) | NotAnObject

  /** What `Date.parse` makes of a value, in milliseconds. */
  type Clock = Value -> Option<real>

  datatype Window = Window(clock: Clock, now: real, since: real)

  // ----- Fields

  function Get(r: Fields, k: string): Value { if k in r then r[k] else Missing }

  function StringBucket(v: Value, fallback: string): string { if v.Str? && v.s != "" then v.s else fallback }

  function NumberBucket(v: Value): real { if v.Num? then v.n else 0.0 }

  predicate WithinSince(recordedAt: Value, w: Window) {
    var t := w.clock(recordedAt);
    t.Some? && w.since >= 0.0 && w.now - w.since <= t.value <= w.now
  }

  predicate Counts(e: Entry, w: Window) { e.Object? && WithinSince(Get(e.fields, "recorded_at"), w) }

  /** The records a summary is about. */
  function Included(entries: seq<Entry>, w: Window): seq<Fields> {
    if entries == [] then []
    else
      var last := entries[|entries| - 1];
      Included(entries[..|entries| - 1], w) + if Counts(last, w) then [last.fields] else []
  }

  lemma IncludedAdds(entries: seq<Entry>, e: Entry, w: Window)
    ensures Included(entries + [e], w) == Included(entries, w) + if Counts(e, w) then [e.fields] else []
  {
    var more := entries + [e];
    assert more[..|more| - 1] == entries;
  }

  lemma {:induction false} IncludedMerges(a: seq<Entry>, b: seq<Entry>, w: Window)
    ensures Included(a + b, w) == Included(a, w) + Included(b, w)
  {
    if b == [] {
      assert a + b == a;
    } else {
      IncludedMerges(a, b[..|b| - 1], w);
      assert (a + b)[..|a + b| - 1] == a + b[..|b| - 1];
    }
  }

  /** A record counts when its time is known and no earlier than the window reaches back, and no later than now. */
  lemma CountsExactly(e: Entry, w: Window)
    ensures Counts(e, w) <==>
      e.Object? && w.since >= 0.0 &&
      var t := w.clock(if "recorded_at" in e.fields then e.fields["recorded_at"] else Missing);
      t.Some? && t.value <= w.now && w.now - t.value <= w.since
  {
  }

  /** The text of a field, or another where there is none or it is empty. */
  function TextOr(r: Fields, field: string, otherwise: string): string {
    if field in r && r[field].Str? && |r[field].s| > 0 then r[field].s else otherwise
  }

  /** The number in a field, or nothing. */
  function NumberOf(r: Fields, field: string): real { if field in r && r[field].Num? then r[field].n else 0.0 }

  // ----- Counting in a plain object

  /**
   * A counter kept on a plain object. A key that every object inherits is found there before it is ever set, and adding
   * one to what is found makes text: the inherited value's text with one more `1` each time.
   */
  datatype Cell = Count(n: nat) | Garbled(n: nat)

  function InheritedKeys(): set<string> {
    {"constructor", "__defineGetter__", "__defineSetter__", "hasOwnProperty", "__lookupGetter__", "__lookupSetter__",
     "isPrototypeOf", "propertyIsEnumerable", "toString", "valueOf", "toLocaleString", "__proto__"}
  }

  /** What every object inherits under a name of its own: these twelve. */
  lemma InheritedAre(k: string)
    ensures Inherited(k) <==>
      k == "constructor" || k == "hasOwnProperty" || k == "isPrototypeOf" || k == "propertyIsEnumerable" ||
      k == "toString" || k == "valueOf" || k == "toLocaleString" || k == "__proto__" || k == "__defineGetter__" ||
      k == "__defineSetter__" || k == "__lookupGetter__" || k == "__lookupSetter__"
  {
  }

  predicate Inherited(k: string) { k in InheritedKeys() }

  /** Setting the prototype to a text is ignored. */
  function Increment(m: map<string, Cell>, k: string): map<string, Cell> {
    if k == "__proto__" then m
    else if k !in m then m[k := if Inherited(k) then Garbled(1) else Count(1)]
    else m[k := match m[k] case Count(n) => Count(n + 1) case Garbled(n) => Garbled(n + 1)]
  }

  function Tally(items: seq<Fields>, key: Fields -> string): map<string, Cell> {
    if items == [] then map[]
    else Increment(Tally(items[..|items| - 1], key), key(items[|items| - 1]))
  }

  lemma TallyAdds(items: seq<Fields>, r: Fields, key: Fields -> string)
    ensures Tally(items + [r], key) == Increment(Tally(items, key), key(r))
  {
    var more := items + [r];
    assert more[..|more| - 1] == items;
  }

  /** A count contributes itself; a garbled cell is no number. */
  function Counted(c: Cell): int { if c.Count? then c.n else 0 }

  function AddInt(x: int, y: int): int { x + y }

  function Ints(): Monoid<int> { Monoid(0, AddInt) }

  lemma IntsLawful()
    ensures Lawful(Ints())
  {
  }

  ghost function BucketSum(m: map<string, Cell>): int { SumOf(m, Counted, Ints()) }

  /** How many records fall under a key that every object inherits. */
  function Unusable(items: seq<Fields>, key: Fields -> string): nat {
    if items == [] then 0
    else Unusable(items[..|items| - 1], key) + if Inherited(key(items[|items| - 1])) then 1 else 0
  }

  /** Inherited keys are garbled and no others are. */
  predicate Tidy(m: map<string, Cell>) {
    "__proto__" !in m && forall k <- m :: m[k].Garbled? <==> Inherited(k)
  }

  lemma IncrementSum(m: map<string, Cell>, k: string)
    requires Tidy(m)
    ensures Tidy(Increment(m, k))
    ensures BucketSum(Increment(m, k)) == BucketSum(m) + if Inherited(k) then 0 else 1
  {
    hide SumOf, InheritedKeys;
    assert Inherited("__proto__") by { assert "__proto__" in InheritedKeys() by { ProtoInherited(); } }
    IntsLawful();
    if k != "__proto__" {
      SumUpdate(m, k, Increment(m, k)[k], if Inherited(k) then 0 else 1, Counted, Ints());
    }
  }

  lemma ProtoInherited()
    ensures "__proto__" in InheritedKeys()
  {
  }

  lemma {:induction false} TallyCount(items: seq<Fields>, key: Fields -> string)
    ensures Tidy(Tally(items, key))
    ensures BucketSum(Tally(items, key)) + Unusable(items, key) == |items|
  {
    hide Inherited, Increment, BucketSum, Tidy;
    if items == [] {
      assert Tidy(map[]) && BucketSum(map[]) == 0 by { NoBuckets(); }
    } else {
      TallyCount(items[..|items| - 1], key);
      IncrementSum(Tally(items[..|items| - 1], key), key(items[|items| - 1]));
    }
  }

  lemma NoBuckets()
    ensures Tidy(map[]) && BucketSum(map[]) == 0
  {
  }

  lemma {:induction false} UnusableNone(items: seq<Fields>, key: Fields -> string)
    ensures Unusable(items, key) == 0 <==> forall i :: 0 <= i < |items| ==> !Inherited(key(items[i]))
  {
    hide Inherited;
    if items != [] {
      UnusableNone(items[..|items| - 1], key);
    }
  }

  /** A bucket's counts sum to the number of records exactly when no record falls under an inherited key. */
  lemma BucketConserves(items: seq<Fields>, key: Fields -> string)
    ensures BucketSum(Tally(items, key)) == |items| <==> forall i :: 0 <= i < |items| ==> !Inherited(key(items[i]))
  {
    hide Inherited, BucketSum, Tally, Unusable;
    TallyCount(items, key);
    UnusableNone(items, key);
  }

  /** One call from a vendor named `constructor` is in the total and in no vendor's count. */
  lemma InheritedVendorUncounted(r: Fields)
    requires Get(r, "vendor") == Str("constructor")
    ensures |[r]| == 1 && BucketSum(Tally([r], VendorKey)) == 0
  {
    hide BucketSum, Tally;
    assert Inherited(VendorKey(r)) by { assert "constructor" in InheritedKeys(); }
    TallyCount([r], VendorKey);
    assert [r][..0] == [];
  }

  // ----- Buckets of a concatenation

  function AddCells(x: Cell, y: Cell): Cell {
    if x.Garbled? || y.Garbled? then Garbled(x.n + y.n) else Count(x.n + y.n)
  }

  function Cells(): Monoid<Cell> { Monoid(Count(0), AddCells) }

  lemma CellsLawful()
    ensures Lawful(Cells())
  {
  }

  function MergeBuckets(a: map<string, Cell>, b: map<string, Cell>): map<string, Cell> { Merge(a, b, Cells()) }

  /** What one record adds to the cell of its key. */
  function OneCell(k: string): Cell { if Inherited(k) then Garbled(1) else Count(1) }

  lemma IncrementIs(m: map<string, Cell>, k: string)
    requires Tidy(m) && k != "__proto__"
    ensures Increment(m, k) == m[k := AddCells(At(m, k, Count(0)), OneCell(k))]
  {
    hide InheritedKeys;
  }

  lemma MergedTidy(a: map<string, Cell>, b: map<string, Cell>)
    requires Tidy(a) && Tidy(b)
    ensures Tidy(MergeBuckets(a, b))
  {
    hide InheritedKeys;
  }

  lemma IncrementMerged(a: map<string, Cell>, b: map<string, Cell>, k: string)
    requires Tidy(a) && Tidy(b)
    ensures MergeBuckets(a, Increment(b, k)) == Increment(MergeBuckets(a, b), k)
  {
    hide InheritedKeys, Tidy, Merge, AddCells, OneCell, Lawful;
    if k != "__proto__" {
      CellsLawful();
      MergedTidy(a, b);
      IncrementIs(b, k);
      IncrementIs(MergeBuckets(a, b), k);
      MergeUpdate(a, b, k, OneCell(k), Cells());
    } else {
      assert Increment(b, k) == b;
    }
  }

  /** The buckets of a concatenation are the two parts' buckets, merged key by key. */
  lemma {:induction false} TallyMerges(a: seq<Fields>, b: seq<Fields>, key: Fields -> string)
    ensures Tally(a + b, key) == MergeBuckets(Tally(a, key), Tally(b, key))
  {
    hide Increment, MergeBuckets, Tidy;
    if b == [] {
      assert a + b == a;
      assert MergeBuckets(Tally(a, key), map[]) == Tally(a, key) by { MergeNone(Tally(a, key)); }
    } else {
      var before, last := b[..|b| - 1], b[|b| - 1];
      TallyMerges(a, before, key);
      assert (a + b)[..|a + b| - 1] == a + before;
      TallyCount(a, key);
      TallyCount(before, key);
      IncrementMerged(Tally(a, key), Tally(before, key), key(last));
    }
  }

  lemma MergeNone(m: map<string, Cell>)
    ensures MergeBuckets(m, map[]) == m
  {
  }

  // ----- Vendor calls

  datatype Calls = Calls(
    total: int, successful: int, retried: int, input: real, output: real, tokens: real, seconds: real)

  datatype Tokens = Tokens(input: int, output: int, total: int)

  function AddCalls(x: Calls, y: Calls): Calls {
    Calls(x.total + y.total, x.successful + y.successful, x.retried + y.retried, x.input + y.input,
          x.output + y.output, x.tokens + y.tokens, x.seconds + y.seconds)
  }

  function CallsMonoid(): Monoid<Calls> { Monoid(Calls(0, 0, 0, 0.0, 0.0, 0.0, 0.0), AddCalls) }

  function AddTokens(x: Tokens, y: Tokens): Tokens {
    Tokens(x.input + y.input, x.output + y.output, x.total + y.total)
  }

  function TokensMonoid(): Monoid<Tokens> { Monoid(Tokens(0, 0, 0), AddTokens) }

  lemma MonoidsLawful()
    ensures Lawful(CallsMonoid()) && Lawful(TokensMonoid())
  {
  }

  function Retried(r: Fields): int { if NumberBucket(Get(r, "attempt_count")) > 1.0 then 1 else 0 }

  function OneCall(r: Fields): Calls {
    Calls(1, if Get(r, "outcome") == Str("success") then 1 else 0, Retried(r), NumberBucket(Get(r, "input_tokens")),
          NumberBucket(Get(r, "output_tokens")), NumberBucket(Get(r, "total_tokens")),
          NumberBucket(Get(r, "duration_seconds")))
  }

  /** Token budgets take whole, positive counts. */
  function SafeTokenCount(n: real): int { if n > 0.0 then n.Floor else 0 }

  function OneTokens(r: Fields): Tokens {
    Tokens(SafeTokenCount(NumberBucket(Get(r, "input_tokens"))), SafeTokenCount(NumberBucket(Get(r, "output_tokens"))),
           SafeTokenCount(NumberBucket(Get(r, "total_tokens"))))
  }

  function VendorKey(r: Fields): string { StringBucket(Get(r, "vendor"), "unknown") }
  function ModeKey(r: Fields): string { StringBucket(Get(r, "routing_mode"), "none") }
  function OutcomeKey(r: Fields): string { StringBucket(Get(r, "outcome"), "unknown") }
  function ModelKey(r: Fields): string { StringBucket(Get(r, "model"), "unknown") }
  function SessionKey(r: Fields): string { StringBucket(Get(r, "session_id"), "none") }
  function ProviderKey(r: Fields): string { StringBucket(Get(r, "provider"), "unknown") }

  datatype VendorSummary = VendorSummary(
    total: nat, excluded: nat, byVendor: map<string, Cell>, byMode: map<string, Cell>, byOutcome: map<string, Cell>,
    byModel: map<string, Calls>, bySession: map<string, Calls>, retried: int, tokens: map<string, Tokens>)

  /** The summary of the records in the window, with how many were not. */
  function VendorOf(seen: seq<Fields>, excluded: nat): VendorSummary {
    VendorSummary(
      |seen|, excluded, Tally(seen, VendorKey), Tally(seen, ModeKey), Tally(seen, OutcomeKey),
      Group(seen, ModelKey, OneCall, CallsMonoid()), Group(seen, SessionKey, OneCall, CallsMonoid()),
      Total(seen, Retried, Ints()), Group(seen, ProviderKey, OneTokens, TokensMonoid()))
  }

  method SummarizeVendorCalls(records: seq<Entry>, w: Window) returns (s: VendorSummary)
    ensures s.total + s.excluded == |records|
    ensures s == VendorOf(Included(records, w), s.excluded)
  {
    hide Tally, Group, Total, Increment, WithinSince, Included, OneCall, OneTokens, CallsMonoid, TokensMonoid, Ints;
    var byVendor: map<string, Cell>, byMode: map<string, Cell>, byOutcome: map<string, Cell> := map[], map[], map[];
    var byModel: map<string, Calls>, bySession: map<string, Calls> := map[], map[];
    var tokens: map<string, Tokens> := map[];
    var total, excluded, retried := 0, 0, 0;
    ghost var seen: seq<Fields> := [];
    NothingSeen(w);
    var i := 0;
    while i < |records|
      invariant 0 <= i <= |records|
      invariant seen == Included(records[..i], w)
      invariant total + excluded == i && total >= 0 && excluded >= 0
      invariant VendorSummary(total, excluded, byVendor, byMode, byOutcome, byModel, bySession, retried, tokens) ==
        VendorOf(seen, excluded)
    {
      var record := records[i];
      assert records[..i + 1] == records[..i] + [record];
      IncludedAdds(records[..i], record, w);
      if !Counts(record, w) {
        excluded := excluded + 1;
      } else {
        var r := record.fields;
        VendorAdds(seen, excluded, r);
        total := total + 1;
        byVendor := Increment(byVendor, VendorKey(r));
        byMode := Increment(byMode, ModeKey(r));
        byOutcome := Increment(byOutcome, OutcomeKey(r));
        if NumberBucket(Get(r, "attempt_count")) > 1.0 {
          retried := retried + 1;
        }
        var model := ModelKey(r);
        var priorModel := At(byModel, model, CallsMonoid().zero);
        byModel := byModel[model := AddCalls(priorModel, OneCall(r))];
        var session := SessionKey(r);
        var priorSession := At(bySession, session, CallsMonoid().zero);
        bySession := bySession[session := AddCalls(priorSession, OneCall(r))];
        var provider := ProviderKey(r);
        var priorBudget := At(tokens, provider, TokensMonoid().zero);
        tokens := tokens[provider := AddTokens(priorBudget, OneTokens(r))];
        seen := seen + [r];
      }
      i := i + 1;
    }
    assert records[..i] == records;
    return VendorSummary(total, excluded, byVendor, byMode, byOutcome, byModel, bySession, retried, tokens);
  }

  lemma NothingSeen(w: Window)
    ensures Included([], w) == []
    ensures VendorOf([], 0) == VendorSummary(0, 0, map[], map[], map[], map[], map[], 0, map[])
  {
  }

  /** What one more record in the window does to the summary. */
  lemma VendorAdds(seen: seq<Fields>, excluded: nat, r: Fields)
    ensures var s := VendorOf(seen, excluded);
      VendorOf(seen + [r], excluded) == VendorSummary(
        s.total + 1, s.excluded, Increment(s.byVendor, VendorKey(r)), Increment(s.byMode, ModeKey(r)),
        Increment(s.byOutcome, OutcomeKey(r)),
        s.byModel[ModelKey(r) := AddCalls(At(s.byModel, ModelKey(r), CallsMonoid().zero), OneCall(r))],
        s.bySession[SessionKey(r) := AddCalls(At(s.bySession, SessionKey(r), CallsMonoid().zero), OneCall(r))],
        s.retried + (if NumberBucket(Get(r, "attempt_count")) > 1.0 then 1 else 0),
        s.tokens[ProviderKey(r) := AddTokens(At(s.tokens, ProviderKey(r), TokensMonoid().zero), OneTokens(r))])
  {
    hide Tally, Group, Total, Increment, OneCall, OneTokens, VendorKey, ModeKey, OutcomeKey, ModelKey, SessionKey,
         ProviderKey;
    TallyAdds(seen, r, VendorKey);
    TallyAdds(seen, r, ModeKey);
    TallyAdds(seen, r, OutcomeKey);
    GroupAdds(seen, r, ModelKey, OneCall, CallsMonoid());
    GroupAdds(seen, r, SessionKey, OneCall, CallsMonoid());
    TotalAdds(seen, r, Retried, Ints());
    GroupAdds(seen, r, ProviderKey, OneTokens, TokensMonoid());
  }

  /** What one call adds to each column: itself, a success, a retry, its tokens and its time. */
  function CallColumns(r: Fields): Calls {
    Calls(1, if "outcome" in r && r["outcome"] == Str("success") then 1 else 0,
          if NumberOf(r, "attempt_count") > 1.0 then 1 else 0, NumberOf(r, "input_tokens"),
          NumberOf(r, "output_tokens"), NumberOf(r, "total_tokens"), NumberOf(r, "duration_seconds"))
  }

  /** The whole tokens of a field, none where there are fewer than none. */
  function WholeTokens(r: Fields, field: string): int {
    if NumberOf(r, field) > 0.0 then NumberOf(r, field).Floor else 0
  }

  /** The summary of one record, field by field. */
  lemma OneRecord(r: Fields)
    ensures VendorOf([r], 0) == VendorSummary(
      1, 0, Increment(map[], TextOr(r, "vendor", "unknown")), Increment(map[], TextOr(r, "routing_mode", "none")),
      Increment(map[], TextOr(r, "outcome", "unknown")), map[TextOr(r, "model", "unknown") := CallColumns(r)],
      map[TextOr(r, "session_id", "none") := CallColumns(r)], if NumberOf(r, "attempt_count") > 1.0 then 1 else 0,
      map[TextOr(r, "provider", "unknown") := Tokens(WholeTokens(r, "input_tokens"), WholeTokens(r, "output_tokens"),
                                                      WholeTokens(r, "total_tokens"))])
  {
    OneSummary(r);
    OneRecordParts(r);
    hide *;
  }

  lemma OneSummary(r: Fields)
    ensures VendorOf([r], 0) == VendorSummary(
      1, 0, Increment(map[], VendorKey(r)), Increment(map[], ModeKey(r)), Increment(map[], OutcomeKey(r)),
      map[ModelKey(r) := OneCall(r)], map[SessionKey(r) := OneCall(r)],
      if NumberBucket(Get(r, "attempt_count")) > 1.0 then 1 else 0, map[ProviderKey(r) := OneTokens(r)])
  {
    hide *;
    VendorAdds([], 0, r);
    assert [] + [r] == [r];
    NothingBefore();
    ZerosAdd(OneCall(r), OneTokens(r));
    FirstOfKey(ModelKey(r), OneCall(r), CallsMonoid());
    FirstOfKey(SessionKey(r), OneCall(r), CallsMonoid());
    FirstOfKey(ProviderKey(r), OneTokens(r), TokensMonoid());
  }

  lemma ZerosAdd(c: Calls, t: Tokens)
    ensures AddCalls(CallsMonoid().zero, c) == c && AddTokens(TokensMonoid().zero, t) == t
  {
  }

  lemma NothingBefore()
    ensures VendorOf([], 0) == VendorSummary(0, 0, map[], map[], map[], map[], map[], 0, map[])
  {
  }

  lemma FirstOfKey<V>(k: string, v: V, m: Monoid<V>)
    ensures At(map[], k, m.zero) == m.zero && map[][k := v] == map[k := v]
  {
  }

  lemma OneRecordParts(r: Fields)
    ensures VendorKey(r) == TextOr(r, "vendor", "unknown") && ModeKey(r) == TextOr(r, "routing_mode", "none")
    ensures OutcomeKey(r) == TextOr(r, "outcome", "unknown") && ModelKey(r) == TextOr(r, "model", "unknown")
    ensures SessionKey(r) == TextOr(r, "session_id", "none") && ProviderKey(r) == TextOr(r, "provider", "unknown")
    ensures OneCall(r) == CallColumns(r) && NumberBucket(Get(r, "attempt_count")) == NumberOf(r, "attempt_count")
    ensures OneTokens(r) == Tokens(WholeTokens(r, "input_tokens"), WholeTokens(r, "output_tokens"),
                                   WholeTokens(r, "total_tokens"))
  {
  }

  /**
   * Models and sessions split the same calls: both add up, in every column, to the totals over all records, and the
   * column that counts calls adds up to the number of records.
   */
  lemma VendorConserves(seen: seq<Fields>, excluded: nat)
    ensures var s := VendorOf(seen, excluded);
      SumOf(s.byModel, Same, CallsMonoid()) == SumOf(s.bySession, Same, CallsMonoid()) &&
      SumOf(s.byModel, Same, CallsMonoid()).total == s.total &&
      SumOf(s.byModel, Same, CallsMonoid()).retried == s.retried &&
      SumOf(s.tokens, Same, TokensMonoid()) == Total(seen, OneTokens, TokensMonoid())
    ensures var s := VendorOf(seen, excluded);
      (BucketSum(s.byVendor) == s.total <==> forall i :: 0 <= i < |seen| ==> !Inherited(VendorKey(seen[i]))) &&
      (BucketSum(s.byMode) == s.total <==> forall i :: 0 <= i < |seen| ==> !Inherited(ModeKey(seen[i]))) &&
      (BucketSum(s.byOutcome) == s.total <==> forall i :: 0 <= i < |seen| ==> !Inherited(OutcomeKey(seen[i])))
  {
    hide Tally, Group, Total, SumOf, BucketSum, Inherited, VendorKey, ModeKey, OutcomeKey, ModelKey, SessionKey,
         ProviderKey, OneTokens, OneCall, Lawful;
    MonoidsLawful();
    GroupsSumToTotal(seen, ModelKey, OneCall, CallsMonoid());
    GroupsSumToTotal(seen, SessionKey, OneCall, CallsMonoid());
    GroupsSumToTotal(seen, ProviderKey, OneTokens, TokensMonoid());
    TotalCalls(seen);
    BucketConserves(seen, VendorKey);
    BucketConserves(seen, ModeKey);
    BucketConserves(seen, OutcomeKey);
  }

  lemma {:induction false} TotalCalls(seen: seq<Fields>)
    ensures Total(seen, OneCall, CallsMonoid()).total == |seen|
    ensures Total(seen, OneCall, CallsMonoid()).retried == Total(seen, Retried, Ints())
  {
    hide Retried;
    if seen != [] {
      TotalCalls(seen[..|seen| - 1]);
    }
  }

  function MergeVendor(a: VendorSummary, b: VendorSummary): VendorSummary {
    VendorSummary(
      a.total + b.total, a.excluded + b.excluded, MergeBuckets(a.byVendor, b.byVendor),
      MergeBuckets(a.byMode, b.byMode), MergeBuckets(a.byOutcome, b.byOutcome),
      Merge(a.byModel, b.byModel, CallsMonoid()), Merge(a.bySession, b.bySession, CallsMonoid()),
      a.retried + b.retried, Merge(a.tokens, b.tokens, TokensMonoid()))
  }

  function VendorSummaryOf(records: seq<Entry>, w: Window): (s: VendorSummary)
    ensures s.total + s.excluded == |records|
  {
    IncludedLength(records, w);
    VendorOf(Included(records, w), |records| - |Included(records, w)|)
  }

  lemma {:induction false} IncludedLength(records: seq<Entry>, w: Window)
    ensures |Included(records, w)| <= |records|
  {
    if records != [] {
      IncludedLength(records[..|records| - 1], w);
    }
  }

  /** Summarising a concatenation is merging the two summaries, field by field and key by key. */
  lemma VendorMerges(a: seq<Entry>, b: seq<Entry>, w: Window)
    ensures VendorSummaryOf(a + b, w) == MergeVendor(VendorSummaryOf(a, w), VendorSummaryOf(b, w))
  {
    hide Tally, Group, Total, Included, MergeBuckets, Merge, Lawful;
    IncludedMerges(a, b, w);
    var s, t := Included(a, w), Included(b, w);
    MonoidsLawful();
    IntsLawful();
    TallyMerges(s, t, VendorKey);
    TallyMerges(s, t, ModeKey);
    TallyMerges(s, t, OutcomeKey);
    GroupMerges(s, t, ModelKey, OneCall, CallsMonoid());
    GroupMerges(s, t, SessionKey, OneCall, CallsMonoid());
    GroupMerges(s, t, ProviderKey, OneTokens, TokensMonoid());
    TotalMerges(s, t, Retried, Ints());
  }
}
