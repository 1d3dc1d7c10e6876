/** Adding up values under keys, in any commutative monoid. */
module Grouping {

  datatype Monoid<!T> = Monoid(zero: T, add: (T, T) -> T)

  ghost predicate Lawful<T(!new)>(m: Monoid<T>) {
    (forall x :: m.add(m.zero, x) == x) &&
    (forall x, y :: m.add(x, y) == m.add(y, x)) &&
    (forall x, y, z :: m.add(m.add(x, y), z) == m.add(x, m.add(y, z)))
  }

  function At<T>(m: map<string, T>, k: string, zero: T): T { if k in m then m[k] else zero }

  /** One value per key: the sum of what the items with that key contribute. */
  function Group<R, T>(items: seq<R>, key: R -> string, one: R -> T, m: Monoid<T>): map<string, T> {
    if items == [] then map[]
    else
      var last := items[|items| - 1];
      var before := Group(items[..|items| - 1], key, one, m);
      before[key(last) := m.add(At(before, key(last), m.zero), one(last))]
  }

  function Total<R, T>(items: seq<R>, one: R -> T, m: Monoid<T>): T {
    if items == [] then m.zero
    else m.add(Total(items[..|items| - 1], one, m), one(items[|items| - 1]))
  }

  lemma GroupAdds<R, T>(items: seq<R>, r: R, key: R -> string, one: R -> T, m: Monoid<T>)
    ensures var before := Group(items, key, one, m);
      Group(items + [r], key, one, m) == before[key(r) := m.add(At(before, key(r), m.zero), one(r))]
  {
    var more := items + [r];
    assert more[..|more| - 1] == items;
  }

  // ----- Sums over a map

  ghost function Pick<T>(m: map<string, T>): (k: string)
    requires m != map[]
    ensures k in m
  {
    var k :| k in m; k
  }

  ghost function SumOf<V, T>(values: map<string, V>, weight: V -> T, m: Monoid<T>): T
    decreases |values|
  {
    if values == map[] then m.zero
    else
      var k := Pick(values);
      m.add(weight(values[k]), SumOf(values - {k}, weight, m))
  }

  lemma {:induction false} SumRemove<V, T(!new)>(values: map<string, V>, k: string, weight: V -> T, m: Monoid<T>)
    requires Lawful(m) && k in values
    ensures SumOf(values, weight, m) == m.add(weight(values[k]), SumOf(values - {k}, weight, m))
    decreases |values|
  {
    hide Lawful;
    var p := Pick(values);
    if p != k {
      var a, b := weight(values[p]), weight(values[k]);
      var rest := SumOf(values - {p} - {k}, weight, m);
      SumRemove(values - {p}, k, weight, m);
      SumRemove(values - {k}, p, weight, m);
      assert values - {p} - {k} == values - {k} - {p};
      Swap(a, b, rest, m);
    }
  }

  lemma Swap<T(!new)>(a: T, b: T, c: T, m: Monoid<T>)
    requires Lawful(m)
    ensures m.add(a, m.add(b, c)) == m.add(b, m.add(a, c))
  {
    assert m.add(m.add(a, b), c) == m.add(m.add(b, a), c);
  }

  /** Giving one key `delta` more gives the sum `delta` more. */
  lemma SumUpdate<V, T(!new)>(
    values: map<string, V>, k: string, v: V, delta: T, weight: V -> T, m: Monoid<T>)
    requires Lawful(m)
    requires weight(v) == m.add(if k in values then weight(values[k]) else m.zero, delta)
    ensures SumOf(values[k := v], weight, m) == m.add(SumOf(values, weight, m), delta)
  {
    hide SumOf;
    var rest := SumOf(values - {k}, weight, m);
    assert values[k := v] - {k} == values - {k};
    SumRemove(values[k := v], k, weight, m);
    if k in values {
      SumRemove(values, k, weight, m);
      Shuffle(weight(values[k]), delta, rest, m);
    } else {
      assert values - {k} == values;
    }
  }

  lemma Shuffle<T(!new)>(a: T, b: T, c: T, m: Monoid<T>)
    requires Lawful(m)
    ensures m.add(m.add(a, b), c) == m.add(m.add(a, c), b)
  {
    assert m.add(m.add(a, b), c) == m.add(a, m.add(b, c));
    assert m.add(b, c) == m.add(c, b);
  }

  function Same<T>(x: T): T { x }

  /** The groups add up to the total, whatever the key. */
  lemma {:induction false} GroupsSumToTotal<R, T(!new)>(items: seq<R>, key: R -> string, one: R -> T, m: Monoid<T>)
    requires Lawful(m)
    ensures SumOf(Group(items, key, one, m), Same, m) == Total(items, one, m)
  {
    if items != [] {
      var before, last := items[..|items| - 1], items[|items| - 1];
      GroupsSumToTotal(before, key, one, m);
      var groups := Group(before, key, one, m);
      var v := m.add(At(groups, key(last), m.zero), one(last));
      SumUpdate(groups, key(last), v, one(last), Same, m);
    }
  }

  // ----- Summarising in two parts

  function Merge<T>(a: map<string, T>, b: map<string, T>, m: Monoid<T>): map<string, T> {
    map k | k in a.Keys + b.Keys :: if k !in a then b[k] else if k !in b then a[k] else m.add(a[k], b[k])
  }

  lemma MergeUpdate<T(!new)>(a: map<string, T>, b: map<string, T>, k: string, delta: T, m: Monoid<T>)
    requires Lawful(m)
    ensures Merge(a, b[k := m.add(At(b, k, m.zero), delta)], m) ==
      var ab := Merge(a, b, m); ab[k := m.add(At(ab, k, m.zero), delta)]
  {
    if k in a && k !in b {
      assert m.add(m.zero, delta) == delta;
    }
  }

  /** Grouping a concatenation is merging the groups, key by key. */
  lemma {:induction false} GroupMerges<R, T(!new)>(
    a: seq<R>, b: seq<R>, key: R -> string, one: R -> T, m: Monoid<T>)
    requires Lawful(m)
    ensures Group(a + b, key, one, m) == Merge(Group(a, key, one, m), Group(b, key, one, m), m)
  {
    if b == [] {
      assert a + b == a;
      assert Merge(Group(a, key, one, m), map[], m) == Group(a, key, one, m);
    } else {
      var before, last := b[..|b| - 1], b[|b| - 1];
      GroupMerges(a, before, key, one, m);
      assert a + b == (a + before) + [last] && b == before + [last];
      GroupAdds(a + before, last, key, one, m);
      MergeUpdate(Group(a, key, one, m), Group(before, key, one, m), key(last), one(last), m);
    }
  }

  lemma {:induction false} TotalMerges<R, T(!new)>(a: seq<R>, b: seq<R>, one: R -> T, m: Monoid<T>)
    requires Lawful(m)
    ensures Total(a + b, one, m) == m.add(Total(a, one, m), Total(b, one, m))
  {
    hide Lawful, Total;
    if b == [] {
      assert a + b == a;
      Laws(m, Total(a, one, m), m.zero, m.zero);
      assert Total(b, one, m) == m.zero by { TotalOfNone(b, one, m); }
    } else {
      var before, last := b[..|b| - 1], b[|b| - 1];
      TotalMerges(a, before, one, m);
      assert a + b == (a + before) + [last] && b == before + [last];
      TotalAdds(a + before, last, one, m);
      TotalAdds(before, last, one, m);
      Laws(m, Total(a, one, m), Total(before, one, m), one(last));
    }
  }

  lemma TotalOfNone<R, T>(items: seq<R>, one: R -> T, m: Monoid<T>)
    requires items == []
    ensures Total(items, one, m) == m.zero
  {
  }

  lemma TotalAdds<R, T>(items: seq<R>, r: R, one: R -> T, m: Monoid<T>)
    ensures Total(items + [r], one, m) == m.add(Total(items, one, m), one(r))
  {
    var more := items + [r];
    assert more[..|more| - 1] == items;
  }

  /** The laws, at three values. */
  lemma Laws<T(!new)>(m: Monoid<T>, x: T, y: T, z: T)
    requires Lawful(m)
    ensures m.add(m.zero, x) == x && m.add(x, m.zero) == x
    ensures m.add(x, y) == m.add(y, x) && m.add(m.add(x, y), z) == m.add(x, m.add(y, z))
  {
  }
}
