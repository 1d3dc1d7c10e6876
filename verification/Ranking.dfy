/** Ranking scored candidates, and the gate that keeps only the patterns the top recipe allows. */
module Ranking {
  import opened Text
  import opened Sorting

  datatype Item = Item(id: string, score: real, selected: bool, reasons: seq<string>, penalties: seq<string>)

  function Distance(m: int, n: int): nat { if m < n then n - m else m - n }

  /** A requested limit that is not whole counts as three; the rest become the nearest of one to ten. */
  function ClampLimit(requested: Option<int>): (limit: nat)
    ensures 1 <= limit <= 10 && (requested.None? ==> limit == 3)
    ensures requested.Some? ==>
      forall n :: 1 <= n <= 10 ==> Distance(limit, requested.value) <= Distance(n, requested.value)
  {
    match requested
    case None => 3
    case Some(v) => if v < 1 then 1 else if v > 10 then 10 else v
  }

  // ----- Ranking

  /** Higher scores first, ties by code point of the id. */
  predicate Before(a: Item, b: Item) {
    a.score > b.score || (a.score == b.score && StringLe(a.id, b.id))
  }

  /** Only the first item of a list is marked as selected. */
  function MarkFirst(items: seq<Item>): (r: seq<Item>)
    ensures |r| == |items|
    ensures forall i :: 0 <= i < |r| ==> r[i] == items[i].(selected := i == 0)
  {
    seq(|items|, i requires 0 <= i < |items| => items[i].(selected := i == 0))
  }

  function RankItems(items: seq<Item>): seq<Item> { MarkFirst(Sort(items, Before)) }

  predicate DistinctIds(items: seq<Item>) {
    forall i, j :: 0 <= i < j < |items| ==> items[i].id != items[j].id
  }

  lemma BeforeOrder()
    ensures TotalPreorder(Before)
    ensures forall a, b :: Before(a, b) && Before(b, a) ==> a.id == b.id
  {
    hide StringLe;
    StringOrder();
  }

  /** Distinct ids leave nothing for the sort to decide. */
  lemma NoTiesAmongDistinct(items: seq<Item>)
    requires DistinctIds(items)
    ensures NoTies(items, Before)
  {
    hide Before;
    BeforeOrder();
    forall a, b | a in items && b in items && Before(a, b) && Before(b, a) ensures a == b {
      var i :| 0 <= i < |items| && items[i] == a;
      var j :| 0 <= j < |items| && items[j] == b;
    }
  }

  /** With distinct ids every order of the same candidates ranks the same. */
  lemma RankIgnoresOrder(items: seq<Item>, shuffled: seq<Item>)
    requires multiset(items) == multiset(shuffled) && DistinctIds(items)
    ensures RankItems(items) == RankItems(shuffled)
  {
    hide Sort, Before;
    BeforeOrder();
    NoTiesAmongDistinct(items);
    SortOfPermutation(items, shuffled, Before);
  }

  /** An item but for its selection mark, which ranking rewrites. */
  function Unmarked(items: seq<Item>): (r: seq<Item>)
    ensures |r| == |items|
    ensures forall i :: 0 <= i < |r| ==> r[i] == items[i].(selected := false)
  {
    seq(|items|, i requires 0 <= i < |items| => items[i].(selected := false))
  }

  function Removed(t: seq<Item>, k: nat): (r: seq<Item>)
    requires k < |t|
    ensures |r| == |t| - 1
  {
    t[..k] + t[k + 1..]
  }

  lemma RemoveOne(s: seq<Item>, t: seq<Item>, k: nat)
    requires multiset(s) == multiset(t) && s != [] && k < |t| && t[k] == s[0]
    ensures multiset(s[1..]) == multiset(Removed(t, k))
  {
    assert s == [s[0]] + s[1..] && t == t[..k] + [t[k]] + t[k + 1..];
    assert multiset(s) == multiset{s[0]} + multiset(s[1..]);
    assert multiset(t) == multiset(t[..k]) + multiset{t[k]} + multiset(t[k + 1..]);
    assert multiset(t[..k] + t[k + 1..]) == multiset(t[..k]) + multiset(t[k + 1..]);
    forall x ensures multiset(s[1..])[x] == multiset(t[..k] + t[k + 1..])[x] {
      assert multiset(s)[x] == multiset(t)[x];
    }
  }

  lemma UnmarkedAppends(s: seq<Item>, t: seq<Item>)
    ensures Unmarked(s + t) == Unmarked(s) + Unmarked(t)
  {
  }

  lemma UnmarkedOut(t: seq<Item>, k: nat)
    requires k < |t|
    ensures multiset(Unmarked(t)) == multiset{t[k].(selected := false)} + multiset(Unmarked(Removed(t, k)))
  {
    var x := t[k];
    assert t == t[..k] + ([x] + t[k + 1..]);
    UnmarkedAppends(t[..k], [x] + t[k + 1..]);
    UnmarkedAppends([x], t[k + 1..]);
    UnmarkedAppends(t[..k], t[k + 1..]);
    assert Unmarked([x]) == [x.(selected := false)];
  }

  lemma {:induction false} UnmarkedPermutes(s: seq<Item>, t: seq<Item>)
    requires multiset(s) == multiset(t)
    ensures multiset(Unmarked(s)) == multiset(Unmarked(t))
    decreases |s|
  {
    hide Unmarked, Removed;
    if s == [] {
      assert t == [] by { SameMembers(s, t); }
    } else {
      var k := WhereIn(s, t);
      RemoveOne(s, t, k);
      UnmarkedPermutes(s[1..], Removed(t, k));
      UnmarkedOut(t, k);
      UnmarkedHead(s);
    }
  }

  lemma UnmarkedHead(s: seq<Item>)
    requires s != []
    ensures multiset(Unmarked(s)) == multiset{s[0].(selected := false)} + multiset(Unmarked(s[1..]))
  {
    UnmarkedOut(s, 0);
    assert Removed(s, 0) == s[1..];
  }

  lemma WhereIn(s: seq<Item>, t: seq<Item>) returns (k: nat)
    requires multiset(s) == multiset(t) && s != []
    ensures k < |t| && t[k] == s[0]
  {
    SameMembers(s, t);
    assert s[0] in t;
    k :| 0 <= k < |t| && t[k] == s[0];
  }

  /** One id goes before another: it begins it, or has the lower character where they first differ. */
  ghost predicate IdBefore(x: string, y: string) {
    (|x| <= |y| && y[..|x|] == x) || exists n: nat :: LowerAt(x, y, n)
  }

  /**
   * What ranking gives: the same candidates, each once, by falling score and at equal scores by id, the first of them
   * and no other selected; so what is selected has the greatest score of all.
   */
  lemma RankedIs(items: seq<Item>)
    ensures multiset(Unmarked(RankItems(items))) == multiset(Unmarked(items))
    ensures SortedBy(RankItems(items), Before)
    ensures forall i :: 0 <= i < |items| ==> |RankItems(items)| == |items| && (RankItems(items)[i].selected <==> i == 0)
    ensures var r := RankItems(items);
      forall i, j :: 0 <= i < j < |r| ==>
        r[i].score >= r[j].score && (r[i].score == r[j].score ==> IdBefore(r[i].id, r[j].id))
    ensures var r := RankItems(items);
      forall i, j :: 0 <= i < |r| && 0 <= j < |items| && r[i].selected ==> r[i].score >= items[j].score
  {
    BestFirst(items);
    hide Sort, StringLe, IdBefore;
    BeforeOrder();
    var sorted := Sort(items, Before);
    SortPermutes(items, Before);
    SortSorts(items, Before);
    assert Unmarked(RankItems(items)) == Unmarked(sorted);
    UnmarkedPermutes(sorted, items);
    forall i, j | 0 <= i < j < |sorted| ensures Before(MarkFirst(sorted)[i], MarkFirst(sorted)[j]) {
      assert Before(sorted[i], sorted[j]);
    }
  }

  lemma BestFirst(items: seq<Item>)
    ensures var r := RankItems(items);
      forall i, j :: 0 <= i < j < |r| ==>
        r[i].score >= r[j].score && (r[i].score == r[j].score ==> IdBefore(r[i].id, r[j].id))
    ensures var r := RankItems(items);
      forall i, j :: 0 <= i < |r| && 0 <= j < |items| && r[i].selected ==> r[i].score >= items[j].score
  {
    BeforeOrder();
    var sorted := Sort(items, Before);
    SortPermutes(items, Before);
    SortSorts(items, Before);
    hide Sort, StringLe;
    forall i, j | 0 <= i < j < |sorted|
      ensures sorted[i].score >= sorted[j].score
      ensures sorted[i].score == sorted[j].score ==> IdBefore(sorted[i].id, sorted[j].id)
    {
      assert Before(sorted[i], sorted[j]);
      StringLeIs(sorted[i].id, sorted[j].id);
    }
    forall j | 0 <= j < |items| ensures sorted != [] && sorted[0].score >= items[j].score {
      assert items[j] in multiset(items) && items[j] in multiset(sorted);
      var k :| 0 <= k < |sorted| && sorted[k] == items[j];
    }
  }

  // ----- The allow-list gate

  function Allowed(items: seq<Item>, ids: set<string>): (r: seq<Item>)
    ensures forall x :: x in r <==> x in items && x.id in ids
  {
    if items == [] then []
    else (if items[0].id in ids then [items[0]] else []) + Allowed(items[1..], ids)
  }

  function Drop<T>(s: seq<T>, n: nat): seq<T> { if n <= |s| then s[n..] else [] }

  function ApplyAllowedPatternGate(ranked: seq<Item>, ids: set<string>, limit: nat): seq<Item> {
    MarkFirst(Take(Allowed(ranked, ids), limit))
  }

  function Ids(items: seq<Item>): (r: seq<string>)
    ensures |r| == |items| && forall i :: 0 <= i < |r| ==> r[i] == items[i].id
  {
    seq(|items|, i requires 0 <= i < |items| => items[i].id)
  }

  /** The members of `s` that are not in `t`, in order. */
  function Missing(s: seq<string>, t: seq<string>): seq<string> {
    if s == [] then []
    else (if s[0] !in t then [s[0]] else []) + Missing(s[1..], t)
  }

  datatype ShadowDiff = ShadowDiff(current: seq<string>, gated: seq<string>, added: seq<string>, removed: seq<string>)

  /** What the gate would change, were it enforced; without a top recipe it changes nothing. */
  function ComputeShadowDiff(ranked: seq<Item>, ids: set<string>, hasTopRecipe: bool, limit: nat): ShadowDiff {
    var current := Ids(Take(ranked, limit));
    var gated := if hasTopRecipe then Ids(ApplyAllowedPatternGate(ranked, ids, limit)) else current;
    ShadowDiff(current, gated, Missing(gated, current), Missing(current, gated))
  }

  lemma AllowedEmpty(ids: set<string>)
    ensures Allowed([], ids) == []
  {
  }

  lemma AllowedCons(x: Item, s: seq<Item>, ids: set<string>)
    ensures Allowed([x] + s, ids) == (if x.id in ids then [x] else []) + Allowed(s, ids)
  {
    assert ([x] + s)[1..] == s;
  }

  lemma {:induction false} AllowedAppends(s: seq<Item>, t: seq<Item>, ids: set<string>)
    ensures Allowed(s + t, ids) == Allowed(s, ids) + Allowed(t, ids)
  {
    hide Allowed;
    if s == [] {
      assert s + t == t && Allowed(s, ids) == [] by { AllowedEmpty(ids); }
    } else {
      AllowedAppends(s[1..], t, ids);
      assert s == [s[0]] + s[1..] && s + t == [s[0]] + (s[1..] + t);
      AllowedCons(s[0], s[1..], ids);
      AllowedCons(s[0], s[1..] + t, ids);
    }
  }

  lemma MissingCons(x: string, s: seq<string>, t: seq<string>)
    ensures Missing([x] + s, t) == (if x !in t then [x] else []) + Missing(s, t)
  {
    assert ([x] + s)[1..] == s;
  }

  lemma {:induction false} MissingAppends(s: seq<string>, u: seq<string>, t: seq<string>)
    ensures Missing(s + u, t) == Missing(s, t) + Missing(u, t)
  {
    hide Missing;
    if s == [] {
      assert s + u == u && Missing(s, t) == [] by { MissingNone(s, t); }
    } else {
      MissingAppends(s[1..], u, t);
      assert s == [s[0]] + s[1..] && s + u == [s[0]] + (s[1..] + u);
      MissingCons(s[0], s[1..], t);
      MissingCons(s[0], s[1..] + u, t);
    }
  }

  lemma {:induction false} MissingNone(s: seq<string>, t: seq<string>)
    requires forall i :: 0 <= i < |s| ==> s[i] in t
    ensures Missing(s, t) == []
  {
    if s != [] {
      MissingNone(s[1..], t);
    }
  }

  lemma {:induction false} MissingAll(s: seq<string>, t: seq<string>)
    requires forall i :: 0 <= i < |s| ==> s[i] !in t
    ensures Missing(s, t) == s
  {
    if s != [] {
      MissingAll(s[1..], t);
      assert s == [s[0]] + s[1..];
    }
  }

  /** The ungated selection is split by the allow list, and everything not allowed is missing from the gated one. */
  lemma {:induction false} AllowedOrMissing(items: seq<Item>, ids: set<string>, gated: seq<string>)
    requires forall i :: 0 <= i < |items| ==> (items[i].id in gated <==> items[i].id in ids)
    ensures |Missing(Ids(items), gated)| == |items| - |Allowed(items, ids)|
  {
    if items != [] {
      AllowedOrMissing(items[1..], ids, gated);
      assert Ids(items)[1..] == Ids(items[1..]);
    }
  }

  /** The parts of the gated selection: what the gate keeps of the ungated one, then what it draws from further down. */
  lemma GateSplits(ranked: seq<Item>, ids: set<string>, limit: nat) returns (kept: seq<Item>, drawn: seq<Item>)
    requires DistinctIds(ranked)
    ensures kept == Allowed(Take(ranked, limit), ids)
    ensures Take(Allowed(ranked, ids), limit) == kept + drawn && |kept| <= limit
    ensures forall x :: x in drawn ==> x in Drop(ranked, limit)
    ensures |kept| + |drawn| <= limit && |kept| <= |Take(ranked, limit)|
    ensures Drop(ranked, limit) == [] ==> drawn == []
  {
    hide Allowed;
    var head, tail := Take(ranked, limit), Drop(ranked, limit);
    assert ranked == head + tail;
    AllowedAppends(head, tail, ids);
    kept := Allowed(head, ids);
    AllowedLength(head, ids);
    drawn := Take(Allowed(tail, ids), limit - |kept|);
    assert Take(kept + Allowed(tail, ids), limit) == kept + drawn;
    if tail == [] {
      AllowedLength(tail, ids);
    }
  }

  lemma {:induction false} AllowedLength(items: seq<Item>, ids: set<string>)
    ensures |Allowed(items, ids)| <= |items|
  {
    if items != [] {
      AllowedLength(items[1..], ids);
    }
  }

  lemma HeadTailIds(ranked: seq<Item>, limit: nat, x: Item, y: Item)
    requires DistinctIds(ranked) && x in Take(ranked, limit) && y in Drop(ranked, limit)
    ensures x.id != y.id
  {
    var head, tail := Take(ranked, limit), Drop(ranked, limit);
    var i :| 0 <= i < |head| && head[i] == x;
    var j :| 0 <= j < |tail| && tail[j] == y;
    assert ranked[i] == x && ranked[limit + j] == y;
  }

  lemma KeptAndDrawn(head: seq<Item>, kept: seq<Item>, drawn: seq<Item>)
    requires forall x :: x in kept ==> x in head
    requires forall x, y :: x in head && y in drawn ==> x.id != y.id
    ensures Missing(Ids(kept) + Ids(drawn), Ids(head)) == Ids(drawn)
  {
    hide Missing;
    var current := Ids(head);
    forall i | 0 <= i < |kept| ensures Ids(kept)[i] in current {
      assert kept[i] in kept;
      MemberId(head, kept[i]);
    }
    forall i | 0 <= i < |drawn| ensures Ids(drawn)[i] !in current {
      assert drawn[i] in drawn;
      forall k | 0 <= k < |head| ensures current[k] != drawn[i].id {
        assert head[k] in head;
      }
    }
    MissingAppends(Ids(kept), Ids(drawn), current);
    MissingNone(Ids(kept), current);
    MissingAll(Ids(drawn), current);
    assert [] + Ids(drawn) == Ids(drawn);
  }

  lemma {:induction false} MissingMembers(s: seq<string>, t: seq<string>)
    ensures forall x :: x in Missing(s, t) <==> x in s && x !in t
  {
    if s != [] {
      MissingMembers(s[1..], t);
      assert s == [s[0]] + s[1..];
    }
  }

  /**
   * The gated selection is the allowed part of the ungated one, in order, followed by exactly what was added; and the
   * gate never adds more than it removes.
   */
  lemma GateReplaces(ranked: seq<Item>, ids: set<string>, limit: nat)
    requires DistinctIds(ranked)
    ensures var d := ComputeShadowDiff(ranked, ids, true, limit);
      d.current == Ids(Take(ranked, limit)) && d.gated == Ids(Allowed(Take(ranked, limit), ids)) + d.added &&
      |d.added| <= |d.removed| && forall x :: x in d.removed <==> x in d.current && x !in d.gated
  {
    var d := ComputeShadowDiff(ranked, ids, true, limit);
    MissingMembers(d.current, d.gated);
    hide Allowed, Missing, DistinctIds, Take, Drop;
    var head := Take(ranked, limit);
    var kept, drawn := GateSplits(ranked, ids, limit);
    var gated := Ids(ApplyAllowedPatternGate(ranked, ids, limit));
    assert gated == Ids(kept) + Ids(drawn);
    forall x, y | x in head && y in drawn ensures x.id != y.id {
      HeadTailIds(ranked, limit, x, y);
    }
    KeptAndDrawn(head, kept, drawn);
    forall i | 0 <= i < |head| ensures head[i].id in gated <==> head[i].id in ids {
      GatedHead(ranked, ids, limit, i, kept, drawn);
    }
    AllowedOrMissing(head, ids, gated);
    HeadFull(ranked, limit);
  }

  lemma HeadFull(ranked: seq<Item>, limit: nat)
    ensures Drop(ranked, limit) != [] ==> |Take(ranked, limit)| == limit
  {
  }

  lemma MemberId(items: seq<Item>, x: Item)
    requires x in items
    ensures x.id in Ids(items)
  {
    var k :| 0 <= k < |items| && items[k] == x;
    assert Ids(items)[k] == x.id;
  }

  lemma GatedHead(ranked: seq<Item>, ids: set<string>, limit: nat, i: nat, kept: seq<Item>, drawn: seq<Item>)
    requires DistinctIds(ranked) && i < |Take(ranked, limit)|
    requires kept == Allowed(Take(ranked, limit), ids) && forall x :: x in drawn ==> x in Drop(ranked, limit)
    ensures Take(ranked, limit)[i].id in Ids(kept) + Ids(drawn) <==> Take(ranked, limit)[i].id in ids
  {
    hide DistinctIds, Take, Drop;
    var x := Take(ranked, limit)[i];
    if x.id in ids {
      MemberId(kept, x);
    }
    if x.id in Ids(kept) {
      var k :| 0 <= k < |kept| && Ids(kept)[k] == x.id;
      assert kept[k] in kept;
    }
    if x.id in Ids(drawn) {
      var k :| 0 <= k < |drawn| && Ids(drawn)[k] == x.id;
      assert drawn[k] in drawn;
      HeadTailIds(ranked, limit, x, drawn[k]);
      assert false;
    }
  }

  // ----- The enforced report

  function WithoutIds(items: seq<Item>, ids: seq<string>): seq<Item> {
    if items == [] then []
    else (if items[0].id !in ids then [items[0]] else []) + WithoutIds(items[1..], ids)
  }

  datatype PatternReport = PatternReport(selected: seq<Item>, rejected: seq<Item>)

  function BuildAllowedPatternEnforcedReport(ranked: seq<Item>, ids: set<string>, limit: nat): PatternReport {
    var gated := ApplyAllowedPatternGate(ranked, ids, limit);
    PatternReport(gated, Unmarked(WithoutIds(ranked, Ids(gated))))
  }

  /** No allowed pattern past the cut repeats an id from before it. */
  predicate CutKeepsIdsApart(ranked: seq<Item>, ids: set<string>, limit: nat) {
    var allowed := Allowed(ranked, ids);
    forall i, j :: 0 <= i < limit <= j < |allowed| ==> allowed[i].id != allowed[j].id
  }

  lemma WithoutCons(x: Item, s: seq<Item>, gone: seq<string>)
    ensures WithoutIds([x] + s, gone) == (if x.id !in gone then [x] else []) + WithoutIds(s, gone)
  {
    assert ([x] + s)[1..] == s;
  }

  lemma ConsCounts(x: Item, s: seq<Item>)
    ensures multiset([x] + s) == multiset{x} + multiset(s)
  {
  }

  lemma AddToBoth(a: multiset<Item>, b: multiset<Item>, c: multiset<Item>, d: multiset<Item>, x: Item)
    requires a + b == c + d
    ensures a + (multiset{x} + b) == (multiset{x} + c) + d
    ensures (multiset{x} + a) + b == (multiset{x} + c) + d
    ensures (multiset{x} + a) + (multiset{x} + b) == (multiset{x} + c) + (multiset{x} + d)
  {
    forall y ensures a[y] + b[y] == c[y] + d[y] {
      assert (a + b)[y] == (c + d)[y];
    }
  }

  lemma WithoutEmpty(gone: seq<string>)
    ensures WithoutIds([], gone) == []
  {
  }

  lemma {:induction false} WithoutIdsCount(items: seq<Item>, ids: set<string>, gone: seq<string>)
    requires forall x :: x in items && x.id !in ids ==> x.id !in gone
    ensures multiset(WithoutIds(items, gone)) + multiset(Allowed(items, ids)) ==
      multiset(items) + multiset(WithoutIds(Allowed(items, ids), gone))
  {
    if items != [] {
      var x, tail := items[0], items[1..];
      var kept, rest := WithoutIds(tail, gone), Allowed(tail, ids);
      assert x in items && items == [x] + tail;
      WithoutIdsCount(tail, ids, gone);
      OneMore(x, tail, ids, gone);
    }
  }

  lemma OneMore(x: Item, tail: seq<Item>, ids: set<string>, gone: seq<string>)
    requires x.id !in ids ==> x.id !in gone
    requires multiset(WithoutIds(tail, gone)) + multiset(Allowed(tail, ids)) ==
      multiset(tail) + multiset(WithoutIds(Allowed(tail, ids), gone))
    ensures multiset(WithoutIds([x] + tail, gone)) + multiset(Allowed([x] + tail, ids)) ==
      multiset([x] + tail) + multiset(WithoutIds(Allowed([x] + tail, ids), gone))
  {
    hide WithoutIds, Allowed;
    var kept, rest := WithoutIds(tail, gone), Allowed(tail, ids);
    WithoutCons(x, tail, gone);
    AllowedCons(x, tail, ids);
    WithoutCons(x, rest, gone);
    ConsCounts(x, tail);
    ConsCounts(x, kept);
    ConsCounts(x, rest);
    ConsCounts(x, WithoutIds(rest, gone));
    assert [] + kept == kept && [] + rest == rest && [] + WithoutIds(rest, gone) == WithoutIds(rest, gone);
    AddToBoth(multiset(kept), multiset(rest), multiset(tail), multiset(WithoutIds(rest, gone)), x);
  }

  lemma {:induction false} WithoutAppends(s: seq<Item>, t: seq<Item>, gone: seq<string>)
    ensures WithoutIds(s + t, gone) == WithoutIds(s, gone) + WithoutIds(t, gone)
  {
    hide WithoutIds;
    if s == [] {
      assert s + t == t && WithoutIds(s, gone) == [] by { WithoutEmpty(gone); }
    } else {
      WithoutAppends(s[1..], t, gone);
      assert s == [s[0]] + s[1..] && s + t == [s[0]] + (s[1..] + t);
      WithoutCons(s[0], s[1..], gone);
      WithoutCons(s[0], s[1..] + t, gone);
    }
  }

  lemma {:induction false} WithoutAll(s: seq<Item>, gone: seq<string>)
    requires forall i :: 0 <= i < |s| ==> s[i].id in gone
    ensures WithoutIds(s, gone) == []
  {
    if s != [] {
      WithoutAll(s[1..], gone);
    }
  }

  lemma {:induction false} WithoutLength(s: seq<Item>, gone: seq<string>)
    ensures |WithoutIds(s, gone)| <= |s|
    ensures |WithoutIds(s, gone)| == |s| <==> forall i :: 0 <= i < |s| ==> s[i].id !in gone
    ensures |WithoutIds(s, gone)| == |s| ==> WithoutIds(s, gone) == s
  {
    if s != [] {
      WithoutLength(s[1..], gone);
      assert s == [s[0]] + s[1..];
    }
  }

  /** What is left over: everything but the gated selection, less whatever past the cut shares an id with it. */
  lemma EnforcedParts(ranked: seq<Item>, ids: set<string>, limit: nat)
    ensures var chosen := Take(Allowed(ranked, ids), limit);
      var past := Drop(Allowed(ranked, ids), limit);
      multiset(WithoutIds(ranked, Ids(chosen))) + multiset(chosen) + multiset(past) ==
        multiset(ranked) + multiset(WithoutIds(past, Ids(chosen)))
  {
    hide Allowed, WithoutIds;
    var allowed := Allowed(ranked, ids);
    var chosen, past := Take(allowed, limit), Drop(allowed, limit);
    assert allowed == chosen + past;
    forall x | x in ranked && x.id !in ids ensures x.id !in Ids(chosen) {
      forall i | 0 <= i < |chosen| ensures Ids(chosen)[i] != x.id {
        assert chosen[i] in allowed;
      }
    }
    WithoutIdsCount(ranked, ids, Ids(chosen));
    WithoutAppends(chosen, past, Ids(chosen));
    forall i | 0 <= i < |chosen| ensures chosen[i].id in Ids(chosen) {
      assert Ids(chosen)[i] == chosen[i].id;
    }
    WithoutAll(chosen, Ids(chosen));
    assert WithoutIds(allowed, Ids(chosen)) == WithoutIds(past, Ids(chosen));
  }

  /**
   * Selected and rejected patterns together are the ranked ones, each once, exactly when the cut keeps ids apart;
   * otherwise a pattern is in neither list. Distinct ids are enough.
   */
  lemma EnforcedReportConserves(ranked: seq<Item>, ids: set<string>, limit: nat)
    ensures var r := BuildAllowedPatternEnforcedReport(ranked, ids, limit);
      multiset(Unmarked(r.selected + r.rejected)) == multiset(Unmarked(ranked)) <==>
        CutKeepsIdsApart(ranked, ids, limit)
    ensures DistinctIds(ranked) ==> CutKeepsIdsApart(ranked, ids, limit)
  {
    hide Allowed, WithoutIds, DistinctIds;
    var allowed := Allowed(ranked, ids);
    var chosen, past := Take(allowed, limit), Drop(allowed, limit);
    var left := WithoutIds(ranked, Ids(chosen));
    var r := BuildAllowedPatternEnforcedReport(ranked, ids, limit);
    assert Ids(r.selected) == Ids(chosen);
    assert Unmarked(r.selected + r.rejected) == Unmarked(chosen + left);
    EnforcedParts(ranked, ids, limit);
    WithoutLength(past, Ids(chosen));
    CutApart(allowed, limit);
    if CutKeepsIdsApart(ranked, ids, limit) {
      Cancel(left, chosen, past, ranked);
      UnmarkedPermutes(chosen + left, ranked);
    } else {
      CountsAdd(left, chosen, past, ranked, WithoutIds(past, Ids(chosen)));
      SizesDiffer(Unmarked(chosen + left), Unmarked(ranked));
    }
    if DistinctIds(ranked) {
      AllowedDistinct(ranked, ids);
    }
  }

  /** Two allowed patterns of one id, of which one is wanted: the other is in neither list. */
  lemma RepeatedIdIsLost(x: Item, y: Item)
    requires x.id == y.id
    ensures var r := BuildAllowedPatternEnforcedReport([x, y], {x.id}, 1);
      Unmarked(r.selected) == Unmarked([x]) && r.rejected == []
  {
    var ranked := [x, y];
    assert ranked[1..] == [y] && [y][1..] == [];
    assert Allowed([y], {x.id}) == [y] + Allowed([], {x.id}) == [y];
    assert Allowed(ranked, {x.id}) == [x] + Allowed([y], {x.id}) == ranked;
    var chosen := Take(ranked, 1);
    assert chosen == [x] && Ids(chosen) == [x.id];
    var r := BuildAllowedPatternEnforcedReport(ranked, {x.id}, 1);
    assert Ids(r.selected) == [x.id];
    WithoutAll(ranked, [x.id]);
  }

  lemma CutApart(allowed: seq<Item>, limit: nat)
    ensures (forall i, j :: 0 <= i < limit <= j < |allowed| ==> allowed[i].id != allowed[j].id) <==>
      forall k :: 0 <= k < |Drop(allowed, limit)| ==> Drop(allowed, limit)[k].id !in Ids(Take(allowed, limit))
  {
    var chosen, past := Take(allowed, limit), Drop(allowed, limit);
    if forall k :: 0 <= k < |past| ==> past[k].id !in Ids(chosen) {
      forall i, j | 0 <= i < limit <= j < |allowed| ensures allowed[i].id != allowed[j].id {
        assert past[j - limit] == allowed[j] && Ids(chosen)[i] == allowed[i].id;
      }
    }
    if forall i, j :: 0 <= i < limit <= j < |allowed| ==> allowed[i].id != allowed[j].id {
      forall k | 0 <= k < |past| ensures past[k].id !in Ids(chosen) {
        assert past[k] == allowed[limit + k];
        forall i | 0 <= i < |chosen| ensures Ids(chosen)[i] != past[k].id {
          assert chosen[i] == allowed[i];
        }
      }
    }
  }

  lemma Cancel(a: seq<Item>, b: seq<Item>, c: seq<Item>, d: seq<Item>)
    requires multiset(a) + multiset(b) + multiset(c) == multiset(d) + multiset(c)
    ensures multiset(b + a) == multiset(d)
  {
    forall x ensures multiset(b + a)[x] == multiset(d)[x] {
      assert (multiset(a) + multiset(b) + multiset(c))[x] == (multiset(d) + multiset(c))[x];
    }
  }

  lemma CountsAdd(a: seq<Item>, b: seq<Item>, c: seq<Item>, d: seq<Item>, e: seq<Item>)
    requires multiset(a) + multiset(b) + multiset(c) == multiset(d) + multiset(e)
    ensures |a| + |b| + |c| == |d| + |e|
  {
    assert |multiset(a) + multiset(b) + multiset(c)| == |multiset(d) + multiset(e)|;
  }

  lemma SizesDiffer(s: seq<Item>, t: seq<Item>)
    requires |s| != |t|
    ensures multiset(s) != multiset(t)
  {
    assert |multiset(s)| == |s| && |multiset(t)| == |t|;
  }

  lemma {:induction false} AllowedDistinct(items: seq<Item>, ids: set<string>)
    requires DistinctIds(items)
    ensures DistinctIds(Allowed(items, ids))
  {
    if items != [] {
      AllowedDistinct(items[1..], ids);
      var rest := Allowed(items[1..], ids);
      if items[0].id in ids {
        forall k | 0 <= k < |rest| ensures rest[k].id != items[0].id {
          assert rest[k] in items[1..];
        }
        assert Allowed(items, ids) == [items[0]] + rest;
      }
    }
  }
}
