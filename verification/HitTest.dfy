/** Which captured element a point on the page belongs to: the topmost one that shows or means something. */
module HitTest {
  import opened Text
  import opened Sorting

  datatype Rect = Rect(x: real, y: real, w: real, h: real)

  datatype Passport = Passport(
    domPath: string, role: string, accessibleName: string, textSnippet: string, rect: Rect, zPath: seq<int>, depth: int,
    visible: bool, hitTestable: bool, sourceKnown: bool, opacity: real, visibility: string, hasPaint: bool)

  datatype Viewport = Viewport(name: string, nodes: seq<Passport>)

  /** A node with its place in the document. */
  datatype Candidate = Candidate(node: Passport, index: nat)

  // ----- What can be hit

  predicate ContainsPoint(r: Rect, x: real, y: real) {
    x >= r.x && x <= r.x + r.w && y >= r.y && y <= r.y + r.h
  }

  predicate HasPaintVisible(n: Passport) { n.opacity > 0.0 && n.visibility != "hidden" && n.hasPaint }

  predicate HasMeaningfulSemantics(n: Passport) {
    n.sourceKnown || Trim(n.accessibleName) != "" || Trim(n.textSnippet) != "" ||
    n.role !in ["generic", "presentation", "none"]
  }

  predicate ZeroPaintPointerOverlay(n: Passport) {
    n.hitTestable && !HasPaintVisible(n) && !HasMeaningfulSemantics(n)
  }

  predicate Resolvable(n: Passport) {
    n.visible && !ZeroPaintPointerOverlay(n) && (HasPaintVisible(n) || HasMeaningfulSemantics(n))
  }

  predicate UnderPoint(n: Passport, x: real, y: real) { n.visible && ContainsPoint(n.rect, x, y) }

  /** What the answer is chosen from. */
  predicate Eligible(n: Passport, x: real, y: real) { Resolvable(n) && UnderPoint(n, x, y) }

  predicate NotBlank(s: string) { exists i :: 0 <= i < |s| && !IsSpace(s[i]) }

  /**
   * A node can be hit at a point: it is visible, the point is in its rectangle, edges included, and it either paints
   * something one can see, or means something: it has a known source, a name, a text or a role that says anything.
   */
  lemma EligibleExactly(n: Passport, x: real, y: real)
    ensures Eligible(n, x, y) <==>
      n.visible && n.rect.x <= x <= n.rect.x + n.rect.w && n.rect.y <= y <= n.rect.y + n.rect.h &&
      ((n.opacity > 0.0 && n.visibility != "hidden" && n.hasPaint) || n.sourceKnown || NotBlank(n.accessibleName) ||
       NotBlank(n.textSnippet) || (n.role != "generic" && n.role != "presentation" && n.role != "none"))
  {
    TrimEmpty(n.accessibleName);
    TrimEmpty(n.textSnippet);
  }

  // ----- The stacking order

  /** A path read past its end is zero. */
  function At(z: seq<int>, i: nat): int { if i < |z| then z[i] else 0 }

  function Longer(a: seq<int>, b: seq<int>): nat { if |a| >= |b| then |a| else |b| }

  function CompareFrom(a: seq<int>, b: seq<int>, i: nat): int
    decreases Longer(a, b) - i
  {
    if i >= Longer(a, b) then 0
    else if At(a, i) != At(b, i) then At(a, i) - At(b, i)
    else CompareFrom(a, b, i + 1)
  }

  function CompareZ(a: seq<int>, b: seq<int>): int { CompareFrom(a, b, 0) }

  method CompareZPath(first: seq<int>, second: seq<int>) returns (c: int)
    ensures c == CompareZ(first, second)
    ensures c == 0 <==> forall i: nat :: At(first, i) == At(second, i)
    ensures c < 0 <==> ZBelow(first, second)
    ensures c > 0 <==> ZBelow(second, first)
  {
    CompareZMeans(first, second);
    var maxLength := Longer(first, second);
    var index := 0;
    while index < maxLength
      invariant index <= maxLength && CompareZ(first, second) == CompareFrom(first, second, index)
    {
      var firstValue, secondValue := At(first, index), At(second, index);
      if firstValue != secondValue {
        return firstValue - secondValue;
      }
      index := index + 1;
    }
    return 0;
  }

  /** A path that ends is as good as one that goes on with zeros, and what goes on above or below zero decides. */
  lemma ZerosAreNothing(k: int)
    ensures CompareZ([], [k]) == -k && CompareZ([k], []) == k && CompareZ([], [0]) == 0
  {
    if k == 0 {
      assert CompareFrom([], [k], 1) == 0 && CompareFrom([k], [], 1) == 0;
    }
  }

  predicate AgreeUpTo(a: seq<int>, b: seq<int>, n: nat) { forall i :: 0 <= i < n ==> At(a, i) == At(b, i) }

  predicate DiffersFirstAt(a: seq<int>, b: seq<int>, n: nat) { AgreeUpTo(a, b, n) && At(a, n) < At(b, n) }

  /** Below at the first place where the padded paths differ. */
  ghost predicate ZBelow(a: seq<int>, b: seq<int>) { exists n: nat :: DiffersFirstAt(a, b, n) }

  lemma {:induction false} CompareFromMeans(a: seq<int>, b: seq<int>, i: nat)
    requires AgreeUpTo(a, b, i)
    ensures CompareFrom(a, b, i) == 0 ==> forall k: nat :: At(a, k) == At(b, k)
    ensures CompareFrom(a, b, i) < 0 ==> ZBelow(a, b)
    ensures CompareFrom(a, b, i) > 0 ==> ZBelow(b, a)
    decreases Longer(a, b) - i
  {
    if i < Longer(a, b) {
      if At(a, i) < At(b, i) {
        assert DiffersFirstAt(a, b, i);
      } else if At(a, i) > At(b, i) {
        assert DiffersFirstAt(b, a, i);
      } else {
        CompareFromMeans(a, b, i + 1);
      }
    }
  }

  lemma ZBelowExcludes(a: seq<int>, b: seq<int>)
    requires ZBelow(a, b)
    ensures !ZBelow(b, a) && !(forall k: nat :: At(a, k) == At(b, k))
  {
    var n: nat :| DiffersFirstAt(a, b, n);
    forall m: nat ensures !DiffersFirstAt(b, a, m) {
      if m > n {
        assert !AgreeUpTo(b, a, m);
      }
    }
    assert At(a, n) != At(b, n);
  }

  lemma CompareZMeans(a: seq<int>, b: seq<int>)
    ensures CompareZ(a, b) == 0 <==> forall k: nat :: At(a, k) == At(b, k)
    ensures CompareZ(a, b) < 0 <==> ZBelow(a, b)
    ensures CompareZ(a, b) > 0 <==> ZBelow(b, a)
  {
    hide CompareFrom, ZBelow;
    CompareFromMeans(a, b, 0);
    if ZBelow(a, b) {
      ZBelowExcludes(a, b);
    }
    if ZBelow(b, a) {
      ZBelowExcludes(b, a);
    }
  }

  predicate ZLe(a: seq<int>, b: seq<int>) { CompareZ(a, b) <= 0 }

  lemma ZBelowTransitive(a: seq<int>, b: seq<int>, c: seq<int>)
    requires ZBelow(a, b) && ZBelow(b, c)
    ensures ZBelow(a, c)
  {
    var m: nat :| DiffersFirstAt(a, b, m);
    var n: nat :| DiffersFirstAt(b, c, n);
    assert DiffersFirstAt(a, c, if m < n then m else n);
  }

  lemma ZBelowSame(a: seq<int>, b: seq<int>, c: seq<int>)
    requires forall k: nat :: At(a, k) == At(b, k)
    ensures ZBelow(a, c) <==> ZBelow(b, c)
    ensures ZBelow(c, a) <==> ZBelow(c, b)
  {
    forall n: nat ensures DiffersFirstAt(a, c, n) <==> DiffersFirstAt(b, c, n)
      ensures DiffersFirstAt(c, a, n) <==> DiffersFirstAt(c, b, n)
    {
    }
  }

  /** Zero-padded lexicographic order compares any two paths, negative values and all. */
  lemma ZOrder()
    ensures TotalPreorder(ZLe)
  {
    hide CompareZ, ZBelow;
    forall a, b ensures ZLe(a, b) || ZLe(b, a) {
      CompareZMeans(a, b);
      CompareZMeans(b, a);
    }
    forall a, b, c | ZLe(a, b) && ZLe(b, c) ensures ZLe(a, c) {
      ZLeTransitive(a, b, c);
    }
  }

  lemma ZLeTransitive(a: seq<int>, b: seq<int>, c: seq<int>)
    requires ZLe(a, b) && ZLe(b, c)
    ensures ZLe(a, c)
    ensures CompareZ(a, c) == 0 ==> CompareZ(a, b) == 0 && CompareZ(b, c) == 0
    ensures CompareZ(a, b) == 0 && CompareZ(b, c) == 0 ==> CompareZ(a, c) == 0
  {
    hide CompareZ, ZBelow, At;
    CompareZMeans(a, b);
    CompareZMeans(b, c);
    CompareZMeans(a, c);
    if CompareZ(a, b) == 0 {
      ZBelowSame(a, b, c);
    } else if CompareZ(b, c) == 0 {
      ZBelowSame(b, c, a);
    } else {
      ZBelowTransitive(a, b, c);
      ZBelowExcludes(a, c);
    }
  }

  lemma CompareZFlips(a: seq<int>, b: seq<int>)
    ensures CompareZ(a, b) <= 0 <==> CompareZ(b, a) >= 0
    ensures CompareZ(a, b) == 0 <==> CompareZ(b, a) == 0
  {
    hide CompareZ, ZBelow, At;
    CompareZMeans(a, b);
    CompareZMeans(b, a);
  }

  // ----- The order of candidates

  /** Negative when `c` goes first: higher in the stacking order, then deeper, then later in the document. */
  function CompareHit(c: Candidate, d: Candidate): int {
    var z := CompareZ(d.node.zPath, c.node.zPath);
    if z != 0 then z
    else if c.node.depth != d.node.depth then d.node.depth - c.node.depth
    else d.index - c.index
  }

  predicate HitLe(c: Candidate, d: Candidate) { CompareHit(c, d) <= 0 }

  /** Higher where the padded paths first differ; else deeper; else later in the document. */
  lemma HitLeMeans(c: Candidate, d: Candidate)
    ensures HitLe(c, d) <==>
      ZBelow(d.node.zPath, c.node.zPath) ||
      ((forall k: nat :: At(c.node.zPath, k) == At(d.node.zPath, k)) &&
       (c.node.depth > d.node.depth || (c.node.depth == d.node.depth && c.index >= d.index)))
  {
    hide CompareZ, ZBelow, At;
    CompareZMeans(d.node.zPath, c.node.zPath);
  }

  lemma HitOrder()
    ensures TotalPreorder(HitLe)
    ensures forall c, d :: HitLe(c, d) && HitLe(d, c) ==> c.index == d.index
  {
    hide CompareZ;
    forall c, d ensures HitLe(c, d) || HitLe(d, c)
      ensures HitLe(c, d) && HitLe(d, c) ==> c.index == d.index
    {
      CompareZFlips(c.node.zPath, d.node.zPath);
    }
    forall c, d, e | HitLe(c, d) && HitLe(d, e) ensures HitLe(c, e) {
      ZLeTransitive(e.node.zPath, d.node.zPath, c.node.zPath);
    }
  }

  // ----- Resolving a point

  function Indexed(nodes: seq<Passport>): seq<Candidate> {
    seq(|nodes|, i requires 0 <= i < |nodes| => Candidate(nodes[i], i))
  }

  function Filter(s: seq<Candidate>, x: real, y: real): (r: seq<Candidate>)
    ensures forall c :: c in r <==> c in s && UnderPoint(c.node, x, y)
  {
    if s == [] then []
    else (if UnderPoint(s[0].node, x, y) then [s[0]] else []) + Filter(s[1..], x, y)
  }

  function FirstResolvable(s: seq<Candidate>): Option<Passport> {
    if s == [] then None
    else if Resolvable(s[0].node) then Some(s[0].node)
    else FirstResolvable(s[1..])
  }

  /** Sort everything under the point, then take the first that resolves. */
  function ResolveIn(nodes: seq<Passport>, x: real, y: real): Option<Passport> {
    FirstResolvable(Sort(Filter(Indexed(nodes), x, y), HitLe))
  }

  function ResolvePointToPassport(viewports: seq<Viewport>, viewport: string, x: real, y: real): Option<Passport> {
    if viewports == [] then None
    else if viewports[0].name == viewport then ResolveIn(viewports[0].nodes, x, y)
    else ResolvePointToPassport(viewports[1..], viewport, x, y)
  }

  predicate IsFirstNamed(viewports: seq<Viewport>, name: string, k: nat) {
    k < |viewports| && viewports[k].name == name && forall j :: 0 <= j < k ==> viewports[j].name != name
  }

  /** The viewport asked for is the first of that name; where there is none there is no answer. */
  lemma {:induction false} ViewportChosen(viewports: seq<Viewport>, viewport: string, x: real, y: real, k: nat)
    ensures IsFirstNamed(viewports, viewport, k) ==>
      ResolvePointToPassport(viewports, viewport, x, y) == ResolveIn(viewports[k].nodes, x, y)
    ensures (forall j :: 0 <= j < |viewports| ==> viewports[j].name != viewport) ==>
      ResolvePointToPassport(viewports, viewport, x, y) == None
  {
    hide ResolveIn;
    if viewports != [] {
      ViewportChosen(viewports[1..], viewport, x, y, if k > 0 then k - 1 else 0);
    }
  }

  /** Node `i` can be hit, and goes before every other node that can. */
  ghost predicate IsTop(nodes: seq<Passport>, x: real, y: real, i: nat) {
    i < |nodes| && Eligible(nodes[i], x, y) &&
    forall j :: 0 <= j < |nodes| && Eligible(nodes[j], x, y) ==> HitLe(Candidate(nodes[i], i), Candidate(nodes[j], j))
  }

  ghost predicate NothingEligible(nodes: seq<Passport>, x: real, y: real) {
    forall j :: 0 <= j < |nodes| ==> !Eligible(nodes[j], x, y)
  }

  lemma {:induction false} FirstResolvableIs(s: seq<Candidate>) returns (k: nat)
    ensures FirstResolvable(s).None? ==> k == |s|
    ensures FirstResolvable(s).Some? ==> k < |s| && Resolvable(s[k].node) && FirstResolvable(s) == Some(s[k].node)
    ensures forall j :: 0 <= j < k ==> !Resolvable(s[j].node)
  {
    if s == [] || Resolvable(s[0].node) {
      k := 0;
    } else {
      var r := FirstResolvableIs(s[1..]);
      k := r + 1;
    }
  }

  lemma HitLeReflexive(c: Candidate)
    ensures HitLe(c, c)
  {
    hide CompareZ;
    CompareZFlips(c.node.zPath, c.node.zPath);
  }

  lemma CandidateUnder(nodes: seq<Passport>, x: real, y: real, j: nat)
    requires j < |nodes| && UnderPoint(nodes[j], x, y)
    ensures Candidate(nodes[j], j) in Filter(Indexed(nodes), x, y)
  {
    hide UnderPoint, Filter;
    assert Indexed(nodes)[j] == Candidate(nodes[j], j);
  }

  lemma UnderIsCandidate(nodes: seq<Passport>, x: real, y: real, c: Candidate)
    requires c in Filter(Indexed(nodes), x, y)
    ensures c.index < |nodes| && c.node == nodes[c.index] && UnderPoint(c.node, x, y)
  {
    hide UnderPoint, Filter;
    assert c in Indexed(nodes);
  }

  /** The first that resolves goes before any that could be hit. */
  lemma FirstGoesBefore(sorted: seq<Candidate>, k: nat, c: Candidate)
    requires SortedBy(sorted, HitLe) && c in sorted && Resolvable(c.node) && k <= |sorted|
    requires forall j :: 0 <= j < k ==> !Resolvable(sorted[j].node)
    ensures k < |sorted| && HitLe(sorted[k], c)
  {
    hide HitLe, Resolvable;
    var q :| 0 <= q < |sorted| && sorted[q] == c;
    HitLeReflexive(c);
  }

  /** Sorting and then searching finds the top node, whatever sort is used; and nothing only when there is none. */
  lemma SortThenFindIsTop(nodes: seq<Passport>, x: real, y: real, sorted: seq<Candidate>)
    requires multiset(sorted) == multiset(Filter(Indexed(nodes), x, y)) && SortedBy(sorted, HitLe)
    ensures FirstResolvable(sorted).Some? ==>
      exists i: nat :: IsTop(nodes, x, y, i) && FirstResolvable(sorted) == Some(nodes[i])
    ensures FirstResolvable(sorted).None? ==> NothingEligible(nodes, x, y)
  {
    hide HitLe, UnderPoint, Resolvable, FirstResolvable, Filter, Indexed, SortedBy;
    SameMembers(sorted, Filter(Indexed(nodes), x, y));
    var k := FirstResolvableIs(sorted);
    forall j | 0 <= j < |nodes| && Eligible(nodes[j], x, y)
      ensures k < |sorted| && HitLe(sorted[k], Candidate(nodes[j], j))
    {
      CandidateUnder(nodes, x, y, j);
      FirstGoesBefore(sorted, k, Candidate(nodes[j], j));
    }
    if k < |sorted| {
      var top := sorted[k];
      assert top in sorted;
      UnderIsCandidate(nodes, x, y, top);
      assert IsTop(nodes, x, y, top.index);
    }
  }

  /** Only one node is the top. */
  lemma TopUnique(nodes: seq<Passport>, x: real, y: real, i: nat, j: nat)
    requires IsTop(nodes, x, y, i) && IsTop(nodes, x, y, j)
    ensures i == j
  {
    hide HitLe;
    HitOrder();
  }

  /** What resolving a point means: the top node, or nothing exactly when no node can be hit. */
  lemma ResolvesToTop(nodes: seq<Passport>, x: real, y: real)
    ensures forall i: nat :: IsTop(nodes, x, y, i) ==> ResolveIn(nodes, x, y) == Some(nodes[i])
    ensures ResolveIn(nodes, x, y).Some? ==>
      exists i: nat :: IsTop(nodes, x, y, i) && ResolveIn(nodes, x, y) == Some(nodes[i])
    ensures ResolveIn(nodes, x, y).None? <==> NothingEligible(nodes, x, y)
  {
    hide Sort, HitLe, FirstResolvable, Eligible;
    var under := Filter(Indexed(nodes), x, y);
    HitOrder();
    SortPermutes(under, HitLe);
    SortSorts(under, HitLe);
    SortThenFindIsTop(nodes, x, y, Sort(under, HitLe));
    forall i: nat | IsTop(nodes, x, y, i) ensures ResolveIn(nodes, x, y) == Some(nodes[i]) {
      if ResolveIn(nodes, x, y).Some? {
        var k: nat :| IsTop(nodes, x, y, k) && ResolveIn(nodes, x, y) == Some(nodes[k]);
        TopUnique(nodes, x, y, i, k);
      }
    }
  }

  /** One pass over the nodes, keeping the best so far, gives the same answer without sorting. */
  method ResolveInOnePass(nodes: seq<Passport>, x: real, y: real) returns (best: Option<Passport>)
    ensures best == ResolveIn(nodes, x, y)
  {
    hide ResolveIn, HitLe, Eligible;
    HitOrder();
    var at: int := -1;
    var i := 0;
    while i < |nodes|
      invariant 0 <= i <= |nodes| && -1 <= at < i
      invariant at < 0 ==> forall j :: 0 <= j < i ==> !Eligible(nodes[j], x, y)
      invariant at >= 0 ==> Eligible(nodes[at], x, y)
      invariant at >= 0 ==> (forall j :: 0 <= j < i && Eligible(nodes[j], x, y) ==>
        HitLe(Candidate(nodes[at], at), Candidate(nodes[j], j)))
    {
      if Eligible(nodes[i], x, y) {
        if at < 0 || HitLe(Candidate(nodes[i], i), Candidate(nodes[at], at)) {
          at := i;
        }
      }
      i := i + 1;
    }
    ResolvesToTop(nodes, x, y);
    if at < 0 {
      assert NothingEligible(nodes, x, y);
      return None;
    }
    assert IsTop(nodes, x, y, at);
    return Some(nodes[at]);
  }

  /** Where a node ends up when another is inserted at `k`. */
  function Shift(i: nat, k: nat): nat { if i < k then i else i + 1 }

  function Inserted(nodes: seq<Passport>, k: nat, n: Passport): seq<Passport>
    requires k <= |nodes|
  {
    nodes[..k] + [n] + nodes[k..]
  }

  lemma HitLeShifted(c: Passport, i: nat, d: Passport, j: nat, k: nat)
    ensures HitLe(Candidate(c, i), Candidate(d, j)) ==> HitLe(Candidate(c, Shift(i, k)), Candidate(d, Shift(j, k)))
  {
    hide CompareZ;
  }

  lemma InsertedAt(nodes: seq<Passport>, k: nat, n: Passport, j: nat)
    requires k <= |nodes| && j < |Inserted(nodes, k, n)| && j != k
    ensures var before := if j < k then j else j - 1;
      before < |nodes| && Inserted(nodes, k, n)[j] == nodes[before] && Shift(before, k) == j
  {
  }

  lemma TopShifts(nodes: seq<Passport>, k: nat, n: Passport, x: real, y: real, i: nat)
    requires k <= |nodes| && !Eligible(n, x, y) && IsTop(nodes, x, y, i)
    ensures IsTop(Inserted(nodes, k, n), x, y, Shift(i, k))
    ensures Inserted(nodes, k, n)[Shift(i, k)] == nodes[i]
  {
    hide HitLe, Eligible;
    var more := Inserted(nodes, k, n);
    assert more[k] == n && more[Shift(i, k)] == nodes[i];
    forall j | 0 <= j < |more| && Eligible(more[j], x, y)
      ensures HitLe(Candidate(nodes[i], Shift(i, k)), Candidate(more[j], j))
    {
      InsertedAt(nodes, k, n, j);
      var before: nat := if j < k then j else j - 1;
      HitLeShifted(nodes[i], i, nodes[before], before, k);
    }
  }

  lemma NothingInserted(nodes: seq<Passport>, k: nat, n: Passport, x: real, y: real)
    requires k <= |nodes| && !Eligible(n, x, y) && NothingEligible(nodes, x, y)
    ensures NothingEligible(Inserted(nodes, k, n), x, y)
  {
    hide Eligible;
    var more := Inserted(nodes, k, n);
    forall j | 0 <= j < |more| ensures !Eligible(more[j], x, y) {
      if j != k {
        InsertedAt(nodes, k, n, j);
      }
    }
  }

  /** A node that does not resolve, or is not under the point, changes nothing wherever it is put. */
  lemma InsertingIneligible(nodes: seq<Passport>, k: nat, n: Passport, x: real, y: real)
    requires k <= |nodes| && !Eligible(n, x, y)
    ensures ResolveIn(Inserted(nodes, k, n), x, y) == ResolveIn(nodes, x, y)
  {
    hide ResolveIn, HitLe, NothingEligible, Eligible, Inserted, Shift;
    ResolvesToTop(nodes, x, y);
    ResolvesToTop(Inserted(nodes, k, n), x, y);
    if ResolveIn(nodes, x, y).Some? {
      var i: nat :| IsTop(nodes, x, y, i) && ResolveIn(nodes, x, y) == Some(nodes[i]);
      TopShifts(nodes, k, n, x, y, i);
    } else {
      NothingInserted(nodes, k, n, x, y);
    }
  }
}
