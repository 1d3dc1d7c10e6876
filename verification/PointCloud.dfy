/** The point-cloud gate: what the decoded buffers must satisfy, whatever the scene declares about them. */
module PointCloud {
  import opened Text

  /** A decoded 32-bit float, or anything that `Number.isFinite` rejects. */
  datatype Coord = Finite(v: real) | NonFinite

  /** A base64 payload after decoding. */
  datatype Payload<T> = Absent | Undecodable | Decoded(data: seq<T>)

  datatype Encoded = Encoded(
    pointCount: real, positions: Payload<Coord>,
    facetCount: Option<real>, facetPositions: Payload<Coord>, facetColors: Payload<nat>, facetEncodingOk: bool,
    edgeCount: Option<real>, edges: Payload<nat>, edgeEncodingOk: bool)

  datatype Issue = PositionsUndecodable | PointCountMismatch | NonFiniteCoordinate | OutsideHull | TooDeep
                 | FacetsMissing | FacetsPartial | FacetCountInvalid | TooManyFacets | FacetsNotDecimation
                 | FacetEncoding | FacetsUndecodable | FacetLengthMismatch | FacetOutsideBox
                 | EdgesPartial | EdgeCountInvalid | EdgesOnSparseCloud | TooManyEdges | EdgeEncoding
                 | EdgesUndecodable | EdgeLengthMismatch | DanglingEdge | SelfLoop | EdgeTooLong

  const MAX_FACETS := 4000.0
  const MAX_EDGES := 18000.0
  const MAX_EFFECTIVE_DEPTH := 6.0
  const GLYPH_POINT_FLOOR := 1500.0
  const FACET_EPSILON := 0.001
  const EDGE_SPACINGS := 12.0

  // ----- Bounds that start out infinite

  datatype Bound = MinusInfinity | Val(v: real) | PlusInfinity

  predicate Below(a: Bound, b: Bound) {
    match (a, b)
    case (Val(x), Val(y)) => x < y
    case (MinusInfinity, MinusInfinity) => false
    case (MinusInfinity, _) => true
    case (Val(_), PlusInfinity) => true
    case _ => false
  }

  function Plus(a: Bound, d: real): Bound { if a.Val? then Val(a.v + d) else a }

  datatype Box = Box(minX: Bound, maxX: Bound, minY: Bound, maxY: Bound, minZ: Bound, maxZ: Bound)

  datatype Geometry = Geometry(positions: seq<Coord>, box: Box)

  // ----- Reading a buffer

  /** An index past the end reads as `undefined`, which is not finite. */
  function Read(s: seq<Coord>, k: nat): Coord { if k < |s| then s[k] else NonFinite }

  /** Coordinate `axis` of point `i`. */
  function At(s: seq<Coord>, i: nat, axis: nat): real {
    var c := Read(s, 3 * i + axis);
    if c.Finite? then c.v else 0.0
  }

  predicate FinitePoint(s: seq<Coord>, i: nat) {
    Read(s, 3 * i).Finite? && Read(s, 3 * i + 1).Finite? && Read(s, 3 * i + 2).Finite?
  }

  function Low(s: seq<Coord>, n: nat, axis: nat): Bound {
    if n == 0 then PlusInfinity
    else if Below(Val(At(s, n - 1, axis)), Low(s, n - 1, axis)) then Val(At(s, n - 1, axis))
    else Low(s, n - 1, axis)
  }

  function High(s: seq<Coord>, n: nat, axis: nat): Bound {
    if n == 0 then MinusInfinity
    else if Below(High(s, n - 1, axis), Val(At(s, n - 1, axis))) then Val(At(s, n - 1, axis))
    else High(s, n - 1, axis)
  }

  function MeasuredBox(s: seq<Coord>, n: nat): Box {
    Box(Low(s, n, 0), High(s, n, 0), Low(s, n, 1), High(s, n, 1), Low(s, n, 2), High(s, n, 2))
  }

  /** The least interval around one coordinate of the points: it holds them all, and each end is one of them. */
  ghost predicate LeastInterval(s: seq<Coord>, n: nat, axis: nat, low: Bound, high: Bound) {
    if n == 0 then low == PlusInfinity && high == MinusInfinity
    else
      low.Val? && high.Val? && (forall i :: 0 <= i < n ==> low.v <= At(s, i, axis) <= high.v) &&
      (exists i :: 0 <= i < n && At(s, i, axis) == low.v) && (exists i :: 0 <= i < n && At(s, i, axis) == high.v)
  }

  lemma {:induction false} MeasuredInterval(s: seq<Coord>, n: nat, axis: nat)
    ensures LeastInterval(s, n, axis, Low(s, n, axis), High(s, n, axis))
  {
    hide At;
    if n > 0 {
      MeasuredInterval(s, n - 1, axis);
      var last := At(s, n - 1, axis);
      assert At(s, n - 1, axis) == last;
      if n > 1 {
        var low, high := Low(s, n - 1, axis), High(s, n - 1, axis);
        var i :| 0 <= i < n - 1 && At(s, i, axis) == low.v;
        var j :| 0 <= j < n - 1 && At(s, j, axis) == high.v;
        assert At(s, i, axis) == low.v && At(s, j, axis) == high.v;
      }
    }
  }

  // ----- What the positions must satisfy

  predicate InHull(s: seq<Coord>, i: nat) {
    -1.0 <= At(s, i, 0) <= 1.0 && -1.0 <= At(s, i, 1) <= 1.0
  }

  /** The declared number of points, all finite and in the hull, no two further apart in depth than the budget. */
  ghost predicate GeometryContract(enc: Encoded, n: nat) {
    enc.positions.Decoded? && enc.pointCount == n as real && |enc.positions.data| == 3 * n &&
    (forall i :: 0 <= i < n ==> FinitePoint(enc.positions.data, i) && InHull(enc.positions.data, i)) &&
    (forall i, j :: 0 <= i < n && 0 <= j < n ==>
      At(enc.positions.data, i, 2) - At(enc.positions.data, j, 2) <= MAX_EFFECTIVE_DEPTH)
  }

  /** The hull and depth tests on the measured box say what the contract says of every point. */
  lemma BoxTests(s: seq<Coord>, n: nat)
    ensures var b := MeasuredBox(s, n);
      (!(Below(b.minX, Val(-1.0)) || Below(Val(1.0), b.maxX) ||
         Below(b.minY, Val(-1.0)) || Below(Val(1.0), b.maxY)) <==>
        forall i :: 0 <= i < n ==> InHull(s, i)) &&
      (!Below(Plus(b.minZ, MAX_EFFECTIVE_DEPTH), b.maxZ) <==>
        forall i, j :: 0 <= i < n && 0 <= j < n ==> At(s, i, 2) - At(s, j, 2) <= MAX_EFFECTIVE_DEPTH)
  {
    hide Low, High, At;
    MeasuredInterval(s, n, 0);
    MeasuredInterval(s, n, 1);
    MeasuredInterval(s, n, 2);
    if n > 0 {
      HullTest(s, n);
      DepthTest(s, n);
    }
  }

  lemma HullTest(s: seq<Coord>, n: nat)
    requires n > 0
    requires LeastInterval(s, n, 0, Low(s, n, 0), High(s, n, 0)) && LeastInterval(s, n, 1, Low(s, n, 1), High(s, n, 1))
    ensures var b := MeasuredBox(s, n);
      !(Below(b.minX, Val(-1.0)) || Below(Val(1.0), b.maxX) || Below(b.minY, Val(-1.0)) || Below(Val(1.0), b.maxY)) <==>
        forall i :: 0 <= i < n ==> InHull(s, i)
  {
    hide Low, High, At;
    var b := MeasuredBox(s, n);
    if forall i :: 0 <= i < n ==> InHull(s, i) {
      var i :| 0 <= i < n && At(s, i, 0) == b.minX.v;
      var j :| 0 <= j < n && At(s, j, 0) == b.maxX.v;
      var k :| 0 <= k < n && At(s, k, 1) == b.minY.v;
      var l :| 0 <= l < n && At(s, l, 1) == b.maxY.v;
      assert InHull(s, i) && InHull(s, j) && InHull(s, k) && InHull(s, l);
    }
  }

  lemma DepthTest(s: seq<Coord>, n: nat)
    requires n > 0 && LeastInterval(s, n, 2, Low(s, n, 2), High(s, n, 2))
    ensures var b := MeasuredBox(s, n);
      !Below(Plus(b.minZ, MAX_EFFECTIVE_DEPTH), b.maxZ) <==>
        forall i, j :: 0 <= i < n && 0 <= j < n ==> At(s, i, 2) - At(s, j, 2) <= MAX_EFFECTIVE_DEPTH
  {
    hide Low, High, At;
    var b := MeasuredBox(s, n);
    if forall i, j :: 0 <= i < n && 0 <= j < n ==> At(s, i, 2) - At(s, j, 2) <= MAX_EFFECTIVE_DEPTH {
      var i :| 0 <= i < n && At(s, i, 2) == b.maxZ.v;
      var j :| 0 <= j < n && At(s, j, 2) == b.minZ.v;
      assert At(s, i, 2) - At(s, j, 2) <= MAX_EFFECTIVE_DEPTH;
    }
  }

  /** The real points of the cloud and the least box around them. */
  ghost predicate Measures(g: Geometry, enc: Encoded, n: nat) {
    enc.positions.Decoded? && g.positions == enc.positions.data && |g.positions| == 3 * n &&
    enc.pointCount == n as real && (forall i :: 0 <= i < n ==> FinitePoint(g.positions, i)) &&
    g.box == MeasuredBox(g.positions, n)
  }

  /**
   * Measures the decoded positions. Nothing is reported exactly when the buffer meets the contract; the declared count
   * may be any number, and one that is not whole is caught as a coordinate read past the end.
   */
  method CheckGeometry(enc: Encoded) returns (errors: seq<Issue>, geometry: Option<Geometry>)
    ensures errors == [] <==> exists n: nat :: GeometryContract(enc, n)
    ensures errors == [] ==> geometry.Some?
    ensures geometry.Some? ==> exists n: nat :: Measures(geometry.value, enc, n)
  {
    hide At, MeasuredBox, InHull;
    if !enc.positions.Decoded? {
      return [PositionsUndecodable], None;
    }
    var positions := enc.positions.data;
    if |positions| as real != enc.pointCount * 3.0 {
      return [PointCountMismatch], None;
    }
    var minX, maxX, minY, maxY, minZ, maxZ :=
      PlusInfinity, MinusInfinity, PlusInfinity, MinusInfinity, PlusInfinity, MinusInfinity;
    var i: nat := 0;
    while i as real < enc.pointCount
      invariant forall k :: 0 <= k < i ==> FinitePoint(positions, k)
      invariant 3 * i <= |positions|
      invariant minX == Low(positions, i, 0) && maxX == High(positions, i, 0)
      invariant minY == Low(positions, i, 1) && maxY == High(positions, i, 1)
      invariant minZ == Low(positions, i, 2) && maxZ == High(positions, i, 2)
      decreases |positions| - 3 * i
    {
      var x, y, z := Read(positions, 3 * i), Read(positions, 3 * i + 1), Read(positions, 3 * i + 2);
      if !x.Finite? || !y.Finite? || !z.Finite? {
        assert !FinitePoint(positions, i);
        return [NonFiniteCoordinate], None;
      }
      assert At(positions, i, 0) == x.v && At(positions, i, 1) == y.v && At(positions, i, 2) == z.v by {
        AtRead(positions, i);
      }
      if Below(Val(x.v), minX) { minX := Val(x.v); }
      if Below(maxX, Val(x.v)) { maxX := Val(x.v); }
      if Below(Val(y.v), minY) { minY := Val(y.v); }
      if Below(maxY, Val(y.v)) { maxY := Val(y.v); }
      if Below(Val(z.v), minZ) { minZ := Val(z.v); }
      if Below(maxZ, Val(z.v)) { maxZ := Val(z.v); }
      i := i + 1;
    }
    assert 3 * i == |positions| && enc.pointCount == i as real;
    errors := [];
    var box := Box(minX, maxX, minY, maxY, minZ, maxZ);
    assert box == MeasuredBox(positions, i) by { BoxIs(positions, i); }
    BoxTests(positions, i);
    if Below(minX, Val(-1.0)) || Below(Val(1.0), maxX) || Below(minY, Val(-1.0)) || Below(Val(1.0), maxY) {
      errors := errors + [OutsideHull];
    }
    if Below(Plus(minZ, MAX_EFFECTIVE_DEPTH), maxZ) {
      errors := errors + [TooDeep];
    }
    geometry := Some(Geometry(positions, box));
    assert Measures(geometry.value, enc, i);
    assert errors == [] ==> GeometryContract(enc, i);
  }

  lemma AtRead(s: seq<Coord>, i: nat)
    requires FinitePoint(s, i)
    ensures At(s, i, 0) == Read(s, 3 * i).v && At(s, i, 1) == Read(s, 3 * i + 1).v
    ensures At(s, i, 2) == Read(s, 3 * i + 2).v
  {
  }

  lemma BoxIs(s: seq<Coord>, n: nat)
    ensures MeasuredBox(s, n) ==
      Box(Low(s, n, 0), High(s, n, 0), Low(s, n, 1), High(s, n, 1), Low(s, n, 2), High(s, n, 2))
  {
  }

  // ----- Facets

  predicate Whole(r: real) { r.Floor as real == r }

  predicate Between(low: Bound, v: real, high: Bound, slack: real) {
    !Below(Val(v), Plus(low, -slack)) && !Below(Plus(high, slack), Val(v))
  }

  /** A finite point no further outside the box than the tolerance. */
  predicate FacetInBox(facets: seq<Coord>, k: nat, b: Box) {
    FinitePoint(facets, k) && Between(b.minX, At(facets, k, 0), b.maxX, FACET_EPSILON) &&
    Between(b.minY, At(facets, k, 1), b.maxY, FACET_EPSILON) && Between(b.minZ, At(facets, k, 2), b.maxZ, FACET_EPSILON)
  }

  predicate NoFacets(enc: Encoded) { enc.facetCount.None? && enc.facetPositions.Absent? && enc.facetColors.Absent? }

  /** Fewer facets than points and under the ceiling, declared whole, each within the measured box. */
  ghost predicate FacetContract(enc: Encoded, lowpoly: bool, geometry: Option<Geometry>) {
    if NoFacets(enc) then !lowpoly
    else
      enc.facetCount.Some? && enc.facetPositions.Decoded? && enc.facetColors.Decoded? && enc.facetEncodingOk &&
      exists f: nat :: FacetsAre(enc, geometry, f)
  }

  ghost predicate FacetsAre(enc: Encoded, geometry: Option<Geometry>, f: nat)
    requires enc.facetPositions.Decoded? && enc.facetColors.Decoded?
  {
    enc.facetCount == Some(f as real) && 1 <= f && f as real <= MAX_FACETS && (f as real) < enc.pointCount &&
    |enc.facetPositions.data| == 3 * f && |enc.facetColors.data| == 3 * f &&
    (geometry.Some? ==> forall k :: 0 <= k < f ==> FacetInBox(enc.facetPositions.data, k, geometry.value.box))
  }

  /** Either no facet field is there, which a low-poly scene does not allow, or all of them are. */
  lemma FacetsWhole(enc: Encoded, lowpoly: bool, g: Option<Geometry>)
    ensures FacetContract(enc, lowpoly, g) <==>
      (enc.facetCount == None && enc.facetPositions == Absent && enc.facetColors == Absent && !lowpoly) ||
      (enc.facetPositions.Decoded? && enc.facetColors.Decoded? && enc.facetEncodingOk &&
       exists f: nat :: FacetsAre(enc, g, f))
  {
    hide FacetInBox;
  }

  lemma FacetsUnique(enc: Encoded, geometry: Option<Geometry>, f: nat)
    requires enc.facetPositions.Decoded? && enc.facetColors.Decoded? && enc.facetCount == Some(f as real)
    ensures (exists g: nat :: FacetsAre(enc, geometry, g)) <==> FacetsAre(enc, geometry, f)
  {
    forall g: nat | FacetsAre(enc, geometry, g) ensures g == f {
    }
  }

  method CheckFacets(enc: Encoded, lowpoly: bool, geometry: Option<Geometry>) returns (errors: seq<Issue>)
    ensures errors == [] <==> FacetContract(enc, lowpoly, geometry)
  {
    hide FacetInBox, Low, High, At;
    if NoFacets(enc) {
      return if lowpoly then [FacetsMissing] else [];
    }
    if enc.facetCount.None? || enc.facetPositions.Absent? || enc.facetColors.Absent? {
      return [FacetsPartial];
    }
    var count := enc.facetCount.value;
    if !Whole(count) || count < 1.0 {
      return [FacetCountInvalid];
    }
    var facetCount: nat := count.Floor;
    errors := [];
    if count > MAX_FACETS {
      errors := errors + [TooManyFacets];
    }
    if count >= enc.pointCount {
      errors := errors + [FacetsNotDecimation];
    }
    if !enc.facetEncodingOk {
      return errors + [FacetEncoding];
    }
    if !enc.facetPositions.Decoded? || !enc.facetColors.Decoded? {
      return errors + [FacetsUndecodable];
    }
    FacetsUnique(enc, geometry, facetCount);
    if |enc.facetPositions.data| != facetCount * 3 || |enc.facetColors.data| != facetCount * 3 {
      return errors + [FacetLengthMismatch];
    }
    if geometry.Some? {
      var i: nat := 0;
      while i < facetCount
        invariant i <= facetCount
        invariant forall k :: 0 <= k < i ==> FacetInBox(enc.facetPositions.data, k, geometry.value.box)
      {
        if !FacetInBox(enc.facetPositions.data, i, geometry.value.box) {
          return errors + [FacetOutsideBox];
        }
        i := i + 1;
      }
    }
  }

  // ----- Edges

  function Square(x: real): real { x * x }

  /** The diagonal of the box in the plane, squared; a cloud of no extent counts as one unit. */
  function SpanSquared(b: Box): real {
    if b.minX.Val? && b.maxX.Val? && b.minY.Val? && b.maxY.Val? then
      var d := Square(b.maxX.v - b.minX.v) + Square(b.maxY.v - b.minY.v);
      if d == 0.0 then 1.0 else d
    else 1.0
  }

  /** Twelve mean spacings, squared. */
  function MaxEdgeSquared(b: Box, pointCount: real): real {
    SpanSquared(b) * Square(EDGE_SPACINGS) / (if pointCount > 1.0 then pointCount else 1.0)
  }

  function DistanceSquared(s: seq<Coord>, a: nat, b: nat): real {
    Square(At(s, a, 0) - At(s, b, 0)) + Square(At(s, a, 1) - At(s, b, 1))
  }

  /** Two distinct points of the cloud, no further apart than the bound. */
  predicate EdgeOk(edges: seq<nat>, e: nat, pointCount: real, geometry: Option<Geometry>)
    requires 2 * e + 1 < |edges|
  {
    var a, b := edges[2 * e], edges[2 * e + 1];
    (a as real) < pointCount && (b as real) < pointCount && a != b &&
    (geometry.Some? ==>
      DistanceSquared(geometry.value.positions, a, b) <= MaxEdgeSquared(geometry.value.box, pointCount))
  }

  ghost predicate EdgeContract(enc: Encoded, geometry: Option<Geometry>) {
    if enc.edgeCount.None? && enc.edges.Absent? then true
    else
      enc.edgeCount.Some? && enc.edges.Decoded? && enc.edgeEncodingOk && enc.pointCount >= GLYPH_POINT_FLOOR &&
      exists n: nat :: EdgesAre(enc, geometry, n)
  }

  ghost predicate EdgesAre(enc: Encoded, geometry: Option<Geometry>, n: nat)
    requires enc.edges.Decoded?
  {
    enc.edgeCount == Some(n as real) && 1 <= n && n as real <= MAX_EDGES && |enc.edges.data| == 2 * n &&
    forall e :: 0 <= e < n ==> EdgeOk(enc.edges.data, e, enc.pointCount, geometry)
  }

  lemma EdgesUnique(enc: Encoded, geometry: Option<Geometry>, n: nat)
    requires enc.edges.Decoded? && enc.edgeCount == Some(n as real)
    ensures (exists m: nat :: EdgesAre(enc, geometry, m)) <==> EdgesAre(enc, geometry, n)
  {
    forall m: nat | EdgesAre(enc, geometry, m) ensures m == n {
    }
  }

  method CheckEdges(enc: Encoded, geometry: Option<Geometry>) returns (errors: seq<Issue>)
    ensures errors == [] <==> EdgeContract(enc, geometry)
  {
    hide DistanceSquared, MaxEdgeSquared, Low, High, At;
    if enc.edgeCount.None? && enc.edges.Absent? {
      return [];
    }
    if enc.edgeCount.None? || enc.edges.Absent? {
      return [EdgesPartial];
    }
    var count := enc.edgeCount.value;
    if !Whole(count) || count < 1.0 {
      return [EdgeCountInvalid];
    }
    var edgeCount: nat := count.Floor;
    errors := [];
    if enc.pointCount < GLYPH_POINT_FLOOR {
      errors := errors + [EdgesOnSparseCloud];
    }
    if count > MAX_EDGES {
      errors := errors + [TooManyEdges];
    }
    if !enc.edgeEncodingOk {
      return errors + [EdgeEncoding];
    }
    if !enc.edges.Decoded? {
      return errors + [EdgesUndecodable];
    }
    var decoded := enc.edges.data;
    EdgesUnique(enc, geometry, edgeCount);
    if |decoded| != edgeCount * 2 {
      return errors + [EdgeLengthMismatch];
    }
    var e: nat := 0;
    while e < edgeCount
      invariant e <= edgeCount
      invariant forall k :: 0 <= k < e ==> EdgeOk(decoded, k, enc.pointCount, geometry)
    {
      var a, b := decoded[2 * e], decoded[2 * e + 1];
      if a as real >= enc.pointCount || b as real >= enc.pointCount {
        assert !EdgeOk(decoded, e, enc.pointCount, geometry);
        return errors + [DanglingEdge];
      }
      if a == b {
        assert !EdgeOk(decoded, e, enc.pointCount, geometry);
        return errors + [SelfLoop];
      }
      if geometry.Some? {
        if DistanceSquared(geometry.value.positions, a, b) > MaxEdgeSquared(geometry.value.box, enc.pointCount) {
          assert !EdgeOk(decoded, e, enc.pointCount, geometry);
          return errors + [EdgeTooLong];
        }
      }
      e := e + 1;
    }
  }

  // ----- The three checks together

  /** The buffers of a cloud of `n` points with measured geometry `g` meet every bound. */
  ghost predicate CloudContract(enc: Encoded, lowpoly: bool, n: nat, g: Geometry) {
    GeometryContract(enc, n) && Measures(g, enc, n) && FacetContract(enc, lowpoly, Some(g)) &&
    EdgeContract(enc, Some(g))
  }

  /** No error is reported exactly for the clouds whose real buffers meet the contract. */
  method CheckBuffers(enc: Encoded, lowpoly: bool) returns (errors: seq<Issue>)
    ensures errors == [] <==> exists n: nat, g :: CloudContract(enc, lowpoly, n, g)
  {
    hide GeometryContract, FacetContract, EdgeContract, MeasuredBox, FinitePoint;
    var geometryErrors, geometry := CheckGeometry(enc);
    var facetErrors := CheckFacets(enc, lowpoly, geometry);
    var edgeErrors := CheckEdges(enc, geometry);
    errors := geometryErrors + facetErrors + edgeErrors;
    if geometryErrors == [] {
      ghost var n: nat :| GeometryContract(enc, n);
      ghost var m: nat :| Measures(geometry.value, enc, m);
      MeasuredOnce(enc, n, geometry.value, m);
      assert errors == [] ==> CloudContract(enc, lowpoly, n, geometry.value);
    }
  }

  /** A buffer has one size and one measured geometry. */
  lemma MeasuredOnce(enc: Encoded, n: nat, g: Geometry, m: nat)
    requires GeometryContract(enc, n) && Measures(g, enc, m)
    ensures n == m
    ensures forall k: nat, h :: Measures(h, enc, k) ==> k == n && h == g
  {
    hide MeasuredBox, InHull, FinitePoint, At;
  }

  /** The edge joins two points of the cloud, and is no longer than twelve mean spacings of its box. */
  predicate ShortEdge(edges: seq<nat>, e: nat, s: seq<Coord>, n: nat, x0: Bound, x1: Bound, y0: Bound, y1: Bound) {
    2 * e + 1 < |edges| && x0.Val? && x1.Val? && y0.Val? && y1.Val? &&
    var a, b := edges[2 * e], edges[2 * e + 1];
    a < n && b < n && a != b && 3 * n <= |s| && s[3 * a].Finite? && s[3 * b].Finite? && s[3 * a + 1].Finite? &&
    s[3 * b + 1].Finite? &&
    var dx, dy := s[3 * a].v - s[3 * b].v, s[3 * a + 1].v - s[3 * b + 1].v;
    var span := (x1.v - x0.v) * (x1.v - x0.v) + (y1.v - y0.v) * (y1.v - y0.v);
    dx * dx + dy * dy <= (if span == 0.0 then 1.0 else span) * 144.0 / n as real
  }

  lemma EdgeIsShort(edges: seq<nat>, e: nat, n: nat, g: Geometry, x0: real, x1: real, y0: real, y1: real)
    requires 2 * e + 1 < |edges| && n > 1 && edges[2 * e] < n && edges[2 * e + 1] < n && |g.positions| == 3 * n
    requires FinitePoint(g.positions, edges[2 * e]) && FinitePoint(g.positions, edges[2 * e + 1])
    requires g.box.minX == Val(x0) && g.box.maxX == Val(x1) && g.box.minY == Val(y0) && g.box.maxY == Val(y1)
    requires EdgeOk(edges, e, n as real, Some(g))
    ensures ShortEdge(edges, e, g.positions, n, Val(x0), Val(x1), Val(y0), Val(y1))
  {
    hide EdgeOk;
    EdgeOkIs(edges, e, n, g, x0, x1, y0, y1);
    CoordinateIs(g.positions, edges[2 * e]);
    CoordinateIs(g.positions, edges[2 * e + 1]);
    hide At, FinitePoint;
  }

  lemma PassedEdge(enc: Encoded, n: nat, g: Geometry, e: nat)
    requires Measures(g, enc, n) && enc.edges.Decoded? && 2 * e + 1 < |enc.edges.data|
    requires EdgeOk(enc.edges.data, e, n as real, Some(g))
    ensures var s := g.positions;
      ShortEdge(enc.edges.data, e, s, n, Low(s, n, 0), High(s, n, 0), Low(s, n, 1), High(s, n, 1))
  {
    hide EdgeOk, At, Low, High, ShortEdge, FinitePoint;
    var s := g.positions;
    DanglingEdges(enc.edges.data, e, n, Some(g));
    MeasuredInterval(s, n, 0);
    MeasuredInterval(s, n, 1);
    EdgeIsShort(enc.edges.data, e, n, g, Low(s, n, 0).v, High(s, n, 0).v, Low(s, n, 1).v, High(s, n, 1).v);
  }

  /** What the gate promises of a cloud it passes, point by point, facet by facet and edge by edge. */
  lemma PassedCloud(enc: Encoded, lowpoly: bool, n: nat, g: Geometry)
    requires CloudContract(enc, lowpoly, n, g)
    ensures forall axis :: 0 <= axis < 3 ==>
      LeastInterval(g.positions, n, axis, Low(g.positions, n, axis), High(g.positions, n, axis))
    ensures enc.facetPositions.Decoded? ==>
      forall j, k :: 0 <= j < |enc.facetPositions.data| / 3 && 0 <= k < |enc.facetPositions.data| / 3 ==>
        At(enc.facetPositions.data, j, 2) - At(enc.facetPositions.data, k, 2) <= 6.002
    ensures enc.edges.Decoded? ==> forall i :: 0 <= i < |enc.edges.data| ==> enc.edges.data[i] < n
    ensures enc.edges.Decoded? ==>
      var s := g.positions;
      forall e :: 0 <= e < |enc.edges.data| / 2 ==>
        ShortEdge(enc.edges.data, e, s, n, Low(s, n, 0), High(s, n, 0), Low(s, n, 1), High(s, n, 1))
  {
    hide At, Low, High, DistanceSquared, MaxEdgeSquared, ShortEdge;
    forall axis: nat | axis < 3
      ensures LeastInterval(g.positions, n, axis, Low(g.positions, n, axis), High(g.positions, n, axis))
    {
      MeasuredInterval(g.positions, n, axis);
    }
    if enc.facetPositions.Decoded? {
      FacetDepth(enc, lowpoly, n, g);
    }
    if enc.edges.Decoded? {
      var m: nat :| EdgesAre(enc, Some(g), m);
      forall i | 0 <= i < |enc.edges.data| ensures enc.edges.data[i] < n {
        assert EdgeOk(enc.edges.data, i / 2, enc.pointCount, Some(g));
      }
      forall e | 0 <= e < |enc.edges.data| / 2
        ensures ShortEdge(enc.edges.data, e, g.positions, n, Low(g.positions, n, 0), High(g.positions, n, 0),
                          Low(g.positions, n, 1), High(g.positions, n, 1))
      {
        assert EdgeOk(enc.edges.data, e, enc.pointCount, Some(g));
        PassedEdge(enc, n, g, e);
      }
    }
  }

  /** Facets may stray from the box only by the tolerance, so they keep to the cloud's depth budget but for that. */
  lemma FacetDepth(enc: Encoded, lowpoly: bool, n: nat, g: Geometry)
    requires CloudContract(enc, lowpoly, n, g) && enc.facetPositions.Decoded?
    ensures forall j, k :: 0 <= j < |enc.facetPositions.data| / 3 && 0 <= k < |enc.facetPositions.data| / 3 ==>
      At(enc.facetPositions.data, j, 2) - At(enc.facetPositions.data, k, 2) <=
        MAX_EFFECTIVE_DEPTH + 2.0 * FACET_EPSILON
  {
    hide At, Low, High, EdgeContract;
    var f: nat :| FacetsAre(enc, Some(g), f);
    var s := enc.facetPositions.data;
    MeasuredInterval(g.positions, n, 2);
    assert n > 0;
    DepthTest(g.positions, n);
    forall j, k | 0 <= j < |s| / 3 && 0 <= k < |s| / 3
      ensures At(s, j, 2) - At(s, k, 2) <= MAX_EFFECTIVE_DEPTH + 2.0 * FACET_EPSILON
    {
      assert FacetInBox(s, j, g.box) && FacetInBox(s, k, g.box);
    }
  }
  // ----- The bounds, number by number

  /** Coordinate `axis` of point `i` is this finite number of the buffer. */
  predicate Coordinate(s: seq<Coord>, i: nat, axis: nat, v: real) {
    3 * i + axis < |s| && s[3 * i + axis] == Finite(v)
  }

  lemma CoordinateIs(s: seq<Coord>, i: nat)
    requires 3 * i + 2 < |s|
    ensures FinitePoint(s, i) <==> s[3 * i].Finite? && s[3 * i + 1].Finite? && s[3 * i + 2].Finite?
    ensures FinitePoint(s, i) ==>
      At(s, i, 0) == s[3 * i].v && At(s, i, 1) == s[3 * i + 1].v && At(s, i, 2) == s[3 * i + 2].v
  {
  }

  lemma PointIs(s: seq<Coord>, i: nat, j: nat)
    requires 3 * i + 2 < |s| && 3 * j + 2 < |s|
    ensures FinitePoint(s, i) && InHull(s, i) <==> PointFits(s, i)
    ensures PointFits(s, i) && PointFits(s, j) ==>
      (At(s, i, 2) - At(s, j, 2) <= MAX_EFFECTIVE_DEPTH <==> DepthFits(s, i, j))
  {
    CoordinateIs(s, i);
    CoordinateIs(s, j);
    hide At, FinitePoint;
  }

  /** As many points as declared, all coordinates finite, x and y within one of zero, and z within six of each other. */
  lemma GeometryContractIs(enc: Encoded, n: nat)
    ensures GeometryContract(enc, n) <==>
      enc.positions.Decoded? && enc.pointCount == n as real && |enc.positions.data| == 3 * n &&
      (forall i :: 0 <= i < n ==> PointFits(enc.positions.data, i)) &&
      forall i, j :: 0 <= i < n && 0 <= j < n ==> DepthFits(enc.positions.data, i, j)
  {
    if enc.positions.Decoded? && |enc.positions.data| == 3 * n {
      var s := enc.positions.data;
      forall i: nat | i < n ensures FinitePoint(s, i) && InHull(s, i) <==> PointFits(s, i) {
        PointIs(s, i, i);
      }
      forall i: nat, j: nat | i < n && j < n
        ensures PointFits(s, i) && PointFits(s, j) ==>
          (At(s, i, 2) - At(s, j, 2) <= MAX_EFFECTIVE_DEPTH <==> DepthFits(s, i, j))
      {
        PointIs(s, i, j);
      }
      hide At, FinitePoint, InHull, PointFits, DepthFits;
    }
  }

  predicate PointFits(s: seq<Coord>, i: nat)
    requires 3 * i + 2 < |s|
  {
    s[3 * i].Finite? && s[3 * i + 1].Finite? && s[3 * i + 2].Finite? &&
    -1.0 <= s[3 * i].v <= 1.0 && -1.0 <= s[3 * i + 1].v <= 1.0
  }

  predicate DepthFits(s: seq<Coord>, i: nat, j: nat)
    requires 3 * i + 2 < |s| && 3 * j + 2 < |s|
  {
    s[3 * i + 2].Finite? && s[3 * j + 2].Finite? ==> s[3 * i + 2].v - s[3 * j + 2].v <= 6.0
  }

  /** A facet's point may stray from the box by a thousandth on each axis. */
  lemma FacetInBoxIs(s: seq<Coord>, k: nat, x0: real, x1: real, y0: real, y1: real, z0: real, z1: real)
    requires 3 * k + 2 < |s|
    ensures FacetInBox(s, k, Box(Val(x0), Val(x1), Val(y0), Val(y1), Val(z0), Val(z1))) <==>
      s[3 * k].Finite? && s[3 * k + 1].Finite? && s[3 * k + 2].Finite? &&
      x0 - 0.001 <= s[3 * k].v <= x1 + 0.001 && y0 - 0.001 <= s[3 * k + 1].v <= y1 + 0.001 &&
      z0 - 0.001 <= s[3 * k + 2].v <= z1 + 0.001
  {
    CoordinateIs(s, k);
    hide At, FinitePoint;
  }

  /** Between one and four thousand facets, fewer than the points, with a point and a colour of three numbers each. */
  lemma FacetCounts(enc: Encoded, g: Option<Geometry>, f: nat)
    requires enc.facetPositions.Decoded? && enc.facetColors.Decoded?
    ensures FacetsAre(enc, g, f) <==>
      enc.facetCount == Some(f as real) && 1 <= f <= 4000 && (f as real) < enc.pointCount &&
      |enc.facetPositions.data| == 3 * f && |enc.facetColors.data| == 3 * f &&
      (g.Some? ==> forall k :: 0 <= k < f ==> FacetInBox(enc.facetPositions.data, k, g.value.box))
  {
    hide FacetInBox;
  }

  /**
   * An edge joins two different points, no further apart in the plane than twelve mean spacings: the squared distance
   * is at most 144 times the squared diagonal of the box over the number of points.
   */
  lemma EdgeOkIs(edges: seq<nat>, e: nat, n: nat, g: Geometry, x0: real, x1: real, y0: real, y1: real)
    requires 2 * e + 1 < |edges| && n > 1 && edges[2 * e] < n && edges[2 * e + 1] < n && |g.positions| == 3 * n
    requires FinitePoint(g.positions, edges[2 * e]) && FinitePoint(g.positions, edges[2 * e + 1])
    requires g.box.minX == Val(x0) && g.box.maxX == Val(x1) && g.box.minY == Val(y0) && g.box.maxY == Val(y1)
    ensures var a, b := edges[2 * e], edges[2 * e + 1];
      var dx := g.positions[3 * a].v - g.positions[3 * b].v;
      var dy := g.positions[3 * a + 1].v - g.positions[3 * b + 1].v;
      var span := (x1 - x0) * (x1 - x0) + (y1 - y0) * (y1 - y0);
      EdgeOk(edges, e, n as real, Some(g)) <==>
        a != b && dx * dx + dy * dy <= (if span == 0.0 then 1.0 else span) * 144.0 / n as real
  {
    CoordinateIs(g.positions, edges[2 * e]);
    CoordinateIs(g.positions, edges[2 * e + 1]);
    hide At, FinitePoint;
  }

  /** An edge to a point that is not there is never fine. */
  lemma DanglingEdges(edges: seq<nat>, e: nat, n: nat, g: Option<Geometry>)
    requires 2 * e + 1 < |edges|
    ensures EdgeOk(edges, e, n as real, g) ==>
      edges[2 * e] < n && edges[2 * e + 1] < n && edges[2 * e] != edges[2 * e + 1]
  {
    hide DistanceSquared, MaxEdgeSquared;
  }

  /** Between one and eighteen thousand edges, two points each, on a cloud of fifteen hundred points or more. */
  lemma EdgeCounts(enc: Encoded, g: Option<Geometry>)
    ensures EdgeContract(enc, g) <==>
      (enc.edgeCount.None? && enc.edges.Absent?) ||
      (enc.edges.Decoded? && enc.edgeEncodingOk && enc.pointCount >= 1500.0 &&
       exists n: nat :: EdgesListed(enc, g, n))
  {
    hide EdgeOk;
    if enc.edges.Decoded? {
      forall n: nat ensures EdgesAre(enc, g, n) <==> EdgesListed(enc, g, n) {
      }
    }
  }

  ghost predicate EdgesListed(enc: Encoded, g: Option<Geometry>, n: nat)
    requires enc.edges.Decoded?
  {
    1 <= n <= 18000 && |enc.edges.data| == 2 * n && enc.edgeCount == Some(n as real) &&
    forall e :: 0 <= e < n ==> EdgeOk(enc.edges.data, e, enc.pointCount, g)
  }
}
