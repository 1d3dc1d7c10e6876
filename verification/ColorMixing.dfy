/** Colours, and the arithmetic of `mixSrgb`, `compositeOver` and `contrastRatio` over the reals. */
module ColorMixing {
  import opened Text

  // ----- Products and quotients, named so that proofs can treat them as single terms

  function Mul(x: real, y: real): real { x * y }

  function Div(x: real, y: real): real
    requires y != 0.0
  {
    x / y
  }

  lemma MulLaws(x: real, y: real, z: real)
    ensures Mul(x, y) == Mul(y, x) && Mul(x, 1.0) == x && Mul(x, 0.0) == 0.0
    ensures Mul(x + y, z) == Mul(x, z) + Mul(y, z)
  {
  }

  lemma MulOrder(x: real, y: real, factor: real)
    requires factor >= 0.0
    ensures x <= y ==> Mul(x, factor) <= Mul(y, factor)
    ensures x < y && factor > 0.0 ==> Mul(x, factor) < Mul(y, factor)
  {
  }

  lemma DivMul(x: real, y: real)
    requires y > 0.0
    ensures Mul(Div(x, y), y) == x
  {
  }

  lemma Quotient(x: real, y: real, low: real, high: real)
    requires y > 0.0 && Mul(low, y) <= x <= Mul(high, y)
    ensures low <= Div(x, y) <= high
  {
    hide Mul, Div;
    DivMul(x, y);
    MulOrder(high, Div(x, y), y);
    MulOrder(Div(x, y), low, y);
  }

  lemma Product(w: real, x: real, bound: real)
    requires 0.0 <= w && 0.0 <= x <= bound
    ensures 0.0 <= Mul(w, x) <= Mul(w, bound)
  {
    hide Mul;
    MulOrder(0.0, x, w);
    MulOrder(x, bound, w);
    MulLaws(w, x, 0.0);
    MulLaws(w, bound, 0.0);
    MulLaws(w, 0.0, 0.0);
  }

  // ----- Mixing

  datatype Rgba = Rgba(r: real, g: real, b: real, a: real)

  predicate InGamut(c: Rgba) {
    0.0 <= c.r <= 255.0 && 0.0 <= c.g <= 255.0 && 0.0 <= c.b <= 255.0 && 0.0 <= c.a <= 1.0
  }

  /** A percentage as the syntax allows it: absent, or not negative. */
  predicate IsPercent(p: Option<real>) { p.Some? ==> p.value >= 0.0 }

  function Max(x: real, y: real): real { if x < y then y else x }

  function Min(x: real, y: real): real { if x < y then x else y }

  /** The weight of a component: its own percentage, or what the other one leaves of 100. */
  function Share(own: Option<real>, other: Option<real>): (p: real)
    requires IsPercent(own)
    ensures p >= 0.0
  {
    match own
    case Some(p) => p
    case None => if other.None? then 50.0 else Max(0.0, 100.0 - other.value)
  }

  function Weigh(w1: real, x: real, w2: real, y: real): real { Mul(w1, x) + Mul(w2, y) }

  function MixChannel(x: real, w1: real, y: real, w2: real): real {
    if w1 + w2 > 0.0 then Div(Weigh(w1, x, w2, y), w1 + w2) else 0.0
  }

  /** The mix for weights that add up to one; `scale` is what the percentages leave of full alpha. */
  function MixWeighted(a: Rgba, w1: real, b: Rgba, w2: real, scale: real): Rgba {
    Rgba(MixChannel(a.r, Mul(w1, a.a), b.r, Mul(w2, b.a)),
         MixChannel(a.g, Mul(w1, a.a), b.g, Mul(w2, b.a)),
         MixChannel(a.b, Mul(w1, a.a), b.b, Mul(w2, b.a)),
         Mul(Weigh(w1, a.a, w2, b.a), scale))
  }

  function MixSrgb(a: Rgba, pa: Option<real>, b: Rgba, pb: Option<real>): Rgba
    requires IsPercent(pa) && IsPercent(pb)
  {
    var p1, p2 := Share(pa, pb), Share(pb, pa);
    var total := p1 + p2;
    if total == 0.0 then Rgba(0.0, 0.0, 0.0, 0.0)
    else MixWeighted(a, Div(p1, total), b, Div(p2, total), Min(1.0, total / 100.0))
  }

  datatype Rgb = Rgb(r: real, g: real, b: real)

  predicate RgbInGamut(c: Rgb) { 0.0 <= c.r <= 255.0 && 0.0 <= c.g <= 255.0 && 0.0 <= c.b <= 255.0 }

  function Blend(x: real, alpha: real, under: real): real { Mul(x, alpha) + Mul(under, 1.0 - alpha) }

  function CompositeOver(c: Rgba, backdrop: Rgb): Rgb {
    Rgb(Blend(c.r, c.a, backdrop.r), Blend(c.g, c.a, backdrop.g), Blend(c.b, c.a, backdrop.b))
  }

  // ----- Mixing and flattening stay in range

  /** The two shares of their total, as fractions. */
  lemma Fractions(p1: real, p2: real)
    requires p1 >= 0.0 && p2 >= 0.0 && p1 + p2 > 0.0
    ensures 0.0 <= Div(p1, p1 + p2) && 0.0 <= Div(p2, p1 + p2)
    ensures Div(p1, p1 + p2) + Div(p2, p1 + p2) == 1.0
  {
    hide Mul, Div;
    var total := p1 + p2;
    var w1, w2 := Div(p1, total), Div(p2, total);
    DivMul(p1, total);
    DivMul(p2, total);
    MulLaws(w1, w2, total);
    MulLaws(total, 0.0, 0.0);
    MulLaws(total, 1.0, 0.0);
    MulLaws(1.0, total, 0.0);
    MulLaws(0.0, total, 0.0);
    MulOrder(w1, 0.0, total);
    MulOrder(w2, 0.0, total);
    MulOrder(w1 + w2, 1.0, total);
    MulOrder(1.0, w1 + w2, total);
  }

  lemma WeightedMean(x: real, w1: real, y: real, w2: real)
    requires w1 >= 0.0 && w2 >= 0.0
    ensures Mul(MixChannel(x, w1, y, w2), w1 + w2) == Weigh(w1, x, w2, y)
    ensures 0.0 <= x <= 255.0 && 0.0 <= y <= 255.0 ==> 0.0 <= MixChannel(x, w1, y, w2) <= 255.0
  {
    hide Mul, Div;
    if w1 + w2 > 0.0 {
      DivMul(Weigh(w1, x, w2, y), w1 + w2);
      if 0.0 <= x <= 255.0 && 0.0 <= y <= 255.0 {
        Product(w1, x, 255.0);
        Product(w2, y, 255.0);
        MulLaws(w1, w2, 255.0);
        MulLaws(w1 + w2, 255.0, 0.0);
        MulLaws(w1 + w2, 0.0, 0.0);
        Quotient(Weigh(w1, x, w2, y), w1 + w2, 0.0, 255.0);
      }
    } else {
      MulLaws(0.0, x, 0.0);
      MulLaws(x, 0.0, 0.0);
      MulLaws(y, 0.0, 0.0);
      MulLaws(0.0, y, 0.0);
    }
  }

  lemma AlphaRange(w1: real, x: real, w2: real, y: real, scale: real)
    requires 0.0 <= w1 && 0.0 <= w2 && w1 + w2 == 1.0
    requires 0.0 <= x <= 1.0 && 0.0 <= y <= 1.0 && 0.0 <= scale <= 1.0
    ensures 0.0 <= Mul(w1, x) && 0.0 <= Mul(w2, y) && 0.0 <= Mul(Weigh(w1, x, w2, y), scale) <= 1.0
  {
    hide Mul;
    Product(w1, x, 1.0);
    Product(w2, y, 1.0);
    MulLaws(w1, 0.0, 0.0);
    MulLaws(w2, 0.0, 0.0);
    Product(Weigh(w1, x, w2, y), scale, 1.0);
    MulLaws(Weigh(w1, x, w2, y), 0.0, 0.0);
  }

  lemma MixInGamut(a: Rgba, pa: Option<real>, b: Rgba, pb: Option<real>)
    requires InGamut(a) && InGamut(b) && IsPercent(pa) && IsPercent(pb)
    ensures InGamut(MixSrgb(a, pa, b, pb))
  {
    hide Mul, Div, MixChannel, Weigh;
    var p1, p2 := Share(pa, pb), Share(pb, pa);
    if p1 + p2 > 0.0 {
      Fractions(p1, p2);
      var w1, w2 := Div(p1, p1 + p2), Div(p2, p1 + p2);
      AlphaRange(w1, a.a, w2, b.a, Min(1.0, (p1 + p2) / 100.0));
      WeightedMean(a.r, Mul(w1, a.a), b.r, Mul(w2, b.a));
      WeightedMean(a.g, Mul(w1, a.a), b.g, Mul(w2, b.a));
      WeightedMean(a.b, Mul(w1, a.a), b.b, Mul(w2, b.a));
    }
  }

  lemma CompositeInGamut(c: Rgba, backdrop: Rgb)
    requires InGamut(c) && RgbInGamut(backdrop)
    ensures RgbInGamut(CompositeOver(c, backdrop))
  {
    hide Blend;
    BlendRange(c.r, c.a, backdrop.r);
    BlendRange(c.g, c.a, backdrop.g);
    BlendRange(c.b, c.a, backdrop.b);
  }

  lemma BlendRange(x: real, alpha: real, under: real)
    requires 0.0 <= x <= 255.0 && 0.0 <= alpha <= 1.0 && 0.0 <= under <= 255.0
    ensures 0.0 <= Blend(x, alpha, under) <= 255.0
  {
    hide Mul;
    MulLaws(x, alpha, 0.0);
    MulLaws(under, 1.0 - alpha, 0.0);
    Product(alpha, x, 255.0);
    Product(1.0 - alpha, under, 255.0);
    MulLaws(alpha, 1.0 - alpha, 255.0);
    MulLaws(255.0, 1.0, 0.0);
    MulLaws(1.0, 255.0, 0.0);
  }

  // ----- What mixing computes, in plain arithmetic

  /** The percentage a component counts for: its own, half when neither has one, or what the other leaves of 100. */
  predicate CountsFor(own: Option<real>, other: Option<real>, p: real) {
    if own.Some? then p == own.value
    else if other.None? then p == 50.0
    else if other.value <= 100.0 then p == 100.0 - other.value
    else p == 0.0
  }

  /** The channel `m` of a mix: the mean of the two channels by percentage and alpha. */
  predicate MeanOf(m: real, p1: real, a1: real, x: real, p2: real, a2: real, y: real) {
    if p1 * a1 + p2 * a2 > 0.0 then m * (p1 * a1 + p2 * a2) == p1 * a1 * x + p2 * a2 * y else m == 0.0
  }

  /** The alpha of a mix: the mean of the two by percentage, and short by what percentages under 100 leave out. */
  predicate AlphaOf(alpha: real, p1: real, a1: real, p2: real, a2: real) {
    if p1 + p2 >= 100.0 then alpha * (p1 + p2) == p1 * a1 + p2 * a2 else alpha * 100.0 == p1 * a1 + p2 * a2
  }

  /**
   * The mix of `a` by `p1` percent and `b` by `p2`: each channel is the mean by percentage and alpha, and alpha that
   * by percentage.
   */
  lemma MixIs(a: Rgba, pa: Option<real>, b: Rgba, pb: Option<real>, p1: real, p2: real)
    requires IsPercent(pa) && IsPercent(pb) && CountsFor(pa, pb, p1) && CountsFor(pb, pa, p2)
    requires 0.0 <= a.a <= 1.0 && 0.0 <= b.a <= 1.0
    ensures var m, s := MixSrgb(a, pa, b, pb), p1 + p2;
      if s == 0.0 then m == Rgba(0.0, 0.0, 0.0, 0.0)
      else
        s > 0.0 && MeanOf(m.r, p1, a.a, a.r, p2, b.a, b.r) && MeanOf(m.g, p1, a.a, a.g, p2, b.a, b.g) &&
        MeanOf(m.b, p1, a.a, a.b, p2, b.a, b.b) && AlphaOf(m.a, p1, a.a, p2, b.a)
  {
    hide Mul, Div, MixChannel, Weigh, MeanOf, AlphaOf;
    var s := p1 + p2;
    assert Share(pa, pb) == p1 && Share(pb, pa) == p2;
    if s > 0.0 {
      var w1, w2 := Div(p1, s), Div(p2, s);
      DivMul(p1, s);
      DivMul(p2, s);
      ChannelIs(p1, a.a, a.r, p2, b.a, b.r, s, w1, w2);
      ChannelIs(p1, a.a, a.g, p2, b.a, b.g, s, w1, w2);
      ChannelIs(p1, a.a, a.b, p2, b.a, b.b, s, w1, w2);
      AlphaIs(p1, a.a, p2, b.a, s, w1, w2);
    }
  }

  lemma ChannelIs(p1: real, a1: real, x: real, p2: real, a2: real, y: real, s: real, w1: real, w2: real)
    requires s > 0.0 && Mul(w1, s) == p1 && Mul(w2, s) == p2 && p1 >= 0.0 && p2 >= 0.0 && a1 >= 0.0 && a2 >= 0.0
    ensures MeanOf(MixChannel(x, Mul(w1, a1), y, Mul(w2, a2)), p1, a1, x, p2, a2, y)
  {
    var under := w1 * a1 + w2 * a2;
    var m := MixChannel(x, Mul(w1, a1), y, Mul(w2, a2));
    assert under * s == p1 * a1 + p2 * a2;
    assert under > 0.0 <==> under * s > 0.0;
    if under > 0.0 {
      assert m * under == w1 * a1 * x + w2 * a2 * y;
      assert m * (under * s) == (w1 * a1 * x + w2 * a2 * y) * s;
    }
  }

  lemma AlphaIs(p1: real, a1: real, p2: real, a2: real, s: real, w1: real, w2: real)
    requires s == p1 + p2 > 0.0 && Mul(w1, s) == p1 && Mul(w2, s) == p2
    ensures AlphaOf(Mul(Weigh(w1, a1, w2, a2), Min(1.0, s / 100.0)), p1, a1, p2, a2)
  {
    var under := w1 * a1 + w2 * a2;
    assert under * s == p1 * a1 + p2 * a2;
    if s < 100.0 {
      assert under * (s / 100.0) * 100.0 == under * s;
    }
  }

  /** `p` parts of `x` and `q` parts of `y`. */
  function Parts(p: real, x: real, q: real, y: real): real
    requires p + q > 0.0
  {
    (p * x + q * y) / (p + q)
  }

  /** The opaque colour in proportion `p` to `q`, with the alpha of that mix. */
  predicate InProportion(m: Rgba, p: real, a: Rgba, q: real, b: Rgba)
    requires p + q > 0.0
  {
    m.r == Parts(p, a.r, q, b.r) && m.g == Parts(p, a.g, q, b.g) && m.b == Parts(p, a.b, q, b.b) &&
    m.a == if p + q >= 100.0 then 1.0 else (p + q) / 100.0
  }

  /** Two opaque colours mix in the proportion of their percentages. */
  lemma OpaqueProportion(a: Rgba, pa: Option<real>, b: Rgba, pb: Option<real>, p: real, q: real)
    requires a.a == 1.0 && b.a == 1.0 && p >= 0.0 && q >= 0.0 && p + q > 0.0
    requires IsPercent(pa) && IsPercent(pb) && CountsFor(pa, pb, p) && CountsFor(pb, pa, q)
    ensures InProportion(MixSrgb(a, pa, b, pb), p, a, q, b)
  {
    hide MixSrgb, MeanOf, AlphaOf, Parts;
    MixIs(a, pa, b, pb, p, q);
    var m := MixSrgb(a, pa, b, pb);
    OpaqueMean(m.r, p, a.r, q, b.r);
    OpaqueMean(m.g, p, a.g, q, b.g);
    OpaqueMean(m.b, p, a.b, q, b.b);
    OpaqueAlpha(m.a, p, q);
  }

  lemma OpaqueMean(m: real, p: real, x: real, q: real, y: real)
    requires p + q > 0.0 && MeanOf(m, p, 1.0, x, q, 1.0, y)
    ensures m == Parts(p, x, q, y)
  {
    Divided(m, p + q, p * x + q * y);
  }

  lemma OpaqueAlpha(alpha: real, p: real, q: real)
    requires p + q > 0.0 && AlphaOf(alpha, p, 1.0, q, 1.0)
    ensures alpha == if p + q >= 100.0 then 1.0 else (p + q) / 100.0
  {
    if p + q >= 100.0 {
      Divided(alpha, p + q, p + q);
      Divided(1.0, p + q, p + q);
    }
  }

  /** `color-mix(in srgb, #000 90%, #fff)` is a dark grey, and `color-mix(in srgb, #000, #fff)` the middle one. */
  lemma GreyMix()
    ensures var black, white := Rgba(0.0, 0.0, 0.0, 1.0), Rgba(255.0, 255.0, 255.0, 1.0);
      MixSrgb(black, Some(90.0), white, None) == Rgba(25.5, 25.5, 25.5, 1.0) &&
      MixSrgb(black, None, white, None) == Rgba(127.5, 127.5, 127.5, 1.0)
  {
  }

  lemma Divided(m: real, s: real, u: real)
    requires s > 0.0 && m * s == u
    ensures m == u / s
  {
  }

  // ----- Laws of mixing

  lemma MixSymmetric(a: Rgba, pa: Option<real>, b: Rgba, pb: Option<real>)
    requires IsPercent(pa) && IsPercent(pb)
    ensures MixSrgb(a, pa, b, pb) == MixSrgb(b, pb, a, pa)
  {
    hide Mul, Div;
  }

  /**
   * Flattening commutes with mixing: the flattened mix is the mix of the two flattened colours, with
   * the backdrop itself showing through in proportion to what the percentages leave of 100.
   */
  lemma FlattenMix(a: Rgba, w1: real, b: Rgba, w2: real, scale: real, backdrop: Rgb)
    requires w1 >= 0.0 && w2 >= 0.0 && w1 + w2 == 1.0 && a.a >= 0.0 && b.a >= 0.0
    ensures var x, y := CompositeOver(a, backdrop), CompositeOver(b, backdrop);
            CompositeOver(MixWeighted(a, w1, b, w2, scale), backdrop) ==
            Rgb(Blend(Weigh(w1, x.r, w2, y.r), scale, backdrop.r),
                Blend(Weigh(w1, x.g, w2, y.g), scale, backdrop.g),
                Blend(Weigh(w1, x.b, w2, y.b), scale, backdrop.b))
  {
    hide Mul, MixChannel, Blend, Weigh;
    FlattenChannel(a.r, a.a, b.r, b.a, w1, w2, scale, backdrop.r);
    FlattenChannel(a.g, a.a, b.g, b.a, w1, w2, scale, backdrop.g);
    FlattenChannel(a.b, a.a, b.b, b.a, w1, w2, scale, backdrop.b);
  }

  lemma FlattenChannel(x: real, xa: real, y: real, ya: real, w1: real, w2: real, scale: real, under: real)
    requires w1 >= 0.0 && w2 >= 0.0 && w1 + w2 == 1.0 && xa >= 0.0 && ya >= 0.0
    ensures Blend(MixChannel(x, Mul(w1, xa), y, Mul(w2, ya)), Mul(Weigh(w1, xa, w2, ya), scale), under) ==
            Blend(Weigh(w1, Blend(x, xa, under), w2, Blend(y, ya, under)), scale, under)
  {
    var m := MixChannel(x, Mul(w1, xa), y, Mul(w2, ya));
    assert Mul(w1, xa) >= 0.0 && Mul(w2, ya) >= 0.0 by { Product(w1, xa, xa); Product(w2, ya, ya); }
    WeightedMean(x, Mul(w1, xa), y, Mul(w2, ya));
    hide MixChannel, Blend;
    var alpha := Weigh(w1, xa, w2, ya);
    assert m * alpha == w1 * xa * x + w2 * ya * y;
    hide Mul, Weigh;
    FlattenIdentity(m, alpha, x, xa, y, ya, w1, w2, scale, under);
  }

  lemma FlattenIdentity(m: real, alpha: real, x: real, xa: real, y: real, ya: real,
                        w1: real, w2: real, scale: real, under: real)
    requires alpha == Weigh(w1, xa, w2, ya) && m * alpha == w1 * xa * x + w2 * ya * y && w1 + w2 == 1.0
    ensures Blend(m, Mul(alpha, scale), under) ==
            Blend(Weigh(w1, Blend(x, xa, under), w2, Blend(y, ya, under)), scale, under)
  {
    var mean := Weigh(w1, Blend(x, xa, under), w2, Blend(y, ya, under));
    assert mean == m * alpha + under * (1.0 - alpha) by {
      assert w1 * (x * xa + under * (1.0 - xa)) + w2 * (y * ya + under * (1.0 - ya)) ==
             w1 * xa * x + w2 * ya * y + under * (w1 + w2 - alpha);
    }
    hide Weigh;
    BlendScaled(m, alpha, mean, scale, under);
  }

  lemma BlendScaled(m: real, alpha: real, mean: real, scale: real, under: real)
    requires mean == m * alpha + under * (1.0 - alpha)
    ensures Blend(m, Mul(alpha, scale), under) == Blend(mean, scale, under)
  {
    assert m * (alpha * scale) == (m * alpha) * scale;
    assert under * (alpha * scale) == (under * alpha) * scale;
  }

  lemma BlendEnds(c: Rgba, backdrop: Rgb)
    ensures c.a == 1.0 ==> CompositeOver(c, backdrop) == Rgb(c.r, c.g, c.b)
    ensures c.a == 0.0 ==> CompositeOver(c, backdrop) == backdrop
  {
  }

  /** `color-mix(in srgb, A N%, transparent)` over a backdrop paints `color-mix(in srgb, A N%, backdrop)`. */
  lemma TransparentMixIsBackdropMix(a: Rgba, n: real, backdrop: Rgb)
    requires a.a == 1.0 && n >= 0.0
    ensures var clear, under := Rgba(0.0, 0.0, 0.0, 0.0), Rgba(backdrop.r, backdrop.g, backdrop.b, 1.0);
            var mixed := MixSrgb(a, Some(n), under, None);
            mixed.a == 1.0 &&
            CompositeOver(MixSrgb(a, Some(n), clear, None), backdrop) == Rgb(mixed.r, mixed.g, mixed.b)
  {
    hide Mul, Div, MixChannel, Blend;
    var clear, under := Rgba(0.0, 0.0, 0.0, 0.0), Rgba(backdrop.r, backdrop.g, backdrop.b, 1.0);
    var p1, p2 := n, Max(0.0, 100.0 - n);
    var w1, w2 := Div(p1, p1 + p2), Div(p2, p1 + p2);
    Fractions(p1, p2);
    FlattenMix(a, w1, clear, w2, 1.0, backdrop);
    FlattenMix(a, w1, under, w2, 1.0, backdrop);
    BlendEnds(clear, backdrop);
    BlendEnds(under, backdrop);
    MulLaws(w1, 0.0, 0.0);
    MulLaws(w2, 0.0, 0.0);
    MulLaws(1.0, 0.0, 0.0);
    BlendEnds(MixWeighted(a, w1, under, w2, 1.0), backdrop);
  }

  // ----- Contrast

  /** The 2.4 power, of which only its mapping the unit interval into itself is used. */
  ghost predicate UnitMap(power: real -> real) {
    forall x: real :: 0.0 <= x <= 1.0 ==> 0.0 <= power(x) <= 1.0
  }

  function LinearChannel(channel: real, power: real -> real): real {
    var n := channel / 255.0;
    if n <= 0.03928 then n / 12.92 else power((n + 0.055) / 1.055)
  }

  function RelativeLuminance(c: Rgb, power: real -> real): real {
    0.2126 * LinearChannel(c.r, power) + 0.7152 * LinearChannel(c.g, power) + 0.0722 * LinearChannel(c.b, power)
  }

  function ContrastRatio(x: Rgb, y: Rgb, power: real -> real): real
    requires UnitMap(power) && RgbInGamut(x) && RgbInGamut(y)
  {
    LuminanceInUnit(x, power);
    LuminanceInUnit(y, power);
    var lx, ly := RelativeLuminance(x, power), RelativeLuminance(y, power);
    Div(Max(lx, ly) + 0.05, Min(lx, ly) + 0.05)
  }

  /** Red, green and blue at full strength, black, and the straight piece of the curve, up to channel 10. */
  lemma LuminanceOfPure(power: real -> real, c: Rgb)
    ensures RelativeLuminance(Rgb(255.0, 0.0, 0.0), power) == 0.2126 * power(1.0)
    ensures RelativeLuminance(Rgb(0.0, 255.0, 0.0), power) == 0.7152 * power(1.0)
    ensures RelativeLuminance(Rgb(0.0, 0.0, 255.0), power) == 0.0722 * power(1.0)
    ensures RelativeLuminance(Rgb(0.0, 0.0, 0.0), power) == 0.0
    ensures c.r <= 10.0 && c.g <= 10.0 && c.b <= 10.0 ==>
      RelativeLuminance(c, power) * 255.0 * 12.92 == 0.2126 * c.r + 0.7152 * c.g + 0.0722 * c.b
    ensures c.r == c.g == c.b && c.r * 1000.0 > 255.0 * 39.28 ==>
      RelativeLuminance(c, power) == power((c.r + 255.0 * 0.055) / (255.0 * 1.055))
  {
    assert (1.0 + 0.055) / 1.055 == 1.0;
    if c.r == c.g == c.b {
      assert (c.r / 255.0 + 0.055) / 1.055 == (c.r + 255.0 * 0.055) / (255.0 * 1.055);
    }
  }

  /** With a power that fixes 1: pure red on black, and black on white. */
  lemma ContrastOfPure(power: real -> real)
    requires UnitMap(power) && power(1.0) == 1.0
    ensures ContrastRatio(Rgb(255.0, 0.0, 0.0), Rgb(0.0, 0.0, 0.0), power) == 5.252
    ensures ContrastRatio(Rgb(0.0, 0.0, 0.0), Rgb(255.0, 255.0, 255.0), power) == 21.0
  {
    LuminanceOfPure(power, Rgb(255.0, 255.0, 255.0));
  }

  lemma ChannelInUnit(channel: real, power: real -> real)
    requires UnitMap(power) && 0.0 <= channel <= 255.0
    ensures 0.0 <= LinearChannel(channel, power) <= 1.0
  {
  }

  lemma LuminanceInUnit(c: Rgb, power: real -> real)
    requires UnitMap(power) && RgbInGamut(c)
    ensures 0.0 <= RelativeLuminance(c, power) <= 1.0
  {
    ChannelInUnit(c.r, power);
    ChannelInUnit(c.g, power);
    ChannelInUnit(c.b, power);
  }

  /** The ratio is symmetric, lies between 1 and 21, and is 1 exactly for equal luminances. */
  lemma ContrastRatioRange(x: Rgb, y: Rgb, power: real -> real)
    requires UnitMap(power) && RgbInGamut(x) && RgbInGamut(y)
    ensures ContrastRatio(x, y, power) == ContrastRatio(y, x, power)
    ensures 1.0 <= ContrastRatio(x, y, power) <= 21.0
    ensures ContrastRatio(x, y, power) == 1.0 <==> RelativeLuminance(x, power) == RelativeLuminance(y, power)
  {
    LuminanceInUnit(x, power);
    LuminanceInUnit(y, power);
    var lx, ly := RelativeLuminance(x, power), RelativeLuminance(y, power);
    RatioRange(Max(lx, ly) + 0.05, Min(lx, ly) + 0.05);
  }

  lemma TwentyOne(bottom: real)
    requires bottom >= 0.05
    ensures Mul(21.0, bottom) >= 1.05
  {
  }

  lemma RatioRange(top: real, bottom: real)
    requires 0.05 <= bottom <= top <= 1.05
    ensures 1.0 <= Div(top, bottom) <= 21.0 && (Div(top, bottom) == 1.0 <==> top == bottom)
  {
    hide Div, Mul;
    assert Mul(1.0, bottom) == bottom by { MulLaws(bottom, 1.0, 0.0); MulLaws(1.0, bottom, 0.0); }
    assert Mul(21.0, bottom) >= 1.05 by { TwentyOne(bottom); }
    Quotient(top, bottom, 1.0, 21.0);
    DivMul(top, bottom);
    if top == bottom {
      MulOrder(1.0, Div(top, bottom), bottom);
      MulOrder(Div(top, bottom), 1.0, bottom);
    }
  }
}
