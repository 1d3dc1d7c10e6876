/** The CSS colour syntax that `resolveRgba` reads, one level at a time. */
module ColorExpression {
  import opened Text
  import opened TopLevelSplit
  import opened ColorMixing
  import opened RootVars
  import opened VarResolution

  // ----- Lexical pieces

  predicate IsHexDigit(c: char) { IsDigit(c) || 'a' <= Lower(c) <= 'f' }

  function HexDigit(c: char): (n: nat)
    requires IsHexDigit(c)
    ensures n < 16
  {
    if IsDigit(c) then (c - '0') as nat else (Lower(c) - 'a') as nat + 10
  }

  /** `#` and three or six hexadecimal digits. */
  predicate IsHexColor(s: string) {
    (|s| == 4 || |s| == 7) && s[0] == '#' && forall i :: 1 <= i < |s| ==> IsHexDigit(s[i])
  }

  function Channel(high: char, low: char): (x: real)
    requires IsHexDigit(high) && IsHexDigit(low)
    ensures 0.0 <= x <= 255.0
  {
    (16 * HexDigit(high) + HexDigit(low)) as real
  }

  function HexColor(s: string): (c: Rgba)
    requires IsHexColor(s)
    ensures InGamut(c) && c.a == 1.0
  {
    if |s| == 4 then Rgba(Channel(s[1], s[1]), Channel(s[2], s[2]), Channel(s[3], s[3]), 1.0)
    else Rgba(Channel(s[1], s[2]), Channel(s[3], s[4]), Channel(s[5], s[6]), 1.0)
  }

  function HexChar(n: nat, upper: bool): (c: char)
    requires n < 16
    ensures IsHexDigit(c) && HexDigit(c) == n
  {
    if n < 10 then '0' + n as char else if upper then 'A' + (n - 10) as char else 'a' + (n - 10) as char
  }

  function PrintHex(r: nat, g: nat, b: nat, upper: bool): string
    requires r < 256 && g < 256 && b < 256
  {
    [ '#', HexChar(r / 16, upper), HexChar(r % 16, upper), HexChar(g / 16, upper), HexChar(g % 16, upper),
      HexChar(b / 16, upper), HexChar(b % 16, upper)]
  }

  /** Six digits, in either case, are the three channels they print; three digits are those digits doubled. */
  lemma HexColorReads(r: nat, g: nat, b: nat, upper: bool, short: string)
    requires r < 256 && g < 256 && b < 256
    ensures var s := PrintHex(r, g, b, upper);
      IsHexColor(s) && HexColor(s) == Rgba(r as real, g as real, b as real, 1.0)
    ensures IsHexColor(short) && |short| == 4 ==>
      var long := ['#', short[1], short[1], short[2], short[2], short[3], short[3]];
      IsHexColor(long) && HexColor(short) == HexColor(long)
  {
    hide HexDigit, IsHexDigit, HexChar;
  }

  /** Digits, optionally followed by a point and more digits. */
  predicate IsDecimal(s: string) {
    var dot := IndexOf(s, '.');
    if dot < 0 then s != [] && AllDigits(s)
    else dot > 0 && AllDigits(s[..dot]) && dot + 1 < |s| && AllDigits(s[dot + 1..])
  }

  function DigitsValue(s: string): (n: nat)
    requires AllDigits(s)
  {
    if s == [] then 0 else 10 * DigitsValue(s[..|s| - 1]) + (s[|s| - 1] - '0') as nat
  }

  function Scale(places: nat): (r: real)
    ensures r >= 1.0
  {
    if places == 0 then 1.0 else 10.0 * Scale(places - 1)
  }

  function DecimalValue(s: string): (x: real)
    requires IsDecimal(s)
    ensures x >= 0.0
  {
    var dot := IndexOf(s, '.');
    if dot < 0 then DigitsValue(s) as real
    else DigitsValue(s[..dot]) as real + DigitsValue(s[dot + 1..]) as real / Scale(|s| - dot - 1)
  }

  function DigitChar(n: nat): (c: char)
    requires n < 10
    ensures IsDigit(c) && c - '0' == n as char
  {
    '0' + n as char
  }

  function PrintNat(n: nat): string {
    if n < 10 then [DigitChar(n)] else PrintNat(n / 10) + [DigitChar(n % 10)]
  }

  function TenTo(places: nat): (r: nat)
    ensures r >= 1
  {
    if places == 0 then 1 else 10 * TenTo(places - 1)
  }

  /** `n` with so many digits, zeros in front. */
  function PrintPlaces(n: nat, places: nat): (s: string)
    requires n < TenTo(places)
    ensures |s| == places
  {
    if places == 0 then "" else PrintPlaces(n / 10, places - 1) + [DigitChar(n % 10)]
  }

  lemma DigitsOneMore(s: string, n: nat)
    requires AllDigits(s) && n < 10
    ensures AllDigits(s + [DigitChar(n)]) && DigitsValue(s + [DigitChar(n)]) == 10 * DigitsValue(s) + n
  {
    var t := s + [DigitChar(n)];
    assert t[..|t| - 1] == s;
  }

  lemma {:induction false} NatReads(n: nat)
    ensures PrintNat(n) != [] && AllDigits(PrintNat(n)) && DigitsValue(PrintNat(n)) == n
  {
    if n < 10 {
      DigitsOneMore("", n);
      assert "" + [DigitChar(n)] == PrintNat(n);
    } else {
      NatReads(n / 10);
      DigitsOneMore(PrintNat(n / 10), n % 10);
    }
  }

  lemma {:induction false} PlacesRead(n: nat, places: nat)
    requires n < TenTo(places)
    ensures AllDigits(PrintPlaces(n, places)) && DigitsValue(PrintPlaces(n, places)) == n
  {
    if places > 0 {
      PlacesRead(n / 10, places - 1);
      DigitsOneMore(PrintPlaces(n / 10, places - 1), n % 10);
    }
  }

  lemma {:induction false} ScaleIsTenTo(places: nat)
    ensures Scale(places) == TenTo(places) as real
  {
    if places > 0 {
      ScaleIsTenTo(places - 1);
    }
  }

  lemma NoDot(s: string)
    requires AllDigits(s)
    ensures IndexOf(s, '.') < 0
  {
  }

  /** A printed decimal is read as what it prints: a whole number, or one with digits after the point. */
  lemma DecimalReads(n: nat, f: nat, places: nat)
    requires places > 0 && f < TenTo(places)
    ensures IsDecimal(PrintNat(n)) && DecimalValue(PrintNat(n)) == n as real
    ensures var s := PrintNat(n) + "." + PrintPlaces(f, places);
      IsDecimal(s) && DecimalValue(s) == n as real + f as real / TenTo(places) as real
  {
    NatReads(n);
    PlacesRead(f, places);
    ScaleIsTenTo(places);
    hide PrintNat, PrintPlaces, DigitsValue, Scale, TenTo, IsDecimal, DecimalValue;
    WholeValue(PrintNat(n));
    PointValue(PrintNat(n), PrintPlaces(f, places));
  }

  lemma WholeValue(whole: string)
    requires AllDigits(whole) && whole != []
    ensures IsDecimal(whole) && DecimalValue(whole) == DigitsValue(whole) as real
  {
    NoDot(whole);
  }

  lemma PointValue(whole: string, part: string)
    requires AllDigits(whole) && whole != [] && AllDigits(part) && part != []
    ensures var s := whole + "." + part;
      IsDecimal(s) && DecimalValue(s) == DigitsValue(whole) as real + DigitsValue(part) as real / Scale(|part|)
  {
    hide *;
    var s := whole + "." + part;
    DotAt(whole, part);
    CutAtDot(whole, part);
    PointParts(s, |whole|);
  }

  lemma CutAtDot(whole: string, part: string)
    ensures var s := whole + "." + part;
      |s| == |whole| + 1 + |part| && s[..|whole|] == whole && s[|whole| + 1..] == part
  {
  }

  lemma PointParts(s: string, dot: nat)
    requires 0 < dot && dot + 1 < |s| && IndexOf(s, '.') == dot && AllDigits(s[..dot]) && AllDigits(s[dot + 1..])
    ensures IsDecimal(s)
    ensures DecimalValue(s) == DigitsValue(s[..dot]) as real + DigitsValue(s[dot + 1..]) as real / Scale(|s| - dot - 1)
  {
    hide DigitsValue, Scale, IndexOf;
  }

  lemma DotAt(whole: string, part: string)
    requires AllDigits(whole) && whole != []
    ensures IndexOf(whole + "." + part, '.') == |whole|
  {
    var s := whole + "." + part;
    assert s[|whole|] == '.';
    assert forall k :: 0 <= k < |whole| ==> s[k] == whole[k];
  }

  /** Last white-space position, or -1. */
  function LastSpace(s: string): (i: int)
    ensures -1 <= i < |s|
    ensures i >= 0 ==> IsSpace(s[i])
    ensures forall k :: i < k < |s| ==> !IsSpace(s[k])
  {
    if s == [] then -1
    else if IsSpace(s[|s| - 1]) then |s| - 1
    else LastSpace(s[..|s| - 1])
  }

  /**
   * A trailing `<space><decimal>%` is the percentage. Where the run of spaces before the number
   * starts does not matter, because the colour in front of it is trimmed.
   */
  function SplitColorAndPercentage(component: string): (r: (string, Option<real>))
    ensures |r.0| <= |component|
    ensures IsPercent(r.1)
  {
    var t := Trim(component);
    if t == [] || t[|t| - 1] != '%' then (t, None)
    else
      var body := t[..|t| - 1];
      var gap := LastSpace(body);
      if gap < 0 || !IsDecimal(body[gap + 1..]) then (t, None)
      else (Trim(body[..gap]), Some(DecimalValue(body[gap + 1..])))
  }

  predicate IsSrgbSpace(s: string) {
    |s| >= 7 && StartsWithIgnoreCase(s, "in") && AllSpaces(s[2..|s| - 4]) &&
    EqualsIgnoreCase(s[|s| - 4..], "srgb")
  }

  /** What stands between the first `(` and the last `)`; with no `)` the last character is lost. */
  function Inner(value: string): (r: string)
    requires value != []
    ensures |r| < |value|
  {
    Slice(value, IndexOf(value, '(') + 1, LastIndexOf(value, ')'))
  }

  function StripDashes(s: string): string {
    if StartsWith(s, "--") then s[2..] else s
  }

  // ----- One level of parsing

  function ParseVar(value: string): (r: Result<Form, ColorError>)
    requires value != []
    ensures ReadFrom(r, value)
  {
    var parts := SplitTop(Inner(value), ',');
    SplitTopLengths(Inner(value));
    var rawName := Trim(parts[0]);
    if rawName == "" then Err(MalformedVar)
    else
      var fallback := if |parts| > 1 then Trim(Join(parts[1..], ",")) else "";
      Ok(Reference(StripDashes(rawName), if fallback == "" then None else Some(fallback)))
  }

  function ParseColorMix(value: string): (r: Result<Form, ColorError>)
    requires value != []
    ensures ReadFrom(r, value)
  {
    var parts := SplitTop(Inner(value), ',');
    SplitTopLengths(Inner(value));
    if |parts| != 3 then Err(UnsupportedMixForm)
    else if !IsSrgbSpace(Trim(parts[0])) then Err(UnsupportedMixSpace)
    else
      var (a, pa) := SplitColorAndPercentage(parts[1]);
      var (b, pb) := SplitColorAndPercentage(parts[2]);
      Ok(Mixture(a, pa, b, pb))
  }

  function ParseColor(value: string): (r: Result<Form, ColorError>)
    ensures ReadFrom(r, value)
  {
    var t := Trim(value);
    if EqualsIgnoreCase(t, "transparent") then Ok(Clear)
    else if StartsWith(t, "#") then
      if IsHexColor(t) then Ok(Solid(HexColor(t))) else Err(ExpectedHex)
    else if StartsWithIgnoreCase(t, "var(") then ParseVar(t)
    else if StartsWithIgnoreCase(t, "color-mix(") then ParseColorMix(t)
    else Err(UnsupportedValue)
  }

  function ResolveRgba(value: string, vars: Vars, seen: set<string>): Resolution {
    Resolve(ParseColor, value, vars, seen)
  }

  function FlattenOver(c: Rgba, backdrop: Option<Rgb>): Result<Rgb, ColorError> {
    if c.a >= 1.0 then Ok(Rgb(c.r, c.g, c.b))
    else if backdrop.None? then Err(TranslucentColor)
    else Ok(CompositeOver(c, backdrop.value))
  }

  /** An opaque colour: the evaluated one, flattened over the backdrop where it is translucent. */
  function ResolveColor(value: string, vars: Vars, backdrop: Option<Rgb>): Result<Rgb, ColorError> {
    match ResolveRgba(value, vars, {})
    case Err(e) => Err(e)
    case Ok(c) => FlattenOver(c, backdrop)
  }

  /**
   * An opaque colour is itself over anything and over nothing; a translucent one is mixed with what is behind it, in
   * proportion to its alpha, and refused where nothing is.
   */
  lemma FlattenedIs(c: Rgba, b: Rgb)
    ensures c.a == 1.0 ==>
      FlattenOver(c, None) == Ok(Rgb(c.r, c.g, c.b)) && FlattenOver(c, Some(b)) == Ok(Rgb(c.r, c.g, c.b))
    ensures c.a < 1.0 ==>
      FlattenOver(c, None) == Err(TranslucentColor) &&
      FlattenOver(c, Some(b)) == Ok(Rgb(c.r * c.a + b.r * (1.0 - c.a), c.g * c.a + b.g * (1.0 - c.a),
                                        c.b * c.a + b.b * (1.0 - c.a)))
  {
    hide Blend;
    BlendIs(c.r, c.a, b.r);
    BlendIs(c.g, c.a, b.g);
    BlendIs(c.b, c.a, b.b);
  }

  lemma BlendIs(x: real, a: real, y: real)
    ensures Blend(x, a, y) == x * a + y * (1.0 - a)
  {
  }

  lemma FlattenOverInGamut(c: Rgba, backdrop: Option<Rgb>)
    requires InGamut(c) && (backdrop.Some? ==> RgbInGamut(backdrop.value))
    ensures var r := FlattenOver(c, backdrop); r.Ok? ==> RgbInGamut(r.value)
  {
    hide CompositeOver;
    if backdrop.Some? { CompositeInGamut(c, backdrop.value); }
  }

  lemma ResolveColorInGamut(value: string, vars: Vars, backdrop: Option<Rgb>)
    requires backdrop.Some? ==> RgbInGamut(backdrop.value)
    ensures var r := ResolveColor(value, vars, backdrop); r.Ok? ==> RgbInGamut(r.value)
  {
    hide ParseColor, Resolve, FlattenOver, InGamut;
    ResolvedInGamut(ParseColor, value, vars, {});
    var c := ResolveRgba(value, vars, {});
    if c.Ok? { FlattenOverInGamut(c.value, backdrop); }
  }

  const WHITE := Rgb(255.0, 255.0, 255.0)

  /** What is behind everything: the page's own colour, or white. */
  function PageColor(vars: Vars): (r: Result<Rgb, ColorError>)
    ensures r.Ok? ==> RgbInGamut(r.value)
  {
    hide ResolveColor;
    ResolveColorInGamut("var(--color-background)", vars, None);
    if "color-background" in vars then ResolveColor("var(--color-background)", vars, None) else Ok(WHITE)
  }

  /** The ratio of two evaluated colours: the background flattened over the page, the foreground over that. */
  function ContrastOver(page: Rgb, foreground: Rgba, background: Rgba, power: real -> real): (r: real)
    requires UnitMap(power) && RgbInGamut(page) && InGamut(foreground) && InGamut(background)
    ensures 1.0 <= r <= 21.0
  {
    hide ContrastRatio, FlattenOver;
    FlattenOverInGamut(background, Some(page));
    FlattenedOver(background, page);
    var below := FlattenOver(background, Some(page)).value;
    FlattenOverInGamut(foreground, Some(below));
    FlattenedOver(foreground, below);
    var above := FlattenOver(foreground, Some(below)).value;
    ContrastRatioRange(below, above, power);
    ContrastRatio(below, above, power)
  }

  lemma FlattenedOver(c: Rgba, backdrop: Rgb)
    ensures FlattenOver(c, Some(backdrop)).Ok?
  {
    hide CompositeOver;
  }

  /** `colorContrastRatio`: every ratio it returns is a WCAG 2.1 contrast ratio, between 1 and 21. */
  function ColorContrastRatio(foreground: string, background: string, vars: Vars, power: real -> real)
    : (r: Result<real, ColorError>)
    requires UnitMap(power)
    ensures r.Ok? ==> 1.0 <= r.value <= 21.0
  {
    hide *;
    EvaluatedInGamut(background, vars);
    EvaluatedInGamut(foreground, vars);
    var page, below, above := PageColor(vars), ResolveRgba(background, vars, {}), ResolveRgba(foreground, vars, {});
    if page.Err? then Err(page.error)
    else if below.Err? then Err(below.error)
    else if above.Err? then Err(above.error)
    else Ok(ContrastOver(page.value, above.value, below.value, power))
  }

  lemma EvaluatedInGamut(value: string, vars: Vars)
    ensures var c := ResolveRgba(value, vars, {}); c.Ok? ==> InGamut(c.value)
  {
    hide ParseColor, Resolve, InGamut;
    ResolvedInGamut(ParseColor, value, vars, {});
  }

  lemma FlattenedIsComposite(c: Rgba, backdrop: Rgb)
    requires InGamut(c)
    ensures FlattenOver(c, Some(backdrop)) == Ok(CompositeOver(c, backdrop))
    ensures c.a == 1.0 ==> CompositeOver(c, backdrop) == Rgb(c.r, c.g, c.b)
    ensures c.a == 0.0 ==> CompositeOver(c, backdrop) == backdrop
  {
  }

  /**
   * Whatever their translucency, what is compared is the background as it shows over the page and the foreground as it
   * shows over that. So between opaque colours the ratio is that of the two, in either order and over any page; and a
   * background that is fully transparent leaves the page to compare with.
   */
  lemma ContrastOfComposites(page: Rgb, first: Rgba, second: Rgba, power: real -> real)
    requires UnitMap(power) && RgbInGamut(page) && InGamut(first) && InGamut(second)
    ensures var below := CompositeOver(second, page);
      RgbInGamut(below) && RgbInGamut(CompositeOver(first, below)) &&
      ContrastOver(page, first, second, power) == ContrastRatio(below, CompositeOver(first, below), power)
    ensures first.a == 1.0 && second.a == 1.0 ==>
      var ratio := ContrastRatio(Rgb(first.r, first.g, first.b), Rgb(second.r, second.g, second.b), power);
      ContrastOver(page, first, second, power) == ratio && ContrastOver(page, second, first, power) == ratio
    ensures first.a == 1.0 && second.a == 0.0 ==>
      ContrastOver(page, first, second, power) == ContrastRatio(page, Rgb(first.r, first.g, first.b), power)
  {
    hide ContrastRatio, CompositeOver, FlattenOver;
    FlattenedIsComposite(second, page);
    FlattenedIsComposite(first, page);
    CompositeInGamut(second, page);
    CompositeInGamut(first, page);
    var below := CompositeOver(second, page);
    FlattenedIsComposite(first, below);
    CompositeInGamut(first, below);
    if first.a == 1.0 && second.a == 1.0 {
      FlattenedIsComposite(second, CompositeOver(first, page));
      ContrastRatioRange(Rgb(first.r, first.g, first.b), Rgb(second.r, second.g, second.b), power);
    }
  }
}
