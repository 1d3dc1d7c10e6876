/** Colour expressions as trees, their printed form, and the proof that reading back is evaluation. */
module ColorPrinting {
  import opened Text
  import opened TopLevelSplit
  import opened ColorMixing
  import opened RootVars
  import opened VarResolution
  import opened ColorExpression

  datatype Tree =
    | Hex(text: string)
    | Transparent
    | Var(name: string, fallback: Option<Tree>)
    | Mix(first: Tree, firstPercent: Option<string>, second: Tree, secondPercent: Option<string>)

  /** Neither white space nor one of the three characters that structure an expression. */
  predicate IsPlain(s: string) {
    forall i :: 0 <= i < |s| ==> s[i] != '(' && s[i] != ')' && s[i] != ','
  }

  predicate WellFormed(t: Tree) {
    match t
    case Hex(text) => IsHexColor(text)
    case Transparent => true
    case Var(name, fallback) => IsPlain(name) && NoSpaces(name) && (fallback.Some? ==> WellFormed(fallback.value))
    case Mix(a, pa, b, pb) =>
      WellFormed(a) && WellFormed(b) && (pa.Some? ==> IsDecimal(pa.value)) && (pb.Some? ==> IsDecimal(pb.value))
  }

  function Print(t: Tree): string {
    match t
    case Hex(text) => text
    case Transparent => "transparent"
    case Var(name, fallback) =>
      Call("var", VarArguments(name, if fallback.None? then None else Some(Print(fallback.value))))
    case Mix(a, pa, b, pb) => Call("color-mix", MixArguments(Component(Print(a), pa), Component(Print(b), pb)))
  }

  function MixArguments(first: string, second: string): string {
    "in srgb" + "," + (" " + first) + "," + (" " + second)
  }

  function Call(name: string, arguments: string): string { name + "(" + arguments + ")" }

  function VarArguments(name: string, fallback: Option<string>): string {
    if fallback.None? then "--" + name else "--" + name + "," + (" " + fallback.value)
  }

  function Component(color: string, percent: Option<string>): string {
    if percent.None? then color else color + " " + percent.value + "%"
  }

  // ----- The meaning of a tree, read off the tree

  type Env = map<string, Tree>

  function PercentValue(p: Option<string>): (r: Option<real>)
    requires p.Some? ==> IsDecimal(p.value)
    ensures IsPercent(r)
  {
    if p.None? then None else Some(DecimalValue(p.value))
  }

  predicate WellFormedEnv(env: Env) { forall name :: name in env ==> WellFormed(env[name]) }

  function Eval(t: Tree, env: Env, seen: set<string>): Resolution
    requires WellFormed(t) && WellFormedEnv(env)
    decreases |env.Keys - seen|, t
  {
    match t
    case Hex(text) => Ok(HexColor(text))
    case Transparent => Ok(Rgba(0.0, 0.0, 0.0, 0.0))
    case Mix(a, pa, b, pb) =>
      MixResolved(Eval(a, env, seen), PercentValue(pa), Eval(b, env, seen), PercentValue(pb))
    case Var(name, fallback) =>
      if name in seen then Err(CyclicVar(name))
      else if name in env then
        VisitShrinks(env.Keys, seen, name);
        Eval(env[name], env, seen + {name})
      else if fallback.Some? then Eval(fallback.value, env, seen)
      else Err(MissingVar(name))
  }

  function PrintEnv(env: Env): Vars { map name | name in env :: Print(env[name]) }

  // ----- Printed text is balanced

  lemma {:induction false} ReadThrough(x: string, y: string, depth: int)
    ensures DepthAfter(x + y, depth) == DepthAfter(y, DepthAfter(x, depth))
    ensures Uncut(x + y, depth, ',') <==> Uncut(x, depth, ',') && Uncut(y, DepthAfter(x, depth), ',')
  {
    if x == [] {
      assert x + y == y;
    } else {
      assert (x + y)[1..] == x[1..] + y;
      ReadThrough(x[1..], y, Bump(x[0], depth));
    }
  }

  lemma {:induction false} PlainIsBalanced(s: string, depth: int)
    requires IsPlain(s)
    ensures Balanced(s, depth)
  {
    if s != [] {
      PlainIsBalanced(s[1..], depth);
    }
  }

  /** Read from `depth`, the text comes back to `depth` and is not cut on the way. */
  predicate Balanced(s: string, depth: int) { DepthAfter(s, depth) == depth && Uncut(s, depth, ',') }

  lemma BalancedConcat(x: string, y: string, depth: int)
    requires Balanced(x, depth) && Balanced(y, depth)
    ensures Balanced(x + y, depth)
  {
    ReadThrough(x, y, depth);
  }

  lemma BalancedCall(name: string, arguments: string, depth: nat)
    requires IsPlain(name) && Balanced(arguments, depth + 1)
    ensures Balanced(Call(name, arguments), depth)
  {
    PlainIsBalanced(name, depth);
    ReadThrough(name, "(", depth);
    ReadThrough(name + "(", arguments, depth);
    ReadThrough(name + "(" + arguments, ")", depth);
  }

  lemma BalancedList(x: string, y: string, depth: nat)
    requires depth > 0 && Balanced(x, depth) && Balanced(y, depth)
    ensures Balanced(x + "," + y, depth)
  {
    BalancedConcat(x, ",", depth);
    BalancedConcat(x + ",", y, depth);
  }

  lemma BalancedSpaced(x: string, depth: int)
    requires Balanced(x, depth)
    ensures Balanced(" " + x, depth)
  {
    PlainIsBalanced(" ", depth);
    BalancedConcat(" ", x, depth);
  }

  lemma DecimalIsPlain(p: string)
    requires IsDecimal(p)
    ensures p != [] && IsPlain(p) && NoSpaces(p)
  {
    var dot := IndexOf(p, '.');
    if dot >= 0 {
      assert p == p[..dot] + "." + p[dot + 1..];
    }
  }

  lemma VarCallBalanced(name: string, fallback: Option<string>, depth: nat)
    requires IsPlain(name) && (fallback.Some? ==> Balanced(fallback.value, depth + 1))
    ensures Balanced(Call("var", VarArguments(name, fallback)), depth)
  {
    hide Balanced, Call;
    PlainIsBalanced("--" + name, depth + 1);
    if fallback.Some? {
      BalancedSpaced(fallback.value, depth + 1);
      BalancedList("--" + name, " " + fallback.value, depth + 1);
    }
    BalancedCall("var", VarArguments(name, fallback), depth);
  }

  lemma MixCallBalanced(x: string, y: string, depth: nat)
    requires Balanced(x, depth + 1) && Balanced(y, depth + 1)
    ensures Balanced(Call("color-mix", MixArguments(x, y)), depth)
  {
    hide Balanced, Call;
    PlainIsBalanced("in srgb", depth + 1);
    BalancedSpaced(x, depth + 1);
    BalancedSpaced(y, depth + 1);
    BalancedList("in srgb", " " + x, depth + 1);
    BalancedList("in srgb" + "," + (" " + x), " " + y, depth + 1);
    BalancedCall("color-mix", MixArguments(x, y), depth);
  }

  lemma {:induction false} PrintBalanced(t: Tree, depth: nat)
    requires WellFormed(t)
    ensures Balanced(Print(t), depth)
    decreases t, 0
  {
    hide Balanced, Call, VarArguments, MixArguments, Component;
    match t
    case Hex(text) => PlainIsBalanced(text, depth);
    case Transparent => PlainIsBalanced("transparent", depth);
    case Var(name, fallback) =>
      if fallback.None? {
        VarCallBalanced(name, None, depth);
      } else {
        PrintBalanced(fallback.value, depth + 1);
        VarCallBalanced(name, Some(Print(fallback.value)), depth);
      }
    case Mix(a, pa, b, pb) =>
      ComponentBalanced(a, pa, depth + 1);
      ComponentBalanced(b, pb, depth + 1);
      MixCallBalanced(Component(Print(a), pa), Component(Print(b), pb), depth);
  }

  lemma {:induction false} ComponentBalanced(t: Tree, percent: Option<string>, depth: nat)
    requires WellFormed(t) && (percent.Some? ==> IsDecimal(percent.value))
    ensures Balanced(Component(Print(t), percent), depth)
    decreases t, 1
  {
    hide Balanced, Print;
    PrintBalanced(t, depth);
    if percent.Some? {
      DecimalIsPlain(percent.value);
      PlainIsBalanced(" ", depth);
      PlainIsBalanced(percent.value, depth);
      PlainIsBalanced("%", depth);
      BalancedConcat(Print(t), " ", depth);
      BalancedConcat(Print(t) + " ", percent.value, depth);
      BalancedConcat(Print(t) + " " + percent.value, "%", depth);
    }
  }

  // ----- Reading one level of printed text

  /** Printed text starts and ends with something other than white space, and not with a percentage. */
  lemma PrintEnds(t: Tree)
    requires WellFormed(t)
    ensures Print(t) != [] && Trimmed(Print(t)) && Print(t)[|Print(t)| - 1] != '%'
  {
    match t
    case Hex(text) => assert IsHexDigit(text[|text| - 1]);
    case _ =>
  }

  lemma LastSpaceAt(s: string, k: nat)
    requires k < |s| && IsSpace(s[k]) && forall i :: k < i < |s| ==> !IsSpace(s[i])
    ensures LastSpace(s) == k
  {
  }

  lemma BodyRead(color: string, percent: string)
    requires percent != [] && NoSpaces(percent)
    ensures var body := color + " " + percent;
      LastSpace(body) == |color| && body[|color| + 1..] == percent && body[..|color|] == color
  {
    var body := color + " " + percent;
    assert body[|color|] == ' ';
    forall i | |color| < i < |body| ensures !IsSpace(body[i]) {
      assert body[i] == percent[i - |color| - 1];
    }
    LastSpaceAt(body, |color|);
  }

  lemma ComponentTrimmed(color: string, percent: Option<string>)
    requires color != [] && Trimmed(color)
    ensures Trimmed(Component(color, percent))
  {
    if percent.Some? {
      var s := Component(color, percent);
      assert s[0] == color[0] && s[|s| - 1] == '%';
    }
  }

  lemma ComponentRead(color: string, percent: Option<string>)
    requires color != [] && Trimmed(color) && color[|color| - 1] != '%'
    requires percent.Some? ==> IsDecimal(percent.value)
    ensures Trimmed(Component(color, percent))
    ensures SplitColorAndPercentage(Component(color, percent)) == (color, PercentValue(percent))
  {
    hide Trim, DecimalValue, IsDecimal, LastSpace, Trimmed;
    var s := Component(color, percent);
    TrimSpaced(color);
    ComponentTrimmed(color, percent);
    TrimSpaced(s);
    if percent.Some? {
      DecimalIsPlain(percent.value);
      BodyRead(color, percent.value);
      assert s[..|s| - 1] == color + " " + percent.value && s[|s| - 1] == '%';
    }
  }

  lemma InnerOfCall(name: string, arguments: string)
    requires IsPlain(name)
    ensures Inner(Call(name, arguments)) == arguments
  {
    var s := Call(name, arguments);
    assert s[|name|] == '(' && s[|s| - 1] == ')';
    assert IndexOf(s, '(') == |name|;
    assert LastIndexOf(s, ')') == |s| - 1;
    assert s[|name| + 1..|s| - 1] == arguments;
  }

  lemma TrimSpaced(s: string)
    requires Trimmed(s)
    ensures Trim(" " + s) == s && Trim(s) == s
  {
    TrimPadded(" ", s, "");
    TrimPadded("", s, "");
    assert " " + s + "" == " " + s && "" + s + "" == s;
  }

  lemma SplitOne(x: string)
    requires Balanced(x, 0)
    ensures SplitTop(x, ',') == [Trim(x)]
  {
    UncutIsWhole(x, ',');
  }

  lemma SplitTwo(x: string, y: string)
    requires Balanced(x, 0) && Balanced(y, 0)
    ensures SplitTop(x + "," + y, ',') == [Trim(x), Trim(y)]
  {
    SplitAtSeparator(x, y, ',');
    UncutIsWhole(y, ',');
    assert ([x] + [y])[1..] == [y];
  }

  lemma SplitThree(x: string, y: string, z: string)
    requires Balanced(x, 0) && Balanced(y, 0) && Balanced(z, 0)
    ensures SplitTop(x + "," + y + "," + z, ',') == [Trim(x), Trim(y), Trim(z)]
  {
    assert x + "," + y + "," + z == x + "," + (y + "," + z);
    SplitAtSeparator(x, y + "," + z, ',');
    SplitAtSeparator(y, z, ',');
    UncutIsWhole(z, ',');
    assert RawSplit(x + "," + y + "," + z, 0, ',') == [x, y, z];
    assert [x, y, z][1..] == [y, z] && [y, z][1..] == [z];
  }

  /** The one level of structure that printing put at the outside. */
  function OuterForm(t: Tree): Form
    requires WellFormed(t)
  {
    match t
    case Hex(text) => Solid(HexColor(text))
    case Transparent => Clear
    case Var(name, fallback) => Reference(name, if fallback.None? then None else Some(Print(fallback.value)))
    case Mix(a, pa, b, pb) => Mixture(Print(a), PercentValue(pa), Print(b), PercentValue(pb))
  }

  lemma ReadVar(name: string, fallback: Option<Tree>)
    requires WellFormed(Var(name, fallback))
    ensures ParseVar(Print(Var(name, fallback))) == Ok(OuterForm(Var(name, fallback)))
  {
    hide Inner, SplitTop, Trim;
    var written := "--" + name;
    PlainIsBalanced(written, 0);
    TrimSpaced(written);
    assert written[2..] == name;
    if fallback.None? {
      InnerOfCall("var", VarArguments(name, None));
      SplitOne(written);
    } else {
      var rest := Print(fallback.value);
      InnerOfCall("var", VarArguments(name, Some(rest)));
      PrintBalanced(fallback.value, 0);
      BalancedSpaced(rest, 0);
      PrintEnds(fallback.value);
      TrimSpaced(rest);
      SplitTwo(written, " " + rest);
      assert [written, rest][1..] == [rest];
    }
  }

  lemma SplitMixArguments(a: Tree, pa: Option<string>, b: Tree, pb: Option<string>)
    requires WellFormed(Mix(a, pa, b, pb))
    ensures var x, y := Component(Print(a), pa), Component(Print(b), pb);
            SplitTop(MixArguments(x, y), ',') == ["in srgb", x, y]
    ensures SplitColorAndPercentage(Component(Print(a), pa)) == (Print(a), PercentValue(pa))
    ensures SplitColorAndPercentage(Component(Print(b), pb)) == (Print(b), PercentValue(pb))
  {
    hide SplitTop, Trim, Component, SplitColorAndPercentage, Print;
    var x, y := Component(Print(a), pa), Component(Print(b), pb);
    PlainIsBalanced("in srgb", 0);
    ComponentBalanced(a, pa, 0);
    ComponentBalanced(b, pb, 0);
    BalancedSpaced(x, 0);
    BalancedSpaced(y, 0);
    PrintEnds(a);
    PrintEnds(b);
    ComponentRead(Print(a), pa);
    ComponentRead(Print(b), pb);
    TrimSpaced(x);
    TrimSpaced(y);
    TrimSpaced("in srgb");
    SplitThree("in srgb", " " + x, " " + y);
  }

  lemma SrgbSpace()
    ensures IsSrgbSpace("in srgb") && Trim("in srgb") == "in srgb"
  {
    TrimSpaced("in srgb");
  }

  lemma MixParses(x: string, y: string, first: (string, Option<real>), second: (string, Option<real>))
    requires SplitTop(MixArguments(x, y), ',') == ["in srgb", x, y]
    requires SplitColorAndPercentage(x) == first && SplitColorAndPercentage(y) == second
    ensures ParseColorMix(Call("color-mix", MixArguments(x, y))) == Ok(Mixture(first.0, first.1, second.0, second.1))
  {
    hide Inner, SplitTop, Trim, SplitColorAndPercentage, IsSrgbSpace, MixArguments, Call;
    InnerOfCall("color-mix", MixArguments(x, y));
    SrgbSpace();
  }

  lemma MixPrinted(a: Tree, pa: Option<string>, b: Tree, pb: Option<string>)
    requires WellFormed(Mix(a, pa, b, pb))
    ensures pa.Some? ==> IsDecimal(pa.value)
    ensures pb.Some? ==> IsDecimal(pb.value)
    ensures Print(Mix(a, pa, b, pb)) ==
      Call("color-mix", MixArguments(Component(Print(a), pa), Component(Print(b), pb)))
    ensures OuterForm(Mix(a, pa, b, pb)) == Mixture(Print(a), PercentValue(pa), Print(b), PercentValue(pb))
  {
    hide IsDecimal, Component, MixArguments, Call;
  }

  lemma ReadMix(a: Tree, pa: Option<string>, b: Tree, pb: Option<string>)
    requires WellFormed(Mix(a, pa, b, pb))
    ensures ParseColorMix(Print(Mix(a, pa, b, pb))) == Ok(OuterForm(Mix(a, pa, b, pb)))
  {
    hide *;
    MixPrinted(a, pa, b, pb);
    SplitMixArguments(a, pa, b, pb);
    MixParses(Component(Print(a), pa), Component(Print(b), pb),
              (Print(a), PercentValue(pa)), (Print(b), PercentValue(pb)));
  }

  /** The keyword in front decides which form is read. */
  lemma DispatchVar(arguments: string)
    ensures var s := Call("var", arguments); Trim(s) == s ==> ParseColor(s) == ParseVar(s)
  {
    hide Trim, ParseVar, ParseColorMix;
    var s := Call("var", arguments);
    assert s[0] == 'v' && s[1] == 'a' && s[2] == 'r' && s[3] == '(';
    assert Lower(s[0]) != Lower("transparent"[0]);
    assert StartsWithIgnoreCase(s, "var(");
  }

  lemma DispatchMix(arguments: string)
    ensures var s := Call("color-mix", arguments); Trim(s) == s ==> ParseColor(s) == ParseColorMix(s)
  {
    hide Trim, ParseVar, ParseColorMix;
    var s := Call("color-mix", arguments);
    assert s[..10] == "color-mix(";
    assert s[0] == 'c';
    assert Lower(s[0]) != Lower("transparent"[0]) && Lower(s[0]) != Lower("var("[0]);
    assert StartsWithIgnoreCase(s, "color-mix(") by { SamePrefix(s, "color-mix("); }
  }

  lemma SamePrefix(s: string, prefix: string)
    requires |prefix| <= |s| && s[..|prefix|] == prefix
    ensures StartsWithIgnoreCase(s, prefix)
  {
    forall i | 0 <= i < |prefix| ensures s[i] == prefix[i] {
      assert s[i] == s[..|prefix|][i];
    }
  }

  lemma ReadPrinted(t: Tree)
    requires WellFormed(t)
    ensures ParseColor(Print(t)) == Ok(OuterForm(t))
  {
    PrintEnds(t);
    TrimSpaced(Print(t));
    match t
    case Var(name, fallback) =>
      hide ParseColor, ParseVar, Trim, Call, VarArguments;
      ReadVar(name, fallback);
      DispatchVar(VarArguments(name, if fallback.None? then None else Some(Print(fallback.value))));
    case Mix(a, pa, b, pb) =>
      hide ParseColor, ParseColorMix, Trim, Call, MixArguments, Component;
      ReadMix(a, pa, b, pb);
      DispatchMix(MixArguments(Component(Print(a), pa), Component(Print(b), pb)));
    case Hex(text) =>
      hide ParseVar, ParseColorMix, Trim, HexColor;
      assert text[0] == '#' && Lower(text[0]) != Lower("transparent"[0]);
    case Transparent =>
      hide ParseVar, ParseColorMix, Trim;
  }

  /** Printing a tree and resolving the text, against printed variables, evaluates the tree. */
  lemma {:induction false} ResolvePrinted(t: Tree, env: Env, seen: set<string>)
    requires WellFormed(t) && WellFormedEnv(env)
    ensures ResolveRgba(Print(t), PrintEnv(env), seen) == Eval(t, env, seen)
    decreases |env.Keys - seen|, t
  {
    hide ParseColor, Print, MixSrgb;
    ReadPrinted(t);
    match t
    case Mix(a, pa, b, pb) =>
      ResolvePrinted(a, env, seen);
      ResolvePrinted(b, env, seen);
    case Var(name, fallback) =>
      if name in env && name !in seen {
        VisitShrinks(env.Keys, seen, name);
        ResolvePrinted(env[name], env, seen + {name});
      } else if fallback.Some? {
        ResolvePrinted(fallback.value, env, seen);
      }
    case _ =>
  }
}
