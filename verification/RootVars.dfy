/** `extractRootCssVars`: reading the custom properties of the first `:root` block. */
module RootVars {
  import opened Text

  type Vars = map<string, string>

  datatype RootError = MissingRootBlock

  predicate IsNameChar(c: char) { 'a' <= Lower(c) <= 'z' || IsDigit(c) || c == '-' }

  predicate IsName(s: string) { s != [] && forall i :: 0 <= i < |s| ==> IsNameChar(s[i]) }

  /** Length of the longest prefix made of name characters. */
  function NameRun(s: string): (n: nat)
    ensures n <= |s|
    ensures forall i :: 0 <= i < n ==> IsNameChar(s[i])
    ensures n < |s| ==> !IsNameChar(s[n])
  {
    if s == [] || !IsNameChar(s[0]) then 0 else 1 + NameRun(s[1..])
  }

  datatype Declaration = Declaration(name: string, value: string)

  /** A declaration at the very start of `s`, with what follows its semicolon. */
  function MatchHead(s: string): (r: Option<(Declaration, string)>)
    ensures r.Some? ==> |r.value.1| < |s|
  {
    if !StartsWith(s, "--") then None
    else
      var name := s[2..][..NameRun(s[2..])];
      if name == "" || 2 + |name| >= |s| || s[2 + |name|] != ':' then None
      else
        var body := s[3 + |name|..];
        var end := IndexOf(body, ';');
        if end < 1 then None else Some((Declaration(name, Trim(body[..end])), body[end + 1..]))
  }

  /** All declarations of `s`, leftmost first. */
  function Declarations(s: string): seq<Declaration>
    decreases |s|
  {
    if s == [] then []
    else match MatchHead(s)
      case Some((d, rest)) => [d] + Declarations(rest)
      case None => Declarations(s[1..])
  }

  /** What a run of assignments leaves: the last value given to each name. */
  function Assigned(declarations: seq<Declaration>, vars: Vars): Vars {
    if declarations == [] then vars
    else Assigned(declarations[1..], vars[declarations[0].name := declarations[0].value])
  }

  /** First position of `pattern` in `s`, or -1. */
  function Find(s: string, pattern: string): (i: int)
    ensures -1 <= i
    ensures i >= 0 ==> i + |pattern| <= |s| && s[i..i + |pattern|] == pattern
  {
    if StartsWith(s, pattern) then 0
    else if s == [] then -1
    else
      var i := Find(s[1..], pattern);
      if i < 0 then -1 else i + 1
  }

  /** The text between the first `:root{` and the first line that starts with `}`. */
  function RootBlock(css: string): Result<string, RootError> {
    var open := Find(css, ":root{");
    if open < 0 then Err(MissingRootBlock)
    else
      var rest := css[open + 6..];
      var close := Find(rest, "\n}");
      if close < 0 then Err(MissingRootBlock) else Ok(rest[..close])
  }

  function RootVarsOf(css: string): Result<Vars, RootError> {
    match RootBlock(css)
    case Err(e) => Err(e)
    case Ok(block) => Ok(Assigned(Declarations(block), map[]))
  }

  method ExtractRootCssVars(css: string) returns (r: Result<Vars, RootError>)
    ensures r == RootVarsOf(css)
  {
    var root := RootBlock(css);
    if root.Err? {
      return Err(root.error);
    }
    var rest, vars := root.value, map[];
    while rest != []
      invariant Assigned(Declarations(rest), vars) == Assigned(Declarations(root.value), map[])
      decreases |rest|
    {
      var found := MatchHead(rest);
      if found.Some? {
        var (d, tail) := found.value;
        assert Declarations(rest) == [d] + Declarations(tail);
        vars := vars[d.name := d.value];
        rest := tail;
      } else {
        rest := rest[1..];
      }
    }
    r := Ok(vars);
  }

  // ----- Printing a `:root` block and reading it back

  function Line(d: Declaration): string { "  --" + d.name + ": " + d.value + ";" }

  function Lines(ds: seq<Declaration>): (r: seq<string>)
    ensures |r| == |ds|
  {
    if ds == [] then [] else [Line(ds[0])] + Lines(ds[1..])
  }

  function RootCss(lines: seq<string>): string { Join([":root{"] + lines + ["}"], "\n") }

  /** Names over the readable alphabet; values that a declaration can carry unchanged. */
  predicate Printable(d: Declaration) {
    IsName(d.name) && d.value != [] && Trimmed(d.value) &&
    forall i :: 0 <= i < |d.value| ==> d.value[i] != ';' && d.value[i] != '}'
  }

  predicate AllPrintable(ds: seq<Declaration>) { forall i :: 0 <= i < |ds| ==> Printable(ds[i]) }

  function Block(ds: seq<Declaration>): string {
    if ds == [] then "" else "\n" + Line(ds[0]) + Block(ds[1..])
  }

  lemma {:induction false} JoinLines(head: string, ds: seq<Declaration>)
    ensures Join([head] + Lines(ds) + ["}"], "\n") == head + Block(ds) + "\n}"
    decreases |ds|
  {
    hide Line;
    var parts := [head] + Lines(ds) + ["}"];
    if ds == [] {
      assert parts == [head, "}"];
      assert parts[1..] == ["}"];
      assert head + Block(ds) == head;
    } else {
      var line, rest := Line(ds[0]), [Line(ds[0])] + Lines(ds[1..]) + ["}"];
      JoinLines(line, ds[1..]);
      assert parts[1..] == rest;
      assert head + "\n" + (line + Block(ds[1..]) + "\n}") == head + ("\n" + line + Block(ds[1..])) + "\n}";
    }
  }

  lemma NameRunOf(name: string, rest: string)
    requires IsName(name) && rest != [] && !IsNameChar(rest[0])
    ensures NameRun(name + rest) == |name|
  {
    var s := name + rest;
    assert s[|name|] == rest[0];
    assert forall i :: 0 <= i < |name| ==> s[i] == name[i];
  }

  lemma ValueEnds(value: string, rest: string)
    requires forall i :: 0 <= i < |value| ==> value[i] != ';'
    ensures var body := " " + value + ";" + rest;
      IndexOf(body, ';') == |value| + 1 && body[..|value| + 1] == " " + value && body[|value| + 2..] == rest
  {
    var written := " " + value;
    var body := written + ";" + rest;
    assert forall i :: 0 <= i < |written| ==> body[i] == written[i];
    assert body[|written|] == ';';
  }

  lemma TrimWritten(value: string)
    requires Trimmed(value)
    ensures Trim(" " + value) == value
  {
    TrimPadded(" ", value, "");
    assert " " + value + "" == " " + value;
  }

  lemma MatchLine(d: Declaration, rest: string)
    requires Printable(d)
    ensures MatchHead("--" + d.name + ": " + d.value + ";" + rest) == Some((d, rest))
  {
    hide NameRun, IndexOf, Trim, Trimmed;
    var s := "--" + d.name + ": " + d.value + ";" + rest;
    var tail := ": " + d.value + ";" + rest;
    assert s[2..] == d.name + tail;
    NameRunOf(d.name, tail);
    assert s[2..][..|d.name|] == d.name;
    assert s[3 + |d.name|..] == " " + d.value + ";" + rest;
    ValueEnds(d.value, rest);
    TrimWritten(d.value);
  }

  /** A printed line, and what follows it, without the line break and indentation. */
  lemma LineText(d: Declaration, rest: string)
    ensures "\n" + Line(d) + rest == "\n" + (" " + (" " + ("--" + d.name + ": " + d.value + ";" + rest)))
  {
  }

  lemma {:induction false} DeclarationsOfBlock(ds: seq<Declaration>)
    requires AllPrintable(ds)
    ensures Declarations(Block(ds)) == ds
  {
    if ds != [] {
      hide MatchHead, Line;
      var rest := Block(ds[1..]);
      var text := "--" + ds[0].name + ": " + ds[0].value + ";" + rest;
      LineText(ds[0], rest);
      SkipBlank("\n", " " + (" " + text));
      SkipBlank(" ", " " + text);
      SkipBlank(" ", text);
      MatchLine(ds[0], rest);
      DeclarationsOfBlock(ds[1..]);
    }
  }

  lemma SkipBlank(blank: string, s: string)
    requires |blank| == 1 && blank[0] != '-'
    ensures Declarations(blank + s) == Declarations(s)
  {
    assert (blank + s)[1..] == s;
    assert MatchHead(blank + s) == None;
  }

  /** The block never holds a line break followed by `}`. */
  lemma {:induction false} NoEarlyClose(ds: seq<Declaration>, after: string)
    requires AllPrintable(ds)
    ensures Find(Block(ds) + ("\n}" + after), "\n}") == |Block(ds)|
  {
    hide Line, Find, Printable;
    var end := "\n}" + after;
    if ds == [] {
      assert Block(ds) + end == end;
      FindHere(after);
    } else {
      var line, rest := "\n" + Line(ds[0]), Block(ds[1..]) + end;
      assert Printable(ds[0]);
      LineHasNoBrace(ds[0]);
      NoEarlyClose(ds[1..], after);
      assert Block(ds) + end == line + rest;
      assert rest[0] == '\n';
      FindAfter(line, rest);
    }
  }

  lemma FindHere(after: string)
    ensures Find("\n}" + after, "\n}") == 0
  {
  }

  lemma LineHasNoBrace(d: Declaration)
    requires Printable(d)
    ensures forall i :: 0 <= i < |"\n" + Line(d)| ==> ("\n" + Line(d))[i] != '}'
  {
    var line := "\n" + Line(d);
    assert line == "\n  --" + d.name + ": " + d.value + ";";
    forall i | 0 <= i < |line| ensures line[i] != '}' {
      if 5 <= i < 5 + |d.name| {
        assert line[i] == d.name[i - 5];
      } else if 7 + |d.name| <= i < 7 + |d.name| + |d.value| {
        assert line[i] == d.value[i - 7 - |d.name|];
      }
    }
  }

  /** Text without `}` hides no `\n}` as long as what follows does not start with `}`. */
  lemma {:induction false} FindAfter(s: string, rest: string)
    requires forall i :: 0 <= i < |s| ==> s[i] != '}'
    requires rest != [] && rest[0] != '}' && Find(rest, "\n}") >= 0
    ensures Find(s + rest, "\n}") == |s| + Find(rest, "\n}")
  {
    if s == [] {
      assert s + rest == rest;
    } else {
      assert (s + rest)[1..] == s[1..] + rest;
      assert (s + rest)[1] == (if |s| > 1 then s[1] else rest[0]);
      FindAfter(s[1..], rest);
    }
  }

  /** What is appended to a document does not move the first occurrence. */
  lemma {:induction false} FindExtends(s: string, after: string, pattern: string)
    requires Find(s, pattern) >= 0 && pattern != []
    ensures Find(s + after, pattern) == Find(s, pattern)
  {
    assert StartsWith(s, pattern) ==> StartsWith(s + after, pattern);
    if !StartsWith(s, pattern) {
      assert (s + after)[1..] == s[1..] + after;
      var i := Find(s, pattern);
      assert (s + after)[..|pattern|] == s[..|pattern|];
      FindExtends(s[1..], after, pattern);
    }
  }

  lemma BlockBetween(before: string, block: string, tail: string)
    requires Find(before + ":root{", ":root{") == |before|
    requires Find(block + tail, "\n}") == |block|
    ensures RootBlock((before + ":root{") + (block + tail)) == Ok(block)
  {
    hide Find;
    var css := (before + ":root{") + (block + tail);
    FindExtends(before + ":root{", block + tail, ":root{");
    assert css[|before| + 6..] == block + tail;
    assert (block + tail)[..|block|] == block;
  }

  lemma BlockOfDocument(ds: seq<Declaration>, before: string, after: string)
    requires AllPrintable(ds) && Find(before + ":root{", ":root{") == |before|
    ensures RootBlock(before + ":root{" + Block(ds) + "\n}" + after) == Ok(Block(ds))
  {
    hide Find, Block, RootBlock;
    var block := Block(ds);
    NoEarlyClose(ds, after);
    BlockBetween(before, block, "\n}" + after);
    assert before + ":root{" + block + "\n}" + after == (before + ":root{") + (block + ("\n}" + after));
  }

  /**
   * Round trip: a printed block, in a document that has no earlier one, reads back as exactly the
   * printed declarations, in order.
   */
  lemma PrintThenRead(ds: seq<Declaration>, before: string, after: string)
    requires AllPrintable(ds) && Find(before + ":root{", ":root{") == |before|
    ensures var css := before + RootCss(Lines(ds)) + after;
            RootBlock(css) == Ok(Block(ds)) && Declarations(Block(ds)) == ds &&
            RootVarsOf(css) == Ok(Assigned(ds, map[]))
  {
    hide Declarations, Lines, Find, Block, Join, RootBlock;
    JoinLines(":root{", ds);
    var css := before + RootCss(Lines(ds)) + after;
    assert css == before + ":root{" + Block(ds) + "\n}" + after;
    BlockOfDocument(ds, before, after);
    DeclarationsOfBlock(ds);
  }

  /** With distinct names, the map read back holds each printed pair and nothing else. */
  lemma {:induction false} AssignedDistinct(ds: seq<Declaration>, vars: Vars)
    requires forall i, j :: 0 <= i < j < |ds| ==> ds[i].name != ds[j].name
    requires forall i :: 0 <= i < |ds| ==> ds[i].name !in vars
    ensures forall name :: name in Assigned(ds, vars) <==>
      name in vars || exists i :: 0 <= i < |ds| && ds[i].name == name
    ensures forall i :: 0 <= i < |ds| ==>
      ds[i].name in Assigned(ds, vars) && Assigned(ds, vars)[ds[i].name] == ds[i].value
    ensures forall name :: name in vars ==> name in Assigned(ds, vars) && Assigned(ds, vars)[name] == vars[name]
  {
    if ds != [] {
      var next := vars[ds[0].name := ds[0].value];
      AssignedDistinct(ds[1..], next);
      forall i | 0 <= i < |ds|
        ensures ds[i].name in Assigned(ds, vars) && Assigned(ds, vars)[ds[i].name] == ds[i].value
      {
        if i > 0 { assert ds[i] == ds[1..][i - 1]; } else { assert ds[0].name in next; }
      }
    }
  }
}
