/** `splitTopLevel`: cutting a string at the separators that stand outside all parentheses. */
module TopLevelSplit {
  import opened Text

  /** Parenthesis depth after reading `c`; an unmatched `)` takes it below zero. */
  function Bump(c: char, depth: int): int {
    if c == '(' then depth + 1 else if c == ')' then depth - 1 else depth
  }

  function DepthAfter(s: string, depth: int): int {
    if s == [] then depth else DepthAfter(s[1..], Bump(s[0], depth))
  }

  /** No separator of `s` stands at depth zero when `s` is read from `depth`. */
  predicate Uncut(s: string, depth: int, separator: char) {
    s == [] ||
    var next := Bump(s[0], depth);
    !(s[0] == separator && next == 0) && Uncut(s[1..], next, separator)
  }

  function Prepend(x: string, parts: seq<string>): (r: seq<string>)
    requires |parts| >= 1
    ensures |r| == |parts|
  {
    [x + parts[0]] + parts[1..]
  }

  lemma PrependLaws(x: string, y: string, parts: seq<string>)
    requires |parts| >= 1
    ensures Prepend("", parts) == parts
    ensures Prepend(x, Prepend(y, parts)) == Prepend(x + y, parts)
    ensures Prepend(x, [""] + parts) == [x] + parts
  {
    assert "" + parts[0] == parts[0];
    assert x + (y + parts[0]) == (x + y) + parts[0];
    assert x + "" == x;
    assert Prepend(x, Prepend(y, parts))[1..] == parts[1..];
    assert ([""] + parts)[1..] == parts;
  }

  /** The pieces of `s`, read from `depth`, before each is trimmed. */
  function RawSplit(s: string, depth: int, separator: char): (parts: seq<string>)
    ensures |parts| >= 1
  {
    if s == [] then [""]
    else
      var next := Bump(s[0], depth);
      var rest := RawSplit(s[1..], next, separator);
      if s[0] == separator && next == 0 then [""] + rest else Prepend([s[0]], rest)
  }

  function TrimAll(parts: seq<string>): (r: seq<string>)
    ensures |r| == |parts|
    ensures forall i :: 0 <= i < |r| ==> r[i] == Trim(parts[i])
  {
    if parts == [] then [] else [Trim(parts[0])] + TrimAll(parts[1..])
  }

  function SplitTop(value: string, separator: char): (parts: seq<string>)
    ensures |parts| >= 1
  {
    TrimAll(RawSplit(value, 0, separator))
  }

  /** The pieces still to come when `current` is already read and `rest` is not. */
  ghost function Pending(current: string, rest: string, depth: int, separator: char): seq<string> {
    TrimAll(Prepend(current, RawSplit(rest, depth, separator)))
  }

  lemma PendingStep(parts: seq<string>, current: string, rest: string, depth: int, separator: char)
    requires rest != []
    ensures var next := Bump(rest[0], depth);
            parts + Pending(current, rest, depth, separator) ==
            if rest[0] == separator && next == 0
            then parts + [Trim(current)] + Pending("", rest[1..], next, separator)
            else parts + Pending(current + [rest[0]], rest[1..], next, separator)
  {
    var next := Bump(rest[0], depth);
    var pieces := RawSplit(rest[1..], next, separator);
    if rest[0] == separator && next == 0 {
      PrependLaws(current, "", pieces);
      assert ([current] + pieces)[1..] == pieces;
      assert Pending(current, rest, depth, separator) ==
             [Trim(current)] + Pending("", rest[1..], next, separator);
    } else {
      PrependLaws(current, [rest[0]], pieces);
    }
  }

  lemma PendingEnds(value: string, current: string, depth: int, separator: char)
    ensures Pending(current, "", depth, separator) == [Trim(current)]
    ensures Pending("", value, 0, separator) == SplitTop(value, separator)
  {
    PrependLaws("", "", RawSplit(value, 0, separator));
    assert current + "" == current;
    assert Prepend(current, [""]) == [current];
  }

  method SplitTopLevel(value: string, separator: char) returns (parts: seq<string>)
    ensures parts == SplitTop(value, separator)
  {
    ghost var all := SplitTop(value, separator);
    parts := [];
    var depth, current, i := 0, "", 0;
    ghost var rest := value;
    PendingEnds(value, current, depth, separator);
    while i < |value|
      invariant i <= |value| && rest == value[i..]
      invariant all == parts + Pending(current, rest, depth, separator)
    {
      PendingStep(parts, current, rest, depth, separator);
      var c := value[i];
      if c == '(' {
        depth := depth + 1;
      } else if c == ')' {
        depth := depth - 1;
      }
      if c == separator && depth == 0 {
        parts := parts + [Trim(current)];
        current := "";
      } else {
        current := current + [c];
      }
      i, rest := i + 1, rest[1..];
    }
    PendingEnds(value, current, depth, separator);
    parts := parts + [Trim(current)];
  }

  // ----- What the pieces are

  /** `parts` cuts `s` at top-level separators and nowhere else. */
  predicate IsTopLevelCut(parts: seq<string>, s: string, separator: char) {
    |parts| >= 1 && Join(parts, [separator]) == s &&
    (forall i :: 0 <= i < |parts| ==> Uncut(parts[i], 0, separator)) &&
    (forall i :: 0 <= i < |parts| - 1 ==> DepthAfter(parts[i], 0) == 0)
  }

  /** An uncut prefix stays in one piece with what follows it. */
  lemma {:induction false} SplitAfterUncut(x: string, y: string, depth: int, separator: char)
    requires Uncut(x, depth, separator)
    ensures RawSplit(x + y, depth, separator) ==
            Prepend(x, RawSplit(y, DepthAfter(x, depth), separator))
  {
    if x == [] {
      assert x + y == y;
      PrependLaws("", "", RawSplit(y, depth, separator));
    } else {
      assert (x + y)[1..] == x[1..] + y;
      assert [x[0]] + x[1..] == x;
      PrependLaws([x[0]], x[1..], RawSplit(y, DepthAfter(x, depth), separator));
      SplitAfterUncut(x[1..], y, Bump(x[0], depth), separator);
    }
  }

  /** A separator after an uncut prefix that closes what it opened ends the piece. */
  lemma SplitAtSeparator(x: string, y: string, separator: char)
    requires separator != '(' && separator != ')'
    requires Uncut(x, 0, separator) && DepthAfter(x, 0) == 0
    ensures RawSplit(x + [separator] + y, 0, separator) == [x] + RawSplit(y, 0, separator)
  {
    assert x + [separator] + y == x + ([separator] + y);
    assert ([separator] + y)[1..] == y;
    SplitAfterUncut(x, [separator] + y, 0, separator);
    PrependLaws(x, "", RawSplit(y, 0, separator));
  }

  lemma UncutIsWhole(x: string, separator: char)
    requires Uncut(x, 0, separator)
    ensures RawSplit(x, 0, separator) == [x]
  {
    assert x + "" == x;
    SplitAfterUncut(x, "", 0, separator);
  }

  /** The splitter's pieces are the only way to cut `s` at its top-level separators. */
  lemma {:induction false} TopLevelCutUnique(parts: seq<string>, s: string, separator: char)
    requires separator != '(' && separator != ')'
    requires IsTopLevelCut(parts, s, separator)
    ensures RawSplit(s, 0, separator) == parts
  {
    if |parts| == 1 {
      UncutIsWhole(s, separator);
    } else {
      var rest := Join(parts[1..], [separator]);
      assert IsTopLevelCut(parts[1..], rest, separator);
      TopLevelCutUnique(parts[1..], rest, separator);
      SplitAtSeparator(parts[0], rest, separator);
    }
  }

  lemma {:induction false} RawSplitCuts(s: string, depth: int, separator: char)
    requires separator != '(' && separator != ')'
    ensures var parts := RawSplit(s, depth, separator);
            Join(parts, [separator]) == s &&
            Uncut(parts[0], depth, separator) &&
            (|parts| > 1 ==> DepthAfter(parts[0], depth) == 0) &&
            (forall i :: 1 <= i < |parts| ==> Uncut(parts[i], 0, separator)) &&
            (forall i :: 1 <= i < |parts| - 1 ==> DepthAfter(parts[i], 0) == 0)
  {
    if s != [] {
      var next := Bump(s[0], depth);
      var rest := RawSplit(s[1..], next, separator);
      RawSplitCuts(s[1..], next, separator);
      if s[0] == separator && next == 0 {
        assert ([""] + rest)[1..] == rest;
      } else {
        var parts := Prepend([s[0]], rest);
        assert parts[1..] == rest[1..];
        assert parts[0][1..] == rest[0];
      }
    }
  }

  /** Cutting and re-joining loses nothing, and the cut is the unique top-level one. */
  lemma SplitTopLevelExact(parts: seq<string>, s: string, separator: char)
    requires separator != '(' && separator != ')'
    ensures IsTopLevelCut(parts, s, separator) <==> parts == RawSplit(s, 0, separator)
  {
    RawSplitCuts(s, 0, separator);
    if IsTopLevelCut(parts, s, separator) {
      TopLevelCutUnique(parts, s, separator);
    }
  }

  // ----- Lengths, for the termination of the evaluator

  function TotalLength(parts: seq<string>): nat {
    if parts == [] then 0 else |parts[0]| + TotalLength(parts[1..])
  }

  lemma {:induction false} RawSplitLength(s: string, depth: int, separator: char)
    ensures TotalLength(RawSplit(s, depth, separator)) + |RawSplit(s, depth, separator)| == |s| + 1
  {
    if s != [] {
      var next := Bump(s[0], depth);
      var rest := RawSplit(s[1..], next, separator);
      RawSplitLength(s[1..], next, separator);
      assert ([""] + rest)[1..] == rest;
      assert Prepend([s[0]], rest)[1..] == rest[1..];
    }
  }

  lemma {:induction false} TrimAllLength(parts: seq<string>)
    ensures TotalLength(TrimAll(parts)) <= TotalLength(parts)
  {
    if parts != [] {
      TrimAllLength(parts[1..]);
    }
  }

  lemma {:induction false} JoinLength(parts: seq<string>)
    requires |parts| >= 1
    ensures |Join(parts, ",")| == TotalLength(parts) + |parts| - 1
  {
    if |parts| > 1 {
      JoinLength(parts[1..]);
    }
  }

  lemma {:induction false} PartLength(parts: seq<string>, i: nat)
    requires i < |parts|
    ensures |parts[i]| <= TotalLength(parts)
  {
    if i > 0 {
      PartLength(parts[1..], i - 1);
    }
  }

  /** No piece is longer than the whole, nor is a tail of the pieces joined back. */
  lemma SplitTopLengths(s: string)
    ensures var parts := SplitTop(s, ',');
            (forall i :: 0 <= i < |parts| ==> |parts[i]| <= |s|) &&
            (|parts| > 1 ==> |Join(parts[1..], ",")| <= |s|)
  {
    var parts := SplitTop(s, ',');
    RawSplitLength(s, 0, ',');
    TrimAllLength(RawSplit(s, 0, ','));
    forall i | 0 <= i < |parts| ensures |parts[i]| <= |s| { PartLength(parts, i); }
    if |parts| > 1 { JoinLength(parts[1..]); }
  }
}
