/** JavaScript string operations, on the sequences of characters the modelled code handles. */
module Text {

  datatype Option<+T> = None | Some(value: T)

  datatype Result<+T, +E> = Ok(value: T) | Err(error: E)

  /** The characters that `trim` removes and that `\s` matches. */
  predicate IsSpace(c: char) {
    var n := c as int;
    9 <= n <= 13 || n == 32 || n == 0xA0 || n == 0x1680 || 0x2000 <= n <= 0x200A ||
    n == 0x2028 || n == 0x2029 || n == 0x202F || n == 0x205F || n == 0x3000 || n == 0xFEFF
  }

  /** Those 25 characters, named one by one. */
  lemma SpacesAre(c: char)
    ensures IsSpace(c) <==>
      c in {'\t', '\n', '\U{B}', '\U{C}', '\r', ' ', '\U{A0}', '\U{1680}', '\U{2000}', '\U{2001}', '\U{2002}',
            '\U{2003}', '\U{2004}', '\U{2005}', '\U{2006}', '\U{2007}', '\U{2008}', '\U{2009}', '\U{200A}',
            '\U{2028}', '\U{2029}', '\U{202F}', '\U{205F}', '\U{3000}', '\U{FEFF}'}
  {
  }

  predicate IsDigit(c: char) { '0' <= c <= '9' }

  predicate AllSpaces(s: string) { forall i :: 0 <= i < |s| ==> IsSpace(s[i]) }

  predicate NoSpaces(s: string) { forall i :: 0 <= i < |s| ==> !IsSpace(s[i]) }

  predicate AllDigits(s: string) { forall i :: 0 <= i < |s| ==> IsDigit(s[i]) }

  /** No white space at either end: the strings that `trim` leaves alone. */
  predicate Trimmed(s: string) {
    s == [] || (!IsSpace(s[0]) && !IsSpace(s[|s| - 1]))
  }

  function TrimStart(s: string): (r: string)
    ensures |r| <= |s|
    ensures r == [] || (!IsSpace(r[0]) && r[|r| - 1] == s[|s| - 1])
  {
    if s != [] && IsSpace(s[0]) then TrimStart(s[1..]) else s
  }

  function TrimEnd(s: string): (r: string)
    ensures |r| <= |s|
    ensures r == [] || (!IsSpace(r[|r| - 1]) && r[0] == s[0])
  {
    if s != [] && IsSpace(s[|s| - 1]) then TrimEnd(s[..|s| - 1]) else s
  }

  function Trim(s: string): (r: string)
    ensures |r| <= |s| && Trimmed(r)
  {
    TrimEnd(TrimStart(s))
  }

  /** White space around a trimmed string is exactly what `trim` removes. */
  lemma TrimPadded(left: string, s: string, right: string)
    requires AllSpaces(left) && AllSpaces(right) && Trimmed(s)
    ensures Trim(left + s + right) == s
  {
    var core := s + right;
    assert left + s + right == left + core;
    TrimStartPadded(left, core);
    if s == [] {
      assert core == right + [];
      TrimStartPadded(right, []);
    } else {
      assert core[0] == s[0];
      TrimEndPadded(s, right);
    }
  }

  /** Only white space is trimmed to nothing. */
  lemma {:induction false} TrimEmpty(s: string)
    ensures Trim(s) == "" <==> AllSpaces(s)
    decreases |s|
  {
    if s != "" && IsSpace(s[0]) {
      TrimEmpty(s[1..]);
    } else if s != "" {
      TrimEndKeeps(s);
    }
  }

  lemma {:induction false} TrimEndKeeps(s: string)
    requires s != "" && !IsSpace(s[0])
    ensures TrimEnd(s) != ""
  {
    if IsSpace(s[|s| - 1]) {
      TrimEndKeeps(s[..|s| - 1]);
    }
  }

  lemma {:induction false} TrimStartPadded(left: string, s: string)
    requires AllSpaces(left)
    ensures TrimStart(left + s) == TrimStart(s)
  {
    if left == [] {
      assert left + s == s;
    } else {
      assert (left + s)[1..] == left[1..] + s;
      TrimStartPadded(left[1..], s);
    }
  }

  lemma {:induction false} TrimEndPadded(s: string, right: string)
    requires AllSpaces(right) && s != [] && !IsSpace(s[|s| - 1])
    ensures TrimEnd(s + right) == s
  {
    if right == [] {
      assert s + right == s;
    } else {
      assert (s + right)[..|s + right| - 1] == s + right[..|right| - 1];
      TrimEndPadded(s, right[..|right| - 1]);
    }
  }

  /** ASCII case folding: what the `i` flag does to the ASCII patterns used here. */
  function Lower(c: char): char {
    if 'A' <= c <= 'Z' then c - 'A' + 'a' else c
  }

  /** The 26 capitals become the small letters in their places, and nothing else changes. */
  lemma LowerIs(c: char)
    ensures (exists i :: 0 <= i < 26 && c == "ABCDEFGHIJKLMNOPQRSTUVWXYZ"[i]) ==>
      exists i :: 0 <= i < 26 && c == "ABCDEFGHIJKLMNOPQRSTUVWXYZ"[i] && Lower(c) == "abcdefghijklmnopqrstuvwxyz"[i]
    ensures (forall i :: 0 <= i < 26 ==> c != "ABCDEFGHIJKLMNOPQRSTUVWXYZ"[i]) ==> Lower(c) == c
  {
    if 'A' <= c <= 'Z' {
      var i := (c - 'A') as int;
      LetterAt(i);
    }
  }

  lemma LetterAt(i: int)
    requires 0 <= i < 26
    ensures "ABCDEFGHIJKLMNOPQRSTUVWXYZ"[i] == 'A' + i as char && "abcdefghijklmnopqrstuvwxyz"[i] == 'a' + i as char
  {
  }

  /** `s.toLowerCase()`, on ASCII. */
  function LowerAll(s: string): string { if s == [] then "" else [Lower(s[0])] + LowerAll(s[1..]) }

  predicate StartsWithIgnoreCase(s: string, prefix: string) {
    |prefix| <= |s| && forall i :: 0 <= i < |prefix| ==> Lower(s[i]) == Lower(prefix[i])
  }

  predicate EqualsIgnoreCase(s: string, t: string) {
    |s| == |t| && StartsWithIgnoreCase(s, t)
  }

  predicate StartsWith(s: string, prefix: string) { prefix <= s }

  /** First index of `c`, or -1. */
  function IndexOf(s: string, c: char): (i: int)
    ensures -1 <= i < |s|
    ensures i >= 0 ==> s[i] == c
    ensures forall k :: 0 <= k < (if i < 0 then |s| else i) ==> s[k] != c
  {
    if s == [] then -1
    else if s[0] == c then 0
    else
      var r := IndexOf(s[1..], c);
      if r < 0 then -1 else r + 1
  }

  /** Last index of `c`, or -1. */
  function LastIndexOf(s: string, c: char): (i: int)
    ensures -1 <= i < |s|
    ensures i >= 0 ==> s[i] == c
    ensures forall k :: i < k < |s| ==> s[k] != c
  {
    if s == [] then -1
    else if s[|s| - 1] == c then |s| - 1
    else LastIndexOf(s[..|s| - 1], c)
  }

  /** `s.slice(from, to)`: a negative `to` counts from the end. */
  function Slice(s: string, from: nat, to: int): (r: string)
    ensures |r| <= |s|
    ensures s != [] && to < |s| ==> |r| < |s|
  {
    var end := if to < 0 then (if |s| + to < 0 then 0 else |s| + to) else if to > |s| then |s| else to;
    if from >= end then [] else s[from..end]
  }

  /** `s.slice(0, n)`. */
  function Take<T>(s: seq<T>, n: nat): (r: seq<T>)
    ensures r <= s && |r| == if n <= |s| then n else |s|
  {
    if n <= |s| then s[..n] else s
  }

  /** `parts.join(separator)`. */
  function Join(parts: seq<string>, separator: string): string {
    if parts == [] then ""
    else if |parts| == 1 then parts[0]
    else parts[0] + separator + Join(parts[1..], separator)
  }
}
