/** The token compiler's rules on characters: what values pass, what tokens are called, what is derived. */
module TokenRules {
  import opened Text
  import opened Sorting
  import opened RootVars
  import opened TokenCss

  // ----- Characters and words of a value

  predicate IsLetter(c: char) { 'a' <= c <= 'z' || 'A' <= c <= 'Z' }

  predicate IsDecimalDigit(c: char) { '0' <= c <= '9' }

  lemma CharactersAre(c: char)
    ensures IsValueChar(c) <==>
      IsLetter(c) || IsDecimalDigit(c) || IsSpace(c) ||
      c in {'#', '%', '.', ',', '(', ')', '/', '"', '\'', '-'}
    ensures IsDeniedChar(c) <==> c in {'<', '>', '{', '}', ';', '\\'}
    ensures IsWordChar(c) <==> IsLetter(c) || IsDecimalDigit(c) || c == '_'
    ensures IsNameChar(c) <==> IsLetter(c) || IsDecimalDigit(c) || c == '-'
    ensures IsNumberChar(c) <==> IsLetter(c) || IsDecimalDigit(c) || c in {'.', '+', '-'}
  {
  }

  /** The text at `i`, whatever the case of its letters. */
  predicate WordAt(s: string, word: string, i: nat) {
    i + |word| <= |s| && forall m :: 0 <= m < |word| ==> Lower(s[i..][m]) == Lower(word[m])
  }

  /** A word at `i`, white space, and the mark at `k`. */
  predicate MarkedAt(s: string, word: string, mark: char, i: nat, k: nat) {
    WordAt(s, word, i) && i + |word| <= k < |s| && s[k] == mark && AllSpaces(s[i + |word|..k])
  }

  ghost predicate Marked(s: string, word: string, mark: char) { exists i: nat, k: nat :: MarkedAt(s, word, mark, i, k) }

  /** What is left of a text past its leading white space: where that is. */
  lemma {:induction false} TrimStartAt(s: string) returns (n: nat)
    ensures n <= |s| && AllSpaces(s[..n]) && TrimStart(s) == s[n..] && (n < |s| ==> !IsSpace(s[n]))
  {
    n := 0;
    if s != "" && IsSpace(s[0]) {
      var m := TrimStartAt(s[1..]);
      n := m + 1;
      assert s[..n] == [s[0]] + s[1..][..n - 1];
      assert s[1..][n - 1..] == s[n..];
    }
  }

  lemma HeadMarked(s: string, word: string, mark: char)
    requires !IsSpace(mark)
    ensures (StartsWithIgnoreCase(s, word) && var t := TrimStart(s[|word|..]); t != [] && t[0] == mark) <==>
      exists k: nat :: MarkedAt(s, word, mark, 0, k)
  {
    assert s[0..] == s;
    if StartsWithIgnoreCase(s, word) {
      var rest := s[|word|..];
      var n := TrimStartAt(rest);
      if n < |rest| && rest[n] == mark {
        assert s[|word|..|word| + n] == rest[..n];
        assert MarkedAt(s, word, mark, 0, |word| + n);
      }
      if k: nat :| MarkedAt(s, word, mark, 0, k) {
        OnlyAfterSpaces(rest, n, k - |word|, s, word, k);
      }
    }
  }

  lemma OnlyAfterSpaces(rest: string, n: nat, m: nat, s: string, word: string, k: nat)
    requires |word| <= k < |s| && rest == s[|word|..] && m == k - |word| && AllSpaces(s[|word|..k]) && !IsSpace(s[k])
    requires n <= |rest| && AllSpaces(rest[..n]) && (n < |rest| ==> !IsSpace(rest[n]))
    ensures n == m && n < |rest| && rest[n] == s[k]
  {
    assert rest[m] == s[k];
    forall i | 0 <= i < n ensures IsSpace(rest[i]) {
      assert rest[..n][i] == rest[i];
    }
    forall i | 0 <= i < m ensures IsSpace(rest[i]) {
      assert s[|word|..k][i] == rest[i];
    }
  }

  lemma {:induction false} MentionsIs(s: string, word: string, mark: char)
    requires !IsSpace(mark)
    ensures Mentions(s, word, mark) <==> Marked(s, word, mark)
  {
    if s != [] {
      HeadMarked(s, word, mark);
      MentionsIs(s[1..], word, mark);
      forall i: nat, k: nat ensures MarkedAt(s[1..], word, mark, i, k) <==> MarkedAt(s, word, mark, i + 1, k + 1) {
        MarkedLater(s, word, mark, i, k);
      }
      if i: nat, k: nat :| MarkedAt(s, word, mark, i, k) {
        if i > 0 {
          assert MarkedAt(s[1..], word, mark, i - 1, k - 1);
        }
      }
      if Mentions(s[1..], word, mark) {
        var i: nat, k: nat :| MarkedAt(s[1..], word, mark, i, k);
        assert MarkedAt(s, word, mark, i + 1, k + 1);
      }
    }
  }

  lemma MarkedLater(s: string, word: string, mark: char, i: nat, k: nat)
    requires s != []
    ensures MarkedAt(s[1..], word, mark, i, k) <==> MarkedAt(s, word, mark, i + 1, k + 1)
  {
    if i + |word| <= |s| - 1 {
      assert s[1..][i..] == s[i + 1..];
      if i + |word| <= k < |s| - 1 {
        assert s[1..][i + |word|..k] == s[i + 1 + |word|..k + 1];
      }
    }
  }

  /** `@import`, with no word going on after it, somewhere in the text. */
  predicate ImportAt(s: string, i: nat) {
    WordAt(s, "@import", i) && (i + 7 == |s| || !IsWordChar(s[i + 7]))
  }

  lemma {:induction false} ImportIs(s: string)
    ensures MentionsImport(s) <==> exists i: nat :: ImportAt(s, i)
  {
    if s != [] {
      ImportIs(s[1..]);
      assert s[0..] == s;
      forall i: nat ensures ImportAt(s[1..], i) <==> ImportAt(s, i + 1) {
        if i + 7 <= |s| - 1 {
          assert s[1..][i..] == s[i + 1..];
        }
      }
      if i: nat :| ImportAt(s, i) {
        assert i == 0 || ImportAt(s[1..], i - 1);
      }
      if MentionsImport(s[1..]) {
        var i: nat :| ImportAt(s[1..], i);
        assert ImportAt(s, i + 1);
      }
      assert ImportAt(s, 0) <==> StartsWithIgnoreCase(s, "@import") && (|s| == 7 || !IsWordChar(s[7]));
    }
  }

  predicate TextAt(s: string, pattern: string, i: nat) { i + |pattern| <= |s| && s[i..i + |pattern|] == pattern }

  lemma {:induction false} ContainsIs(s: string, pattern: string)
    ensures Contains(s, pattern) <==> exists i: nat :: TextAt(s, pattern, i)
  {
    if s != [] {
      ContainsIs(s[1..], pattern);
      forall i: nat ensures TextAt(s[1..], pattern, i) <==> TextAt(s, pattern, i + 1) {
        if i + |pattern| <= |s| - 1 {
          assert s[1..][i..i + |pattern|] == s[i + 1..i + 1 + |pattern|];
        }
      }
      if i: nat :| TextAt(s, pattern, i) {
        assert i == 0 || TextAt(s[1..], pattern, i - 1);
      }
      if i: nat :| TextAt(s[1..], pattern, i) {
        assert TextAt(s, pattern, i + 1);
      }
    }
    assert StartsWith(s, pattern) <==> TextAt(s, pattern, 0);
  }

  /** What no value may have anywhere: a character, a comment mark, or a word that could load or run something. */
  lemma DeniedExactly(t: string)
    ensures NothingDenied(t) <==>
      (forall i :: 0 <= i < |t| ==> t[i] !in {'<', '>', '{', '}', ';', '\\'}) &&
      (forall i: nat :: !TextAt(t, "/*", i)) && (forall i: nat :: !TextAt(t, "*/", i)) &&
      !Marked(t, "javascript", ':') && !Marked(t, "vbscript", ':') && !Marked(t, "data", ':') &&
      (forall i: nat :: !ImportAt(t, i)) && !Marked(t, "expression", '(') && !Marked(t, "url", '(')
  {
    ContainsIs(t, "/*");
    ContainsIs(t, "*/");
    MentionsIs(t, "javascript", ':');
    MentionsIs(t, "vbscript", ':');
    MentionsIs(t, "data", ':');
    MentionsIs(t, "expression", '(');
    MentionsIs(t, "url", '(');
    ImportIs(t);
    forall i | 0 <= i < |t| ensures IsDeniedChar(t[i]) <==> t[i] in {'<', '>', '{', '}', ';', '\\'} {
      CharactersAre(t[i]);
    }
    hide Contains, Mentions, MentionsImport, IsDeniedChar, TextAt, Marked, ImportAt;
  }

  predicate IsName(name: string) {
    name != "" && IsLetter(name[0]) && forall i :: 0 <= i < |name| ==> IsNameChar(name[i])
  }

  /**
   * How calls are looked for. At a letter that no word runs into stands a whole name, and white space up to `k`. When
   * a parenthesis comes there the name has to be one of five, and what is in the parentheses is looked at in turn; a
   * name followed by anything else is no call.
   */
  lemma CallsAre(s: string, n: nat, k: nat)
    requires n <= k <= |s| && IsName(s[..n]) && AllSpaces(s[n..k])
    requires k < |s| ==> !IsSpace(s[k]) && (n == k ==> !IsNameChar(s[k]))
    ensures CallsAllowed(s, false) <==>
      if k < |s| && s[k] == '(' then
        MayBeCalled(LowerAll(s[..n])) && CallsAllowed(s[k + 1..], false)
      else CallsAllowed(s[1..], true)
  {
    hide *;
    NameEnds(s, n, k);
    SpacesPast(s, n, k);
    assert k < |s| ==> s[k..][0] == s[k] && s[k..][1..] == s[k + 1..];
    CallAt(s, n, s[k..]);
  }

  predicate MayBeCalled(name: string) { name in {"rgb", "rgba", "hsl", "hsla", "cubic-bezier"} }

  lemma SpacesPast(s: string, n: nat, k: nat)
    requires n <= k <= |s| && AllSpaces(s[n..k]) && (k < |s| ==> !IsSpace(s[k]))
    ensures TrimStart(s[n..]) == s[k..]
  {
    TrimStartPadded(s[n..k], s[k..]);
    assert s[n..] == s[n..k] + s[k..];
    assert TrimStart(s[k..]) == s[k..];
  }

  lemma CallAt(s: string, n: nat, rest: string)
    requires 0 < n <= |s| && IsLetter(s[0]) && NameRun(s) == n && TrimStart(s[n..]) == rest
    ensures CallsAllowed(s, false) <==>
      if rest != "" && rest[0] == '(' then
        MayBeCalled(LowerAll(s[..n])) && CallsAllowed(rest[1..], false)
      else CallsAllowed(s[1..], true)
  {
    hide LowerAll, NameRun, TrimStart;
  }

  lemma NameEnds(s: string, n: nat, k: nat)
    requires n <= k <= |s| && IsName(s[..n]) && AllSpaces(s[n..k])
    requires k < |s| ==> !IsSpace(s[k]) && (n == k ==> !IsNameChar(s[k]))
    ensures NameRun(s) == n && n > 0 && IsLetter(s[0])
  {
    assert s[..n][0] == s[0];
    forall i | 0 <= i < n ensures IsNameChar(s[i]) {
      assert s[i] == s[..n][i];
    }
    if n < k {
      assert s[n] == s[n..k][0];
    }
  }

  /** Away from such a letter the search goes on with the next character, inside a word or not. */
  lemma CallsGoOn(c: char, rest: string, after: bool)
    ensures CallsAllowed("", after)
    ensures after || !IsLetter(c) ==>
      (CallsAllowed([c] + rest, after) <==> CallsAllowed(rest, IsLetter(c) || IsDecimalDigit(c) || c == '_'))
  {
    assert ([c] + rest)[1..] == rest;
  }

  /** Of the style file's choices these pass, and nothing else does; elsewhere no choices are made. */
  lemma ChoicesAre(key: string, text: string, angles: Angles)
    requires key != "accent_angle_deg"
    ensures NormalizeStyle(key, Str(text), angles) ==
      if (key, Trim(text)) in {
        ("decoration_intensity", "none"), ("decoration_intensity", "subtle"), ("decoration_intensity", "bold"),
        ("corner_style", "sharp"), ("corner_style", "rounded"), ("corner_style", "pill"), ("heading_case", "none"),
        ("heading_case", "upper"), ("surface_treatment", "flat"), ("surface_treatment", "gradient")}
      then Some(Trim(text)) else None
  {
    hide Trim;
  }

  /** An angle is what its text, or its number and `deg`, comes to, as long as that may stand in a value. */
  lemma AngleIs(value: Primitive, angles: Angles)
    ensures NormalizeStyle("accent_angle_deg", value, angles) ==
      var angle := angles.normalize(match value
        case Num(text, _) => text + "deg"
        case Str(s) => Trim(s)
        case Flag(_) => "");
      if angle.None? then None else NormalizeCss(Str(angle.value))
  {
    hide NormalizeCss, Trim;
  }

  /** Numbers are written out, and pass when they are finite; truth values never pass as they are. */
  lemma OtherValues(text: NumberText, finite: bool, flag: bool)
    ensures NormalizeCss(Num(text, finite)) == (if finite then Some(text) else None) && NormalizeCss(Flag(flag)) == None
    ensures Stringify(Num(text, finite)) == text && Stringify(Flag(true)) == "true" && Stringify(Flag(false)) == "false"
  {
  }

  /** A text passes exactly when, trimmed, it is there, within 240 characters, and free of all that is denied. */
  lemma TextPasses(text: string)
    ensures NormalizeCss(Str(text)).Some? <==>
      1 <= |Trim(text)| <= 240 && NothingDenied(Trim(text)) && CallsAllowed(Trim(text), false) &&
      forall i :: 0 <= i < |Trim(text)| ==> IsValueChar(Trim(text)[i])
  {
    hide Trim, NothingDenied, CallsAllowed, IsValueChar;
  }

  // ----- Names

  /**
   * Kebab case, one character at a time: underscores become dashes and capitals small letters, and a dash goes between
   * a small letter or digit and a capital after it.
   */
  lemma KebabIs(c: char, d: char, rest: string)
    ensures Kebab("") == "" && Kebab([c]) == [if c == '_' then '-' else Lower(c)]
    ensures Kebab([c, d] + rest) ==
      Kebab([c]) + (if ('a' <= c <= 'z' || '0' <= c <= '9') && 'A' <= d <= 'Z' then "-" else "") + Kebab([d] + rest)
  {
    assert ([c, d] + rest)[1..] == [d] + rest;
    assert [c][1..] == "";
  }

  /** A token's name: its key in kebab case, after the file's prefix unless it has that already. */
  lemma CssNameIs(prefix: string, key: string)
    ensures var kebab, dashed := Kebab(key), prefix + "-";
      CssName(prefix, key) == if |kebab| >= |dashed| && kebab[..|dashed|] == dashed then kebab else dashed + kebab
  {
    var kebab, dashed := Kebab(key), prefix + "-";
    if |kebab| >= |dashed| && kebab[..|dashed|] == dashed {
      assert kebab == dashed + kebab[|dashed|..];
    }
    assert StartsWith(kebab, dashed) <==> |kebab| >= |dashed| && kebab[..|dashed|] == dashed;
  }

  /** The prefix of a file: two are shortened, five stay, and any other file's name is put in kebab case. */
  lemma PrefixIs(file: string)
    ensures Prefix("typography") == "type" && Prefix("spacing") == "space"
    ensures file in {"color", "radius", "shadow", "motion", "style"} ==> Prefix(file) == file
    ensures file !in {"color", "typography", "spacing", "radius", "shadow", "motion", "style"} ==>
      Prefix(file) == Kebab(file)
  {
    hide Kebab;
  }

  const FILES := ["color", "typography", "spacing", "radius", "shadow", "motion", "style"]

  lemma FileRankIs(name: string)
    ensures FileRank(name) < 7 <==> name in FILES
    ensures forall k :: 0 <= k < 7 ==> (FileRank(name) == k <==> name == FILES[k])
  {
    FilesDiffer();
  }

  lemma FilesDiffer()
    ensures forall j, k :: 0 <= j < k < 7 ==> FILES[j] != FILES[k]
  {
    assert FILES[0][0] == 'c' && FILES[1][0] == 't' && FILES[2][1] == 'p' && FILES[3][0] == 'r' && FILES[4][1] == 'h' &&
           FILES[5][0] == 'm' && FILES[6][1] == 't';
    assert FILES[2][0] == 's' && FILES[4][0] == 's' && FILES[6][0] == 's';
  }

  /** Files go in this order, those not named here after all of them and by name. */
  lemma FileOrderIs(x: TokenFile, y: TokenFile)
    ensures FileLe(x, y) <==>
      if x.name in FILES && y.name in FILES then
        exists j, k :: 0 <= j <= k < 7 && x.name == FILES[j] && y.name == FILES[k]
      else x.name in FILES || (y.name !in FILES && StringLe(x.name, y.name))
  {
    FileRankIs(x.name);
    FileRankIs(y.name);
    FilesDiffer();
    var r, q := FileRank(x.name), FileRank(y.name);
    assert r < 7 ==> x.name == FILES[r];
    assert q < 7 ==> y.name == FILES[q];
    hide StringLe, FileRank, FILES;
  }

  /** Tokens are printed by key. */
  lemma KeyOrderIs(x: (string, string), y: (string, string))
    ensures KeyLe(x, y) <==> StringLe(x.0, y.0)
  {
  }

  // ----- Leaves of the token tree

  /** A leaf with this value, its keys from the root joined by dashes. */
  predicate LeafAt(tokens: Tokens, parent: Option<string>, path: string, value: Primitive) {
    match tokens
    case End => false
    case Entry(key, node, rest) =>
      var here := if parent == None then key else parent.value + "-" + key;
      (node.Leaf? && path == here && value == node.value) ||
      (node.Group? && LeafAt(node.entries, Some(here), path, value)) || LeafAt(rest, parent, path, value)
  }

  lemma {:induction false} PutAllGets<V>(t: Table<V>, more: Table<V>, key: string)
    requires NoRepeatedKey(more)
    ensures Get(PutAll(t, more), key) == if Get(more, key).Some? then Get(more, key) else Get(t, key)
    decreases |more|
  {
    if more != [] {
      PutAllGets(Put(t, more[0].0, more[0].1), more[1..], key);
      if Get(more[1..], key).Some? {
        GetMember(more[1..], key);
      }
    }
  }

  predicate NoRepeatedKey<V>(t: Table<V>) { forall i, j :: 0 <= i < j < |t| ==> t[i].0 != t[j].0 }

  lemma {:induction false} GetMember<V>(t: Table<V>, key: string)
    ensures Get(t, key).Some? <==> exists i :: 0 <= i < |t| && t[i].0 == key
  {
    if t != [] {
      GetMember(t[1..], key);
      if i :| 0 <= i < |t| && t[i].0 == key {
        assert i == 0 || t[1..][i - 1].0 == key;
      }
      if i :| 0 <= i < |t[1..]| && t[1..][i].0 == key {
        assert t[i + 1].0 == key;
      }
    }
  }

  lemma {:induction false} PutKeepsKeys<V>(t: Table<V>, key: string, value: V)
    requires NoRepeatedKey(t)
    ensures NoRepeatedKey(Put(t, key, value))
    ensures forall i :: 0 <= i < |Put(t, key, value)| ==>
      Put(t, key, value)[i].0 == key || exists j :: 0 <= j < |t| && t[j].0 == Put(t, key, value)[i].0
  {
    if t != [] && t[0].0 != key {
      PutKeepsKeys(t[1..], key, value);
      var rest, r := Put(t[1..], key, value), Put(t, key, value);
      assert r == [t[0]] + rest;
      forall i | 0 <= i < |rest| ensures rest[i].0 != t[0].0 {
        if rest[i].0 != key {
          var j :| 0 <= j < |t[1..]| && t[1..][j].0 == rest[i].0;
          assert t[j + 1].0 == rest[i].0;
        }
      }
      forall i | 0 <= i < |r| && r[i].0 != key ensures exists j :: 0 <= j < |t| && t[j].0 == r[i].0 {
        if i == 0 {
          assert t[0].0 == r[0].0;
        } else {
          assert r[i] == rest[i - 1];
          var j :| 0 <= j < |t[1..]| && t[1..][j].0 == rest[i - 1].0;
          assert t[j + 1].0 == r[i].0;
        }
      }
    }
  }

  lemma {:induction false} PutAllKeepsKeys<V>(t: Table<V>, more: Table<V>)
    requires NoRepeatedKey(t)
    ensures NoRepeatedKey(PutAll(t, more))
    decreases |more|
  {
    if more != [] {
      PutKeepsKeys(t, more[0].0, more[0].1);
      PutAllKeepsKeys(Put(t, more[0].0, more[0].1), more[1..]);
    }
  }

  lemma {:induction false} FlattenKeepsKeys(tokens: Tokens, parent: Option<string>, flat: Table<Primitive>)
    requires NoRepeatedKey(flat)
    ensures NoRepeatedKey(Flatten(tokens, parent, flat))
  {
    match tokens
    case End =>
    case Entry(key, Leaf(value), rest) =>
      PutKeepsKeys(flat, Path(parent, key), value);
      FlattenKeepsKeys(rest, parent, Put(flat, Path(parent, key), value));
    case Entry(key, Group(inner), rest) =>
      var below := Flatten(inner, Some(Path(parent, key)), []);
      PutAllKeepsKeys(flat, below);
      FlattenKeepsKeys(rest, parent, PutAll(flat, below));
    case Entry(key, Ignored, rest) => FlattenKeepsKeys(rest, parent, flat);
  }

  /** A leaf of this path was found, or there is none and what was there before is found. */
  ghost predicate FoundIn(tokens: Tokens, parent: Option<string>, path: string, found: Option<Primitive>,
                          before: Option<Primitive>) {
    (found.Some? && LeafAt(tokens, parent, path, found.value)) ||
    (found == before && forall value :: !LeafAt(tokens, parent, path, value))
  }

  lemma {:induction false} FlattenGets(tokens: Tokens, parent: Option<string>, flat: Table<Primitive>, path: string)
    ensures FoundIn(tokens, parent, path, Get(Flatten(tokens, parent, flat), path), Get(flat, path))
  {
    match tokens
    case End =>
    case Entry(key, Leaf(value), rest) =>
      var here := Path(parent, key);
      FlattenGets(rest, parent, Put(flat, here, value), path);
      FoundPastLeaf(key, value, rest, parent, path, Get(Flatten(tokens, parent, flat), path), Get(flat, path));
    case Entry(key, Group(inner), rest) =>
      var here := Path(parent, key);
      var below := Flatten(inner, Some(here), []);
      FlattenKeepsKeys(inner, Some(here), []);
      FlattenGets(inner, Some(here), [], path);
      PutAllGets(flat, below, path);
      FlattenGets(rest, parent, PutAll(flat, below), path);
      FoundPastGroup(key, inner, rest, parent, path, Get(Flatten(tokens, parent, flat), path), Get(below, path),
                     Get(flat, path));
    case Entry(key, Ignored, rest) =>
      FlattenGets(rest, parent, flat, path);
      FoundPastIgnored(key, rest, parent, path, Get(Flatten(tokens, parent, flat), path), Get(flat, path));
  }

  lemma FoundPastLeaf(key: string, value: Primitive, rest: Tokens, parent: Option<string>, path: string,
                      found: Option<Primitive>, before: Option<Primitive>)
    requires FoundIn(rest, parent, path, found, if path == Path(parent, key) then Some(value) else before)
    ensures FoundIn(Entry(key, Leaf(value), rest), parent, path, found, before)
  {
    forall v ensures LeafAt(Entry(key, Leaf(value), rest), parent, path, v) <==>
      (path == Path(parent, key) && v == value) || LeafAt(rest, parent, path, v) {
    }
  }

  lemma FoundPastGroup(key: string, inner: Tokens, rest: Tokens, parent: Option<string>, path: string,
                       found: Option<Primitive>, below: Option<Primitive>, before: Option<Primitive>)
    requires FoundIn(inner, Some(Path(parent, key)), path, below, None)
    requires FoundIn(rest, parent, path, found, if below.Some? then below else before)
    ensures FoundIn(Entry(key, Group(inner), rest), parent, path, found, before)
  {
    forall v ensures LeafAt(Entry(key, Group(inner), rest), parent, path, v) <==>
      LeafAt(inner, Some(Path(parent, key)), path, v) || LeafAt(rest, parent, path, v) {
    }
  }

  lemma FoundPastIgnored(key: string, rest: Tokens, parent: Option<string>, path: string, found: Option<Primitive>,
                         before: Option<Primitive>)
    requires FoundIn(rest, parent, path, found, before)
    ensures FoundIn(Entry(key, Ignored, rest), parent, path, found, before)
  {
    forall v ensures LeafAt(Entry(key, Ignored, rest), parent, path, v) <==> LeafAt(rest, parent, path, v) {
    }
  }

  /** Every leaf of the token tree is in the table under its dashed path, and nothing else is. */
  lemma LeavesInTable(tokens: Tokens, path: string)
    ensures var found := Get(Flatten(tokens, None, []), path);
      if found.Some? then LeafAt(tokens, None, path, found.value)
      else forall value :: !LeafAt(tokens, None, path, value)
  {
    FlattenGets(tokens, None, [], path);
    assert Get<Primitive>([], path) == None;
    hide Flatten, LeafAt, Get;
  }

  // ----- Derived declarations

  function Chosen(table: Table<string>, key: string, otherwise: string): string {
    if Get(table, key).Some? then Get(table, key).value else otherwise
  }

  /** What each style choice derives; bold, sharp and gradient are what is chosen where nothing is. */
  lemma DerivedIs(table: Table<string>, angles: Angles)
    ensures var decoration := Chosen(table, "decoration_intensity", "bold");
      var corner := Chosen(table, "corner_style", "sharp");
      var heading, surface := Chosen(table, "heading_case", "none"), Chosen(table, "surface_treatment", "gradient");
      var ds := StyleDerived(table, angles);
      |ds| == 6 &&
      ds[0] == Declaration("style-accent-angle-inverse-deg",
                           angles.invert(Chosen(table, "accent_angle_deg", "-8deg"))) &&
      ds[1] == Declaration("style-corner-radius",
                           match corner case "pill" => "999px" case "rounded" => "var(--radius-lg)"
                                        case _ => "var(--radius-none)") &&
      ds[2] == Declaration("style-decoration-border-width",
                           match decoration case "none" => "0px" case "subtle" => "2px" case _ => "3px") &&
      ds[3] == Declaration("style-decoration-opacity",
                           match decoration case "none" => "0" case "subtle" => "0.52" case _ => "1") &&
      ds[4] == Declaration("style-heading-transform", match heading case "upper" => "uppercase" case _ => "none") &&
      ds[5].name == "style-surface-background" &&
      ds[5].value == if surface == "flat" then "var(--color-background)" else Gradient()
  {
    hide Gradient;
    assert ColorVar("background") == "var(--color-background)";
  }

  /** The gradient, and the two mixes in it. */
  lemma GradientIs()
    ensures var background, surface := "var(--color-background)", "var(--color-surface)";
      Gradient() ==
        "linear-gradient(105deg, " + background + " 0%, " + MixText(background, " 86%", surface) + " 47%, " +
        MixText(surface, " 72%", background) + " 100%)"
  {
    assert ColorVar("background") == "var(--color-background)";
    assert ColorVar("surface") == "var(--color-surface)";
    assert "linear-gradient(" + "105deg, " == "linear-gradient(105deg, ";
    hide ColorVar, MixText;
  }

  lemma MixTextIs(first: string, percent: string, second: string)
    ensures MixText(first, percent, second) == "color-mix(in srgb, " + first + percent + ", " + second + ")"
  {
    assert "color-mix(in " + "srgb, " == "color-mix(in srgb, ";
  }

  /** An override for a file there is no file of is reported, and no other is. */
  lemma {:induction false} UnknownFilesAre(overrides: Overrides, files: seq<TokenFile>, name: string)
    ensures UnknownTokenFile(name) in UnknownFiles(overrides, files) <==>
      (exists k :: 0 <= k < |overrides| && overrides[k].0 == name) &&
      forall i :: 0 <= i < |files| ==> files[i].name != name
  {
    if overrides != [] {
      UnknownFilesAre(overrides[1..], files, name);
      if k :| 0 <= k < |overrides| && overrides[k].0 == name {
        assert k == 0 || overrides[1..][k - 1].0 == name;
      }
    }
  }

  /** The file a name in the overrides is for: `.json` after it, in any case of its letters, makes no difference. */
  function FileOf(name: string): string { if HasJson(name) then name[..|name| - 5] else name }

  predicate HasJson(name: string) {
    |name| >= 5 && name[|name| - 5] == '.' && name[|name| - 4] in {'j', 'J'} && name[|name| - 3] in {'s', 'S'} &&
    name[|name| - 2] in {'o', 'O'} && name[|name| - 1] in {'n', 'N'}
  }

  lemma JsonIs(name: string)
    requires |name| >= 5
    ensures EqualsIgnoreCase(name[|name| - 5..], ".json") <==> HasJson(name)
  {
    var t := name[|name| - 5..];
    var json := ".json";
    assert t[0] == name[|name| - 5] && t[1] == name[|name| - 4] && t[2] == name[|name| - 3] &&
           t[3] == name[|name| - 2] && t[4] == name[|name| - 1];
    assert json[0] == '.' && json[1] == 'j' && json[2] == 's' && json[3] == 'o' && json[4] == 'n';
    assert StartsWithIgnoreCase(t, json) <==>
      Lower(t[0]) == Lower('.') && Lower(t[1]) == Lower('j') && Lower(t[2]) == Lower('s') &&
      Lower(t[3]) == Lower('o') && Lower(t[4]) == Lower('n');
  }

  /** The value an override entry gives a token of a file. */
  function Given(entry: (string, Option<Table<Primitive>>), file: string, key: string): Option<Primitive> {
    if entry.1.Some? && FileOf(entry.0) == file then Get(entry.1.value, key) else None
  }

  /** The value the last of the entries gives that gives one. */
  function LastGiven(raw: Table<Option<Table<Primitive>>>, file: string, key: string): Option<Primitive> {
    if raw == [] then None
    else
      var last := Given(raw[|raw| - 1], file, key);
      if last.Some? then last else LastGiven(raw[..|raw| - 1], file, key)
  }

  lemma {:induction false} LastGivenFrom(raw: Table<Option<Table<Primitive>>>, file: string, key: string)
    requires raw != []
    ensures LastGiven(raw, file, key) ==
      var later := LastGiven(raw[1..], file, key); if later.Some? then later else Given(raw[0], file, key)
    decreases |raw|
  {
    hide Given;
    if |raw| > 1 {
      var front := raw[..|raw| - 1];
      LastGivenFrom(front, file, key);
      assert front[1..] == raw[1..][..|raw| - 2];
      assert raw[1..][|raw| - 2] == raw[|raw| - 1];
    }
  }

  /** No key is twice in an override, as in any object. */
  predicate NoKeyTwice(raw: Table<Option<Table<Primitive>>>) {
    forall i :: 0 <= i < |raw| && raw[i].1.Some? ==> NoRepeatedKey(raw[i].1.value)
  }

  /** What overrides a token of a file is what the last entry that names the file and has the token says. */
  lemma {:induction false} OverriddenByLast(raw: Table<Option<Table<Primitive>>>, found: Overrides, file: string,
                                            key: string)
    requires NoKeyTwice(raw)
    ensures Get(OverridesFor(NormalizeOverrides(raw, found), file), key) ==
      var last := LastGiven(raw, file, key); if last.Some? then last else Get(OverridesFor(found, file), key)
    decreases |raw|
  {
    if raw != [] {
      LastGivenFrom(raw, file, key);
      var (name, given) := raw[0];
      if given.None? {
        OverriddenByLast(raw[1..], found, file, key);
      } else {
        if |name| >= 5 {
          JsonIs(name);
        }
        var of := FileOf(name);
        var merged := PutAll(OverridesFor(found, of), given.value);
        OverriddenByLast(raw[1..], Put(found, of, merged), file, key);
        PutAllGets(OverridesFor(found, of), given.value, key);
      }
    }
  }
}
