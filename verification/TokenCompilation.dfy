/** Compiling the token files, and the proof that the contrast gate reads back what they say. */
module TokenCompilation {
  import opened Text
  import opened Sorting
  import opened RootVars
  import opened TokenCss
  import opened VarResolution
  import opened ColorExpression
  import opened ColorPrinting

  type RawOverrides = Table<Option<Table<Primitive>>>

  function CompiledCss(files: seq<TokenFile>, raw: RawOverrides, angles: Angles): Result<string, seq<Issue>> {
    var overrides, ordered := NormalizeOverrides(raw, []), Sort(files, FileLe);
    var issues := UnknownFiles(overrides, ordered) + AllIssues(ordered, overrides, angles);
    if issues != [] then Err(issues) else Ok(RootCss(Lines(AllDeclarations(ordered, overrides, angles))))
  }

  // ----- The loops of `mapTokensToCss`

  method NormalizeFlattenedTokens(file: string, flat: Table<Primitive>, angles: Angles)
    returns (table: Table<string>, issues: seq<Issue>)
    ensures table == NormalizeBase(file, flat, angles).0 && issues == NormalizeBase(file, flat, angles).1
  {
    hide NormalizeValue, Stringify;
    table, issues := [], [];
    var i := 0;
    ghost var rest := flat;
    while i < |flat|
      invariant i <= |flat| && rest == flat[i..]
      invariant NormalizeBase(file, flat, angles).0 == table + NormalizeBase(file, rest, angles).0
      invariant NormalizeBase(file, flat, angles).1 == issues + NormalizeBase(file, rest, angles).1
    {
      var safe := NormalizeValue(file, flat[i].0, Str(Stringify(flat[i].1)), angles);
      if safe.None? {
        issues := issues + [UnsafeBaseTokenValue(file, flat[i].0)];
      } else {
        table := table + [(flat[i].0, safe.value)];
      }
      i, rest := i + 1, rest[1..];
    }
  }

  method OverrideTokens(file: string, base: Table<string>, overrides: Table<Primitive>, angles: Angles)
    returns (table: Table<string>, issues: seq<Issue>)
    ensures var applied := ApplyOverrides(file, Candidates(base, map[]), overrides, base, angles);
            table == applied.0 && issues == applied.1
  {
    hide NormalizeValue, Put, TokenFor;
    var candidates := Candidates(base, map[]);
    table, issues := base, [];
    var i := 0;
    ghost var rest := overrides;
    while i < |overrides|
      invariant i <= |overrides| && rest == overrides[i..]
      invariant ApplyOverrides(file, candidates, overrides, base, angles).0 ==
                ApplyOverrides(file, candidates, rest, table, angles).0
      invariant ApplyOverrides(file, candidates, overrides, base, angles).1 ==
                issues + ApplyOverrides(file, candidates, rest, table, angles).1
    {
      var (key, value) := overrides[i];
      var token := TokenFor(candidates, key);
      if token.None? {
        issues := issues + [UnknownTokenKey(file, key)];
      } else {
        var safe := NormalizeValue(file, token.value, value, angles);
        if safe.None? {
          issues := issues + [UnsafeTokenValue(file, key)];
        } else {
          table := Put(table, token.value, safe.value);
        }
      }
      i, rest := i + 1, rest[1..];
    }
  }

  method CompileFile(file: TokenFile, overrides: Table<Primitive>, angles: Angles)
    returns (declarations: seq<Declaration>, issues: seq<Issue>)
    ensures declarations == FileDeclarations(file, overrides, angles)
    ensures issues == FileTable(file, overrides, angles).1
  {
    hide NormalizeBase, ApplyOverrides, Flatten, Declared, StyleDerived, Candidates;
    var base, baseIssues := NormalizeFlattenedTokens(file.name, Flatten(file.tokens, None, []), angles);
    var table, more := OverrideTokens(file.name, base, overrides, angles);
    issues := baseIssues + more;
    declarations := Declared(Prefix(file.name), Sort(table, KeyLe));
    if file.name == "style" {
      declarations := declarations + StyleDerived(table, angles);
    }
  }

  method MapTokensToCss(files: seq<TokenFile>, raw: RawOverrides, angles: Angles)
    returns (r: Result<string, seq<Issue>>)
    ensures r == CompiledCss(files, raw, angles)
  {
    hide FileDeclarations, FileTable, NormalizeOverrides, Sort, Lines, RootCss, UnknownFiles;
    var overrides, ordered := NormalizeOverrides(raw, []), Sort(files, FileLe);
    var issues, declarations := UnknownFiles(overrides, ordered), [];
    var i := 0;
    ghost var rest := ordered;
    while i < |ordered|
      invariant i <= |ordered| && rest == ordered[i..]
      invariant UnknownFiles(overrides, ordered) + AllIssues(ordered, overrides, angles) ==
                issues + AllIssues(rest, overrides, angles)
      invariant AllDeclarations(ordered, overrides, angles) ==
                declarations + AllDeclarations(rest, overrides, angles)
    {
      var ds, found := CompileFile(ordered[i], OverridesFor(overrides, ordered[i].name), angles);
      issues := issues + found;
      declarations := declarations + ds;
      i, rest := i + 1, rest[1..];
    }
    assert issues + [] == issues && declarations + [] == declarations;
    r := if issues != [] then Err(issues) else Ok(RootCss(Lines(declarations)));
  }

  // ----- Kebab case

  lemma {:induction false} KebabIsKebab(s: string)
    ensures IsKebab(Kebab(s))
  {
    if s != [] {
      KebabIsKebab(s[1..]);
    }
  }

  lemma {:induction false} KebabFixed(s: string)
    requires IsKebab(s)
    ensures Kebab(s) == s
  {
    if s != [] {
      KebabFixed(s[1..]);
      assert s == [s[0]] + s[1..];
    }
  }

  lemma KebabIdempotent(s: string)
    ensures Kebab(Kebab(s)) == Kebab(s)
  {
    KebabIsKebab(s);
    KebabFixed(Kebab(s));
  }

  // ----- Which token an override names

  predicate HasKey<V>(t: Table<V>, key: string) { exists i :: 0 <= i < |t| && t[i].0 == key }

  /** No two tokens differ only in how their name is cased or separated. */
  ghost predicate KebabDistinct(t: Table<string>) {
    forall x, y :: HasKey(t, x) && HasKey(t, y) && Kebab(x) == Kebab(y) ==> x == y
  }

  lemma {:induction false} CandidatesAre(t: Table<string>, found: map<string, string>, name: string)
    ensures var c := Candidates(t, found);
            (name in found || (exists i :: 0 <= i < |t| && (t[i].0 == name || Kebab(t[i].0) == name))) ==> name in c
    ensures var c := Candidates(t, found);
            name in c ==> (name in found && c[name] == found[name]) ||
                          exists i :: 0 <= i < |t| && c[name] == t[i].0 && (t[i].0 == name || Kebab(t[i].0) == name)
  {
    if t != [] {
      var key := t[0].0;
      var next := found[key := key][Kebab(key) := key];
      CandidatesAre(t[1..], next, name);
      var c := Candidates(t, found);
      if i :| 0 <= i < |t| && (t[i].0 == name || Kebab(t[i].0) == name) {
        if i > 0 { assert t[1..][i - 1] == t[i]; }
      }
      if name in c && !(name in next && c[name] == next[name]) {
        var i :| 0 <= i < |t[1..]| && c[name] == t[1..][i].0 && (t[1..][i].0 == name || Kebab(t[1..][i].0) == name);
        assert t[i + 1] == t[1..][i];
      }
    }
  }

  /** An override names the one token whose kebab-cased name is its own; anything else is unknown. */
  lemma OverrideNamesToken(t: Table<string>, name: string, key: string)
    requires KebabDistinct(t)
    ensures TokenFor(Candidates(t, map[]), name) == Some(key) <==> HasKey(t, key) && Kebab(name) == Kebab(key)
  {
    hide Kebab, Candidates;
    var c := Candidates(t, map[]);
    CandidatesAre(t, map[], name);
    CandidatesAre(t, map[], Kebab(name));
    KebabIdempotent(name);
    var token := TokenFor(c, name);
    if token.Some? {
      KebabIdempotent(token.value);
      assert HasKey(t, token.value) && Kebab(token.value) == Kebab(name);
    }
    if HasKey(t, key) && Kebab(name) == Kebab(key) {
      assert Kebab(name) in c;
    }
  }

  // ----- What overriding leaves

  /** The last override of `key`, under any casing of its name. */
  function LastOverride(overrides: Table<Primitive>, key: string): Option<Primitive> {
    if overrides == [] then None
    else
      var later := LastOverride(overrides[1..], key);
      if later.Some? then later
      else if Kebab(overrides[0].0) == Kebab(key) then Some(overrides[0].1)
      else None
  }

  lemma {:induction false} OverriddenValue(file: string, base: Table<string>, overrides: Table<Primitive>,
                                           table: Table<string>, angles: Angles, key: string)
    requires KebabDistinct(base) && HasKey(base, key)
    requires ApplyOverrides(file, Candidates(base, map[]), overrides, table, angles).1 == []
    ensures Get(ApplyOverrides(file, Candidates(base, map[]), overrides, table, angles).0, key) ==
            match LastOverride(overrides, key)
            case Some(v) => NormalizeValue(file, key, v, angles)
            case None => Get(table, key)
    decreases |overrides|
  {
    hide NormalizeValue, Kebab, Candidates, Put, Get;
    if overrides != [] {
      var (name, value) := overrides[0];
      var token := TokenFor(Candidates(base, map[]), name);
      OverrideNamesToken(base, name, key);
      var safe := NormalizeValue(file, token.value, value, angles);
      OverriddenValue(file, base, overrides[1..], Put(table, token.value, safe.value), angles, key);
    }
  }

  lemma {:induction false} PutKeys<V>(t: Table<V>, key: string, value: V, k: string)
    requires HasKey(t, key)
    ensures HasKey(Put(t, key, value), k) <==> HasKey(t, k)
  {
    if t[0].0 != key {
      assert HasKey(t[1..], key) by {
        var i :| 0 <= i < |t| && t[i].0 == key;
        assert t[1..][i - 1].0 == key;
      }
      PutKeys(t[1..], key, value, k);
      KeysSplit(t, k);
      KeysSplit([t[0]] + Put(t[1..], key, value), k);
    } else {
      KeysSplit(t, k);
      KeysSplit([(key, value)] + t[1..], k);
    }
  }

  lemma KeysSplit<V>(t: Table<V>, k: string)
    requires t != []
    ensures HasKey(t, k) <==> t[0].0 == k || HasKey(t[1..], k)
  {
    if HasKey(t, k) && t[0].0 != k {
      var i :| 0 <= i < |t| && t[i].0 == k;
      assert t[1..][i - 1].0 == k;
    }
    if HasKey(t[1..], k) {
      var i :| 0 <= i < |t[1..]| && t[1..][i].0 == k;
      assert t[i + 1].0 == k;
    }
  }

  lemma {:induction false} OverridesKeepKeys(file: string, base: Table<string>, overrides: Table<Primitive>,
                                             table: Table<string>, angles: Angles, k: string)
    requires forall x :: HasKey(base, x) <==> HasKey(table, x)
    ensures HasKey(ApplyOverrides(file, Candidates(base, map[]), overrides, table, angles).0, k) <==> HasKey(base, k)
    decreases |overrides|
  {
    hide NormalizeValue, Kebab, Candidates, Put, HasKey;
    if overrides != [] {
      var (name, value) := overrides[0];
      var token := TokenFor(Candidates(base, map[]), name);
      if token.None? || NormalizeValue(file, token.value, value, angles).None? {
        OverridesKeepKeys(file, base, overrides[1..], table, angles, k);
      } else {
        TokenIsKey(base, name);
        var next := Put(table, token.value, NormalizeValue(file, token.value, value, angles).value);
        forall x ensures HasKey(base, x) <==> HasKey(next, x) {
          PutKeys(table, token.value, NormalizeValue(file, token.value, value, angles).value, x);
        }
        OverridesKeepKeys(file, base, overrides[1..], next, angles, k);
      }
    }
  }

  lemma TokenIsKey(base: Table<string>, name: string)
    ensures var token := TokenFor(Candidates(base, map[]), name); token.Some? ==> HasKey(base, token.value)
  {
    CandidatesAre(base, map[], name);
    CandidatesAre(base, map[], Kebab(name));
  }

  // ----- Every printed value is safe

  predicate TableSafe(file: string, t: Table<string>) {
    forall i :: 0 <= i < |t| ==> SafeValue(t[i].1) && (file == "color" ==> IsHexColor(t[i].1))
  }

  lemma {:induction false} BaseSafe(file: string, flat: Table<Primitive>, angles: Angles)
    ensures TableSafe(file, NormalizeBase(file, flat, angles).0)
  {
    hide NormalizeValue, SafeValue, IsHexColor;
    if flat != [] {
      BaseSafe(file, flat[1..], angles);
    }
  }

  lemma {:induction false} PutSafe(file: string, t: Table<string>, key: string, value: string)
    requires TableSafe(file, t) && SafeValue(value) && (file == "color" ==> IsHexColor(value))
    ensures TableSafe(file, Put(t, key, value))
  {
    hide SafeValue, IsHexColor;
    if t != [] && t[0].0 != key {
      PutSafe(file, t[1..], key, value);
    }
  }

  lemma {:induction false} OverriddenSafe(file: string, candidates: map<string, string>,
                                          overrides: Table<Primitive>, t: Table<string>, angles: Angles)
    requires TableSafe(file, t)
    ensures TableSafe(file, ApplyOverrides(file, candidates, overrides, t, angles).0)
    decreases |overrides|
  {
    hide NormalizeValue, SafeValue, IsHexColor, Put, TableSafe, TokenFor;
    if overrides != [] {
      var (name, value) := overrides[0];
      var token := TokenFor(candidates, name);
      if token.None? || NormalizeValue(file, token.value, value, angles).None? {
        OverriddenSafe(file, candidates, overrides[1..], t, angles);
      } else {
        var safe := NormalizeValue(file, token.value, value, angles).value;
        PutSafe(file, t, token.value, safe);
        OverriddenSafe(file, candidates, overrides[1..], Put(t, token.value, safe), angles);
      }
    }
  }

  lemma FileTableSafe(file: TokenFile, overrides: Table<Primitive>, angles: Angles)
    ensures TableSafe(file.name, FileTable(file, overrides, angles).0)
  {
    var flat := Flatten(file.tokens, None, []);
    BaseSafe(file.name, flat, angles);
    var base := NormalizeBase(file.name, flat, angles).0;
    hide Flatten, NormalizeBase, ApplyOverrides, TableSafe, Candidates;
    OverriddenSafe(file.name, Candidates(base, map[]), overrides, base, angles);
  }

  lemma StyleTextSafe()
    ensures SafeValue("999px") && SafeValue("var(--radius-lg)") && SafeValue("var(--radius-none)")
    ensures SafeValue("0px") && SafeValue("2px") && SafeValue("3px")
    ensures SafeValue("0") && SafeValue("0.52") && SafeValue("1")
    ensures SafeValue("uppercase") && SafeValue("none")
  {
  }

  lemma ColorVarSafe()
    ensures SafeValue(ColorVar("background"))
  {
  }

  lemma StyleDerivedSafe(table: Table<string>, angles: Angles)
    requires SoundAngles(angles)
    ensures AllSafe(StyleDerived(table, angles))
  {
    hide Gradient, Get, SafeValue, StyleToken, ColorVar;
    GradientSafe();
    StyleTextSafe();
    ColorVarSafe();
  }

  lemma FileSafe(file: TokenFile, overrides: Table<Primitive>, angles: Angles)
    requires SoundAngles(angles)
    ensures AllSafe(FileDeclarations(file, overrides, angles))
  {
    hide FileTable, StyleDerived, SafeValue, CssName, Sort;
    var table := FileTable(file, overrides, angles).0;
    FileTableSafe(file, overrides, angles);
    StyleDerivedSafe(table, angles);
    var sorted := Sort(table, KeyLe);
    SortPermutes(table, KeyLe);
    SameMembers(sorted, table);
    forall i | 0 <= i < |sorted| ensures SafeValue(sorted[i].1) {
      assert sorted[i] in sorted;
    }
  }

  lemma {:induction false} AllFilesSafe(files: seq<TokenFile>, overrides: Overrides, angles: Angles)
    requires SoundAngles(angles)
    ensures AllSafe(AllDeclarations(files, overrides, angles))
  {
    hide FileDeclarations, SafeValue, OverridesFor, SoundAngles;
    if files != [] {
      FileSafe(files[0], OverridesFor(overrides, files[0].name), angles);
      AllFilesSafe(files[1..], overrides, angles);
    }
  }

  // ----- The round trip

  predicate DistinctNames(ds: seq<Declaration>) { forall i, j :: 0 <= i < j < |ds| ==> ds[i].name != ds[j].name }

  predicate ReadableNames(ds: seq<Declaration>) { forall i :: 0 <= i < |ds| ==> IsName(ds[i].name) }

  /** The declarations the compiled block is printed from. */
  function Compiled(files: seq<TokenFile>, raw: RawOverrides, angles: Angles): seq<Declaration> {
    AllDeclarations(Sort(files, FileLe), NormalizeOverrides(raw, []), angles)
  }

  /** The gate reads back exactly the printed name/value pairs. */
  lemma CompiledReadsBack(files: seq<TokenFile>, raw: RawOverrides, angles: Angles, before: string, after: string)
    requires SoundAngles(angles) && CompiledCss(files, raw, angles).Ok?
    requires ReadableNames(Compiled(files, raw, angles)) && DistinctNames(Compiled(files, raw, angles))
    requires Find(before + ":root{", ":root{") == |before|
    ensures var read := RootVarsOf(before + CompiledCss(files, raw, angles).value + after);
            var ds := Compiled(files, raw, angles);
            read.Ok? &&
            (forall name :: name in read.value <==> exists i :: 0 <= i < |ds| && ds[i].name == name) &&
            (forall i :: 0 <= i < |ds| ==> read.value[ds[i].name] == ds[i].value)
  {
    hide Sort, NormalizeOverrides, AllDeclarations, AllIssues, UnknownFiles, RootVarsOf, Lines, RootCss, Find, IsName,
         Assigned;
    var ds := Compiled(files, raw, angles);
    AllFilesSafe(Sort(files, FileLe), NormalizeOverrides(raw, []), angles);
    assert AllPrintable(ds);
    PrintThenRead(ds, before, after);
    AssignedDistinct(ds, map[]);
  }

  // ----- What each token reads back as

  /** The tokens of a file before overriding. */
  function BaseTable(file: TokenFile, angles: Angles): Table<string> {
    NormalizeBase(file.name, Flatten(file.tokens, None, []), angles).0
  }

  /** The last override of the token under any casing of its name, or else the file's own value. */
  function EffectiveValue(file: TokenFile, overrides: Table<Primitive>, angles: Angles, key: string): Option<string> {
    match LastOverride(overrides, key)
    case Some(v) => NormalizeValue(file.name, key, v, angles)
    case None => Get(BaseTable(file, angles), key)
  }

  lemma {:induction false} GetIsMember(t: Table<string>, key: string)
    requires HasKey(t, key)
    ensures Get(t, key).Some? && (key, Get(t, key).value) in t
  {
    KeysSplit(t, key);
    if t[0].0 != key {
      GetIsMember(t[1..], key);
    }
  }

  /** The declarations of one file stand together among all of them. */
  lemma {:induction false} FileWithinAll(files: seq<TokenFile>, overrides: Overrides, angles: Angles, file: TokenFile)
    returns (before: seq<Declaration>, after: seq<Declaration>)
    requires file in files
    ensures AllDeclarations(files, overrides, angles) ==
            before + FileDeclarations(file, OverridesFor(overrides, file.name), angles) + after
    ensures AllIssues(files, overrides, angles) == [] ==>
            FileTable(file, OverridesFor(overrides, file.name), angles).1 == []
  {
    hide FileDeclarations, FileTable, OverridesFor;
    if files[0] == file {
      before, after := [], AllDeclarations(files[1..], overrides, angles);
    } else {
      before, after := FileWithinAll(files[1..], overrides, angles, file);
      before := FileDeclarations(files[0], OverridesFor(overrides, files[0].name), angles) + before;
    }
  }

  /** Distinct printed names leave no two tokens of a file that differ only in casing. */
  lemma DistinctNamesSeparate(table: Table<string>, prefix: string)
    requires DistinctNames(Declared(prefix, Sort(table, KeyLe)))
    ensures KebabDistinct(table)
  {
    var sorted := Sort(table, KeyLe);
    var ds := Declared(prefix, sorted);
    hide Kebab, Sort, Declared;
    SortPermutes(table, KeyLe);
    SameMembers(table, sorted);
    forall x, y | HasKey(table, x) && HasKey(table, y) && Kebab(x) == Kebab(y) ensures x == y {
      var i :| 0 <= i < |table| && table[i].0 == x;
      var j :| 0 <= j < |table| && table[j].0 == y;
      assert table[i] in sorted && table[j] in sorted;
      var a :| 0 <= a < |sorted| && sorted[a] == table[i];
      var b :| 0 <= b < |sorted| && sorted[b] == table[j];
      assert ds[a].name == ds[b].name;
    }
  }

  /**
   * Every token of every file reads back, under its printed name, as its effective value: the last
   * override whose name has the same kebab case, or else the value in the file.
   */
  lemma TokenReadsBack(files: seq<TokenFile>, raw: RawOverrides, angles: Angles, before: string, after: string,
                       file: TokenFile, key: string)
    requires SoundAngles(angles) && CompiledCss(files, raw, angles).Ok?
    requires ReadableNames(Compiled(files, raw, angles)) && DistinctNames(Compiled(files, raw, angles))
    requires Find(before + ":root{", ":root{") == |before|
    requires file in files && HasKey(BaseTable(file, angles), key)
    ensures var read := RootVarsOf(before + CompiledCss(files, raw, angles).value + after);
            var name := CssName(Prefix(file.name), key);
            var value := EffectiveValue(file, OverridesFor(NormalizeOverrides(raw, []), file.name), angles, key);
            read.Ok? && name in read.value && value == Some(read.value[name]) &&
            (file.name == "color" ==> IsHexColor(read.value[name]))
  {
    var overrides, ordered := NormalizeOverrides(raw, []), Sort(files, FileLe);
    var own := OverridesFor(overrides, file.name);
    SortPermutes(files, FileLe);
    SameMembers(files, ordered);
    CompiledReadsBack(files, raw, angles, before, after);
    var above, below := FileWithinAll(ordered, overrides, angles, file);
    var table := FileTable(file, own, angles).0;
    TableReadsBack(file, own, angles, key, above, below, AllDeclarations(ordered, overrides, angles));
  }

  lemma WhereSorted(table: Table<string>, pair: (string, string)) returns (k: nat)
    requires pair in table
    ensures k < |Sort(table, KeyLe)| && Sort(table, KeyLe)[k] == pair
  {
    hide Sort;
    SortPermutes(table, KeyLe);
    SameMembers(table, Sort(table, KeyLe));
    k :| 0 <= k < |Sort(table, KeyLe)| && Sort(table, KeyLe)[k] == pair;
  }

  lemma TableReadsBack(file: TokenFile, own: Table<Primitive>, angles: Angles, key: string,
                       above: seq<Declaration>, below: seq<Declaration>, ds: seq<Declaration>)
    requires DistinctNames(ds) && ds == above + FileDeclarations(file, own, angles) + below
    requires FileTable(file, own, angles).1 == [] && HasKey(BaseTable(file, angles), key)
    ensures exists i :: 0 <= i < |ds| && ds[i].name == CssName(Prefix(file.name), key) &&
                        EffectiveValue(file, own, angles, key) == Some(ds[i].value) &&
                        (file.name == "color" ==> IsHexColor(ds[i].value))
  {
    var base, table := BaseTable(file, angles), FileTable(file, own, angles).0;
    var declared := Declared(Prefix(file.name), Sort(table, KeyLe));
    FileTableSafe(file, own, angles);
    forall x ensures HasKey(table, x) <==> HasKey(base, x) {
      OverridesKeepKeys(file.name, base, own, base, angles, x);
    }
    assert DistinctNames(declared) by {
      forall i, j | 0 <= i < j < |declared| ensures declared[i].name != declared[j].name {
        assert ds[|above| + i] == declared[i] && ds[|above| + j] == declared[j];
      }
    }
    DistinctNamesSeparate(table, Prefix(file.name));
    OverriddenValue(file.name, base, own, base, angles, key);
    GetIsMember(table, key);
    var pair := (key, Get(table, key).value);
    var k := WhereSorted(table, pair);
    assert ds[|above| + k] == declared[k];
    assert pair in table;
  }

  /** A colour token, referred to through the compiled block, evaluates to the colour it declares. */
  lemma ColorTokenResolves(name: string, value: string, vars: Vars)
    requires IsName(name) && name in vars && vars[name] == value && IsHexColor(value)
    ensures ResolveRgba("var(--" + name + ")", vars, {}) == Ok(HexColor(value))
  {
    hide ParseColor;
    assert "var(--" + name + ")" == Print(Var(name, None));
    assert WellFormed(Var(name, None));
    ReadPrinted(Var(name, None));
    ReadPrinted(Hex(value));
    assert Resolve(ParseColor, value, vars, {} + {name}) == Ok(HexColor(value));
  }
}
