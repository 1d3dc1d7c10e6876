/** `mapTokensToCss`: design tokens and their overrides, printed as the `:root` block. */
module TokenCss {
  import opened Text
  import opened Sorting
  import opened RootVars
  import opened ColorExpression

  // ----- Tokens

  predicate IsNumberChar(c: char) { IsDigit(c) || 'a' <= Lower(c) <= 'z' || c == '.' || c == '+' || c == '-' }

  predicate IsNumberText(s: string) { s != [] && forall i :: 0 <= i < |s| ==> IsNumberChar(s[i]) }

  /** What `String` renders a number as. */
  type NumberText = s: string | IsNumberText(s) witness "0"

  datatype Primitive = Str(s: string) | Num(text: NumberText, finite: bool) | Flag(value: bool)

  /** A token file's JSON value; `Ignored` stands for null and arrays. */
  datatype Node = Leaf(value: Primitive) | Group(entries: Tokens) | Ignored

  datatype Tokens = End | Entry(key: string, value: Node, rest: Tokens)

  datatype TokenFile = TokenFile(name: string, tokens: Tokens)

  /** Number formatting of degree angles: the text in `[-24deg, 24deg]`, and the negated text. */
  datatype Angles = Angles(normalize: string -> Option<string>, invert: string -> string)

  ghost predicate SoundAngles(angles: Angles) { forall s :: SafeValue(angles.invert(s)) }

  datatype Issue =
    | UnknownTokenFile(file: string)
    | UnsafeBaseTokenValue(file: string, key: string)
    | UnknownTokenKey(file: string, key: string)
    | UnsafeTokenValue(file: string, key: string)

  // ----- Objects as ordered tables

  type Table<V> = seq<(string, V)>

  function Put<V>(t: Table<V>, key: string, value: V): (r: Table<V>)
    ensures Get(r, key) == Some(value)
    ensures forall k :: k != key ==> Get(r, k) == Get(t, k)
  {
    if t == [] then [(key, value)]
    else if t[0].0 == key then
      var r := [(key, value)] + t[1..];
      assert r[1..] == t[1..];
      r
    else
      var rest := Put(t[1..], key, value);
      var r := [t[0]] + rest;
      assert r[1..] == rest;
      r
  }

  function Get<V>(t: Table<V>, key: string): Option<V> {
    if t == [] then None else if t[0].0 == key then Some(t[0].1) else Get(t[1..], key)
  }

  function PutAll<V>(t: Table<V>, more: Table<V>): Table<V>
    decreases |more|
  {
    if more == [] then t else PutAll(Put(t, more[0].0, more[0].1), more[1..])
  }

  // ----- Flattening

  function Path(parent: Option<string>, key: string): string {
    if parent.None? then key else parent.value + "-" + key
  }

  function Flatten(tokens: Tokens, parent: Option<string>, flat: Table<Primitive>): Table<Primitive> {
    match tokens
    case End => flat
    case Entry(key, Leaf(value), rest) => Flatten(rest, parent, Put(flat, Path(parent, key), value))
    case Entry(key, Group(inner), rest) =>
      Flatten(rest, parent, PutAll(flat, Flatten(inner, Some(Path(parent, key)), [])))
    case Entry(key, Ignored, rest) => Flatten(rest, parent, flat)
  }

  function Stringify(p: Primitive): string {
    match p
    case Str(s) => s
    case Num(text, _) => text
    case Flag(value) => if value then "true" else "false"
  }

  // ----- Names

  predicate IsUpper(c: char) { 'A' <= c <= 'Z' }

  predicate IsLowerOrDigit(c: char) { 'a' <= c <= 'z' || IsDigit(c) }

  function KebabChar(c: char): char { if c == '_' then '-' else Lower(c) }

  function Kebab(s: string): string {
    if s == [] then ""
    else if |s| >= 2 && IsLowerOrDigit(s[0]) && IsUpper(s[1]) then [KebabChar(s[0]), '-'] + Kebab(s[1..])
    else [KebabChar(s[0])] + Kebab(s[1..])
  }

  predicate IsKebab(s: string) { forall i :: 0 <= i < |s| ==> !IsUpper(s[i]) && s[i] != '_' }

  function CssName(prefix: string, key: string): string {
    var kebab := Kebab(key);
    prefix + "-" + (if StartsWith(kebab, prefix + "-") then kebab[|prefix| + 1..] else kebab)
  }

  function FileRank(name: string): nat {
    if name == "color" then 0 else if name == "typography" then 1 else if name == "spacing" then 2
    else if name == "radius" then 3 else if name == "shadow" then 4 else if name == "motion" then 5
    else if name == "style" then 6 else 7
  }

  function Prefix(file: string): string {
    if file == "typography" then "type"
    else if file == "spacing" then "space"
    else if FileRank(file) < 7 then file
    else Kebab(file)
  }

  // ----- Values

  /** What a printed declaration can carry unchanged. */
  predicate SafeValue(v: string) {
    v != [] && Trimmed(v) && forall i :: 0 <= i < |v| ==> v[i] != ';' && v[i] != '}'
  }

  predicate IsValueChar(c: char) {
    'a' <= Lower(c) <= 'z' || IsDigit(c) || IsSpace(c) || c in "#%.,()/\"'-"
  }

  predicate AllValueChars(s: string) { forall i :: 0 <= i < |s| ==> IsValueChar(s[i]) }

  predicate IsDeniedChar(c: char) { c in "<>{};\\" }

  predicate Contains(s: string, pattern: string) { Find(s, pattern) >= 0 }

  /** `word`, then white space, then `mark`, somewhere in `s`, ignoring case. */
  predicate Mentions(s: string, word: string, mark: char) {
    s != [] &&
    ((StartsWithIgnoreCase(s, word) && var t := TrimStart(s[|word|..]); t != [] && t[0] == mark) ||
     Mentions(s[1..], word, mark))
  }

  predicate IsWordChar(c: char) { 'a' <= Lower(c) <= 'z' || IsDigit(c) || c == '_' }

  predicate MentionsImport(s: string) {
    s != [] &&
    ((StartsWithIgnoreCase(s, "@import") && (|s| == 7 || !IsWordChar(s[7]))) || MentionsImport(s[1..]))
  }

  const ALLOWED_FUNCTIONS := {"rgb", "rgba", "hsl", "hsla", "cubic-bezier"}

  /** Every call that starts at a word boundary names an allowed function. */
  predicate CallsAllowed(s: string, afterWord: bool)
    decreases |s|
  {
    s == [] ||
    if 'a' <= Lower(s[0]) <= 'z' && !afterWord then
      var name := s[..NameRun(s)];
      var rest := TrimStart(s[|name|..]);
      if name != "" && rest != [] && rest[0] == '(' then
        LowerAll(name) in ALLOWED_FUNCTIONS && CallsAllowed(rest[1..], false)
      else CallsAllowed(s[1..], true)
    else CallsAllowed(s[1..], IsWordChar(s[0]))
  }

  /** No character, comment mark or word that is refused wherever it stands. */
  predicate NothingDenied(t: string) {
    (forall i :: 0 <= i < |t| ==> !IsDeniedChar(t[i])) && !Contains(t, "/*") && !Contains(t, "*/") &&
    !Mentions(t, "javascript", ':') && !Mentions(t, "vbscript", ':') && !Mentions(t, "data", ':') &&
    !MentionsImport(t) && !Mentions(t, "expression", '(') && !Mentions(t, "url", '(')
  }

  function NormalizeCss(value: Primitive): (r: Option<string>)
    ensures r.Some? ==> SafeValue(r.value)
  {
    match value
    case Num(text, finite) => if finite then Some(text) else None
    case Flag(_) => None
    case Str(s) =>
      var t := Trim(s);
      if t == "" || |t| > 240 then None
      else if !NothingDenied(t) then None
      else if !AllValueChars(t) then None
      else if !CallsAllowed(t, false) then None
      else Some(t)
  }

  /**
   * A text that is let through comes out trimmed and otherwise as it was, within 240 characters, and is let through
   * again as it came out; so storing a compiled value and compiling it once more changes nothing.
   */
  lemma NormalizeCssStable(text: string)
    ensures NormalizeCss(Str(text)).Some? ==>
      var v := NormalizeCss(Str(text)).value;
      v == Trim(text) && |v| <= 240 && AllValueChars(v) && CallsAllowed(v, false) && NothingDenied(v) &&
      NormalizeCss(Str(v)) == Some(v)
  {
    hide Mentions, MentionsImport, CallsAllowed, Contains, AllValueChars;
    assert Trim(Trim(text)) == Trim(text) by {
      TrimPadded("", Trim(text), "");
      assert "" + Trim(text) + "" == Trim(text);
    }
  }

  function StyleChoices(key: string): set<string> {
    if key == "decoration_intensity" then {"none", "subtle", "bold"}
    else if key == "corner_style" then {"sharp", "rounded", "pill"}
    else if key == "heading_case" then {"none", "upper"}
    else if key == "surface_treatment" then {"flat", "gradient"}
    else {}
  }

  lemma StyleChoicesSafe(key: string, choice: string)
    requires choice in StyleChoices(key)
    ensures SafeValue(choice)
  {
    hide Trim;
  }

  function NormalizeStyle(key: string, value: Primitive, angles: Angles): (r: Option<string>)
    ensures r.Some? ==> SafeValue(r.value)
  {
    if key == "accent_angle_deg" then
      var raw := match value
        case Num(text, _) => text + "deg"
        case Str(s) => Trim(s)
        case Flag(_) => "";
      var angle := angles.normalize(raw);
      if angle.None? then None else NormalizeCss(Str(angle.value))
    else if !value.Str? then None
    else
      var t := Trim(value.s);
      if t in StyleChoices(key) then StyleChoicesSafe(key, t); Some(t) else None
  }

  function NormalizeValue(file: string, key: string, value: Primitive, angles: Angles): (r: Option<string>)
    ensures r.Some? ==> SafeValue(r.value)
    ensures r.Some? && file == "color" ==> IsHexColor(r.value)
  {
    if file == "style" then NormalizeStyle(key, value, angles)
    else
      var r := NormalizeCss(value);
      if r.Some? && file == "color" && !IsHexColor(r.value) then None else r
  }

  // ----- One token file

  function NormalizeBase(file: string, flat: Table<Primitive>, angles: Angles): (Table<string>, seq<Issue>) {
    if flat == [] then ([], [])
    else
      var (table, issues) := NormalizeBase(file, flat[1..], angles);
      match NormalizeValue(file, flat[0].0, Str(Stringify(flat[0].1)), angles)
      case None => (table, [UnsafeBaseTokenValue(file, flat[0].0)] + issues)
      case Some(v) => ([(flat[0].0, v)] + table, issues)
  }

  /** The names an override may use for each token; a later token takes over a shared one. */
  function Candidates(table: Table<string>, found: map<string, string>): map<string, string> {
    if table == [] then found
    else Candidates(table[1..], found[table[0].0 := table[0].0][Kebab(table[0].0) := table[0].0])
  }

  function TokenFor(candidates: map<string, string>, key: string): Option<string> {
    if key in candidates then Some(candidates[key])
    else if Kebab(key) in candidates then Some(candidates[Kebab(key)])
    else None
  }

  function ApplyOverrides(file: string, candidates: map<string, string>, overrides: Table<Primitive>,
                          table: Table<string>, angles: Angles): (Table<string>, seq<Issue>)
    decreases |overrides|
  {
    if overrides == [] then (table, [])
    else
      var (key, value) := overrides[0];
      var token := TokenFor(candidates, key);
      if token.None? then
        var (t, issues) := ApplyOverrides(file, candidates, overrides[1..], table, angles);
        (t, [UnknownTokenKey(file, key)] + issues)
      else match NormalizeValue(file, token.value, value, angles)
        case None =>
          var (t, issues) := ApplyOverrides(file, candidates, overrides[1..], table, angles);
          (t, [UnsafeTokenValue(file, key)] + issues)
        case Some(v) =>
          ApplyOverrides(file, candidates, overrides[1..], Put(table, token.value, v), angles)
  }

  predicate KeyLe(x: (string, string), y: (string, string)) { StringLe(x.0, y.0) }

  function Declared(prefix: string, table: Table<string>): (ds: seq<Declaration>)
    ensures |ds| == |table|
    ensures forall i :: 0 <= i < |ds| ==> ds[i] == Declaration(CssName(prefix, table[i].0), table[i].1)
  {
    if table == [] then []
    else [Declaration(CssName(prefix, table[0].0), table[0].1)] + Declared(prefix, table[1..])
  }

  function StyleToken(table: Table<string>, key: string, default: string): string {
    match Get(table, key)
    case Some(v) => v
    case None => default
  }

  function StyleDerived(table: Table<string>, angles: Angles): seq<Declaration> {
    var decoration := StyleToken(table, "decoration_intensity", "bold");
    var angle := StyleToken(table, "accent_angle_deg", "-8deg");
    var corner := StyleToken(table, "corner_style", "sharp");
    var heading := StyleToken(table, "heading_case", "none");
    var surface := StyleToken(table, "surface_treatment", "gradient");
    [ Declaration("style-accent-angle-inverse-deg", angles.invert(angle)),
      Declaration("style-corner-radius",
                  if corner == "pill" then "999px" else if corner == "rounded" then "var(--radius-lg)"
                  else "var(--radius-none)"),
      Declaration("style-decoration-border-width",
                  if decoration == "none" then "0px" else if decoration == "subtle" then "2px" else "3px"),
      Declaration("style-decoration-opacity",
                  if decoration == "none" then "0" else if decoration == "subtle" then "0.52" else "1"),
      Declaration("style-heading-transform", if heading == "upper" then "uppercase" else "none"),
      Declaration("style-surface-background",
                  if surface == "flat" then ColorVar("background") else Gradient()) ]
  }

  function ColorVar(name: string): string { "var(--color-" + name + ")" }

  function MixText(first: string, percent: string, second: string): string {
    "color-mix(in " + "srgb, " + first + percent + ", " + second + ")"
  }

  function Gradient(): string {
    var background, surface := ColorVar("background"), ColorVar("surface");
    "linear-gradient(" + "105deg, " + background + " 0%, " + MixText(background, " 86%", surface) + " 47%, " +
    MixText(surface, " 72%", background) + " 100%)"
  }

  predicate Carries(s: string) { forall i :: 0 <= i < |s| ==> s[i] != ';' && s[i] != '}' }

  lemma CarriesConcat(x: string, y: string)
    requires Carries(x) && Carries(y)
    ensures Carries(x + y)
  {
  }

  lemma MixTextCarries(first: string, percent: string, second: string)
    requires Carries(first) && Carries(percent) && Carries(second)
    ensures Carries(MixText(first, percent, second))
  {
    assert Carries("color-mix(in ") && Carries("srgb, ") && Carries(", ") && Carries(")");
  }

  lemma GradientSafe()
    ensures SafeValue(Gradient())
  {
    var background, surface := ColorVar("background"), ColorVar("surface");
    assert Carries(background) && Carries(surface);
    var first, second := MixText(background, " 86%", surface), MixText(surface, " 72%", background);
    MixTextCarries(background, " 86%", surface);
    MixTextCarries(surface, " 72%", background);
    hide ColorVar, MixText;
    var open, tail := "linear-gradient(" + "105deg, " + background, " 100%)";
    assert Carries(open) && open[0] == 'l' && Carries(tail);
    CarriesConcat(open, " 0%, ");
    CarriesConcat(open + " 0%, ", first);
    CarriesConcat(open + " 0%, " + first, " 47%, ");
    CarriesConcat(open + " 0%, " + first + " 47%, ", second);
    CarriesConcat(open + " 0%, " + first + " 47%, " + second, tail);
  }

  predicate AllSafe(ds: seq<Declaration>) { forall i :: 0 <= i < |ds| ==> SafeValue(ds[i].value) }

  /** The tokens of one file after overriding, and everything found wrong with them. */
  function FileTable(file: TokenFile, overrides: Table<Primitive>, angles: Angles): (Table<string>, seq<Issue>) {
    var (base, baseIssues) := NormalizeBase(file.name, Flatten(file.tokens, None, []), angles);
    var (table, issues) := ApplyOverrides(file.name, Candidates(base, map[]), overrides, base, angles);
    (table, baseIssues + issues)
  }

  function FileDeclarations(file: TokenFile, overrides: Table<Primitive>, angles: Angles): seq<Declaration> {
    var table := FileTable(file, overrides, angles).0;
    Declared(Prefix(file.name), Sort(table, KeyLe)) +
    (if file.name == "style" then StyleDerived(table, angles) else [])
  }

  // ----- All files

  type Overrides = Table<Table<Primitive>>

  function OverridesFor(overrides: Overrides, file: string): Table<Primitive> {
    match Get(overrides, file)
    case Some(t) => t
    case None => []
  }

  /** `color.json` and `color` name the same file; the later entry wins key by key. */
  function NormalizeOverrides(raw: Table<Option<Table<Primitive>>>, found: Overrides): Overrides {
    if raw == [] then found
    else
      var (name, given) := raw[0];
      if given.None? then NormalizeOverrides(raw[1..], found)
      else
        var file := if |name| >= 5 && EqualsIgnoreCase(name[|name| - 5..], ".json") then name[..|name| - 5] else name;
        NormalizeOverrides(raw[1..], Put(found, file, PutAll(OverridesFor(found, file), given.value)))
  }

  function UnknownFiles(overrides: Overrides, files: seq<TokenFile>): seq<Issue> {
    if overrides == [] then []
    else (if exists i :: 0 <= i < |files| && files[i].name == overrides[0].0 then []
          else [UnknownTokenFile(overrides[0].0)]) + UnknownFiles(overrides[1..], files)
  }

  function AllDeclarations(files: seq<TokenFile>, overrides: Overrides, angles: Angles): seq<Declaration> {
    if files == [] then []
    else FileDeclarations(files[0], OverridesFor(overrides, files[0].name), angles) +
         AllDeclarations(files[1..], overrides, angles)
  }

  function AllIssues(files: seq<TokenFile>, overrides: Overrides, angles: Angles): seq<Issue> {
    if files == [] then []
    else FileTable(files[0], OverridesFor(overrides, files[0].name), angles).1 +
         AllIssues(files[1..], overrides, angles)
  }

  predicate FileLe(x: TokenFile, y: TokenFile) {
    FileRank(x.name) < FileRank(y.name) ||
    (FileRank(x.name) == FileRank(y.name) && (FileRank(x.name) < 7 || StringLe(x.name, y.name)))
  }
}
