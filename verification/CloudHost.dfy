/** Undeclared point clouds in a page: each payload's innermost holders must sit in a scene with a validated canvas. */
module CloudHost {
  import opened Text

  /** A parsed page. The root is an element of no tag, class or attribute. */
  datatype Node =
    | TextNode(text: string)
    | Element(tag: string, classes: seq<string>, attributes: set<string>, children: seq<Node>)

  /** An element, as the way down to it from the root: its parent is the way without the last step. */
  type Way = seq<nat>

  // ----- The tree

  /** Text of the node and all below it, in document order, as it is written in the page. */
  function TextOf(n: Node): string
    decreases n, 1
  {
    match n
    case TextNode(text) => text
    case Element(_, _, _, children) => TextsOf(n, |children|)
  }

  function TextsOf(n: Node, k: nat): string
    requires n.Element? && k <= |n.children|
    decreases n, 0, k
  {
    if k == 0 then "" else TextsOf(n, k - 1) + TextOf(n.children[k - 1])
  }

  predicate Leads(n: Node, way: Way) {
    way == [] || (n.Element? && way[0] < |n.children| && Leads(n.children[way[0]], way[1..]))
  }

  function NodeAt(n: Node, way: Way): Node
    requires Leads(n, way)
  {
    if way == [] then n else NodeAt(n.children[way[0]], way[1..])
  }

  predicate LeadsToElement(n: Node, way: Way) { Leads(n, way) && NodeAt(n, way).Element? }

  function Prefixed(step: nat, ways: seq<Way>): (r: seq<Way>)
    ensures forall w :: w in r <==> w != [] && w[0] == step && w[1..] in ways
  {
    if ways == [] then []
    else
      var first := [step] + ways[0];
      assert first[1..] == ways[0];
      var r := [first] + Prefixed(step, ways[1..]);
      assert forall w :: w in r && w == first ==> w[1..] == ways[0];
      assert forall w: Way :: w != [] && w[0] == step && w[1..] == ways[0] ==> w == first;
      r
  }

  /** `querySelectorAll("*")`: every element below the node, in document order. */
  function Descendants(n: Node): seq<Way>
    decreases n, 1
  {
    match n
    case TextNode(_) => []
    case Element(_, _, _, children) => DescendantsFrom(n, 0)
  }

  function DescendantsFrom(n: Node, k: nat): seq<Way>
    requires n.Element? && k <= |n.children|
    decreases n, 0, |n.children| - k
  {
    if k == |n.children| then []
    else
      Prefixed(k, SelfAndBelow(n.children[k])) + DescendantsFrom(n, k + 1)
  }

  function SelfAndBelow(n: Node): seq<Way>
    decreases n, 2
  {
    if n.Element? then [[]] + Descendants(n) else Descendants(n)
  }

  lemma {:induction false} DescendantsAre(n: Node, way: Way)
    ensures way in Descendants(n) <==> way != [] && LeadsToElement(n, way)
    decreases n, 1
  {
    if n.Element? {
      DescendantsFromAre(n, 0, way);
    }
  }

  lemma {:induction false} SelfAndBelowAre(n: Node, way: Way)
    ensures way in SelfAndBelow(n) <==> LeadsToElement(n, way)
    decreases n, 2
  {
    hide Descendants;
    DescendantsAre(n, way);
  }

  lemma StepDown(n: Node, way: Way)
    requires n.Element? && way != [] && way[0] < |n.children|
    ensures LeadsToElement(n, way) <==> LeadsToElement(n.children[way[0]], way[1..])
  {
  }

  lemma {:induction false} DescendantsFromAre(n: Node, k: nat, way: Way)
    requires n.Element? && k <= |n.children|
    ensures way in DescendantsFrom(n, k) <==> way != [] && way[0] >= k && LeadsToElement(n, way)
    decreases n, 0, |n.children| - k
  {
    hide SelfAndBelow, NodeAt;
    if k < |n.children| {
      DescendantsFromAre(n, k + 1, way);
      if way != [] && way[0] == k {
        SelfAndBelowAre(n.children[k], way[1..]);
        StepDown(n, way);
      }
    }
  }

  // ----- The payload signature

  /** Some stretch of the text is in the language: what an unanchored regular expression looks for. */
  predicate Contains(text: string, language: string -> bool) {
    exists i, j :: 0 <= i <= |text| && i <= j <= |text| && language(text[i..j])
  }

  predicate IsQuote(c: char) { c == '"' || c == '\'' }

  /** A quoted field name and its colon. */
  predicate Field(w: string, name: string) {
    |w| >= |name| + 3 && IsQuote(w[0]) && EqualsIgnoreCase(w[1..|name| + 1], name) && IsQuote(w[|name| + 1]) &&
    AllSpaces(w[|name| + 2..|w| - 1]) && w[|w| - 1] == ':'
  }

  predicate GeometryField(w: string) { Field(w, "positions") || Field(w, "facetPositions") || Field(w, "edges") }

  predicate CountField(w: string) { Field(w, "pointCount") }

  predicate BufferTag(w: string) {
    EqualsIgnoreCase(w, "base64:f32le") || EqualsIgnoreCase(w, "base64:u16le") || EqualsIgnoreCase(w, "base64:u8")
  }

  predicate HasCloudPayloadSignature(text: string) {
    Contains(text, GeometryField) && (Contains(text, CountField) || Contains(text, BufferTag))
  }

  /** The same text but for the case of its letters. */
  predicate Alike(a: string, b: string) { |a| == |b| && forall m :: 0 <= m < |a| ==> Lower(a[m]) == Lower(b[m]) }

  predicate WordAt(text: string, word: string, i: nat) {
    i + |word| <= |text| && Alike(text[i..i + |word|], word)
  }

  /** A quoted name that starts at `i`, and its colon at `k`, with nothing but white space before it. */
  predicate FieldAt(text: string, name: string, i: nat, k: nat) {
    var end := i + 1 + |name|;
    end < k < |text| && (text[i] == '"' || text[i] == '\'') && WordAt(text, name, i + 1) &&
    (text[end] == '"' || text[end] == '\'') && (forall m :: end < m < k ==> IsSpace(text[m])) && text[k] == ':'
  }

  ghost predicate NamesField(text: string, name: string) { exists i: nat, k: nat :: FieldAt(text, name, i, k) }

  ghost predicate Says(text: string, word: string) { exists i: nat :: WordAt(text, word, i) }

  lemma AlikeIs(a: string, b: string)
    ensures EqualsIgnoreCase(a, b) <==> Alike(a, b)
  {
  }

  lemma FieldFound(text: string, i: nat, j: nat, name: string)
    requires i < j <= |text|
    ensures Field(text[i..j], name) <==> FieldAt(text, name, i, j - 1)
  {
    hide EqualsIgnoreCase, Alike;
    var w, end := text[i..j], i + 1 + |name|;
    if |w| >= |name| + 3 {
      SliceOfSlice(text, i, j, 1, |name| + 1);
      SliceOfSlice(text, i, j, |name| + 2, |w| - 1);
      AlikeIs(w[1..|name| + 1], name);
      SpacesBetween(text, end + 1, j - 1);
    }
  }

  lemma SliceOfSlice(text: string, i: nat, j: nat, a: nat, b: nat)
    requires i <= j <= |text| && a <= b <= j - i
    ensures text[i..j][a..b] == text[i + a..i + b]
  {
    var w := text[i..j];
    var x, y := w[a..b], text[i + a..i + b];
    assert |x| == |y|;
    forall m | 0 <= m < |x| ensures x[m] == y[m] {
      assert x[m] == w[a + m] && w[a + m] == text[i + (a + m)];
    }
  }

  lemma SpacesBetween(text: string, i: nat, j: nat)
    requires i <= j <= |text|
    ensures AllSpaces(text[i..j]) <==> forall m :: i <= m < j ==> IsSpace(text[m])
  {
    if AllSpaces(text[i..j]) {
      forall m | i <= m < j ensures IsSpace(text[m]) {
        assert text[i..j][m - i] == text[m];
      }
    }
  }

  lemma NamesFieldIs(text: string, name: string)
    ensures (exists i, j :: 0 <= i <= |text| && i <= j <= |text| && Field(text[i..j], name)) <==> NamesField(text, name)
  {
    hide FieldAt;
    if i, j :| 0 <= i <= |text| && i <= j <= |text| && Field(text[i..j], name) {
      assert i < j;
      hide Field;
      FieldFound(text, i, j, name);
      assert FieldAt(text, name, i, j - 1);
    }
    if i: nat, k: nat :| FieldAt(text, name, i, k) {
      assert i < k + 1 <= |text| by { Within(text, name, i, k); }
      hide Field;
      FieldFound(text, i, k + 1, name);
      assert Field(text[i..k + 1], name);
    }
  }

  lemma Within(text: string, name: string, i: nat, k: nat)
    requires FieldAt(text, name, i, k)
    ensures i < k < |text|
  {
  }

  lemma SaysIs(text: string, word: string)
    ensures (exists i, j :: 0 <= i <= |text| && i <= j <= |text| && EqualsIgnoreCase(text[i..j], word)) <==>
      Says(text, word)
  {
    if i, j :| 0 <= i <= |text| && i <= j <= |text| && EqualsIgnoreCase(text[i..j], word) {
      AlikeIs(text[i..j], word);
      hide EqualsIgnoreCase, Alike;
      assert j == i + |word| by { assert EqualsIgnoreCase(text[i..j], word); SameLength(text[i..j], word); }
      assert WordAt(text, word, i);
    }
    if i: nat :| WordAt(text, word, i) {
      AlikeIs(text[i..i + |word|], word);
    }
  }

  lemma SameLength(a: string, b: string)
    requires EqualsIgnoreCase(a, b)
    ensures |a| == |b|
  {
  }

  /** The signature: one of three geometry fields, and either a point count or the tag of one of three encodings. */
  lemma SignatureExactly(text: string)
    ensures HasCloudPayloadSignature(text) <==>
      (NamesField(text, "positions") || NamesField(text, "facetPositions") || NamesField(text, "edges")) &&
      (NamesField(text, "pointCount") || Says(text, "base64:f32le") || Says(text, "base64:u16le") ||
       Says(text, "base64:u8"))
  {
    NamesFieldIs(text, "positions");
    NamesFieldIs(text, "facetPositions");
    NamesFieldIs(text, "edges");
    NamesFieldIs(text, "pointCount");
    SaysIs(text, "base64:f32le");
    SaysIs(text, "base64:u16le");
    SaysIs(text, "base64:u8");
    hide Field, NamesField, Says, EqualsIgnoreCase;
  }

  lemma ContainsWithin(before: string, text: string, after: string, language: string -> bool)
    requires Contains(text, language)
    ensures Contains(before + text + after, language)
  {
    var i, j :| 0 <= i <= j <= |text| && language(text[i..j]);
    var whole := before + text + after;
    assert whole[|before| + i..|before| + j] == text[i..j];
  }

  lemma SignatureWithin(before: string, text: string, after: string)
    requires HasCloudPayloadSignature(text)
    ensures HasCloudPayloadSignature(before + text + after)
  {
    ContainsWithin(before, text, after, GeometryField);
    if Contains(text, CountField) {
      ContainsWithin(before, text, after, CountField);
    } else {
      ContainsWithin(before, text, after, BufferTag);
    }
  }

  /**
   * Decoding character references. An element's text is decoded as a whole, so what a child says on its own may read
   * differently in its parent, when a reference runs over the end of the child.
   */
  type Decoder = string -> string

  /** What the signature is looked for in. */
  function SeenText(n: Node, decode: Decoder): string { decode(TextOf(n)) }

  function SeenTexts(n: Node, k: nat, decode: Decoder): string
    requires n.Element? && k <= |n.children|
  {
    if k == 0 then "" else SeenTexts(n, k - 1, decode) + SeenText(n.children[k - 1], decode)
  }

  /** Nowhere at or below the node does a reference run from one child into the next. */
  ghost predicate NoneRunsOver(n: Node, decode: Decoder)
    decreases n
  {
    n.Element? ==>
      SeenText(n, decode) == SeenTexts(n, |n.children|, decode) &&
      forall i :: 0 <= i < |n.children| ==> NoneRunsOver(n.children[i], decode)
  }

  lemma {:induction false} ChildText(n: Node, i: nat, k: nat, decode: Decoder) returns (before: string, after: string)
    requires n.Element? && i < k <= |n.children|
    ensures SeenTexts(n, k, decode) == before + SeenText(n.children[i], decode) + after
  {
    if i == k - 1 {
      before, after := SeenTexts(n, k - 1, decode), "";
    } else {
      var b, a := ChildText(n, i, k - 1, decode);
      before, after := b, a + SeenText(n.children[k - 1], decode);
    }
  }

  /** Where none runs over, the match is upward closed: what holds a matching element matches too. */
  lemma {:induction false} SignatureUpward(n: Node, way: Way, decode: Decoder)
    requires Leads(n, way) && HasCloudPayloadSignature(SeenText(NodeAt(n, way), decode)) && NoneRunsOver(n, decode)
    ensures HasCloudPayloadSignature(SeenText(n, decode))
  {
    hide HasCloudPayloadSignature, SeenText;
    if way != [] {
      SignatureUpward(n.children[way[0]], way[1..], decode);
      var before, after := ChildText(n, way[0], |n.children|, decode);
      SignatureWithin(before, SeenText(n.children[way[0]], decode), after);
    }
  }

  // ----- Walking up

  predicate StrictlyBelow(way: Way, ancestor: Way) { ancestor <= way && |ancestor| < |way| }

  method IsDescendantOf(node: Way, ancestor: Way) returns (r: bool)
    ensures r <==> StrictlyBelow(node, ancestor)
  {
    if node == [] {
      return false;
    }
    var current := node[..|node| - 1];
    while true
      invariant current < node
      invariant StrictlyBelow(node, ancestor) ==> ancestor <= current
      decreases |current|
    {
      if current == ancestor {
        return true;
      }
      if current == [] {
        return false;
      }
      current := current[..|current| - 1];
    }
  }

  predicate IsScene(n: Node) {
    n.Element? && (EqualsIgnoreCase(n.tag, "section") || "point-cloud-bg" in n.classes)
  }

  /** `scene` is a scene section at or above `way`, and the lowest such. */
  predicate NearestScene(root: Node, way: Way, scene: Way)
    requires Leads(root, way)
  {
    scene <= way && SceneAt(root, way, |scene|) &&
    forall k :: |scene| < k <= |way| ==> !SceneAt(root, way, k)
  }

  /** The element `k` steps down the way is a scene section. */
  predicate SceneAt(root: Node, way: Way, k: nat)
    requires Leads(root, way) && k <= |way|
  {
    PrefixLeads(root, way, k);
    IsScene(NodeAt(root, way[..k]))
  }

  lemma {:induction false} PrefixLeads(root: Node, way: Way, k: nat)
    requires Leads(root, way) && k <= |way|
    ensures Leads(root, way[..k])
  {
    if k > 0 {
      PrefixLeads(root.children[way[0]], way[1..], k - 1);
      assert way[..k][1..] == way[1..][..k - 1];
    }
  }

  method EnclosingScene(root: Node, element: Way) returns (scene: Option<Way>)
    requires Leads(root, element)
    ensures scene.Some? ==> NearestScene(root, element, scene.value)
    ensures scene.None? ==> forall k :: 0 <= k <= |element| ==> !SceneAt(root, element, k)
  {
    var depth: nat := |element|;
    while true
      invariant depth <= |element|
      invariant forall k :: depth < k <= |element| ==> !SceneAt(root, element, k)
      decreases depth
    {
      if SceneAt(root, element, depth) {
        return Some(element[..depth]);
      }
      if depth == 0 {
        return None;
      }
      depth := depth - 1;
    }
  }

  predicate IsStampedCanvas(n: Node) {
    n.Element? && n.tag == "canvas" && "data-point-cloud" in n.attributes && "data-cloud-contract" in n.attributes
  }

  /** A validated canvas somewhere below the scene. */
  predicate HoldsStampedCanvas(root: Node, scene: Way)
    requires Leads(root, scene)
  {
    exists w :: w in Descendants(NodeAt(root, scene)) && Leads(NodeAt(root, scene), w) &&
      IsStampedCanvas(NodeAt(NodeAt(root, scene), w))
  }

  predicate BoundTo(root: Node, host: Way, scene: Way) {
    Leads(root, host) && NearestScene(root, host, scene) && Leads(root, scene) && HoldsStampedCanvas(root, scene)
  }

  predicate IsBoundToValidatedCanvas(root: Node, host: Way) {
    exists k :: 0 <= k <= |host| && BoundTo(root, host, host[..k])
  }

  method BoundToValidatedCanvas(root: Node, host: Way) returns (r: bool)
    requires Leads(root, host)
    ensures r <==> IsBoundToValidatedCanvas(root, host)
  {
    hide HoldsStampedCanvas, SceneAt;
    var scene := EnclosingScene(root, host);
    if scene.None? {
      return false;
    }
    PrefixLeads(root, host, |scene.value|);
    assert scene.value == host[..|scene.value|];
    r := HoldsStampedCanvas(root, scene.value);
    forall other | BoundTo(root, host, other) ensures other == scene.value {
      OneNearest(root, host, other, scene.value);
    }
    assert r ==> BoundTo(root, host, host[..|scene.value|]);
  }

  lemma OneNearest(root: Node, way: Way, a: Way, b: Way)
    requires Leads(root, way) && NearestScene(root, way, a) && NearestScene(root, way, b)
    ensures a == b
  {
    hide SceneAt;
    assert a == way[..|a|] && b == way[..|b|];
    assert !(|a| < |b|) && !(|b| < |a|);
  }

  // ----- Hosts

  /** An element other than the root whose text carries the signature. */
  predicate Matches(root: Node, way: Way, decode: Decoder) {
    way in Descendants(root) && Leads(root, way) && HasCloudPayloadSignature(SeenText(NodeAt(root, way), decode))
  }

  /** A matching element with no matching element below it. */
  ghost predicate IsHost(root: Node, way: Way, decode: Decoder) {
    Matches(root, way, decode) && !exists other :: Matches(root, other, decode) && StrictlyBelow(other, way)
  }

  /** Whether a page is cleared: no payload in its source, or every innermost holder bound, and at least one of them. */
  ghost predicate Cleared(html: string, root: Node, decode: Decoder) {
    !HasCloudPayloadSignature(html) ||
    ((exists h :: IsHost(root, h, decode)) && forall h :: IsHost(root, h, decode) ==> IsBoundToValidatedCanvas(root, h))
  }

  /** The innermost holders are those matching elements that no other matching element is below. */
  method DetectUndeclaredCloudInHtml(html: string, root: Node, decode: Decoder) returns (reported: bool)
    ensures reported <==> !Cleared(html, root, decode)
  {
    hide HasCloudPayloadSignature, Descendants, IsBoundToValidatedCanvas;
    if !HasCloudPayloadSignature(html) {
      return false;
    }
    var matching := set w | w in Descendants(root) && Matches(root, w, decode);
    var hosts := set h | h in matching && !exists other :: other in matching && other != h && StrictlyBelow(other, h);
    assert forall h :: h in hosts <==> IsHost(root, h, decode);
    var everyHostValidated := hosts != {} && forall h :: h in hosts ==> IsBoundToValidatedCanvas(root, h);
    reported := !everyHostValidated;
  }

  function Depth(n: Node): nat
    decreases n, 1
  {
    match n
    case TextNode(_) => 0
    case Element(_, _, _, children) => 1 + DepthFrom(n, 0)
  }

  function DepthFrom(n: Node, k: nat): nat
    requires n.Element? && k <= |n.children|
    decreases n, 0, |n.children| - k
  {
    if k == |n.children| then 0
    else
      var d, rest := Depth(n.children[k]), DepthFrom(n, k + 1);
      if d > rest then d else rest
  }

  lemma {:induction false} ChildDepth(n: Node, i: nat, k: nat)
    requires n.Element? && k <= i < |n.children|
    ensures Depth(n.children[i]) <= DepthFrom(n, k)
    decreases |n.children| - k
  {
    if k < i {
      ChildDepth(n, i, k + 1);
    }
  }

  lemma {:induction false} WayBounded(n: Node, way: Way)
    requires Leads(n, way)
    ensures |way| <= Depth(n)
  {
    if way != [] {
      WayBounded(n.children[way[0]], way[1..]);
      ChildDepth(n, way[0], 0);
    }
  }

  /** Every matching element has, at or below it, an innermost one. */
  lemma {:induction false} HostBelow(root: Node, way: Way, decode: Decoder) returns (host: Way)
    requires Matches(root, way, decode)
    ensures IsHost(root, host, decode) && way <= host
    decreases Depth(root) - |way|
  {
    hide HasCloudPayloadSignature, Descendants, Depth;
    if other :| Matches(root, other, decode) && StrictlyBelow(other, way) {
      WayBounded(root, other);
      host := HostBelow(root, other, decode);
    } else {
      host := way;
    }
  }

  predicate IsSectionNode(n: Node) {
    n.Element? &&
    (Alike(n.tag, "section") || exists i :: 0 <= i < |n.classes| && n.classes[i] == "point-cloud-bg")
  }

  /** A canvas that carries both stamps. */
  predicate IsStamped(n: Node) {
    n.Element? && n.tag == "canvas" && n.attributes >= {"data-point-cloud", "data-cloud-contract"}
  }

  /** Below the lowest section at or above `host`, at `scene`, there is a stamped canvas at `canvas`. */
  predicate HasCanvas(root: Node, host: Way, scene: Way, canvas: Way) {
    Leads(root, host) && scene <= host && Leads(root, scene) && IsSectionNode(NodeAt(root, scene)) &&
    (forall k :: |scene| < k <= |host| ==> Leads(root, host[..k]) && !IsSectionNode(NodeAt(root, host[..k]))) &&
    scene < canvas && Leads(root, canvas) && IsStamped(NodeAt(root, canvas))
  }

  lemma SectionIs(n: Node)
    ensures IsScene(n) <==> IsSectionNode(n)
  {
    if n.Element? {
      AlikeIs(n.tag, "section");
    }
  }

  lemma BoundHasCanvas(root: Node, host: Way)
    requires IsBoundToValidatedCanvas(root, host)
    ensures exists scene, canvas :: HasCanvas(root, host, scene, canvas)
  {
    var n :| 0 <= n <= |host| && BoundTo(root, host, host[..n]);
    var scene := host[..n];
    var at := NodeAt(root, scene);
    var w :| w in Descendants(at) && Leads(at, w) && IsStampedCanvas(NodeAt(at, w));
    DescendantsAre(at, w);
    WayThrough(root, scene, w);
    hide Descendants;
    forall k | |scene| <= k <= |host| ensures Leads(root, host[..k])
      ensures SceneAt(root, host, k) <==> IsSectionNode(NodeAt(root, host[..k]))
    {
      PrefixLeads(root, host, k);
      SectionIs(NodeAt(root, host[..k]));
    }
    hide SceneAt, IsSectionNode;
    assert host[..|scene|] == scene;
    assert HasCanvas(root, host, scene, scene + w);
  }

  lemma {:induction false} WayThrough(root: Node, above: Way, below: Way)
    requires Leads(root, above) && Leads(NodeAt(root, above), below)
    ensures Leads(root, above + below) && NodeAt(root, above + below) == NodeAt(NodeAt(root, above), below)
  {
    if above != [] {
      WayThrough(root.children[above[0]], above[1..], below);
      assert (above + below)[1..] == above[1..] + below;
    } else {
      assert above + below == below;
    }
  }

  /**
   * When a page that carries a payload is cleared, some element's text matches, and every one that does has, at or
   * below it, an innermost holder whose lowest section, at or above it, has a canvas with both stamps below.
   */
  lemma ClearedPayloadsAreBound(html: string, root: Node, decode: Decoder)
    requires HasCloudPayloadSignature(html) && Cleared(html, root, decode)
    ensures exists w :: Matches(root, w, decode)
    ensures forall w :: Matches(root, w, decode) ==>
      exists h, scene, canvas :: IsHost(root, h, decode) && w <= h && HasCanvas(root, h, scene, canvas)
  {
    hide Matches, HasCloudPayloadSignature, HasCanvas, IsBoundToValidatedCanvas;
    var some :| IsHost(root, some, decode);
    forall w | Matches(root, w, decode)
      ensures exists h, scene, canvas :: IsHost(root, h, decode) && w <= h && HasCanvas(root, h, scene, canvas)
    {
      var h := HostBelow(root, w, decode);
      BoundHasCanvas(root, h);
    }
  }

  lemma {:induction false} NoneRunsOverBelow(n: Node, way: Way, decode: Decoder)
    requires Leads(n, way) && NoneRunsOver(n, decode)
    ensures NoneRunsOver(NodeAt(n, way), decode)
  {
    hide SeenText;
    if way != [] {
      NoneRunsOverBelow(n.children[way[0]], way[1..], decode);
    }
  }

  /** Where none runs over, the matching elements are exactly those at or above an innermost one. */
  lemma MatchesAreAboveHosts(root: Node, way: Way, decode: Decoder)
    requires way in Descendants(root) && NoneRunsOver(root, decode)
    ensures Matches(root, way, decode) <==> exists h :: IsHost(root, h, decode) && way <= h
  {
    hide HasCloudPayloadSignature, Descendants, NoneRunsOver;
    DescendantsAre(root, way);
    if Matches(root, way, decode) {
      var h := HostBelow(root, way, decode);
    }
    NoneRunsOverBelow(root, way, decode);
    forall h | IsHost(root, h, decode) && way <= h ensures Matches(root, way, decode) {
      WayBelow(root, way, h);
      SignatureUpward(NodeAt(root, way), h[|way|..], decode);
    }
  }

  lemma {:induction false} WayBelow(root: Node, way: Way, below: Way)
    requires Leads(root, below) && way <= below
    ensures Leads(root, way) && Leads(NodeAt(root, way), below[|way|..])
    ensures NodeAt(NodeAt(root, way), below[|way|..]) == NodeAt(root, below)
  {
    if way != [] {
      assert way[0] == below[0] && way[1..] <= below[1..];
      WayBelow(root.children[way[0]], way[1..], below[1..]);
      assert below[1..][|way[1..]|..] == below[|way|..];
    } else {
      assert below[0..] == below;
    }
  }

  /** A canvas stamped elsewhere does not help: an innermost holder outside every scene section is always reported. */
  lemma FreePayloadReported(html: string, root: Node, host: Way, decode: Decoder)
    requires HasCloudPayloadSignature(html) && IsHost(root, host, decode)
    requires forall k :: 0 <= k <= |host| ==> !SceneAt(root, host, k)
    ensures !Cleared(html, root, decode)
  {
    hide HasCloudPayloadSignature, Descendants, HoldsStampedCanvas;
    forall scene ensures !BoundTo(root, host, scene) {
      if scene <= host {
        assert !SceneAt(root, host, |scene|);
      }
    }
  }
}
