/** Flattening a design file's node tree into one shared list that stops growing at a cap. */
module FigmaFlatten {
  import opened Text

  const MAX_NODES := 200

  datatype Layout = Layout(
    direction: string, gap: Option<string>, padding: Option<string>, justify: Option<string>, align: Option<string>)

  datatype BriefNode = BriefNode(id: string, role: Option<string>, layout: Option<Layout>, text: Option<string>)

  /** A raw node, numbers already written out; a child that is not an object is passed over. */
  datatype Raw = Raw(
    id: string, kind: string, characters: Option<string>, name: Option<string>, layoutMode: string,
    itemSpacing: Option<string>, paddings: seq<Option<string>>, primaryAlign: Option<string>,
    counterAlign: Option<string>, children: seq<Child>)

  datatype Child = Node(raw: Raw) | NotAnObject

  // ----- One node

  function Pixels(v: Option<string>): Option<string> {
    match v
    case Some(n) => Some(n + "px")
    case None => None
  }

  function Lowered(v: Option<string>): Option<string> {
    match v
    case Some(s) => Some(LowerAll(s))
    case None => None
  }

  function PaddingWords(paddings: seq<Option<string>>): seq<string> {
    seq(|paddings|, i requires 0 <= i < |paddings| => if paddings[i].Some? then paddings[i].value + "px" else "0px")
  }

  function LayoutOf(raw: Raw): Option<Layout> {
    if raw.layoutMode != "HORIZONTAL" && raw.layoutMode != "VERTICAL" then None
    else
      Some(Layout(
        if raw.layoutMode == "HORIZONTAL" then "row" else "column",
        Pixels(raw.itemSpacing),
        if exists i :: 0 <= i < |raw.paddings| && raw.paddings[i].Some? then Some(Join(PaddingWords(raw.paddings), " "))
        else None,
        Lowered(raw.primaryAlign),
        Lowered(raw.counterAlign)))
  }

  predicate IsText(raw: Raw) { raw.kind == "TEXT" && raw.characters.Some? }

  predicate IsStructural(raw: Raw) {
    raw.kind in ["FRAME", "GROUP", "COMPONENT", "INSTANCE", "COMPONENT_SET", "SECTION"]
  }

  predicate Keeps(raw: Raw) { IsText(raw) || IsStructural(raw) }

  function Brief(raw: Raw): BriefNode {
    BriefNode(raw.id, raw.name, LayoutOf(raw), if IsText(raw) then raw.characters else None)
  }

  /** Text with characters is kept, and so are containers; vectors, shapes and text without characters are not. */
  lemma KeptExactly(raw: Raw)
    ensures Own(raw) == [] <==>
      !(raw.kind == "TEXT" && raw.characters.Some?) && raw.kind != "FRAME" && raw.kind != "GROUP" &&
      raw.kind != "COMPONENT" && raw.kind != "INSTANCE" && raw.kind != "COMPONENT_SET" && raw.kind != "SECTION"
    ensures Own(raw) != [] ==>
      Own(raw) == [BriefNode(raw.id, raw.name, LayoutOf(raw), if raw.kind == "TEXT" then raw.characters else None)]
  {
  }

  /** Only auto-layout has a direction; its other parts are written out where the node has them. */
  lemma LayoutExactly(raw: Raw)
    ensures LayoutOf(raw).Some? <==> raw.layoutMode == "HORIZONTAL" || raw.layoutMode == "VERTICAL"
    ensures LayoutOf(raw).Some? ==>
      var l := LayoutOf(raw).value;
      l.direction == (if raw.layoutMode == "HORIZONTAL" then "row" else "column") &&
      l.gap == (if raw.itemSpacing.None? then None else Some(raw.itemSpacing.value + "px")) &&
      (l.padding.None? <==> forall i :: 0 <= i < |raw.paddings| ==> raw.paddings[i].None?) &&
      l.justify == (if raw.primaryAlign.None? then None else Some(LowerAll(raw.primaryAlign.value))) &&
      l.align == (if raw.counterAlign.None? then None else Some(LowerAll(raw.counterAlign.value)))
    ensures forall top, right, bottom, left ::
      (raw.paddings == [top, right, bottom, left] && LayoutOf(raw).Some? &&
       (top.Some? || right.Some? || bottom.Some? || left.Some?)) ==>
        LayoutOf(raw).value.padding ==
          Some(Padding(top) + " " + (Padding(right) + " " + (Padding(bottom) + " " + Padding(left))))
  {
    forall top: Option<string>, right: Option<string>, bottom: Option<string>, left: Option<string> |
        raw.paddings == [top, right, bottom, left]
      ensures Join(PaddingWords(raw.paddings), " ") ==
        Padding(top) + " " + (Padding(right) + " " + (Padding(bottom) + " " + Padding(left)))
    {
      FourJoined(top, right, bottom, left);
    }
    assert forall top, right, bottom, left :: raw.paddings == [top, right, bottom, left] ==>
      raw.paddings[0] == top && raw.paddings[1] == right && raw.paddings[2] == bottom && raw.paddings[3] == left;
  }

  function Padding(p: Option<string>): string { if p.None? then "0px" else p.value + "px" }

  lemma FourJoined(top: Option<string>, right: Option<string>, bottom: Option<string>, left: Option<string>)
    ensures Join(PaddingWords([top, right, bottom, left]), " ") ==
      Padding(top) + " " + (Padding(right) + " " + (Padding(bottom) + " " + Padding(left)))
  {
    var words := PaddingWords([top, right, bottom, left]);
    assert words == [Padding(top), Padding(right), Padding(bottom), Padding(left)];
    var three, two := [Padding(right), Padding(bottom), Padding(left)], [Padding(bottom), Padding(left)];
    assert words[1..] == three && three[1..] == two && two[1..] == [Padding(left)];
    assert Join(two, " ") == Padding(bottom) + " " + Padding(left);
    assert Join(three, " ") == Padding(right) + " " + Join(two, " ");
  }

  // ----- The whole tree, with no cap

  function Own(raw: Raw): seq<BriefNode> { if Keeps(raw) then [Brief(raw)] else [] }

  /** Every kept node, a parent before its children, children in order. */
  function Preorder(raw: Raw): seq<BriefNode>
    decreases raw, 1
  {
    Own(raw) + PreorderFrom(raw, 0)
  }

  function PreorderFrom(raw: Raw, k: nat): seq<BriefNode>
    requires k <= |raw.children|
    decreases raw, 0, |raw.children| - k
  {
    if k == |raw.children| then []
    else (if raw.children[k].Node? then Preorder(raw.children[k].raw) else []) + PreorderFrom(raw, k + 1)
  }

  // ----- The cap

  /** `buffer` extended by as much of `more` as the cap leaves room for. */
  function Capped(buffer: seq<BriefNode>, more: seq<BriefNode>): (r: seq<BriefNode>)
    ensures buffer <= r
    ensures |buffer| <= MAX_NODES ==> |r| <= MAX_NODES
  {
    if |buffer| >= MAX_NODES then buffer
    else if |buffer| + |more| <= MAX_NODES then buffer + more
    else buffer + more[..MAX_NODES - |buffer|]
  }

  lemma TakeOfSum(a: seq<BriefNode>, b: seq<BriefNode>, n: nat)
    requires n <= |a| + |b|
    ensures (a + b)[..n] == if n <= |a| then a[..n] else a + b[..n - |a|]
  {
  }

  lemma SumAssociates(a: seq<BriefNode>, b: seq<BriefNode>, c: seq<BriefNode>)
    ensures (a + b) + c == a + (b + c)
  {
  }

  /** Filling up in two goes is filling up in one. */
  lemma CappedTwice(buffer: seq<BriefNode>, a: seq<BriefNode>, b: seq<BriefNode>)
    ensures Capped(Capped(buffer, a), b) == Capped(buffer, a + b)
  {
    if |buffer| < MAX_NODES {
      var room := MAX_NODES - |buffer|;
      if |a| + |b| > room {
        TakeOfSum(a, b, room);
        if |a| < room {
          SumAssociates(buffer, a, b[..room - |a|]);
        }
      } else {
        SumAssociates(buffer, a, b);
      }
    }
  }

  /** The list the traversal appends to, shared by every call. */
  class BriefList {
    var items: seq<BriefNode>

    constructor ()
      ensures items == []
    {
      items := [];
    }
  }

  /** Appends exactly as much of the uncapped preorder as there is room for. */
  method FlattenFigmaNode(raw: Raw, out: BriefList)
    modifies out
    ensures out.items == Capped(old(out.items), Preorder(raw))
    decreases raw, 1
  {
    hide Capped, Brief, Keeps;
    if |out.items| >= MAX_NODES {
      CappedFull(out.items, Preorder(raw));
      return;
    }
    if Keeps(raw) {
      out.items := out.items + [Brief(raw)];
    }
    ghost var start := old(out.items);
    CappedOwn(start, raw);
    ghost var done := Own(raw);
    var i: nat := 0;
    while i < |raw.children|
      invariant i <= |raw.children|
      invariant Preorder(raw) == done + PreorderFrom(raw, i)
      invariant out.items == Capped(start, done)
    {
      ghost var more := if raw.children[i].Node? then Preorder(raw.children[i].raw) else [];
      if raw.children[i].Node? {
        FlattenFigmaNode(raw.children[i].raw, out);
        CappedTwice(start, done, more);
      }
      assert done + (more + PreorderFrom(raw, i + 1)) == done + more + PreorderFrom(raw, i + 1);
      assert raw.children[i].Node? || done + more == done;
      done := done + more;
      i := i + 1;
    }
    assert done + [] == done;
  }

  lemma CappedFull(buffer: seq<BriefNode>, more: seq<BriefNode>)
    requires |buffer| >= MAX_NODES
    ensures Capped(buffer, more) == buffer
  {
  }

  lemma CappedOwn(buffer: seq<BriefNode>, raw: Raw)
    requires |buffer| < MAX_NODES
    ensures Capped(buffer, Own(raw)) == buffer + Own(raw)
    ensures !Keeps(raw) ==> buffer + Own(raw) == buffer
  {
  }

  /** From an empty list: the first two hundred kept nodes, or all of them when there are no more. */
  lemma FlattenedIsPrefix(raw: Raw)
    ensures var r := Capped([], Preorder(raw));
      r <= Preorder(raw) && |r| == if |Preorder(raw)| <= 200 then |Preorder(raw)| else 200
  {
    assert [] + Preorder(raw) == Preorder(raw);
    assert |Preorder(raw)| > MAX_NODES ==> [] + Preorder(raw)[..MAX_NODES] == Preorder(raw)[..MAX_NODES];
  }

  /** Where a node of the tree is: the children to take from the top. */
  predicate Leads(raw: Raw, way: seq<nat>)
    decreases raw
  {
    way == [] ||
    (way[0] < |raw.children| && raw.children[way[0]].Node? && Leads(raw.children[way[0]].raw, way[1..]))
  }

  function At(raw: Raw, way: seq<nat>): Raw
    requires Leads(raw, way)
    decreases raw
  {
    if way == [] then raw else At(raw.children[way[0]].raw, way[1..])
  }

  /** The preorder leaves no kept node out. */
  lemma {:induction false} PreorderComplete(raw: Raw, way: seq<nat>)
    requires Leads(raw, way) && Keeps(At(raw, way))
    ensures Brief(At(raw, way)) in Preorder(raw)
    decreases raw
  {
    hide Brief, Keeps;
    if way != [] {
      PreorderComplete(raw.children[way[0]].raw, way[1..]);
      ChildIncluded(raw, way[0], 0, Brief(At(raw, way)));
    }
  }

  lemma {:induction false} ChildIncluded(raw: Raw, i: nat, k: nat, b: BriefNode)
    requires k <= i < |raw.children| && raw.children[i].Node? && b in Preorder(raw.children[i].raw)
    ensures b in PreorderFrom(raw, k)
    decreases i - k
  {
    if k < i {
      ChildIncluded(raw, i, k + 1, b);
    }
  }
}
