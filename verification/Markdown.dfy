/** The HTML-to-markdown conversion as a function of the document tree, and what it preserves. */
module Markdown {
  import opened Basics
  import opened Text

  /** The element names the walk distinguishes; Named stands for every other name. */
  datatype Tag =
    | Script | Style | Nav | Footer | Noscript
    | H1 | H2 | H3 | H4 | H5 | H6
    | P | Br | A | Ul | Ol | Li | Pre | Code | Blockquote
    | Named(name: string)

  /** An element's attributes: the two the program looks at, and the others. */
  datatype Attrs = Attrs(href: Option<string>, role: Option<string>, others: string)

  /** A DOM node: text, an element, or anything else (a comment, a doctype), which has
      neither text nor children. */
  datatype Node =
    | Text(data: string)
    | Element(tag: Tag, attrs: Attrs, children: seq<Node>)
    | Other

  predicate IsNoise(t: Tag)
  {
    t.Script? || t.Style? || t.Nav? || t.Footer? || t.Noscript?
  }

  predicate IsHeading(t: Tag)
  {
    t.H1? || t.H2? || t.H3? || t.H4? || t.H5? || t.H6?
  }

  predicate IsList(t: Tag) { t.Ul? || t.Ol? }

  predicate IsItem(n: Node) { n.Element? && n.tag.Li? }

  /** Elements without a case of their own in the walk. */
  predicate IsPlain(t: Tag) { t.Li? || t.Named? }

  /** The mode in which the walk visits the children of an element it recurses into, or None
      when it does not recurse. */
  function ChildMode(tag: Tag, inPre: bool): Option<bool>
  {
    if tag.P? then Some(false)
    else if tag.Pre? then Some(true)
    else if IsPlain(tag) || (tag.Code? && inPre) then Some(inPre)
    else None
  }

  // ---- Text and noise -----------------------------------------------------------------------

  /** The combined text of a node list: every text node below it, noise included. */
  function TextOf(nodes: seq<Node>): string
    decreases nodes, 1
  {
    if nodes == [] then "" else NodeText(nodes[0]) + TextOf(nodes[1..])
  }

  function NodeText(n: Node): string
    decreases n, 0
  {
    match n
    case Text(data) => data
    case Element(_, _, kids) => TextOf(kids)
    case Other => ""
  }

  /** The tree without its noise elements, at any depth. */
  function Strip(nodes: seq<Node>): seq<Node>
    decreases nodes, 1
  {
    if nodes == [] then []
    else StripNode(nodes[0]) + Strip(nodes[1..])
  }

  function StripNode(n: Node): seq<Node>
    decreases n, 0
  {
    match n
    case Element(tag, attrs, kids) =>
      if IsNoise(tag) then [] else [Element(tag, attrs, Strip(kids))]
    case _ => [n]
  }

  predicate NoNoise(nodes: seq<Node>)
    decreases nodes, 1
  {
    nodes == [] || (NodeNoNoise(nodes[0]) && NoNoise(nodes[1..]))
  }

  predicate NodeNoNoise(n: Node)
    decreases n, 0
  {
    n.Element? ==> !IsNoise(n.tag) && NoNoise(n.children)
  }

  // ---- The markdown of a tree ---------------------------------------------------------------

  function Render(nodes: seq<Node>, inPre: bool): string
    decreases nodes, 1
  {
    if nodes == [] then "" else RenderNode(nodes[0], inPre) + Render(nodes[1..], inPre)
  }

  function RenderNode(n: Node, inPre: bool): string
    decreases n, 0
  {
    match n
    case Text(data) => if inPre then data else CollapseWS(data)
    case Other => ""
    case Element(tag, attrs, kids) =>
      if IsNoise(tag) then ""
      else if IsHeading(tag) then
        "\n\n" + Repeat('#', HeadingLevel(tag)) + " " + TrimSpace(TextOf(kids)) + "\n\n"
      else if tag.P? then "\n\n" + Render(kids, false) + "\n\n"
      else if tag.Br? then "\n"
      else if tag.A? then LinkMarkdown(attrs.href, TrimSpace(TextOf(kids)))
      else if IsList(tag) then "\n" + RenderItems(kids, ListMarker(tag)) + "\n"
      else if tag.Pre? then "\n\n```\n" + Render(kids, true) + "\n```\n\n"
      else if tag.Code? then
        if inPre then Render(kids, true) else "`" + TrimSpace(TextOf(kids)) + "`"
      else if tag.Blockquote? then "\n\n> " + TrimSpace(TextOf(kids)) + "\n\n"
      else Render(kids, inPre)
  }

  /** What the walk writes around the children of an element it recurses into. */
  function Around(tag: Tag): (string, string)
  {
    if tag.P? then ("\n\n", "\n\n") else if tag.Pre? then ("\n\n```\n", "\n```\n\n") else ("", "")
  }

  lemma RecursingRender(tag: Tag, attrs: Attrs, kids: seq<Node>, inPre: bool)
    requires ChildMode(tag, inPre).Some?
    ensures RenderNode(Element(tag, attrs, kids), inPre)
         == Around(tag).0 + Render(kids, ChildMode(tag, inPre).value) + Around(tag).1
  {
    if !tag.P? && !tag.Pre? {
      var inner := Render(kids, inPre);
      assert "" + inner + "" == inner;
    }
  }

  function HeadingLevel(tag: Tag): (level: nat)
    requires IsHeading(tag)
    ensures 1 <= level <= 6
  {
    match tag case H1 => 1 case H2 => 2 case H3 => 3 case H4 => 4 case H5 => 5 case H6 => 6
  }

  function ListMarker(tag: Tag): string { if tag.Ol? then "1. " else "- " }

  function LinkMarkdown(href: Option<string>, text: string): string
  {
    if text == "" then ""
    else if href.Some? && href.value != "" then "[" + text + "](" + (href.value + ")")
    else text
  }

  /** One line for each li child; the other children leave no trace. */
  function RenderItems(kids: seq<Node>, marker: string): string
  {
    if kids == [] then ""
    else
      (if IsItem(kids[0]) then ItemLine(kids[0], marker) else "") + RenderItems(kids[1..], marker)
  }

  function ItemLine(li: Node, marker: string): string
  {
    marker + TrimSpace(NodeText(li)) + "\n"
  }

  function ToMarkdown(nodes: seq<Node>): string
  {
    TrimSpace(Render(nodes, false))
  }

  // ---- Distribution -------------------------------------------------------------------------

  /** The walk distributes over concatenation of sibling lists. */
  lemma {:induction false} RenderConcat(a: seq<Node>, b: seq<Node>, inPre: bool)
    ensures Render(a + b, inPre) == Render(a, inPre) + Render(b, inPre)
  {
    if a == [] {
      assert a + b == b;
    } else {
      assert (a + b)[1..] == a[1..] + b;
      RenderConcat(a[1..], b, inPre);
    }
  }

  lemma {:induction false} TextConcat(a: seq<Node>, b: seq<Node>)
    ensures TextOf(a + b) == TextOf(a) + TextOf(b)
  {
    if a == [] {
      assert a + b == b;
    } else {
      assert (a + b)[1..] == a[1..] + b;
      TextConcat(a[1..], b);
    }
  }

  lemma {:induction false} StripConcat(a: seq<Node>, b: seq<Node>)
    ensures Strip(a + b) == Strip(a) + Strip(b)
  {
    if a == [] {
      assert a + b == b;
    } else {
      assert (a + b)[1..] == a[1..] + b;
      StripConcat(a[1..], b);
    }
  }

  // ---- Noise independence ---------------------------------------------------------------------

  /** The tree with node x inserted at the given place: a path of child indices that leads to
      a child list, and the position in that list. */
  function InsertAt(nodes: seq<Node>, path: seq<nat>, pos: nat, x: Node): seq<Node>
    requires ValidPlace(nodes, path, pos)
    decreases |path|
  {
    if path == [] then nodes[..pos] + [x] + nodes[pos..]
    else
      var n := nodes[path[0]];
      nodes[..path[0]] + [Element(n.tag, n.attrs, InsertAt(n.children, path[1..], pos, x))] + nodes[path[0] + 1..]
  }

  predicate ValidPlace(nodes: seq<Node>, path: seq<nat>, pos: nat)
    decreases |path|
  {
    if path == [] then pos <= |nodes|
    else path[0] < |nodes| && nodes[path[0]].Element? && ValidPlace(nodes[path[0]].children, path[1..], pos)
  }

  lemma {:induction false} StripIgnoresNoise(nodes: seq<Node>, path: seq<nat>, pos: nat, x: Node)
    requires ValidPlace(nodes, path, pos)
    requires x.Element? && IsNoise(x.tag)
    ensures Strip(InsertAt(nodes, path, pos, x)) == Strip(nodes)
    decreases |path|
  {
    if path == [] {
      assert nodes == nodes[..pos] + nodes[pos..];
      StripConcat(nodes[..pos], nodes[pos..]);
      StripConcat(nodes[..pos] + [x], nodes[pos..]);
      StripConcat(nodes[..pos], [x]);
      assert Strip([x]) == [];
    } else {
      var i := path[0];
      var n := nodes[i];
      var n' := Element(n.tag, n.attrs, InsertAt(n.children, path[1..], pos, x));
      StripIgnoresNoise(n.children, path[1..], pos, x);
      assert StripNode(n') == StripNode(n);
      assert Strip([n']) == StripNode(n') + Strip([]) && Strip([n]) == StripNode(n) + Strip([]);
      assert nodes == nodes[..i] + [n] + nodes[i + 1..];
      StripConcat(nodes[..i] + [n], nodes[i + 1..]);
      StripConcat(nodes[..i], [n]);
      StripConcat(nodes[..i] + [n'], nodes[i + 1..]);
      StripConcat(nodes[..i], [n']);
    }
  }

  /** Noise anywhere, however deep and under whatever element, does not show in the markdown
      of the stripped tree. Read from right to left it is deletion; twice, an edit. */
  lemma NoiseIndependence(nodes: seq<Node>, path: seq<nat>, pos: nat, x: Node)
    requires ValidPlace(nodes, path, pos)
    requires x.Element? && IsNoise(x.tag)
    ensures ToMarkdown(Strip(InsertAt(nodes, path, pos, x))) == ToMarkdown(Strip(nodes))
  {
    StripIgnoresNoise(nodes, path, pos, x);
  }

  lemma {:induction false} NoNoiseConcat(a: seq<Node>, b: seq<Node>)
    ensures NoNoise(a + b) <==> NoNoise(a) && NoNoise(b)
  {
    if a == [] {
      assert a + b == b;
    } else {
      assert (a + b)[1..] == a[1..] + b;
      NoNoiseConcat(a[1..], b);
    }
  }

  /** Stripping leaves no noise, and changes a tree exactly when there was some. */
  lemma {:induction false} StripIsExact(nodes: seq<Node>)
    ensures NoNoise(Strip(nodes))
    ensures Strip(nodes) == nodes <==> NoNoise(nodes)
    decreases nodes
  {
    if nodes != [] {
      var n := nodes[0];
      StripIsExact(nodes[1..]);
      if n.Element? {
        StripIsExact(n.children);
      }
      NoNoiseConcat(StripNode(n), Strip(nodes[1..]));
      StripShrinks(nodes[1..]);
      assert nodes == [n] + nodes[1..];
    }
  }

  lemma {:induction false} StripShrinks(nodes: seq<Node>)
    ensures |Strip(nodes)| <= |nodes|
  {
    if nodes != [] {
      StripShrinks(nodes[1..]);
    }
  }

  lemma RenderOne(n: Node, inPre: bool)
    ensures Render([n], inPre) == RenderNode(n, inPre)
  {
  }

  // ---- Text preservation ------------------------------------------------------------------------

  /** The text that the walk's branches take up. */
  function Kept(nodes: seq<Node>, inPre: bool): string
    decreases nodes, 1
  {
    if nodes == [] then "" else NodeKept(nodes[0], inPre) + Kept(nodes[1..], inPre)
  }

  function NodeKept(n: Node, inPre: bool): string
    decreases n, 0
  {
    match n
    case Text(data) => data
    case Other => ""
    case Element(tag, _, kids) =>
      if ChildMode(tag, inPre).Some? then Kept(kids, ChildMode(tag, inPre).value)
      else if IsNoise(tag) || tag.Br? then ""
      else if IsList(tag) then ItemText(kids)
      else TextOf(kids)
  }

  function ItemText(kids: seq<Node>): string
  {
    if kids == [] then ""
    else (if IsItem(kids[0]) then NodeText(kids[0]) else "") + ItemText(kids[1..])
  }

  /** Whatever is not taken up (noise, content of br, list children other than li) is blank. */
  predicate NothingDropped(nodes: seq<Node>, inPre: bool)
    decreases nodes, 1
  {
    nodes == [] || (NodeNothingDropped(nodes[0], inPre) && NothingDropped(nodes[1..], inPre))
  }

  predicate NodeNothingDropped(n: Node, inPre: bool)
    decreases n, 0
  {
    n.Element? ==>
      if ChildMode(n.tag, inPre).Some? then NothingDropped(n.children, ChildMode(n.tag, inPre).value)
      else if IsNoise(n.tag) || n.tag.Br? then NonWs(TextOf(n.children)) == ""
      else IsList(n.tag) ==> OnlyItems(n.children)
  }

  predicate OnlyItems(kids: seq<Node>)
  {
    forall k :: k in kids && !IsItem(k) ==> NonWs(NodeText(k)) == ""
  }

  lemma KeepTrimmed(text: string, before: string, after: string)
    ensures Subseq(NonWs(text), NonWs(before + TrimSpace(text) + after))
  {
    NonWsTrim(text);
    SubseqRefl(NonWs(text));
    NonWsWrap(text, before, TrimSpace(text), after);
  }

  lemma {:induction false} KeepItems(kids: seq<Node>, marker: string)
    ensures Subseq(NonWs(ItemText(kids)), NonWs(RenderItems(kids, marker)))
  {
    if kids != [] {
      var k := kids[0];
      KeepItems(kids[1..], marker);
      var line := if IsItem(k) then ItemLine(k, marker) else "";
      var text := if IsItem(k) then NodeText(k) else "";
      if IsItem(k) {
        KeepTrimmed(NodeText(k), marker, "\n");
      }
      assert Subseq(NonWs(text), NonWs(line));
      SubseqConcat(NonWs(text), NonWs(line), NonWs(ItemText(kids[1..])), NonWs(RenderItems(kids[1..], marker)));
      NonWsConcat(text, ItemText(kids[1..]));
      NonWsConcat(line, RenderItems(kids[1..], marker));
    }
  }

  lemma KeepLink(href: Option<string>, text: string)
    ensures Subseq(NonWs(text), NonWs(LinkMarkdown(href, TrimSpace(text))))
  {
    var t := TrimSpace(text);
    if t == "" {
      NonWsTrim(text);
    } else if href.Some? && href.value != "" {
      KeepTrimmed(text, "[", "](" + href.value + ")");
      assert "[" + t + ("](" + href.value + ")") == "[" + t + "](" + (href.value + ")");
    } else {
      KeepTrimmed(text, "", "");
      assert "" + t + "" == t;
    }
  }

  /** The branches that do not recurse. */
  lemma KeepRaw(n: Node, inPre: bool)
    requires n.Element? && ChildMode(n.tag, inPre).None?
    ensures Subseq(NonWs(NodeKept(n, inPre)), NonWs(RenderNode(n, inPre)))
  {
    var text := TextOf(n.children);
    if IsHeading(n.tag) {
      KeepTrimmed(text, "\n\n" + Repeat('#', HeadingLevel(n.tag)) + " ", "\n\n");
    } else if n.tag.A? {
      KeepLink(n.attrs.href, text);
    } else if IsList(n.tag) {
      KeepList(n.children, ListMarker(n.tag));
    } else if n.tag.Code? {
      KeepTrimmed(text, "`", "`");
    } else if n.tag.Blockquote? {
      KeepTrimmed(text, "\n\n> ", "\n\n");
    }
  }

  lemma KeepList(kids: seq<Node>, marker: string)
    ensures Subseq(NonWs(ItemText(kids)), NonWs("\n" + RenderItems(kids, marker) + "\n"))
  {
    KeepItems(kids, marker);
    NonWsWrap(ItemText(kids), "\n", RenderItems(kids, marker), "\n");
  }

  lemma {:induction false} KeepNode(n: Node, inPre: bool)
    ensures Subseq(NonWs(NodeKept(n, inPre)), NonWs(RenderNode(n, inPre)))
    decreases n, 0
  {
    match n
    case Text(data) =>
      NonWsCollapse(data);
      SubseqRefl(NonWs(data));
    case Other =>
    case Element(tag, attrs, kids) =>
      if ChildMode(tag, inPre).Some? {
        var mode := ChildMode(tag, inPre).value;
        KeepText(kids, mode);
        RecursingRender(tag, attrs, kids, inPre);
        NonWsWrap(Kept(kids, mode), Around(tag).0, Render(kids, mode), Around(tag).1);
      } else {
        KeepRaw(n, inPre);
      }
  }

  lemma {:induction false} KeepText(nodes: seq<Node>, inPre: bool)
    ensures Subseq(NonWs(Kept(nodes, inPre)), NonWs(Render(nodes, inPre)))
    decreases nodes, 1
  {
    if nodes != [] {
      var n := nodes[0];
      KeepNode(n, inPre);
      KeepText(nodes[1..], inPre);
      NonWsConcat(NodeKept(n, inPre), Kept(nodes[1..], inPre));
      NonWsConcat(RenderNode(n, inPre), Render(nodes[1..], inPre));
      SubseqConcat(NonWs(NodeKept(n, inPre)), NonWs(RenderNode(n, inPre)),
                   NonWs(Kept(nodes[1..], inPre)), NonWs(Render(nodes[1..], inPre)));
    }
  }

  lemma {:induction false} ItemsDrop(kids: seq<Node>)
    ensures |NonWs(ItemText(kids))| <= |NonWs(TextOf(kids))|
    ensures if OnlyItems(kids) then NonWs(ItemText(kids)) == NonWs(TextOf(kids))
            else |NonWs(ItemText(kids))| < |NonWs(TextOf(kids))|
  {
    if kids != [] {
      var k := kids[0];
      ItemsDrop(kids[1..]);
      NonWsConcat(if IsItem(k) then NodeText(k) else "", ItemText(kids[1..]));
      NonWsConcat(NodeText(k), TextOf(kids[1..]));
      assert kids == [k] + kids[1..];
      assert OnlyItems(kids) <==> (!IsItem(k) ==> NonWs(NodeText(k)) == "") && OnlyItems(kids[1..]);
    }
  }

  lemma {:induction false} NodeDrop(n: Node, inPre: bool)
    ensures |NonWs(NodeKept(n, inPre))| <= |NonWs(NodeText(n))|
    ensures if NodeNothingDropped(n, inPre) then NonWs(NodeKept(n, inPre)) == NonWs(NodeText(n))
            else |NonWs(NodeKept(n, inPre))| < |NonWs(NodeText(n))|
    decreases n, 0
  {
    if n.Element? {
      if ChildMode(n.tag, inPre).Some? {
        ListDrop(n.children, ChildMode(n.tag, inPre).value);
      } else {
        ItemsDrop(n.children);
      }
    }
  }

  lemma {:induction false} ListDrop(nodes: seq<Node>, inPre: bool)
    ensures |NonWs(Kept(nodes, inPre))| <= |NonWs(TextOf(nodes))|
    ensures if NothingDropped(nodes, inPre) then NonWs(Kept(nodes, inPre)) == NonWs(TextOf(nodes))
            else |NonWs(Kept(nodes, inPre))| < |NonWs(TextOf(nodes))|
    decreases nodes, 1
  {
    if nodes != [] {
      NodeDrop(nodes[0], inPre);
      ListDrop(nodes[1..], inPre);
      NonWsConcat(NodeKept(nodes[0], inPre), Kept(nodes[1..], inPre));
      NonWsConcat(NodeText(nodes[0]), TextOf(nodes[1..]));
    }
  }

  /** Every character the walk takes up reaches the markdown, in order, through every
      trimming and collapsing branch; and what it takes up is the whole text of the document
      exactly when nothing but white space stands in the places the walk passes over. */
  lemma TextPreservation(nodes: seq<Node>)
    ensures Subseq(NonWs(Kept(nodes, false)), NonWs(ToMarkdown(nodes)))
    ensures NonWs(Kept(nodes, false)) == NonWs(TextOf(nodes)) <==> NothingDropped(nodes, false)
    ensures NothingDropped(nodes, false) ==> Subseq(NonWs(TextOf(nodes)), NonWs(ToMarkdown(nodes)))
  {
    KeepText(nodes, false);
    NonWsTrim(Render(nodes, false));
    ListDrop(nodes, false);
  }

  // ---- Preformatted blocks --------------------------------------------------------------------

  /** Only text, code and elements without a case of their own. */
  predicate Verbatim(nodes: seq<Node>)
    decreases nodes, 1
  {
    nodes == [] || (NodeVerbatim(nodes[0]) && Verbatim(nodes[1..]))
  }

  predicate NodeVerbatim(n: Node)
    decreases n, 0
  {
    n.Element? ==> (n.tag.Code? || IsPlain(n.tag)) && Verbatim(n.children)
  }

  lemma {:induction false} VerbatimRender(nodes: seq<Node>)
    requires Verbatim(nodes)
    ensures Render(nodes, true) == TextOf(nodes)
    decreases nodes, 1
  {
    if nodes != [] {
      VerbatimNode(nodes[0]);
      VerbatimRender(nodes[1..]);
    }
  }

  lemma {:induction false} VerbatimNode(n: Node)
    requires NodeVerbatim(n)
    ensures RenderNode(n, true) == NodeText(n)
    decreases n, 0
  {
    if n.Element? {
      VerbatimRender(n.children);
    }
  }

  /** A preformatted block of such content is its exact text between fences, in both modes. */
  lemma PreIsVerbatim(kids: seq<Node>, attrs: Attrs, inPre: bool)
    requires Verbatim(kids)
    ensures RenderNode(Element(Pre, attrs, kids), inPre) == "\n\n```\n" + TextOf(kids) + "\n```\n\n"
  {
    VerbatimRender(kids);
  }
}
