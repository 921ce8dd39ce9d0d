/** The HTML-to-markdown conversion as written: a recursive walk over the document that appends
    to one shared string builder. */
module Walker {
  import opened Basics
  import opened Text
  import opened Markdown
  import opened Dom

  class Builder {
    var out: string

    constructor ()
      ensures out == ""
    {
      out := "";
    }

    method Write(s: string)
      modifies this
      ensures out == old(out) + s
    {
      out := out + s;
    }
  }

  // ---- Combined text --------------------------------------------------------------------------

  method TextBelow(e: Elem) returns (text: string)
    requires e.Valid()
    ensures text == TextOf(e.Contents())
    decreases e.Contents(), 1
  {
    text := "";
    e.ContentsAt(|e.kids|);
    for i := 0 to |e.kids|
      invariant text == TextOf(e.ContentsTo(i))
    {
      assert e.NodeAt(i) == e.Contents()[i];
      TextSnoc(e.ContentsTo(i), e.NodeAt(i));
      if e.kids[i].TextNode? {
        text := text + e.kids[i].data;
      } else if e.kids[i].ElementNode? {
        var below := TextBelow(e.kids[i].elem);
        text := text + below;
      }
    }
  }

  lemma TextSnoc(nodes: seq<Node>, n: Node)
    ensures TextOf(nodes + [n]) == TextOf(nodes) + NodeText(n)
  {
    TextConcat(nodes, [n]);
    assert TextOf([n]) == NodeText(n) + TextOf([n][1..]);
  }

  // ---- The walk -------------------------------------------------------------------------------

  /** Appends the markdown of the element's children, and leaves what was there alone. */
  method WalkMarkdown(b: Builder, sel: Elem, inPre: bool)
    requires sel.Valid()
    modifies b
    ensures b.out == old(b.out) + Render(sel.Contents(), inPre)
    decreases sel.Contents(), 1
  {
    sel.ContentsAt(|sel.kids|);
    for i := 0 to |sel.kids|
      invariant b.out == old(b.out) + Render(sel.ContentsTo(i), inPre)
    {
      assert sel.NodeAt(i) == sel.Contents()[i];
      RenderSnoc(sel.ContentsTo(i), sel.NodeAt(i), inPre);
      Associative(old(b.out), Render(sel.ContentsTo(i), inPre), RenderNode(sel.NodeAt(i), inPre));
      WalkNode(b, sel.kids[i], sel.NodeAt(i), inPre);
    }
  }

  lemma Associative(a: string, b: string, c: string)
    ensures (a + b) + c == a + (b + c)
  {
  }

  lemma RenderSnoc(nodes: seq<Node>, n: Node, inPre: bool)
    ensures Render(nodes + [n], inPre) == Render(nodes, inPre) + RenderNode(n, inPre)
  {
    RenderConcat(nodes, [n], inPre);
    RenderOne(n, inPre);
  }

  method WalkNode(b: Builder, s: Child, ghost n: Node, inPre: bool)
    requires Represents(s, n)
    modifies b
    ensures b.out == old(b.out) + RenderNode(n, inPre)
    decreases n, 0
  {
    match s
    case TextNode(text) =>
      if inPre {
        b.Write(text);
        return;
      }
      var collapsed := CollapseWS(text);
      if collapsed != "" {
        b.Write(collapsed);
      }
    case OtherNode =>
    case ElementNode(e) =>
      WalkElement(b, e, inPre);
  }

  method WalkElement(b: Builder, e: Elem, inPre: bool)
    requires e.Valid()
    modifies b
    ensures b.out == old(b.out) + RenderNode(Element(e.tag, e.attrs, e.Contents()), inPre)
    decreases e.Contents(), 3
  {
    var tag := e.tag;
    if IsNoise(tag) {
      return;
    } else if IsHeading(tag) {
      var text := TextBelow(e);
      WriteHeading(b, HeadingLevel(tag), TrimSpace(text));
    } else if tag.P? {
      WalkWrapped(b, "\n\n", e, false, "\n\n");
    } else if tag.Br? {
      b.Write("\n");
    } else if tag.A? {
      var text := TextBelow(e);
      WriteLink(b, e.attrs.href, TrimSpace(text));
    } else if IsList(tag) {
      WriteList(b, e);
    } else if tag.Pre? {
      WalkWrapped(b, "\n\n```\n", e, true, "\n```\n\n");
    } else if tag.Code? {
      if inPre {
        WalkMarkdown(b, e, true);
      } else {
        var text := TextBelow(e);
        WriteWrapped(b, "`", TrimSpace(text), "`");
      }
    } else if tag.Blockquote? {
      var text := TextBelow(e);
      WriteWrapped(b, "\n\n> ", TrimSpace(text), "\n\n");
    } else {
      WalkMarkdown(b, e, inPre);
    }
  }

  method WalkWrapped(b: Builder, before: string, e: Elem, inPre: bool, after: string)
    requires e.Valid()
    modifies b
    ensures b.out == old(b.out) + (before + Render(e.Contents(), inPre) + after)
    decreases e.Contents(), 2
  {
    b.Write(before);
    WalkMarkdown(b, e, inPre);
    b.Write(after);
  }

  method WriteWrapped(b: Builder, before: string, text: string, after: string)
    modifies b
    ensures b.out == old(b.out) + (before + text + after)
  {
    b.Write(before);
    b.Write(text);
    b.Write(after);
  }

  method WriteHeading(b: Builder, level: nat, text: string)
    modifies b
    ensures b.out == old(b.out) + ("\n\n" + Repeat('#', level) + " " + text + "\n\n")
  {
    b.Write("\n\n");
    b.Write(Repeat('#', level));
    b.Write(" ");
    b.Write(text);
    b.Write("\n\n");
  }

  method WriteLink(b: Builder, href: Option<string>, text: string)
    modifies b
    ensures b.out == old(b.out) + LinkMarkdown(href, text)
  {
    if href.Some? && href.value != "" && text != "" {
      WriteWrapped(b, "[", text, "](");
      b.Write(href.value);
      b.Write(")");
    } else if text != "" {
      b.Write(text);
    }
  }

  method WriteList(b: Builder, e: Elem)
    requires e.Valid()
    modifies b
    ensures b.out == old(b.out) + ("\n" + RenderItems(e.Contents(), ListMarker(e.tag)) + "\n")
  {
    b.Write("\n");
    ghost var start, marker := b.out, ListMarker(e.tag);
    e.ContentsAt(|e.kids|);
    for i := 0 to |e.kids|
      invariant b.out == start + RenderItems(e.ContentsTo(i), marker)
    {
      ItemsSnoc(e.ContentsTo(i), e.NodeAt(i), marker);
      ghost var line := if IsItem(e.NodeAt(i)) then ItemLine(e.NodeAt(i), marker) else "";
      Associative(start, RenderItems(e.ContentsTo(i), marker), line);
      if e.kids[i].ElementNode? && e.kids[i].elem.tag.Li? {
        WriteItem(b, e.tag, e.kids[i].elem);
      }
    }
    b.Write("\n");
    Bracketed(old(b.out), "\n", RenderItems(e.Contents(), marker), "\n");
  }

  lemma Bracketed(a: string, b: string, c: string, d: string)
    ensures a + b + c + d == a + (b + c + d)
  {
  }

  lemma {:induction false} ItemsSnoc(nodes: seq<Node>, n: Node, marker: string)
    ensures RenderItems(nodes + [n], marker)
         == RenderItems(nodes, marker) + (if IsItem(n) then ItemLine(n, marker) else "")
  {
    if nodes != [] {
      assert (nodes + [n])[1..] == nodes[1..] + [n];
      ItemsSnoc(nodes[1..], n, marker);
    }
  }

  method WriteItem(b: Builder, tag: Tag, li: Elem)
    requires li.Valid()
    modifies b
    ensures b.out == old(b.out) + ItemLine(Element(li.tag, li.attrs, li.Contents()), ListMarker(tag))
  {
    if tag.Ol? {
      b.Write("1. ");
    } else {
      b.Write("- ");
    }
    var text := TextBelow(li);
    b.Write(TrimSpace(text));
    b.Write("\n");
    Bracketed(old(b.out), ListMarker(tag), TrimSpace(text), "\n");
  }

  /** htmlToMarkdown: the children of the selected root through a new builder. */
  method HtmlToMarkdown(root: Elem) returns (r: string)
    requires root.Valid()
    ensures r == ToMarkdown(root.Contents())
  {
    var b := new Builder();
    WalkMarkdown(b, root, false);
    assert "" + Render(root.Contents(), false) == Render(root.Contents(), false);
    r := TrimSpace(b.out);
  }
}
