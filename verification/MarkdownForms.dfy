/** What each kind of element becomes in the final markdown, by the element's name and text. */
module MarkdownForms {
  import opened Basics
  import opened Text
  import opened Markdown

  // ---- Names ------------------------------------------------------------------------------------

  /** The element name a tag stands for. */
  function TagName(tag: Tag): string
  {
    match tag
    case Script => "script" case Style => "style" case Nav => "nav" case Footer => "footer" case Noscript => "noscript"
    case H1 => "h1" case H2 => "h2" case H3 => "h3" case H4 => "h4" case H5 => "h5" case H6 => "h6"
    case P => "p" case Br => "br" case A => "a" case Ul => "ul" case Ol => "ol" case Li => "li"
    case Pre => "pre" case Code => "code" case Blockquote => "blockquote"
    case Named(name) => name
  }

  /** Which names the walk treats as noise, heading, list, item, or has no case for. */
  lemma NamesOf(tag: Tag)
    requires !tag.Named?
    ensures IsNoise(tag) <==>
      var n := TagName(tag); n == "script" || n == "style" || n == "nav" || n == "footer" || n == "noscript"
    ensures IsHeading(tag) <==>
      var n := TagName(tag); n == "h1" || n == "h2" || n == "h3" || n == "h4" || n == "h5" || n == "h6"
    ensures IsList(tag) <==> TagName(tag) == "ul" || TagName(tag) == "ol"
    ensures IsItem(Element(tag, NO_ATTRS, [])) <==> TagName(tag) == "li"
    ensures IsPlain(tag) <==> TagName(tag) == "li"
  {
  }

  const NO_ATTRS: Attrs := Attrs(None, None, "")

  /** A heading's level is the digit in its name. */
  lemma HeadingLevelIsDigit(tag: Tag)
    requires IsHeading(tag)
    ensures HeadingLevel(tag) == TagName(tag)[1] as int - '0' as int
  {
  }

  // ---- One element ------------------------------------------------------------------------------

  /** The trimmed text of a list of children. */
  function Inner(kids: seq<Node>): string
  {
    TrimSpace(TextOf(kids))
  }

  lemma InnerIsTight(kids: seq<Node>)
    ensures Tight(Inner(kids))
  {
    var a, b := TrimSplits(TextOf(kids));
  }

  /** The markdown of one node whose rendering is tight but for blank surroundings. */
  lemma OneNode(n: Node, a: string, t: string, b: string)
    requires RenderNode(n, false) == a + t + b && Blank(a) && Blank(b) && Tight(t)
    ensures ToMarkdown([n]) == t
  {
    RenderOne(n, false);
    TrimIs(a, t, b);
  }

  /** A heading is as many number signs as its name's digit says, a space and its text. */
  lemma HeadingForm(tag: Tag, attrs: Attrs, kids: seq<Node>)
    requires IsHeading(tag) && Inner(kids) != ""
    ensures var level := TagName(tag)[1] as int - '0' as int;
            1 <= level <= 6 && ToMarkdown([Element(tag, attrs, kids)]) == Repeat('#', level) + " " + Inner(kids)
  {
    HeadingLevelIsDigit(tag);
    InnerIsTight(kids);
    var marks := Repeat('#', HeadingLevel(tag));
    var t := marks + " " + Inner(kids);
    assert t[0] == '#' && t[|t| - 1] == Inner(kids)[|Inner(kids)| - 1];
    assert "\n\n" + marks + " " + Inner(kids) + "\n\n" == "\n\n" + t + "\n\n";
    OneNode(Element(tag, attrs, kids), "\n\n", t, "\n\n");
  }

  /** A link with an address is its text in brackets and its address in parentheses; without
      one, its text; and without text, nothing. */
  lemma LinkForm(attrs: Attrs, kids: seq<Node>)
    ensures ToMarkdown([Element(A, attrs, kids)])
         == if Inner(kids) != "" && attrs.href.Some? && attrs.href.value != ""
            then "[" + Inner(kids) + "](" + attrs.href.value + ")"
            else Inner(kids)
  {
    RenderOne(Element(A, attrs, kids), false);
    LinkMarkdownIs(attrs.href, kids);
    Untouched(LinkMarkdown(attrs.href, Inner(kids)));
  }

  lemma LinkMarkdownIs(href: Option<string>, kids: seq<Node>)
    ensures LinkMarkdown(href, Inner(kids))
         == if Inner(kids) != "" && href.Some? && href.value != "" then "[" + Inner(kids) + "](" + href.value + ")"
            else Inner(kids)
    ensures Tight(LinkMarkdown(href, Inner(kids)))
  {
    InnerIsTight(kids);
    if Inner(kids) != "" && href.Some? && href.value != "" {
      LinkIsTight(Inner(kids), href.value);
    }
  }

  lemma LinkIsTight(text: string, href: string)
    ensures "[" + text + "](" + (href + ")") == "[" + text + "](" + href + ")"
    ensures Tight("[" + text + "](" + href + ")")
  {
    var t := "[" + text + "](" + href + ")";
    assert t[0] == '[' && t[|t| - 1] == ')';
  }

  /** Inline code is its text in back quotes. */
  lemma CodeForm(attrs: Attrs, kids: seq<Node>)
    ensures ToMarkdown([Element(Code, attrs, kids)]) == "`" + Inner(kids) + "`"
  {
    var t := "`" + Inner(kids) + "`";
    assert t[0] == '`' && t[|t| - 1] == '`';
    assert "" + t + "" == t;
    OneNode(Element(Code, attrs, kids), "", t, "");
  }

  /** A block quote is its text after a greater-than sign. */
  lemma QuoteForm(attrs: Attrs, kids: seq<Node>)
    requires Inner(kids) != ""
    ensures ToMarkdown([Element(Blockquote, attrs, kids)]) == "> " + Inner(kids)
  {
    InnerIsTight(kids);
    var t := "> " + Inner(kids);
    assert t[0] == '>' && t[|t| - 1] == Inner(kids)[|Inner(kids)| - 1];
    assert "\n\n> " + Inner(kids) + "\n\n" == "\n\n" + t + "\n\n";
    OneNode(Element(Blockquote, attrs, kids), "\n\n", t, "\n\n");
  }

  /** A text outside pre is its words, single-spaced. */
  lemma TextForm(data: string)
    ensures ToMarkdown([Text(data)]) == CollapseWS(data)
  {
    CollapseIs(data);
    assert "" + CollapseWS(data) + "" == CollapseWS(data);
    OneNode(Text(data), "", CollapseWS(data), "");
  }

  lemma TightAround(a: string, mid: string, b: string)
    requires a != "" && b != "" && Tight(a) && Tight(b)
    ensures a + mid + b != "" && Tight(a + mid + b)
  {
    var t := a + mid + b;
    assert t[0] == a[0] && t[|t| - 1] == b[|b| - 1];
  }

  /** A br between two texts breaks the line. */
  lemma BreakForm(a: string, b: string, attrs: Attrs, kids: seq<Node>)
    requires CollapseWS(a) != "" && CollapseWS(b) != ""
    ensures ToMarkdown([Text(a), Element(Br, attrs, kids), Text(b)]) == CollapseWS(a) + "\n" + CollapseWS(b)
  {
    var br := Element(Br, attrs, kids);
    CollapseIs(a);
    CollapseIs(b);
    TightAround(CollapseWS(a), "\n", CollapseWS(b));
    assert [Text(a), br, Text(b)] == [Text(a)] + [br] + [Text(b)];
    RenderThree(Text(a), br, Text(b));
    Untouched(CollapseWS(a) + "\n" + CollapseWS(b));
  }

  lemma RenderThree(x: Node, y: Node, z: Node)
    ensures Render([x] + [y] + [z], false) == RenderNode(x, false) + RenderNode(y, false) + RenderNode(z, false)
  {
    RenderConcat([x] + [y], [z], false);
    RenderConcat([x], [y], false);
    RenderOne(x, false);
    RenderOne(y, false);
    RenderOne(z, false);
  }

  lemma Untouched(t: string)
    requires Tight(t)
    ensures TrimSpace(t) == t
  {
    assert "" + t + "" == t;
    TrimIs("", t, "");
  }

  /** Two paragraphs of text are separated by blank lines. */
  lemma ParagraphForm(a: string, b: string, attrs: Attrs)
    requires CollapseWS(a) != "" && CollapseWS(b) != ""
    ensures ToMarkdown([Element(P, attrs, [Text(a)]), Element(P, attrs, [Text(b)])])
         == CollapseWS(a) + "\n\n\n\n" + CollapseWS(b)
  {
    var p, q := Element(P, attrs, [Text(a)]), Element(P, attrs, [Text(b)]);
    CollapseIs(a);
    CollapseIs(b);
    TightAround(CollapseWS(a), "\n\n\n\n", CollapseWS(b));
    assert [p, q] == [p] + [q];
    RenderConcat([p], [q], false);
    ParagraphRender(a, attrs);
    ParagraphRender(b, attrs);
    Regroup(CollapseWS(a), CollapseWS(b));
    TrimIs("\n\n", CollapseWS(a) + "\n\n\n\n" + CollapseWS(b), "\n\n");
  }

  lemma ParagraphRender(a: string, attrs: Attrs)
    ensures Render([Element(P, attrs, [Text(a)])], false) == "\n\n" + CollapseWS(a) + "\n\n"
  {
    RenderOne(Element(P, attrs, [Text(a)]), false);
    RenderOne(Text(a), false);
  }

  lemma Regroup(a: string, b: string)
    ensures ("\n\n" + a + "\n\n") + ("\n\n" + b + "\n\n") == "\n\n" + (a + "\n\n\n\n" + b) + "\n\n"
  {
  }

  // ---- Lists ------------------------------------------------------------------------------------

  /** The lines of a list: each item's text behind the marker. */
  function Lines(items: seq<Node>, marker: string): seq<string>
    requires forall n :: n in items ==> n.Element?
  {
    if items == [] then [] else [marker + Inner(items[0].children)] + Lines(items[1..], marker)
  }

  /** Elements named li, none without text. */
  predicate FullItems(items: seq<Node>)
  {
    forall n :: n in items ==> n.Element? && n.tag.Li? && Inner(n.children) != ""
  }

  lemma LineIsTight(marker: string, kids: seq<Node>)
    requires marker != "" && !IsSpace(marker[0]) && Inner(kids) != ""
    ensures marker + Inner(kids) != "" && Tight(marker + Inner(kids))
  {
    InnerIsTight(kids);
    var t := marker + Inner(kids);
    assert t[0] == marker[0] && t[|t| - 1] == Inner(kids)[|Inner(kids)| - 1];
  }

  lemma {:induction false} LinesAreTight(items: seq<Node>, marker: string)
    requires items != [] && FullItems(items) && marker != "" && !IsSpace(marker[0])
    ensures Join(Lines(items, marker), "\n") != "" && Tight(Join(Lines(items, marker), "\n"))
  {
    LineIsTight(marker, items[0].children);
    if |items| > 1 {
      LinesAreTight(items[1..], marker);
      TightAround(marker + Inner(items[0].children), "\n", Join(Lines(items[1..], marker), "\n"));
      assert Lines(items, marker)[1..] == Lines(items[1..], marker);
    }
  }

  lemma {:induction false} ItemsAreLines(items: seq<Node>, marker: string)
    requires items != [] && FullItems(items)
    ensures RenderItems(items, marker) == Join(Lines(items, marker), "\n") + "\n"
  {
    var line := marker + Inner(items[0].children);
    assert ItemLine(items[0], marker) == line + "\n";
    if |items| == 1 {
      assert items[1..] == [] && RenderItems(items[1..], marker) == "";
    } else {
      ItemsAreLines(items[1..], marker);
      assert Lines(items, marker)[1..] == Lines(items[1..], marker);
      AppendLine(line, Join(Lines(items[1..], marker), "\n"));
    }
  }

  lemma AppendLine(line: string, rest: string)
    ensures (line + "\n") + (rest + "\n") == line + "\n" + rest + "\n"
  {
  }

  /** A list is one line for each item: "1. " before its text when ordered, "- " when not. */
  lemma ListForm(tag: Tag, attrs: Attrs, items: seq<Node>)
    requires tag.Ol? || tag.Ul?
    requires items != [] && FullItems(items)
    ensures TagName(tag) == (if tag.Ol? then "ol" else "ul")
    ensures ToMarkdown([Element(tag, attrs, items)]) == Join(Lines(items, if tag.Ol? then "1. " else "- "), "\n")
  {
    var marker := if tag.Ol? then "1. " else "- ";
    ItemsAreLines(items, marker);
    LinesAreTight(items, marker);
    BetweenBreaks(Join(Lines(items, marker), "\n"));
    OneNode(Element(tag, attrs, items), "\n", Join(Lines(items, marker), "\n"), "\n\n");
  }

  lemma BetweenBreaks(t: string)
    ensures "\n" + (t + "\n") + "\n" == "\n" + t + "\n\n"
  {
  }
}
