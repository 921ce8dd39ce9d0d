/** What a scrape reads out of a parsed document: links, headers and paragraphs come from the
    whole document, noise included; markdown and HTML from a stripped clone of one element. */
module Extractors {
  import opened Basics
  import opened Text
  import opened Markdown
  import MarkdownForms

  // ---- Elements in document order ---------------------------------------------------------------

  /** All elements of a tree, each before those below it. */
  function Elements(nodes: seq<Node>): seq<Node>
    decreases nodes, 1
  {
    if nodes == [] then [] else NodeElements(nodes[0]) + Elements(nodes[1..])
  }

  function NodeElements(n: Node): seq<Node>
    decreases n, 0
  {
    if n.Element? then [n] + Elements(n.children) else []
  }

  function Flat<T>(elements: seq<Node>, f: Node -> seq<T>): seq<T>
  {
    if elements == [] then []
    else Flat(elements[..|elements| - 1], f) + f(elements[|elements| - 1])
  }

  /** What f gives for the elements of a tree, in document order. */
  function Collect<T>(nodes: seq<Node>, f: Node -> seq<T>): seq<T>
  {
    Flat(Elements(nodes), f)
  }

  // ---- The extractors -----------------------------------------------------------------------------

  /** The base URL and the reference, resolved and printed; None when the reference does not
      parse. */
  type Resolver = (string, string) -> Option<string>

  function LinkOf(resolve: Resolver, base: string): Node -> seq<string>
  {
    (n: Node) =>
      if n.Element? && n.tag.A? && n.attrs.href.Some? && resolve(base, n.attrs.href.value).Some?
      then [resolve(base, n.attrs.href.value).value] else []
  }

  /** The trimmed text of an element with one of the tags, unless it is empty. */
  function TextIn(wanted: Tag -> bool): Node -> seq<string>
  {
    (n: Node) =>
      if n.Element? && wanted(n.tag) && TrimSpace(NodeText(n)) != "" then [TrimSpace(NodeText(n))] else []
  }

  const HEADER: Tag -> bool := (t: Tag) => t.H1? || t.H2? || t.H3? || t.H4?
  const PARAGRAPH: Tag -> bool := (t: Tag) => t.P?

  /** Headers are the elements named h1 to h4, paragraphs those named p. */
  lemma WantedNames(tag: Tag)
    requires !tag.Named?
    ensures HEADER(tag) <==>
      var n := MarkdownForms.TagName(tag); n == "h1" || n == "h2" || n == "h3" || n == "h4"
    ensures PARAGRAPH(tag) <==> MarkdownForms.TagName(tag) == "p"
  {
  }

  method ExtractLinks(doc: seq<Node>, resolve: Resolver, base: string) returns (links: seq<string>)
    ensures links == Collect(doc, LinkOf(resolve, base))
  {
    links := [];
    var all := Elements(doc);
    for i := 0 to |all|
      invariant links == Flat(all[..i], LinkOf(resolve, base))
    {
      FlatSnoc(all, i, LinkOf(resolve, base));
      var s := all[i];
      if s.Element? && s.tag.A? && s.attrs.href.Some? {
        var link := resolve(base, s.attrs.href.value);
        if link.Some? {
          links := links + [link.value];
        }
      }
    }
    assert all[..|all|] == all;
  }

  /** extractHeaders and extractParagraphs, which differ in the tags alone. */
  method ExtractTexts(doc: seq<Node>, wanted: Tag -> bool) returns (texts: seq<string>)
    ensures texts == Collect(doc, TextIn(wanted))
  {
    texts := [];
    var all := Elements(doc);
    for i := 0 to |all|
      invariant texts == Flat(all[..i], TextIn(wanted))
    {
      FlatSnoc(all, i, TextIn(wanted));
      var s := all[i];
      if s.Element? && wanted(s.tag) {
        var text := TrimSpace(NodeText(s));
        if text != "" {
          texts := texts + [text];
        }
      }
    }
    assert all[..|all|] == all;
  }

  lemma FlatSnoc<T>(elements: seq<Node>, i: nat, f: Node -> seq<T>)
    requires i < |elements|
    ensures Flat(elements[..i + 1], f) == Flat(elements[..i], f) + f(elements[i])
  {
    assert elements[..i + 1][..i] == elements[..i];
  }

  // ---- The main content ---------------------------------------------------------------------------

  datatype Selector = Article | Main | RoleMain | Body

  /** Tried in turn; body at last. */
  const SELECTORS: seq<Selector> := [Article, Main, RoleMain, Body]

  function Selects(sel: Selector): Node -> bool
  {
    (n: Node) => n.Element? &&
      match sel
      case Article => n.tag == Named("article")
      case Main => n.tag == Named("main")
      case RoleMain => n.attrs.role == Some("main")
      case Body => n.tag == Named("body")
  }

  function If(test: Node -> bool): Node -> seq<Node>
  {
    (n: Node) => if test(n) then [n] else []
  }

  lemma {:induction false} FlatIf(elements: seq<Node>, test: Node -> bool)
    ensures forall i :: 0 <= i < |Flat(elements, If(test))| ==> test(Flat(elements, If(test))[i])
  {
    if elements != [] {
      FlatIf(elements[..|elements| - 1], test);
    }
  }

  /** n is the first of the elements that passes. */
  ghost predicate IsFirst(elements: seq<Node>, n: Node, test: Node -> bool)
  {
    exists i :: 0 <= i < |elements| && elements[i] == n && test(n) && forall j :: 0 <= j < i ==> !test(elements[j])
  }

  ghost predicate NonePasses(elements: seq<Node>, test: Node -> bool)
  {
    forall i :: 0 <= i < |elements| ==> !test(elements[i])
  }

  lemma {:induction false} FlatIfFirst(elements: seq<Node>, test: Node -> bool)
    ensures Flat(elements, If(test)) == [] ==> NonePasses(elements, test)
    ensures Flat(elements, If(test)) != [] ==> IsFirst(elements, Flat(elements, If(test))[0], test)
  {
    if elements != [] {
      var init, last := elements[..|elements| - 1], elements[|elements| - 1];
      FlatIfFirst(init, test);
      if Flat(init, If(test)) != [] {
        var i :| 0 <= i < |init| && init[i] == Flat(init, If(test))[0] && test(init[i]) && forall j :: 0 <= j < i ==> !test(init[j]);
        assert elements[i] == init[i] && forall j :: 0 <= j < i ==> !test(elements[j]);
      } else if test(last) {
        assert elements[|elements| - 1] == last && forall j :: 0 <= j < |elements| - 1 ==> !test(elements[j]);
      }
    }
  }

  /** The first element of the first of the selectors that selects any. */
  function MainFrom(doc: seq<Node>, selectors: seq<Selector>): (main: Option<Node>)
    ensures main.Some? ==> main.value.Element?
  {
    if selectors == [] then None
    else
      var found := Collect(doc, If(Selects(selectors[0])));
      FlatIf(Elements(doc), Selects(selectors[0]));
      if found != [] then Some(found[0]) else MainFrom(doc, selectors[1..])
  }

  method MainContent(doc: seq<Node>) returns (main: Option<Node>)
    ensures main == MainFrom(doc, SELECTORS)
    ensures IsMainContent(doc, main)
  {
    MainContentIs(doc);
    for k := 0 to |SELECTORS|
      invariant MainFrom(doc, SELECTORS) == MainFrom(doc, SELECTORS[k..])
    {
      var found := Collect(doc, If(Selects(SELECTORS[k])));
      assert SELECTORS[k..][1..] == SELECTORS[k + 1..];
      if |found| > 0 {
        return Some(found[0]);
      }
    }
    return None;
  }

  /** An element with the given name. */
  function IsNamed(name: string): Node -> bool
  {
    (n: Node) => n.Element? && n.tag == Named(name)
  }

  function HasRoleMain(): Node -> bool
  {
    (n: Node) => n.Element? && n.attrs.role == Some("main")
  }

  /** The main content of a document: its first article; without one, its first main; without
      one, its first element with role main; without one, its first body; and without any of
      these, nothing. */
  ghost predicate IsMainContent(doc: seq<Node>, main: Option<Node>)
  {
    var all := Elements(doc);
    if !NonePasses(all, IsNamed("article")) then main.Some? && IsFirst(all, main.value, IsNamed("article"))
    else if !NonePasses(all, IsNamed("main")) then main.Some? && IsFirst(all, main.value, IsNamed("main"))
    else if !NonePasses(all, HasRoleMain()) then main.Some? && IsFirst(all, main.value, HasRoleMain())
    else if !NonePasses(all, IsNamed("body")) then main.Some? && IsFirst(all, main.value, IsNamed("body"))
    else main.None?
  }

  lemma MainContentIs(doc: seq<Node>)
    ensures IsMainContent(doc, MainFrom(doc, SELECTORS))
  {
    SelectorIs(doc, Article, IsNamed("article"));
    SelectorIs(doc, Main, IsNamed("main"));
    SelectorIs(doc, RoleMain, HasRoleMain());
    SelectorIs(doc, Body, IsNamed("body"));
    FourSelectors(doc);
  }

  lemma FourSelectors(doc: seq<Node>)
    ensures MainFrom(doc, SELECTORS)
         == if Collect(doc, If(Selects(Article))) != [] then Some(Collect(doc, If(Selects(Article)))[0])
            else if Collect(doc, If(Selects(Main))) != [] then Some(Collect(doc, If(Selects(Main)))[0])
            else if Collect(doc, If(Selects(RoleMain))) != [] then Some(Collect(doc, If(Selects(RoleMain)))[0])
            else if Collect(doc, If(Selects(Body))) != [] then Some(Collect(doc, If(Selects(Body)))[0])
            else None
  {
    var three, two, one := [Main] + ([RoleMain] + ([Body] + [])), [RoleMain] + ([Body] + []), [Body] + [];
    assert SELECTORS == [Article] + three;
    MainStep(doc, Article, three);
    MainStep(doc, Main, two);
    MainStep(doc, RoleMain, one);
    MainStep(doc, Body, []);
  }

  lemma MainStep(doc: seq<Node>, sel: Selector, rest: seq<Selector>)
    ensures MainFrom(doc, [sel] + rest)
         == var found := Collect(doc, If(Selects(sel))); if found != [] then Some(found[0]) else MainFrom(doc, rest)
  {
    assert ([sel] + rest)[1..] == rest;
  }

  lemma SelectorIs(doc: seq<Node>, sel: Selector, test: Node -> bool)
    requires forall n :: Selects(sel)(n) <==> test(n)
    ensures var found := Collect(doc, If(Selects(sel)));
            && (found == [] <==> NonePasses(Elements(doc), test))
            && (found != [] ==> IsFirst(Elements(doc), found[0], test))
  {
    var all := Elements(doc);
    FlatIfFirst(all, Selects(sel));
    if Collect(doc, If(Selects(sel))) != [] {
      var i :| 0 <= i < |all| && all[i] == Flat(all, If(Selects(sel)))[0] && Selects(sel)(all[i])
               && forall j :: 0 <= j < i ==> !Selects(sel)(all[j]);
      assert test(all[i]) && forall j :: 0 <= j < i ==> !test(all[j]);
    }
  }

  /** Raw HTML is made of the first body, or of the whole document when there is none. */
  lemma BodyOrAllIs(doc: seq<Node>)
    ensures if NonePasses(Elements(doc), IsNamed("body")) then BodyOrAll(doc) == doc
            else |BodyOrAll(doc)| == 1 && IsFirst(Elements(doc), BodyOrAll(doc)[0], IsNamed("body"))
  {
    SelectorIs(doc, Body, IsNamed("body"));
  }

  /** The first body, or the whole document; nothing is stripped from it. */
  function BodyOrAll(doc: seq<Node>): seq<Node>
  {
    var bodies := Collect(doc, If(Selects(Body)));
    if bodies != [] then [bodies[0]] else doc
  }

  /** An element with the noise below it removed. */
  function Stripped(n: Node): Node
  {
    if n.Element? then Element(n.tag, n.attrs, Strip(n.children)) else n
  }

  function StrippedOf(main: Option<Node>): Option<Node>
  {
    if main.Some? then Some(Stripped(main.value)) else None
  }

  function StrippedMain(doc: seq<Node>): (main: Option<Node>)
    ensures main.Some? ==> main.value.Element?
  {
    StrippedOf(MainFrom(doc, SELECTORS))
  }

  // ---- Inserting a subtree ------------------------------------------------------------------------

  lemma {:induction false} FlatConcat<T>(a: seq<Node>, b: seq<Node>, f: Node -> seq<T>)
    ensures Flat(a + b, f) == Flat(a, f) + Flat(b, f)
  {
    if b == [] {
      assert a + b == a;
    } else {
      assert (a + b)[..|a + b| - 1] == a + b[..|b| - 1];
      FlatConcat(a, b[..|b| - 1], f);
    }
  }

  lemma {:induction false} ElementsConcat(a: seq<Node>, b: seq<Node>)
    ensures Elements(a + b) == Elements(a) + Elements(b)
  {
    if a == [] {
      assert a + b == b;
    } else {
      assert (a + b)[1..] == a[1..] + b;
      ElementsConcat(a[1..], b);
    }
  }

  lemma CollectConcat<T>(a: seq<Node>, b: seq<Node>, f: Node -> seq<T>)
    ensures Collect(a + b, f) == Collect(a, f) + Collect(b, f)
  {
    ElementsConcat(a, b);
    FlatConcat(Elements(a), Elements(b), f);
  }

  lemma CollectElement<T>(n: Node, f: Node -> seq<T>)
    requires n.Element?
    ensures Collect([n], f) == f(n) + Collect(n.children, f)
  {
    assert Elements([n]) == [n] + Elements(n.children) + Elements([n][1..]);
    assert Elements([n]) == [n] + Elements(n.children);
    FlatConcat([n], Elements(n.children), f);
    assert [n][..0] == [];
  }

  /** The element at index i of a list, with x inserted below it. */
  function Grown(n: Node, path: seq<nat>, pos: nat, x: Node): Node
    requires n.Element? && ValidPlace(n.children, path, pos)
  {
    Element(n.tag, n.attrs, InsertAt(n.children, path, pos, x))
  }

  lemma CollectSplit<T>(nodes: seq<Node>, i: nat, n: Node, f: Node -> seq<T>)
    requires i < |nodes| && n.Element?
    ensures Collect(nodes[..i] + [n] + nodes[i + 1..], f)
         == Collect(nodes[..i], f) + (f(n) + Collect(n.children, f)) + Collect(nodes[i + 1..], f)
  {
    CollectConcat(nodes[..i] + [n], nodes[i + 1..], f);
    CollectConcat(nodes[..i], [n], f);
    CollectElement(n, f);
  }

  /** f gives no less for any element that x is inserted below. */
  predicate GrowsAlong<T>(nodes: seq<Node>, path: seq<nat>, pos: nat, x: Node, f: Node -> seq<T>)
    requires ValidPlace(nodes, path, pos)
    decreases |path|
  {
    path == [] ||
    var n := nodes[path[0]];
    |f(n)| <= |f(Grown(n, path[1..], pos, x))| && GrowsAlong(n.children, path[1..], pos, x, f)
  }

  /** f gives the same for every element that x is inserted below. */
  predicate SameAlong<T(==)>(nodes: seq<Node>, path: seq<nat>, pos: nat, x: Node, f: Node -> seq<T>)
    requires ValidPlace(nodes, path, pos)
    decreases |path|
  {
    path == [] ||
    var n := nodes[path[0]];
    f(n) == f(Grown(n, path[1..], pos, x)) && SameAlong(n.children, path[1..], pos, x, f)
  }

  /** Inserting a subtree leaves a collection as it was if and only if the subtree contributes
      nothing and no element above it contributes anything else than before. */
  lemma {:induction false} CollectInsertIff<T>(nodes: seq<Node>, path: seq<nat>, pos: nat, x: Node, f: Node -> seq<T>)
    requires ValidPlace(nodes, path, pos) && GrowsAlong(nodes, path, pos, x, f)
    ensures |Collect(InsertAt(nodes, path, pos, x), f)| >= |Collect(nodes, f)| + |Collect([x], f)|
    ensures Collect(InsertAt(nodes, path, pos, x), f) == Collect(nodes, f)
       <==> Collect([x], f) == [] && SameAlong(nodes, path, pos, x, f)
    decreases |path|
  {
    if path == [] {
      var a, b := nodes[..pos], nodes[pos..];
      assert nodes == a + b;
      CollectConcat(a, b, f);
      CollectConcat(a + [x], b, f);
      CollectConcat(a, [x], f);
    } else {
      var i := path[0];
      var n := nodes[i];
      var n' := Grown(n, path[1..], pos, x);
      CollectInsertIff(n.children, path[1..], pos, x, f);
      assert nodes == nodes[..i] + [n] + nodes[i + 1..];
      CollectSplit(nodes, i, n, f);
      CollectSplit(nodes, i, n', f);
      SameParts(Collect(nodes[..i], f), f(n), Collect(n.children, f), f(n'), Collect(n'.children, f), Collect(nodes[i + 1..], f));
    }
  }

  lemma SameParts<T>(a: seq<T>, b: seq<T>, c: seq<T>, b': seq<T>, c': seq<T>, d: seq<T>)
    requires |b| <= |b'| && |c| <= |c'|
    ensures a + (b' + c') + d == a + (b + c) + d <==> b' == b && c' == c
  {
    if a + (b' + c') + d == a + (b + c) + d {
      assert |b'| == |b| && |c'| == |c|;
      var s := a + (b + c) + d;
      assert b == s[|a|..|a| + |b|] && b' == s[|a|..|a| + |b'|];
      assert c == s[|a| + |b|..|a| + |b| + |c|] && c' == s[|a| + |b'|..|a| + |b'| + |c'|];
    }
  }

  // ---- Links --------------------------------------------------------------------------------------

  lemma {:induction false} LinksAlong(resolve: Resolver, base: string, nodes: seq<Node>, path: seq<nat>, pos: nat, x: Node)
    requires ValidPlace(nodes, path, pos)
    ensures GrowsAlong(nodes, path, pos, x, LinkOf(resolve, base)) && SameAlong(nodes, path, pos, x, LinkOf(resolve, base))
    decreases |path|
  {
    if path != [] {
      LinksAlong(resolve, base, nodes[path[0]].children, path[1..], pos, x);
    }
  }

  /** A subtree inserted anywhere, be it noise, leaves the links as they were if and only if it
      has none itself. */
  lemma LinksShowIff(resolve: Resolver, base: string, doc: seq<Node>, path: seq<nat>, pos: nat, x: Node)
    requires ValidPlace(doc, path, pos)
    ensures Collect(InsertAt(doc, path, pos, x), LinkOf(resolve, base)) == Collect(doc, LinkOf(resolve, base))
       <==> Collect([x], LinkOf(resolve, base)) == []
  {
    LinksAlong(resolve, base, doc, path, pos, x);
    CollectInsertIff(doc, path, pos, x, LinkOf(resolve, base));
  }

  /** So noise does show: a link in a nav is among the links, wherever the nav stands. */
  lemma NavLinkShows(resolve: Resolver, base: string, doc: seq<Node>, path: seq<nat>, pos: nat, href: string, text: string)
    requires ValidPlace(doc, path, pos) && resolve(base, href).Some?
    ensures var link := Element(A, Attrs(Some(href), None, ""), [Text(text)]);
            var nav := Element(Nav, Attrs(None, None, ""), [link]);
            && IsNoise(nav.tag)
            && Collect(InsertAt(doc, path, pos, nav), LinkOf(resolve, base)) != Collect(doc, LinkOf(resolve, base))
  {
    var link := Element(A, Attrs(Some(href), None, ""), [Text(text)]);
    var nav := Element(Nav, Attrs(None, None, ""), [link]);
    CollectElement(nav, LinkOf(resolve, base));
    CollectElement(link, LinkOf(resolve, base));
    LinksShowIff(resolve, base, doc, path, pos, nav);
  }

  // ---- Headers and paragraphs ---------------------------------------------------------------------

  /** Inserted text adds to what is not white space. */
  lemma {:induction false} TextGrows(nodes: seq<Node>, path: seq<nat>, pos: nat, x: Node)
    requires ValidPlace(nodes, path, pos)
    ensures |NonWs(TextOf(InsertAt(nodes, path, pos, x)))| >= |NonWs(TextOf(nodes))|
    decreases |path|
  {
    if path == [] {
      assert nodes == nodes[..pos] + nodes[pos..];
      TextParts(nodes[..pos], [], nodes[pos..]);
      TextParts(nodes[..pos], [x], nodes[pos..]);
      assert nodes[..pos] + [] + nodes[pos..] == nodes;
    } else {
      var i := path[0];
      var n := nodes[i];
      TextGrows(n.children, path[1..], pos, x);
      assert nodes == nodes[..i] + [n] + nodes[i + 1..];
      TextParts(nodes[..i], [n], nodes[i + 1..]);
      TextParts(nodes[..i], [Grown(n, path[1..], pos, x)], nodes[i + 1..]);
      TextOne(n);
      TextOne(Grown(n, path[1..], pos, x));
    }
  }

  lemma TextParts(a: seq<Node>, b: seq<Node>, c: seq<Node>)
    ensures |NonWs(TextOf(a + b + c))| == |NonWs(TextOf(a))| + |NonWs(TextOf(b))| + |NonWs(TextOf(c))|
  {
    TextConcat(a + b, c);
    TextConcat(a, b);
    NonWsConcat(TextOf(a + b), TextOf(c));
    NonWsConcat(TextOf(a), TextOf(b));
  }

  lemma TextOne(n: Node)
    ensures TextOf([n]) == NodeText(n)
  {
    assert TextOf([n]) == NodeText(n) + TextOf([n][1..]);
  }

  lemma TrimmedIsEmptyIff(s: string)
    ensures TrimSpace(s) == "" <==> NonWs(s) == ""
  {
    NonWsTrim(s);
    var t := TrimSpace(s);
    if t != "" {
      assert !IsSpace(t[|t| - 1]);
      assert t == t[..|t| - 1] + [t[|t| - 1]];
      NonWsConcat(t[..|t| - 1], [t[|t| - 1]]);
    }
  }

  lemma {:induction false} TextsGrow(wanted: Tag -> bool, nodes: seq<Node>, path: seq<nat>, pos: nat, x: Node)
    requires ValidPlace(nodes, path, pos)
    ensures GrowsAlong(nodes, path, pos, x, TextIn(wanted))
    decreases |path|
  {
    if path != [] {
      var n := nodes[path[0]];
      TextsGrow(wanted, n.children, path[1..], pos, x);
      TextGrows(n.children, path[1..], pos, x);
      TrimmedIsEmptyIff(NodeText(n));
      TrimmedIsEmptyIff(NodeText(Grown(n, path[1..], pos, x)));
    }
  }

  /** A subtree inserted anywhere leaves the headers (or the paragraphs) as they were if and only
      if it has none itself and every one it stands in keeps its trimmed text. */
  lemma TextsShowIff(wanted: Tag -> bool, doc: seq<Node>, path: seq<nat>, pos: nat, x: Node)
    requires ValidPlace(doc, path, pos)
    ensures Collect(InsertAt(doc, path, pos, x), TextIn(wanted)) == Collect(doc, TextIn(wanted))
       <==> Collect([x], TextIn(wanted)) == [] && SameAlong(doc, path, pos, x, TextIn(wanted))
  {
    TextsGrow(wanted, doc, path, pos, x);
    CollectInsertIff(doc, path, pos, x, TextIn(wanted));
  }

  // ---- Markdown and HTML --------------------------------------------------------------------------

  function StrippedIf(sel: Selector): Node -> seq<Node>
  {
    (n: Node) => if Selects(sel)(n) then [Stripped(n)] else []
  }

  /** What f gives for the elements before, and after, a place in document order. */
  function Before<T>(nodes: seq<Node>, path: seq<nat>, pos: nat, f: Node -> seq<T>): seq<T>
    requires ValidPlace(nodes, path, pos)
    decreases |path|
  {
    if path == [] then Collect(nodes[..pos], f)
    else
      var n := nodes[path[0]];
      Collect(nodes[..path[0]], f) + f(n) + Before(n.children, path[1..], pos, f)
  }

  function After<T>(nodes: seq<Node>, path: seq<nat>, pos: nat, f: Node -> seq<T>): seq<T>
    requires ValidPlace(nodes, path, pos)
    decreases |path|
  {
    if path == [] then Collect(nodes[pos..], f)
    else After(nodes[path[0]].children, path[1..], pos, f) + Collect(nodes[path[0] + 1..], f)
  }

  /** Where no element above changes its share, a collection is what stands before, the
      inserted subtree's share, and what stands after. */
  lemma {:induction false} CollectAround<T>(nodes: seq<Node>, path: seq<nat>, pos: nat, x: Node, f: Node -> seq<T>)
    requires ValidPlace(nodes, path, pos) && SameAlong(nodes, path, pos, x, f)
    ensures Collect(nodes, f) == Before(nodes, path, pos, f) + After(nodes, path, pos, f)
    ensures Collect(InsertAt(nodes, path, pos, x), f)
         == Before(nodes, path, pos, f) + Collect([x], f) + After(nodes, path, pos, f)
    decreases |path|
  {
    if path == [] {
      var a, b := nodes[..pos], nodes[pos..];
      assert nodes == a + b;
      CollectConcat(a, b, f);
      CollectConcat(a + [x], b, f);
      CollectConcat(a, [x], f);
    } else {
      var i := path[0];
      var n := nodes[i];
      CollectAround(n.children, path[1..], pos, x, f);
      assert nodes == nodes[..i] + [n] + nodes[i + 1..];
      CollectSplit(nodes, i, n, f);
      CollectSplit(nodes, i, Grown(n, path[1..], pos, x), f);
      var left, right := Before(n.children, path[1..], pos, f), After(n.children, path[1..], pos, f);
      Regroup(Collect(nodes[..i], f), f(n), left, [], right, Collect(nodes[i + 1..], f));
      Regroup(Collect(nodes[..i], f), f(n), left, Collect([x], f), right, Collect(nodes[i + 1..], f));
    }
  }

  lemma Regroup<T>(a: seq<T>, b: seq<T>, c: seq<T>, d: seq<T>, e: seq<T>, g: seq<T>)
    ensures a + (b + (c + d + e)) + g == (a + b + c) + d + (e + g)
    ensures d == [] ==> c + d + e == c + e && a + (b + (c + e)) + g == (a + b + c) + (e + g)
  {
  }

  lemma {:induction false} SelectedAlong(sel: Selector, nodes: seq<Node>, path: seq<nat>, pos: nat, x: Node)
    requires ValidPlace(nodes, path, pos) && x.Element? && IsNoise(x.tag)
    ensures SameAlong(nodes, path, pos, x, StrippedIf(sel))
    decreases |path|
  {
    if path != [] {
      var n := nodes[path[0]];
      var n' := Grown(n, path[1..], pos, x);
      SelectedAlong(sel, n.children, path[1..], pos, x);
      StripIgnoresNoise(n.children, path[1..], pos, x);
      assert Stripped(n') == Stripped(n) && Selects(sel)(n') == Selects(sel)(n);
    }
  }

  lemma {:induction false} FlatStripped(elements: seq<Node>, sel: Selector)
    ensures |Flat(elements, StrippedIf(sel))| == |Flat(elements, If(Selects(sel)))|
    ensures forall i :: 0 <= i < |Flat(elements, StrippedIf(sel))| ==>
              Flat(elements, StrippedIf(sel))[i] == Stripped(Flat(elements, If(Selects(sel)))[i])
  {
    if elements != [] {
      FlatStripped(elements[..|elements| - 1], sel);
    }
  }

  /** What each selector gives, stripped: in a tree, and before and after a place in it. */
  function Found(nodes: seq<Node>, selectors: seq<Selector>): (found: seq<seq<Node>>)
    ensures |found| == |selectors|
  {
    if selectors == [] then []
    else [Collect(nodes, StrippedIf(selectors[0]))] + Found(nodes, selectors[1..])
  }

  function FoundBefore(doc: seq<Node>, path: seq<nat>, pos: nat, selectors: seq<Selector>): (found: seq<seq<Node>>)
    requires ValidPlace(doc, path, pos)
    ensures |found| == |selectors|
  {
    if selectors == [] then []
    else [Before(doc, path, pos, StrippedIf(selectors[0]))] + FoundBefore(doc, path, pos, selectors[1..])
  }

  function FoundAfter(doc: seq<Node>, path: seq<nat>, pos: nat, selectors: seq<Selector>): (found: seq<seq<Node>>)
    requires ValidPlace(doc, path, pos)
    ensures |found| == |selectors|
  {
    if selectors == [] then []
    else [After(doc, path, pos, StrippedIf(selectors[0]))] + FoundAfter(doc, path, pos, selectors[1..])
  }

  function FirstOf(found: seq<seq<Node>>): Option<Node>
  {
    if found == [] then None else if found[0] != [] then Some(found[0][0]) else FirstOf(found[1..])
  }

  /** What comes from an inserted subtree and takes the first place: the first element of the
      first selector that gives anything, if none of that selector stands before. */
  function Taken(before: seq<seq<Node>>, inside: seq<seq<Node>>, after: seq<seq<Node>>): Option<Node>
    requires |before| == |inside| == |after|
  {
    if before == [] || before[0] != [] then None
    else if inside[0] != [] then Some(inside[0][0])
    else if after[0] != [] then None
    else Taken(before[1..], inside[1..], after[1..])
  }

  /** was and now are what was found without and with the subtree. */
  predicate Around(before: seq<seq<Node>>, inside: seq<seq<Node>>, after: seq<seq<Node>>,
                   was: seq<seq<Node>>, now: seq<seq<Node>>)
  {
    && |before| == |inside| == |after| == |was| == |now|
    && forall k :: 0 <= k < |was| ==> was[k] == before[k] + after[k] && now[k] == before[k] + inside[k] + after[k]
  }

  lemma {:induction false} FirstOfAround(before: seq<seq<Node>>, inside: seq<seq<Node>>, after: seq<seq<Node>>,
                                         was: seq<seq<Node>>, now: seq<seq<Node>>)
    requires Around(before, inside, after, was, now)
    ensures var taken := Taken(before, inside, after);
            FirstOf(now) == if taken.Some? then taken else FirstOf(was)
  {
    if before != [] && before[0] == [] && inside[0] == [] && after[0] == [] {
      FirstOfAround(before[1..], inside[1..], after[1..], was[1..], now[1..]);
    }
  }

  lemma {:induction false} FirstOfIsMain(doc: seq<Node>, selectors: seq<Selector>)
    ensures FirstOf(Found(doc, selectors)) == StrippedOf(MainFrom(doc, selectors))
  {
    if selectors != [] {
      FlatStripped(Elements(doc), selectors[0]);
      FirstOfIsMain(doc, selectors[1..]);
    }
  }

  lemma {:induction false} FoundAround(doc: seq<Node>, path: seq<nat>, pos: nat, x: Node, selectors: seq<Selector>)
    requires ValidPlace(doc, path, pos) && x.Element? && IsNoise(x.tag)
    ensures Around(FoundBefore(doc, path, pos, selectors), Found([x], selectors), FoundAfter(doc, path, pos, selectors),
                   Found(doc, selectors), Found(InsertAt(doc, path, pos, x), selectors))
  {
    if selectors != [] {
      SelectedAlong(selectors[0], doc, path, pos, x);
      CollectAround(doc, path, pos, x, StrippedIf(selectors[0]));
      FoundAround(doc, path, pos, x, selectors[1..]);
    }
  }

  /** The element inside a subtree x that, once x is inserted, is the main content. */
  function TakenBy(doc: seq<Node>, path: seq<nat>, pos: nat, x: Node): Option<Node>
    requires ValidPlace(doc, path, pos)
  {
    Taken(FoundBefore(doc, path, pos, SELECTORS), Found([x], SELECTORS), FoundAfter(doc, path, pos, SELECTORS))
  }

  /** Noise inserted anywhere in a document does not change the stripped main content, except
      when it contains an element that becomes the main content itself; then that is it. */
  lemma MainAfterNoise(doc: seq<Node>, path: seq<nat>, pos: nat, x: Node)
    requires ValidPlace(doc, path, pos) && x.Element? && IsNoise(x.tag)
    ensures var taken := TakenBy(doc, path, pos, x);
            StrippedMain(InsertAt(doc, path, pos, x)) == if taken.Some? then taken else StrippedMain(doc)
  {
    StrippedAfterNoise(doc, path, pos, x, SELECTORS);
  }

  lemma StrippedAfterNoise(doc: seq<Node>, path: seq<nat>, pos: nat, x: Node, selectors: seq<Selector>)
    requires ValidPlace(doc, path, pos) && x.Element? && IsNoise(x.tag)
    ensures var taken := Taken(FoundBefore(doc, path, pos, selectors), Found([x], selectors), FoundAfter(doc, path, pos, selectors));
            StrippedOf(MainFrom(InsertAt(doc, path, pos, x), selectors))
            == if taken.Some? then taken else StrippedOf(MainFrom(doc, selectors))
  {
    FirstOfIsMain(doc, selectors);
    FirstOfIsMain(InsertAt(doc, path, pos, x), selectors);
    FoundAround(doc, path, pos, x, selectors);
    FirstOfAround(FoundBefore(doc, path, pos, selectors), Found([x], selectors), FoundAfter(doc, path, pos, selectors),
                  Found(doc, selectors), Found(InsertAt(doc, path, pos, x), selectors));
  }

  /** Noise in which no selector selects anything takes nothing's place. */
  lemma PlainNoiseTakesNothing(doc: seq<Node>, path: seq<nat>, pos: nat, x: Node)
    requires ValidPlace(doc, path, pos) && forall sel :: Collect([x], If(Selects(sel))) == []
    ensures TakenBy(doc, path, pos, x).None?
  {
    NothingFound(x, SELECTORS);
    NothingTaken(FoundBefore(doc, path, pos, SELECTORS), Found([x], SELECTORS), FoundAfter(doc, path, pos, SELECTORS));
  }

  lemma {:induction false} NothingFound(x: Node, selectors: seq<Selector>)
    requires forall sel :: Collect([x], If(Selects(sel))) == []
    ensures forall k :: 0 <= k < |selectors| ==> Found([x], selectors)[k] == []
  {
    if selectors != [] {
      FlatStripped(Elements([x]), selectors[0]);
      NothingFound(x, selectors[1..]);
    }
  }

  lemma {:induction false} NothingTaken(before: seq<seq<Node>>, inside: seq<seq<Node>>, after: seq<seq<Node>>)
    requires |before| == |inside| == |after| && forall k :: 0 <= k < |inside| ==> inside[k] == []
    ensures Taken(before, inside, after).None?
  {
    if before != [] {
      NothingTaken(before[1..], inside[1..], after[1..]);
    }
  }
}
