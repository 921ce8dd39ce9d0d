/** The parsed document as the program holds it: elements whose lists of children can be changed
    in place. Each element owns its subtree, and the subtrees of siblings are disjoint. */
module Dom {
  import opened Markdown

  datatype Child =
    | TextNode(data: string)
    | OtherNode
    | ElementNode(elem: Elem)

  /** What a child amounts to as a value. */
  ghost predicate Represents(c: Child, n: Node)
    reads if c.ElementNode? then {c.elem} + c.elem.Repr else {}
  {
    match c
    case TextNode(data) => n == Text(data)
    case OtherNode => n == Other
    case ElementNode(e) => e.Valid() && n == Element(e.tag, e.attrs, e.Contents())
  }

  class Elem {
    const tag: Tag
    const attrs: Attrs
    var kids: seq<Child>
    ghost var Repr: set<Elem>

    ghost predicate Valid()
      reads this, Repr
      decreases Repr
    {
      && this in Repr
      && (forall i :: 0 <= i < |kids| && kids[i].ElementNode? ==>
            kids[i].elem in Repr && kids[i].elem.Repr < Repr && this !in kids[i].elem.Repr && kids[i].elem.Valid())
      && (forall i, j :: 0 <= i < j < |kids| && kids[i].ElementNode? && kids[j].ElementNode? ==>
            kids[i].elem.Repr !! kids[j].elem.Repr)
    }

    /** The tree below child i. */
    ghost function NodeAt(i: nat): Node
      requires Valid() && i < |kids|
      reads this, Repr
      decreases Repr, 0
    {
      match kids[i]
      case TextNode(data) => Text(data)
      case OtherNode => Other
      case ElementNode(e) => Element(e.tag, e.attrs, e.Contents())
    }

    ghost function ContentsTo(n: nat): (nodes: seq<Node>)
      requires Valid() && n <= |kids|
      ensures |nodes| == n
      reads this, Repr
      decreases Repr, n + 1
    {
      if n == 0 then [] else ContentsTo(n - 1) + [NodeAt(n - 1)]
    }

    /** The children, as values. */
    ghost function Contents(): (nodes: seq<Node>)
      requires Valid()
      ensures |nodes| == |kids|
      reads this, Repr
      decreases Repr, |kids| + 2
    {
      ContentsTo(|kids|)
    }

    lemma {:induction false} ContentsAt(n: nat)
      requires Valid() && n <= |kids|
      ensures forall i :: 0 <= i < n ==> ContentsTo(n)[i] == NodeAt(i)
    {
      if n > 0 {
        ContentsAt(n - 1);
      }
    }

    constructor (tag: Tag, attrs: Attrs)
      ensures Valid() && Repr == {this} && this.tag == tag && this.attrs == attrs
      ensures Contents() == []
    {
      this.tag, this.attrs, kids, Repr := tag, attrs, [], {this};
    }

    method Append(c: Child, ghost node: Node)
      requires Valid()
      requires Represents(c, node) && (c.ElementNode? ==> c.elem.Repr !! Repr)
      modifies this
      ensures Valid() && Contents() == old(Contents()) + [node]
      ensures Repr == old(Repr) + if c.ElementNode? then c.elem.Repr else {}
    {
      ContentsAt(|kids|);
      kids := kids + [c];
      Repr := Repr + if c.ElementNode? then c.elem.Repr else {};
      ContentsAt(|kids|);
      assert forall i :: 0 <= i < |kids| - 1 ==> NodeAt(i) == old(NodeAt(i));
    }

    method RemoveAt(i: nat)
      requires Valid() && i < |kids|
      modifies this
      ensures Valid() && Repr == old(Repr)
      ensures kids == old(kids)[..i] + old(kids)[i + 1..]
      ensures Contents() == old(Contents()[..i] + Contents()[i + 1..])
    {
      ContentsAt(|kids|);
      kids := kids[..i] + kids[i + 1..];
      ContentsAt(|kids|);
      assert forall j :: 0 <= j < i ==> NodeAt(j) == old(NodeAt(j));
      assert forall j :: i <= j < |kids| ==> NodeAt(j) == old(NodeAt(j + 1));
    }

    /** Removes the noise elements below this one, at any depth. */
    method StripNoise()
      requires Valid()
      modifies Repr
      ensures Valid() && Repr == old(Repr)
      ensures Contents() == Strip(old(Contents()))
      decreases Repr, 2
    {
      ghost var was := Contents();
      ghost var done: nat := 0;
      var i := 0;
      while i < |kids|
        invariant Valid() && Repr == old(Repr)
        invariant i <= |kids| && done <= |was| && |kids| - i == |was| - done
        invariant Contents() == Strip(was[..done]) + was[done..] && |Strip(was[..done])| == i
        decreases |kids| - i
      {
        StripNext(was, done, Contents(), i);
        i := StripAt(i);
        done := done + 1;
      }
      AllStripped(was, done, Contents());
    }

    /** Strips the tree at child i; next is the position behind what is left of it. */
    method StripAt(i: nat) returns (next: nat)
      requires Valid() && i < |kids|
      modifies Repr
      ensures Valid() && Repr == old(Repr)
      ensures Contents() == old(Contents()[..i] + StripNode(Contents()[i]) + Contents()[i + 1..])
      ensures next == i + |StripNode(old(Contents()[i]))|
      decreases Repr, 1
    {
      ContentsAt(|kids|);
      if kids[i].ElementNode? {
        if IsNoise(kids[i].elem.tag) {
          RemoveAt(i);
          return i;
        }
        StripChild(i);
      }
      return i + 1;
    }

    /** Strips child i, in its place. */
    method StripChild(i: nat)
      requires Valid() && i < |kids| && kids[i].ElementNode?
      modifies kids[i].elem.Repr
      ensures Valid() && Repr == old(Repr) && kids == old(kids)
      ensures Contents() == old(Contents()[i := Element(kids[i].elem.tag, kids[i].elem.attrs, Strip(kids[i].elem.Contents()))])
      decreases Repr, 0
    {
      ContentsAt(|kids|);
      kids[i].elem.StripNoise();
      ContentsAt(|kids|);
      assert forall j :: 0 <= j < |kids| && j != i ==> NodeAt(j) == old(NodeAt(j));
    }
  }

  /** A new tree with the given contents. */
  method Build(tag: Tag, attrs: Attrs, nodes: seq<Node>) returns (e: Elem)
    ensures e.Valid() && fresh(e.Repr) && e.tag == tag && e.attrs == attrs
    ensures e.Contents() == nodes
    decreases nodes, 1
  {
    e := new Elem(tag, attrs);
    for i := 0 to |nodes|
      invariant e.Valid() && fresh(e.Repr) && e.Contents() == nodes[..i]
    {
      var c := BuildChild(nodes[i]);
      e.Append(c, nodes[i]);
    }
  }

  method BuildChild(n: Node) returns (c: Child)
    ensures Represents(c, n) && (c.ElementNode? ==> fresh(c.elem.Repr))
    decreases n, 0
  {
    match n
    case Text(data) =>
      c := TextNode(data);
    case Other =>
      c := OtherNode;
    case Element(tag, attrs, kids) =>
      var e := Build(tag, attrs, kids);
      c := ElementNode(e);
  }

  /** The contents as they stand. */
  method Values(e: Elem) returns (nodes: seq<Node>)
    requires e.Valid()
    ensures nodes == e.Contents()
    decreases e.Contents(), 1
  {
    nodes := [];
    e.ContentsAt(|e.kids|);
    for i := 0 to |e.kids|
      invariant nodes == e.ContentsTo(i)
    {
      assert e.NodeAt(i) == e.Contents()[i];
      match e.kids[i] {
        case TextNode(data) =>
          nodes := nodes + [Text(data)];
        case OtherNode =>
          nodes := nodes + [Other];
        case ElementNode(child) =>
          var below := Values(child);
          nodes := nodes + [Element(child.tag, child.attrs, below)];
      }
    }
  }

  lemma AllStripped(was: seq<Node>, done: nat, now: seq<Node>)
    requires done == |was| && now == Strip(was[..done]) + was[done..]
    ensures now == Strip(was)
  {
    assert was[..done] == was;
  }

  /** One more tree stripped. */
  lemma StripNext(was: seq<Node>, k: nat, now: seq<Node>, i: nat)
    requires k < |was| && i == |Strip(was[..k])| && now == Strip(was[..k]) + was[k..]
    ensures i < |now| && now[i] == was[k]
    ensures now[..i] + StripNode(now[i]) + now[i + 1..] == Strip(was[..k + 1]) + was[k + 1..]
    ensures |Strip(was[..k + 1])| == i + |StripNode(was[k])|
  {
    var done := Strip(was[..k]);
    assert now[..i] == done && now[i] == was[k] && now[i + 1..] == was[k + 1..];
    assert was[..k + 1] == was[..k] + [was[k]];
    StripConcat(was[..k], [was[k]]);
    assert Strip([was[k]]) == StripNode(was[k]) + Strip([]);
    assert Strip(was[..k + 1]) == done + StripNode(was[k]);
  }
}
