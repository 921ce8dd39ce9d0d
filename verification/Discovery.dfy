/** The breadth-first discovery order shared by the crawl and the map, as a value.

    A graph gives the seed, the same-host targets of each page in document order, and
    the depth limit. `Order(g, k)` is everything discovered once the first k items have
    been expanded; `First(g, n)` is the first n items ever discovered. */
module Discovery {

  /** A frontier entry. */
  datatype Item = Item(url: string, depth: nat)

  datatype Graph = Graph(seed: string, succ: string -> seq<string>, maxDepth: nat)

  function Min(a: nat, b: nat): nat { if a < b then a else b }

  function Urls(items: seq<Item>): seq<string>
  {
    seq(|items|, i requires 0 <= i < |items| => items[i].url)
  }

  function Seen(items: seq<Item>): set<string>
  {
    if items == [] then {} else Seen(items[..|items| - 1]) + {items[|items| - 1].url}
  }

  lemma {:induction false} SeenIff(items: seq<Item>, u: string)
    ensures u in Seen(items) <==> exists i :: 0 <= i < |items| && items[i].url == u
  {
    if items != [] {
      SeenIff(items[..|items| - 1], u);
    }
  }

  predicate Distinct<T(==)>(s: seq<T>)
  {
    forall i, j :: 0 <= i < j < |s| ==> s[i] != s[j]
  }

  predicate DistinctUrls(items: seq<Item>)
  {
    forall i, j :: 0 <= i < j < |items| ==> items[i].url != items[j].url
  }

  /** The targets not seen before, each once, in order of first occurrence, at one depth. */
  function Fresh(seen: set<string>, targets: seq<string>, depth: nat): seq<Item>
    decreases |targets|
  {
    if targets == [] then []
    else if targets[0] in seen then Fresh(seen, targets[1..], depth)
    else [Item(targets[0], depth)] + Fresh(seen + {targets[0]}, targets[1..], depth)
  }

  /** What an item with the given targets adds: nothing at the depth limit. */
  function Children(item: Item, targets: seq<string>, maxDepth: nat, seen: set<string>): seq<Item>
  {
    if item.depth < maxDepth then Fresh(seen, targets, item.depth + 1) else []
  }

  /** What expanding item k adds: nothing past the end. */
  function Expand(g: Graph, items: seq<Item>, k: nat): seq<Item>
  {
    if k < |items| then Children(items[k], g.succ(items[k].url), g.maxDepth, Seen(items)) else []
  }

  function Order(g: Graph, k: nat): seq<Item>
    decreases k, 0
  {
    if k == 0 then [Item(g.seed, 0)] else Order(g, k - 1) + Level(g, k - 1)
  }

  function Level(g: Graph, k: nat): seq<Item>
    decreases k, 1
  {
    Expand(g, Order(g, k), k)
  }

  function First(g: Graph, n: nat): seq<Item>
  {
    Order(g, n)[..Min(n, |Order(g, n)|)]
  }

  // ---- The independent definition: walks and distances in the graph -------------------

  /** There is a walk of exactly d links from the seed to v. */
  ghost predicate Walk(g: Graph, v: string, d: nat)
    decreases d
  {
    if d == 0 then v == g.seed
    else exists u :: Walk(g, u, d - 1) && v in g.succ(u)
  }

  /** d is the shortest-path distance of v from the seed. */
  ghost predicate Distance(g: Graph, v: string, d: nat)
  {
    Walk(g, v, d) && forall e: nat :: e < d ==> !Walk(g, v, e)
  }

  // ---- Fresh --------------------------------------------------------------------------

  lemma {:induction false} FreshFacts(seen: set<string>, targets: seq<string>, depth: nat)
    ensures var f := Fresh(seen, targets, depth);
            && DistinctUrls(f)
            && (forall i :: 0 <= i < |f| ==> f[i].depth == depth && f[i].url in targets && f[i].url !in seen)
    ensures forall u :: u in targets ==> u in seen || Item(u, depth) in Fresh(seen, targets, depth)
    decreases |targets|
  {
    if targets != [] {
      if targets[0] in seen {
        FreshFacts(seen, targets[1..], depth);
      } else {
        FreshFacts(seen + {targets[0]}, targets[1..], depth);
      }
    }
  }

  // ---- Invariants of the order --------------------------------------------------------

  /** What holds of the items o when the first k of them have been expanded. */
  ghost predicate Sound(g: Graph, o: seq<Item>, k: nat)
  {
    && |o| >= 1 && o[0] == Item(g.seed, 0)
    && DistinctUrls(o)
    && (forall i, j :: 0 <= i < j < |o| ==> o[i].depth <= o[j].depth)
    && (forall i :: 0 <= i < |o| ==> Walk(g, o[i].url, o[i].depth) && o[i].depth <= g.maxDepth)
    && (k < |o| ==> forall i :: 0 <= i < |o| ==> o[i].depth <= o[k].depth + 1)
  }

  /** The first k items have all their targets listed, at most one level further down. */
  ghost predicate Closed(g: Graph, o: seq<Item>, k: nat)
  {
    forall i, v :: 0 <= i < k && i < |o| && o[i].depth < g.maxDepth && v in g.succ(o[i].url)
      ==> Listed(o, v, o[i].depth + 1)
  }

  /** v is listed at depth d or less. */
  ghost predicate Listed(o: seq<Item>, v: string, d: nat)
  {
    exists j :: 0 <= j < |o| && o[j].url == v && o[j].depth <= d
  }

  /** What expanding item k adds is new, one level down, and reached by a walk. */
  lemma ExpandFacts(g: Graph, o: seq<Item>, k: nat)
    requires k < |o| && Walk(g, o[k].url, o[k].depth)
    ensures var x := Expand(g, o, k);
            && DistinctUrls(x)
            && forall i :: 0 <= i < |x| ==>
                 && x[i].depth == o[k].depth + 1 <= g.maxDepth && x[i].url !in Seen(o)
                 && Walk(g, x[i].url, x[i].depth)
  {
    FreshFacts(Seen(o), g.succ(o[k].url), o[k].depth + 1);
  }

  lemma DistinctAppend(o: seq<Item>, x: seq<Item>)
    requires DistinctUrls(o) && DistinctUrls(x) && forall i :: 0 <= i < |x| ==> x[i].url !in Seen(o)
    ensures DistinctUrls(o + x)
  {
    var p := o + x;
    forall i, j | 0 <= i < j < |p| ensures p[i].url != p[j].url {
      if i < |o| <= j {
        SeenIff(o, o[i].url);
      }
    }
  }

  lemma ExpandSound(g: Graph, o: seq<Item>, k: nat)
    requires k < |o| && Sound(g, o, k)
    ensures Sound(g, o + Expand(g, o, k), k + 1)
  {
    var x := Expand(g, o, k);
    ExpandFacts(g, o, k);
    DistinctAppend(o, x);
    assert forall i :: 0 <= i < |o + x| ==> (o + x)[i].depth <= o[k].depth + 1;
  }

  lemma StillListed(o: seq<Item>, x: seq<Item>, v: string, d: nat)
    requires Listed(o, v, d)
    ensures Listed(o + x, v, d)
  {
    var j :| 0 <= j < |o| && o[j].url == v && o[j].depth <= d;
    assert (o + x)[j] == o[j];
  }

  /** Expanding item k lists its targets, unless they are listed already. */
  lemma TargetListed(g: Graph, o: seq<Item>, k: nat, v: string)
    requires k < |o| && o[k].depth < g.maxDepth && v in g.succ(o[k].url)
    requires forall i :: 0 <= i < |o| ==> o[i].depth <= o[k].depth + 1
    ensures Listed(o + Expand(g, o, k), v, o[k].depth + 1)
  {
    var x := Expand(g, o, k);
    SeenIff(o, v);
    if v in Seen(o) {
      assert Listed(o, v, o[k].depth + 1);
      StillListed(o, x, v, o[k].depth + 1);
    } else {
      FreshFacts(Seen(o), g.succ(o[k].url), o[k].depth + 1);
      var j :| 0 <= j < |x| && x[j] == Item(v, o[k].depth + 1);
      assert (o + x)[|o| + j] == x[j];
    }
  }

  lemma ExpandClosed(g: Graph, o: seq<Item>, k: nat)
    requires k < |o| && Closed(g, o, k)
    requires forall i :: 0 <= i < |o| ==> o[i].depth <= o[k].depth + 1
    ensures Closed(g, o + Expand(g, o, k), k + 1)
  {
    var x := Expand(g, o, k);
    forall i, v | 0 <= i < k + 1 && o[i].depth < g.maxDepth && v in g.succ(o[i].url)
      ensures Listed(o + x, v, o[i].depth + 1)
    {
      if i < k {
        StillListed(o, x, v, o[i].depth + 1);
      } else {
        TargetListed(g, o, k, v);
      }
    }
  }

  /** One step: expanding item k appends its level. */
  lemma OrderStep(g: Graph, o: seq<Item>, k: nat)
    requires o == Order(g, k)
    ensures Order(g, k + 1) == o + Expand(g, o, k)
  {
  }

  /** Sound and Closed together: the loop invariant of the search, as a statement about o. */
  ghost predicate Good(g: Graph, o: seq<Item>, k: nat)
  {
    Sound(g, o, k) && Closed(g, o, k)
  }

  lemma GoodStart(g: Graph)
    ensures Good(g, Order(g, 0), 0)
  {
  }

  lemma GoodStep(g: Graph, k: nat, next: nat)
    requires Good(g, Order(g, k), k) && next == k + 1
    ensures Good(g, Order(g, next), next)
  {
    var o := Order(g, k);
    OrderStep(g, o, k);
    if k < |o| {
      ExpandSound(g, o, k);
      ExpandClosed(g, o, k);
    } else {
      assert Order(g, k + 1) == o;
    }
  }

  lemma {:induction false} OrderGood(g: Graph, k: nat)
    ensures Good(g, Order(g, k), k)
  {
    if k == 0 {
      GoodStart(g);
    } else {
      OrderGood(g, k - 1);
      GoodStep(g, k - 1, k);
    }
  }

  lemma {:induction false} OrderPrefix(g: Graph, j: nat, k: nat)
    requires j <= k
    ensures Order(g, j) <= Order(g, k)
    ensures |Order(g, j)| <= j ==> Order(g, k) == Order(g, j)
    decreases k - j
  {
    if j < k {
      OrderStep(g, Order(g, j), j);
      OrderPrefix(g, j + 1, k);
    }
  }

  /** A walk of length d within the depth limit ends at a listed item, unless the next item
      to expand is nearer than d. */
  lemma {:induction false} WalkListed(g: Graph, k: nat, v: string, d: nat)
    requires Walk(g, v, d) && d <= g.maxDepth
    ensures var o := Order(g, k);
            Listed(o, v, d) || (k < |o| && o[k].depth < d)
    decreases d
  {
    var o := Order(g, k);
    OrderGood(g, k);
    if d == 0 {
      assert o[0].url == v;
    } else {
      var u :| Walk(g, u, d - 1) && v in g.succ(u);
      WalkListed(g, k, u, d - 1);
      if Listed(o, u, d - 1) {
        var j :| 0 <= j < |o| && o[j].url == u && o[j].depth <= d - 1;
        if j < k {
          assert Listed(o, v, o[j].depth + 1);
        }
      }
    }
  }

  lemma OrderDistance(g: Graph, k: nat, i: nat)
    requires i < |Order(g, k)|
    ensures Distance(g, Order(g, k)[i].url, Order(g, k)[i].depth)
  {
    var o := Order(g, k);
    OrderGood(g, k);
    forall e: nat | Walk(g, o[i].url, e) && e <= g.maxDepth ensures o[i].depth <= e {
      WalkListed(g, k, o[i].url, e);
      if Listed(o, o[i].url, e) {
        var j :| 0 <= j < |o| && o[j].url == o[i].url && o[j].depth <= e;
        assert i == j;
      }
    }
  }

  // ---- Theorems about the first n discovered items ------------------------------------

  /** Every listed item carries its exact shortest-path distance, within the depth limit;
      URLs are distinct, depths never decrease and the seed comes first. */
  lemma FirstIsExact(g: Graph, n: nat)
    ensures var f := First(g, n);
            && |f| <= n
            && (n > 0 ==> |f| > 0 && f[0] == Item(g.seed, 0))
            && DistinctUrls(f)
            && (forall i, j :: 0 <= i < j < |f| ==> f[i].depth <= f[j].depth)
            && (forall i :: 0 <= i < |f| ==> Distance(g, f[i].url, f[i].depth) && f[i].depth <= g.maxDepth)
  {
    OrderGood(g, n);
    var o := Order(g, n);
    var f := First(g, n);
    forall i | 0 <= i < |f| ensures Distance(g, f[i].url, f[i].depth) {
      OrderDistance(g, n, i);
    }
  }

  /** Best first: a URL within the depth limit that is left out is left out only because the
      list is full, and is at least as far as every URL in the list. */
  lemma FirstIsNearest(g: Graph, n: nat, v: string, d: nat)
    requires Distance(g, v, d) && d <= g.maxDepth
    requires v !in Urls(First(g, n))
    ensures |First(g, n)| == n
    ensures forall i :: 0 <= i < n ==> First(g, n)[i].depth <= d
  {
    var o := Order(g, n);
    OrderGood(g, n);
    WalkListed(g, n, v, d);
    assert forall j :: 0 <= j < Min(n, |o|) ==> Urls(First(g, n))[j] == o[j].url;
  }

  /** v is within the depth limit. */
  ghost predicate InReach(g: Graph, v: string)
  {
    exists d: nat :: d <= g.maxDepth && Distance(g, v, d)
  }

  lemma FirstIsInReach(g: Graph, n: nat, v: string)
    requires v in Urls(First(g, n))
    ensures InReach(g, v)
  {
    FirstIsExact(g, n);
    var i :| 0 <= i < |Urls(First(g, n))| && Urls(First(g, n))[i] == v;
    assert Distance(g, v, First(g, n)[i].depth);
  }

  /** Item n, if there is one, is within the depth limit and not among the first n. */
  lemma NextIsLeftOut(g: Graph, n: nat)
    requires n < |Order(g, n)|
    ensures var v := Order(g, n)[n].url; InReach(g, v) && v !in Urls(First(g, n))
  {
    OrderGood(g, n);
    OrderDistance(g, n, n);
    var o := Order(g, n);
    assert Distance(g, o[n].url, o[n].depth);
    assert forall i :: 0 <= i < n ==> Urls(First(g, n))[i] == o[i].url;
  }

  /** Completeness and soundness, exactly: the first n items hold nothing but URLs within the
      depth limit, and all of these if and only if no item is left once they are expanded. */
  lemma FirstIsComplete(g: Graph, n: nat)
    ensures forall v :: v in Urls(First(g, n)) ==> InReach(g, v)
    ensures (forall v :: InReach(g, v) ==> v in Urls(First(g, n))) <==> |Order(g, n)| <= n
  {
    forall v | v in Urls(First(g, n)) ensures InReach(g, v) {
      FirstIsInReach(g, n, v);
    }
    if n < |Order(g, n)| {
      NextIsLeftOut(g, n);
    } else {
      forall v | InReach(g, v) ensures v in Urls(First(g, n)) {
        AllListed(g, n, v);
      }
    }
  }

  lemma AllListed(g: Graph, n: nat, v: string)
    requires |Order(g, n)| <= n && InReach(g, v)
    ensures v in Urls(First(g, n))
  {
    var d: nat :| d <= g.maxDepth && Distance(g, v, d);
    WalkListed(g, n, v, d);
    var j :| 0 <= j < |Order(g, n)| && Order(g, n)[j].url == v && Order(g, n)[j].depth <= d;
    assert Urls(First(g, n))[j] == v;
  }

  /** Prefix stability: a larger limit only extends the list. */
  lemma FirstIsStable(g: Graph, n: nat, m: nat)
    requires n <= m
    ensures First(g, n) <= First(g, m)
    ensures |First(g, n)| < n ==> First(g, m) == First(g, n)
    ensures |First(g, n)| == Min(n, |First(g, m)|)
  {
    OrderPrefix(g, n, m);
  }

  /** Whatever was expanded, the listed items are the first ones of the order. */
  lemma OrderTake(g: Graph, k: nat, n: nat)
    requires n <= |Order(g, k)| || |Order(g, k)| <= k
    ensures Order(g, k)[..Min(n, |Order(g, k)|)] == First(g, n)
  {
    if k <= n {
      OrderPrefix(g, k, n);
    } else {
      OrderPrefix(g, n, k);
    }
  }

  /** A graph without links lists its seed and nothing else. */
  lemma {:induction false} NoLinksOrder(g: Graph, k: nat)
    requires forall u :: g.succ(u) == []
    ensures Order(g, k) == [Item(g.seed, 0)]
  {
    if k > 0 {
      NoLinksOrder(g, k - 1);
      OrderStep(g, Order(g, k - 1), k - 1);
    }
  }
}
