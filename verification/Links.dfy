/** What the crawl and the map share: URL normalisation, the same-host test, the link graph
    they walk, and one step of the walk. */
module Links {
  import opened Basics
  import opened Discovery
  import opened Scrape

  datatype Options = Options(maxPages: int, maxDepth: int, maxUrls: int, extract: seq<string>)

  /** Everything outside the loops: the URL library and the site; for each iteration, whether
      the run is told to stop at its head (context done, or cancelCheck) and whether the rate
      limiter's wait fails in it; and the run's duration. */
  datatype Env = Env(lib: Lib, site: Site, stop: nat -> bool, waitFails: nat -> bool, elapsed: int)

  datatype Outcome =
    | BadSeed
    | RateError(partial: Result)
    | Done(result: Result)

  function ResultOf(r: Outcome): Result
    requires r != BadSeed
  {
    if r.RateError? then r.partial else r.result
  }

  /** Parses, drops the fragment and prints. */
  function NormalizeURL(lib: Lib, raw: string): Option<string>
  {
    match lib.parse(raw)
    case None => None
    case Some(u) => Some(lib.show(u.(fragment := "")))
  }

  /** Host names equal up to case; scheme and port play no part. */
  predicate SameHost(lib: Lib, a: Url, b: Url)
  {
    lib.fold(a.hostname) == lib.fold(b.hostname)
  }

  /** The normalised seed and its parsed form. */
  function Seed(lib: Lib, raw: string): Option<(string, Url)>
  {
    match NormalizeURL(lib, raw)
    case None => None
    case Some(norm) =>
      match lib.parse(norm)
      case None => None
      case Some(u) => Some((norm, u))
  }

  /** What a link contributes: its normal form, if it and its normal form parse and the host
      is the seed's. */
  function Target(lib: Lib, seed: Url, link: string): Option<string>
  {
    match NormalizeURL(lib, link)
    case None => None
    case Some(norm) =>
      match lib.parse(norm)
      case None => None
      case Some(u) => if SameHost(lib, seed, u) then Some(norm) else None
  }

  function Targets(lib: Lib, seed: Url, links: seq<string>): seq<string>
  {
    if links == [] then []
    else
      match Target(lib, seed, links[0])
      case None => Targets(lib, seed, links[1..])
      case Some(t) => [t] + Targets(lib, seed, links[1..])
  }

  /** The links seen on a page: none when the fetch fails. */
  function LinksOf(scraped: Scraped): seq<string>
  {
    match scraped
    case Page(r) => r.links
    case Error(_) => []
  }

  /** The same-host link graph of the pages that can be fetched. */
  function LinkGraph(lib: Lib, scrape: Scraper, seed: (string, Url), maxDepth: nat): Graph
  {
    Graph(seed.0, (u: string) => Targets(lib, seed.1, LinksOf(scrape(u))), maxDepth)
  }

  /** g is the link graph that a loop with these settings walks. */
  ghost predicate Describes(g: Graph, lib: Lib, scrape: Scraper, seed: (string, Url), maxDepth: nat)
  {
    && g.seed == seed.0 && g.maxDepth == maxDepth
    && forall u :: g.succ(u) == Targets(lib, seed.1, LinksOf(scrape(u)))
  }

  lemma SuccessorsAre(g: Graph, lib: Lib, scrape: Scraper, seed: (string, Url), maxDepth: nat, url: string)
    requires Describes(g, lib, scrape, seed, maxDepth)
    ensures g.succ(url) == Targets(lib, seed.1, LinksOf(scrape(url))) && g.maxDepth == maxDepth
  {
  }

  /** Default limits. */
  function MaxPages(o: Options): (n: nat) { if o.maxPages <= 0 then 10 else o.maxPages }
  function MaxDepth(o: Options): nat { if o.maxDepth < 0 then 2 else o.maxDepth }
  function MaxUrls(o: Options): nat { if o.maxUrls <= 0 then 50 else o.maxUrls }
  function CrawlTypes(o: Options): seq<string> { if o.extract == [] then ["markdown"] else o.extract }

  // ---- Steps --------------------------------------------------------------------------------

  /** The loop's queue and seen set when the first k items have been taken and expanded. */
  ghost predicate Frontier(g: Graph, order: seq<Item>, k: nat, queue: seq<Item>, seen: set<string>)
  {
    k <= |order| && order == Order(g, k) && queue == order[k..] && seen == Seen(order)
  }

  lemma FrontierStart(g: Graph, url: string)
    requires g.seed == url
    ensures Frontier(g, [Item(url, 0)], 0, [Item(url, 0)], {url})
  {
  }

  /** Taking and expanding item k: the order grows by its level, behind what waits. */
  lemma Advance(g: Graph, order: seq<Item>, k: nat, queue: seq<Item>, seen: set<string>, level: seq<Item>)
    requires Frontier(g, order, k, queue, seen) && queue != []
    requires level == Children(queue[0], g.succ(queue[0].url), g.maxDepth, seen)
    ensures Frontier(g, order + level, k + 1, queue[1..] + level, seen + Seen(level))
    ensures (order + level)[..k + 1] == order[..k] + [queue[0]]
  {
    assert level == Expand(g, order, k);
    OrderStep(g, order, k);
    SeenConcat(order, level);
    Slices(order, level, k + 1);
    TakeOne(order, k);
  }

  lemma Slices<T>(a: seq<T>, b: seq<T>, k: nat)
    requires k <= |a|
    ensures (a + b)[k..] == a[k..] + b && (a + b)[..k] == a[..k]
  {
  }

  lemma TakeOne<T>(s: seq<T>, k: nat)
    requires k < |s|
    ensures s[k..][0] == s[k] && s[k..][1..] == s[k + 1..] && s[..k + 1] == s[..k] + [s[k]]
  {
  }

  lemma TargetsStep(lib: Lib, seed: Url, links: seq<string>, i: nat)
    requires i < |links|
    ensures Targets(lib, seed, links[i..])
         == (if Target(lib, seed, links[i]).Some? then [Target(lib, seed, links[i]).value] else [])
          + Targets(lib, seed, links[i + 1..])
  {
  }

  lemma SeenSnoc(items: seq<Item>, item: Item)
    ensures Seen(items + [item]) == Seen(items) + {item.url}
  {
  }

  lemma {:induction false} SeenConcat(a: seq<Item>, b: seq<Item>)
    ensures Seen(a + b) == Seen(a) + Seen(b)
  {
    if b == [] {
      assert a + b == a;
    } else {
      assert (a + b)[..|a + b| - 1] == a + b[..|b| - 1];
      SeenConcat(a, b[..|b| - 1]);
    }
  }

  // ---- The same host --------------------------------------------------------------------------

  /** The URL parses and its host name is the seed's up to case: what a caller can look up. */
  predicate OnHost(lib: Lib, seed: Url, url: string)
  {
    lib.parse(url).Some? && lib.fold(lib.parse(url).value.hostname) == lib.fold(seed.hostname)
  }

  /** The parsed URL without its fragment, printed. */
  function Printed(lib: Lib, u: Url): string
  {
    lib.show(Url(u.scheme, u.host, u.hostname, u.rest, ""))
  }

  /** t is what the link comes to: it parses, and prints as t without its fragment. */
  predicate ComesTo(lib: Lib, link: string, t: string)
  {
    lib.parse(link).Some? && Printed(lib, lib.parse(link).value) == t
  }

  /** A URL is a target of a list of links if and only if it is on the seed's host and one of the
      links comes to it. */
  lemma {:induction false} TargetsIff(lib: Lib, seed: Url, links: seq<string>, t: string)
    ensures t in Targets(lib, seed, links) <==> OnHost(lib, seed, t) && exists l :: l in links && ComesTo(lib, l, t)
  {
    if links != [] {
      var head := links[0];
      assert Target(lib, seed, head) == Some(t) <==> OnHost(lib, seed, t) && ComesTo(lib, head, t);
      TargetsIff(lib, seed, links[1..], t);
      assert forall l :: l in links <==> l == head || l in links[1..];
    }
  }

  /** A URL normalises to t if and only if it comes to t: it does not matter which fragment, or
      whether any, it has. */
  lemma NormalFormIff(lib: Lib, raw: string, t: string)
    ensures NormalizeURL(lib, raw) == Some(t) <==> ComesTo(lib, raw, t)
  {
  }

  /** URLs that parse alike but for the fragment have one normal form. */
  lemma FragmentIsIgnored(lib: Lib, a: string, b: string)
    requires lib.parse(a).Some? && lib.parse(b).Some?
    requires lib.parse(a).value.(fragment := "") == lib.parse(b).value.(fragment := "")
    ensures NormalizeURL(lib, a).Some? && NormalizeURL(lib, a) == NormalizeURL(lib, b)
  {
  }

  /** The seed is the normal form of what was asked for. */
  lemma SeedIff(lib: Lib, raw: string, norm: string, u: Url)
    ensures Seed(lib, raw) == Some((norm, u)) <==> ComesTo(lib, raw, norm) && lib.parse(norm) == Some(u)
  {
  }

  /** The library's law: a URL without fragment that was printed parses to what it was. */
  ghost predicate RoundTrips(lib: Lib)
  {
    forall u: Url :: u.fragment == "" ==> lib.parse(lib.show(u)) == Some(u)
  }

  /** Whatever the walk reaches is on the seed's host, and is the seed or what some link, on a
      page one step nearer, comes to. */
  lemma WalkStaysOnHost(lib: Lib, scrape: Scraper, seed: (string, Url), maxDepth: nat, v: string, d: nat)
    requires lib.parse(seed.0) == Some(seed.1)
    ensures var g := LinkGraph(lib, scrape, seed, maxDepth);
            Walk(g, v, d) ==>
              && OnHost(lib, seed.1, v)
              && if d == 0 then v == seed.0
                 else exists u, l :: Walk(g, u, d - 1) && l in LinksOf(scrape(u)) && ComesTo(lib, l, v)
  {
    var g := LinkGraph(lib, scrape, seed, maxDepth);
    if d > 0 && Walk(g, v, d) {
      var u :| Walk(g, u, d - 1) && v in g.succ(u);
      TargetsIff(lib, seed.1, LinksOf(scrape(u)), v);
    }
  }

  /** The URL parses, without a fragment, and is what that prints as. */
  predicate Canonical(lib: Lib, url: string)
  {
    lib.parse(url).Some? && lib.parse(url).value.fragment == "" && lib.show(lib.parse(url).value) == url
  }

  /** Under the library's law, what a URL comes to parses to the same, without the fragment. */
  lemma NoFragment(lib: Lib, raw: string, t: string)
    requires RoundTrips(lib) && ComesTo(lib, raw, t)
    ensures var u := lib.parse(raw).value;
            lib.parse(t) == Some(Url(u.scheme, u.host, u.hostname, u.rest, "")) && Canonical(lib, t)
  {
  }
}
