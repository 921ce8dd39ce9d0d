/** The URL map: a second worklist loop, written separately from the crawl's. It counts
    discovered URLs instead of visited pages, lists a URL as soon as it is discovered, leaves
    its inner loop when the list is full, and fetches nothing at the depth limit. */
module SiteMap {
  import opened Discovery
  import opened Scrape
  import opened Links

  // ---- The map as a value -------------------------------------------------------------------

  function Take<T>(s: seq<T>, n: nat): seq<T> { s[..Min(n, |s|)] }

  function MapScraper(env: Env): Scraper
  {
    ScraperFor(env.lib, env.site, ["links"])
  }

  function MapGraph(env: Env, seed: (string, Url), o: Options): Graph
  {
    LinkGraph(env.lib, MapScraper(env), seed, MaxDepth(o))
  }

  /** The rate limiter is asked, and refuses, in iteration k. Items at the depth limit are
      dropped before it is asked. */
  predicate WaitCuts(env: Env, g: Graph, o: seq<Item>, k: nat)
    requires k < |o|
  {
    o[k].depth < g.maxDepth && env.waitFails(k)
  }

  /** With the items o discovered, the loop ends at the head of iteration k or inside it. */
  predicate Leaves(env: Env, g: Graph, n: nat, o: seq<Item>, k: nat)
  {
    k >= |o| || |o| >= n || env.stop(k) || WaitCuts(env, g, o, k)
  }

  /** The iteration, from k on, in which the loop ends. That this is a function at all is the
      loop's termination, also on sites without end. */
  function LeaveFrom(env: Env, g: Graph, n: nat, k: nat): (h: nat)
    ensures k <= h && Leaves(env, g, n, Order(g, h), h)
    decreases (if |Order(g, k)| < n then n - |Order(g, k)| else 0),
              (if k < |Order(g, k)| then |Order(g, k)| - k else 0)
  {
    if Leaves(env, g, n, Order(g, k), k) then k
    else
      OrderStep(g, Order(g, k), k);
      LeaveFrom(env, g, n, k + 1)
  }

  /** A larger limit ends the loop no earlier. */
  lemma {:induction false} LeaveGrows(env: Env, g: Graph, n: nat, m: nat, k: nat)
    requires n <= m
    ensures LeaveFrom(env, g, n, k) <= LeaveFrom(env, g, m, k)
    decreases LeaveFrom(env, g, m, k) - k
  {
    if !Leaves(env, g, n, Order(g, k), k) {
      LeaveGrows(env, g, n, m, k + 1);
    }
  }

  /** The discovered items when the map ends, at most as many as it may list. */
  function Mapped(env: Env, seed: (string, Url), o: Options): seq<Item>
  {
    var g := MapGraph(env, seed, o);
    Take(Order(g, LeaveFrom(env, g, MaxUrls(o), 0)), MaxUrls(o))
  }

  /** The loop ends because the rate limiter's wait fails. */
  predicate MapCut(env: Env, g: Graph, n: nat, o: seq<Item>, h: nat)
  {
    h < |o| < n && !env.stop(h) && WaitCuts(env, g, o, h)
  }

  function MapSpec(env: Env, raw: string, o: Options): Outcome
  {
    match Seed(env.lib, raw)
    case None => BadSeed
    case Some(seed) =>
      var g := MapGraph(env, seed, o);
      var h := LeaveFrom(env, g, MaxUrls(o), 0);
      var body := EMPTY.(urls := Urls(Mapped(env, seed, o)), durationMs := env.elapsed);
      if MapCut(env, g, MaxUrls(o), Order(g, h), h) then RateError(body)
      else Done(body.(httpStatus := 200))
  }

  // ---- The map as written -------------------------------------------------------------------

  /** fetched lists the URLs passed to the scraper, in order. */
  method MapBFS(env: Env, raw: string, opts: Options) returns (r: Outcome, fetched: seq<string>)
    ensures r == MapSpec(env, raw, opts)
    ensures |fetched| <= MaxUrls(opts) - 1
    ensures Distinct(fetched)
    ensures fetched != [] ==> r != BadSeed && forall u :: u in fetched ==> u in ResultOf(r).urls
  {
    var maxUrls := if opts.maxUrls <= 0 then 50 else opts.maxUrls;
    var maxDepth := if opts.maxDepth < 0 then 2 else opts.maxDepth;

    var normal := NormalizeURL(env.lib, raw);
    if normal.None? {
      return BadSeed, [];
    }
    var parsed := env.lib.parse(normal.value);
    if parsed.None? {
      return BadSeed, [];
    }
    var seed := (normal.value, parsed.value);
    ghost var g := MapGraph(env, seed, opts);

    var urls, cut;
    urls, cut, fetched := MapLoop(env, MapScraper(env), seed, maxUrls, maxDepth, g);
    TakeUrls(Order(g, LeaveFrom(env, g, maxUrls, 0)), maxUrls);
    var out := EMPTY.(urls := urls, durationMs := env.elapsed);
    if cut {
      return RateError(out), fetched;
    }
    r := Done(out.(httpStatus := 200));
  }

  /** The URLs of the items shallow enough to be fetched. */
  function Fetched(items: seq<Item>, maxDepth: nat): seq<string>
  {
    if items == [] then []
    else
      var last := items[|items| - 1];
      Fetched(items[..|items| - 1], maxDepth) + (if last.depth < maxDepth then [last.url] else [])
  }

  /** The worklist loop; cut tells that it returned from the rate limiter's error. */
  method MapLoop(env: Env, scrape: Scraper, seed: (string, Url), maxUrls: nat, maxDepth: nat, ghost g: Graph)
    returns (urls: seq<string>, cut: bool, fetched: seq<string>)
    requires maxUrls > 0 && Describes(g, env.lib, scrape, seed, maxDepth)
    ensures Ended(env, g, maxUrls, urls, cut, fetched)
  {
    cut, fetched := false, [];
    var seen := {seed.0};
    urls := [seed.0];
    var queue := [Item(seed.0, 0)];
    var iteration: nat := 0;
    ghost var order := queue;
    FrontierStart(g, seed.0);

    while |queue| > 0 && |urls| < maxUrls
      invariant iteration < maxUrls
      invariant Progress(env, g, maxUrls, order, iteration, urls, queue, seen, fetched)
      decreases maxUrls - |urls|, |queue|
    {
      ghost var k, was, waiting, known, before := iteration, urls, queue, seen, fetched;
      if env.stop(iteration) {
        break;
      }
      var item := queue[0];
      queue := queue[1..];
      if item.depth < maxDepth && env.waitFails(iteration) {
        LeaveByWait(env, g, maxUrls, order, k, was, waiting, known, before);
        cut := true;
        return;
      }
      iteration := iteration + 1;
      ghost var level := Children(item, Targets(env.lib, seed.1, LinksOf(scrape(item.url))), maxDepth, seen);
      urls, queue, seen, fetched :=
        MapItem(env.lib, scrape, seed.1, item, maxDepth, maxUrls, urls, queue, seen, fetched);
      LeavesLater(env, g, maxUrls, order, k, was, waiting, known, before);
      SuccessorsAre(g, env.lib, scrape, seed, maxDepth, item.url);
      Iterate(env, g, maxUrls, order, k, was, waiting, known, before, level, urls, queue, seen);
      order := order + level;
    }
    LeaveAtHead(env, g, maxUrls, order, iteration, urls, queue, seen, fetched);
  }

  /** The loop's variables at the head of iteration k. */
  ghost predicate Progress(env: Env, g: Graph, n: nat, order: seq<Item>, k: nat, urls: seq<string>,
                           queue: seq<Item>, seen: set<string>, fetched: seq<string>)
  {
    && k <= |order| && order == Order(g, k)
    && (|urls| < n ==> Frontier(g, order, k, queue, seen))
    && urls == Take(Urls(order), n)
    && fetched == Fetched(order[..k], g.maxDepth)
    && Stays(env, g, n, k)
  }

  predicate LeavesAt(env: Env, g: Graph, n: nat, k: nat)
  {
    Leaves(env, g, n, Order(g, k), k)
  }

  /** The loop does not end in the first k iterations. */
  ghost predicate Stays(env: Env, g: Graph, n: nat, k: nat)
  {
    forall i: nat :: i < k ==> !LeavesAt(env, g, n, i)
  }

  lemma {:induction false} LeaveIsFirst(env: Env, g: Graph, n: nat, k: nat, h: nat)
    requires k <= h && Stays(env, g, n, h) && LeavesAt(env, g, n, h)
    ensures LeaveFrom(env, g, n, k) == h
    decreases h - k
  {
    if k < h {
      assert !LeavesAt(env, g, n, k);
      LeaveIsFirst(env, g, n, k + 1, h);
    }
  }

  /** What the loop returns. */
  ghost predicate Ended(env: Env, g: Graph, n: nat, urls: seq<string>, cut: bool, fetched: seq<string>)
  {
    var h := LeaveFrom(env, g, n, 0);
    && urls == Take(Urls(Order(g, h)), n)
    && cut == MapCut(env, g, n, Order(g, h), h)
    && |fetched| <= n - 1 && Distinct(fetched) && forall u :: u in fetched ==> u in urls
  }

  /** The rest of an iteration: nothing for an item at the depth limit or a failed fetch,
      otherwise the inner loop. */
  method MapItem(lib: Lib, scrape: Scraper, seedUrl: Url, item: Item, maxDepth: nat, maxUrls: nat,
                 urls0: seq<string>, queue0: seq<Item>, seen0: set<string>, fetched0: seq<string>)
    returns (urls: seq<string>, queue: seq<Item>, seen: set<string>, fetched: seq<string>)
    requires |urls0| < maxUrls
    ensures fetched == fetched0 + if item.depth < maxDepth then [item.url] else []
    ensures var level := Children(item, Targets(lib, seedUrl, LinksOf(scrape(item.url))), maxDepth, seen0);
            && urls == Take(urls0 + Urls(level), maxUrls)
            && (|urls| < maxUrls ==> queue == queue0 + level && seen == seen0 + Seen(level))
  {
    urls, queue, seen, fetched := urls0, queue0, seen0, fetched0;
    if item.depth >= maxDepth {
      return;
    }
    var scraped := scrape(item.url);
    fetched := fetched + [item.url];
    if scraped.Error? {
      return;
    }
    urls, queue, seen := ListLinks(lib, seedUrl, scraped.result.links, item.depth + 1, maxUrls, urls, queue, seen);
  }

  /** The inner loop: each same-host URL not seen before is listed at once, and the loop
      breaks, before queueing it, when the list is full. */
  method ListLinks(lib: Lib, seedUrl: Url, links: seq<string>, depth: nat, maxUrls: nat,
                   urls0: seq<string>, queue0: seq<Item>, seen0: set<string>)
    returns (urls: seq<string>, queue: seq<Item>, seen: set<string>)
    requires |urls0| < maxUrls
    ensures var level := Fresh(seen0, Targets(lib, seedUrl, links), depth);
            && urls == Take(urls0 + Urls(level), maxUrls)
            && (|urls| < maxUrls ==> queue == queue0 + level && seen == seen0 + Seen(level))
  {
    urls, queue, seen := urls0, queue0, seen0;
    ghost var all := Fresh(seen0, Targets(lib, seedUrl, links), depth);
    ghost var level: seq<Item> := [];
    assert links[0..] == links;
    for i := 0 to |links|
      invariant |urls| < maxUrls && Listing(urls0, queue0, seen0, level, urls, queue, seen)
      invariant level + Fresh(seen, Targets(lib, seedUrl, links[i..]), depth) == all
    {
      TargetsStep(lib, seedUrl, links, i);
      var norm := NormalizeURL(lib, links[i]);
      if norm.None? {
        continue;
      }
      var u := lib.parse(norm.value);
      if u.None? || !SameHost(lib, seedUrl, u.value) {
        continue;
      }
      if norm.value in seen {
        continue;
      }
      ListOne(urls0, queue0, seen0, level, urls, queue, seen, Item(norm.value, depth));
      seen := seen + {norm.value};
      urls := urls + [norm.value];
      level := level + [Item(norm.value, depth)];
      if |urls| >= maxUrls {
        FullList(urls0, level, all, maxUrls);
        return;
      }
      queue := queue + [Item(norm.value, depth)];
    }
    assert links[|links|..] == [];
    assert level == all;
    NotFullList(urls0, level, maxUrls);
  }

  /** The inner loop's variables when the items of level have been listed. */
  ghost predicate Listing(urls0: seq<string>, queue0: seq<Item>, seen0: set<string>, level: seq<Item>,
                          urls: seq<string>, queue: seq<Item>, seen: set<string>)
  {
    urls == urls0 + Urls(level) && queue == queue0 + level && seen == seen0 + Seen(level)
  }

  // ---- Steps of the loops -------------------------------------------------------------------

  lemma ListOne(urls0: seq<string>, queue0: seq<Item>, seen0: set<string>, level: seq<Item>,
                urls: seq<string>, queue: seq<Item>, seen: set<string>, item: Item)
    requires Listing(urls0, queue0, seen0, level, urls, queue, seen)
    ensures Listing(urls0, queue0, seen0, level + [item], urls + [item.url], queue + [item], seen + {item.url})
  {
    SeenSnoc(level, item);
    assert Urls(level + [item]) == Urls(level) + [item.url];
  }

  /** The first maxUrls URLs are all there once that many are listed, whatever follows. */
  lemma FullList(urls0: seq<string>, level: seq<Item>, all: seq<Item>, maxUrls: nat)
    requires |urls0| + |level| == maxUrls && level <= all
    ensures Take(urls0 + Urls(all), maxUrls) == urls0 + Urls(level)
  {
  }

  lemma NotFullList(urls0: seq<string>, level: seq<Item>, maxUrls: nat)
    requires |urls0| + |level| <= maxUrls
    ensures Take(urls0 + Urls(level), maxUrls) == urls0 + Urls(level)
  {
  }

  lemma TakeUrls(o: seq<Item>, n: nat)
    ensures Take(Urls(o), n) == Urls(Take(o, n))
  {
  }

  lemma FetchedStep(done: seq<Item>, item: Item, maxDepth: nat)
    ensures Fetched(done + [item], maxDepth) == Fetched(done, maxDepth) + (if item.depth < maxDepth then [item.url] else [])
  {
  }

  lemma ListedStep(order: seq<Item>, level: seq<Item>, n: nat, urls: seq<string>, urls': seq<string>)
    requires urls == Take(Urls(order), n) && |urls| < n
    requires urls' == Take(urls + Urls(level), n)
    ensures |urls| == |order| && urls' == Take(Urls(order + level), n) && |urls'| == Min(n, |urls| + |level|)
  {
  }

  /** One iteration that runs to its end. */
  lemma Iterate(env: Env, g: Graph, n: nat, order: seq<Item>, k: nat, urls: seq<string>, queue: seq<Item>, seen: set<string>,
                fetched: seq<string>, level: seq<Item>,
                urls': seq<string>, queue': seq<Item>, seen': set<string>)
    requires Progress(env, g, n, order, k, urls, queue, seen, fetched) && |urls| < n && |queue| > 0
    requires level == Children(queue[0], g.succ(queue[0].url), g.maxDepth, seen)
    requires Stays(env, g, n, k + 1)
    requires urls' == Take(urls + Urls(level), n)
    requires |urls'| < n ==> queue' == queue[1..] + level && seen' == seen + Seen(level)
    ensures Progress(env, g, n, order + level, k + 1, urls', queue', seen',
                     fetched + if queue[0].depth < g.maxDepth then [queue[0].url] else [])
    ensures k + 1 <= |urls| && |urls'| == Min(n, |urls| + |level|)
  {
    Advance(g, order, k, queue, seen, level);
    FetchedStep(order[..k], queue[0], g.maxDepth);
    ListedStep(order, level, n, urls, urls');
  }

  lemma LeavesLater(env: Env, g: Graph, n: nat, order: seq<Item>, k: nat, urls: seq<string>, queue: seq<Item>,
                    seen: set<string>, fetched: seq<string>)
    requires Progress(env, g, n, order, k, urls, queue, seen, fetched) && |urls| < n && |queue| > 0
    requires !env.stop(k) && !(queue[0].depth < g.maxDepth && env.waitFails(k))
    ensures Stays(env, g, n, k + 1)
  {
  }

  lemma LeaveByWait(env: Env, g: Graph, n: nat, order: seq<Item>, k: nat, urls: seq<string>, queue: seq<Item>,
                    seen: set<string>, fetched: seq<string>)
    requires Progress(env, g, n, order, k, urls, queue, seen, fetched) && |urls| < n && |queue| > 0
    requires queue[0].depth < g.maxDepth && !env.stop(k) && env.waitFails(k)
    ensures Ended(env, g, n, urls, true, fetched)
  {
    LeaveIsFirst(env, g, n, 0, k);
    FetchedFacts(g, k, n);
  }

  lemma LeaveAtHead(env: Env, g: Graph, n: nat, order: seq<Item>, k: nat, urls: seq<string>, queue: seq<Item>,
                    seen: set<string>, fetched: seq<string>)
    requires Progress(env, g, n, order, k, urls, queue, seen, fetched) && k < n
    requires |queue| == 0 || |urls| >= n || env.stop(k)
    ensures Ended(env, g, n, urls, false, fetched)
  {
    LeaveIsFirst(env, g, n, 0, k);
    FetchedFacts(g, k, n);
  }

  /** The URLs the map has fetched after k iterations: fewer than n, distinct, all listed. */
  lemma FetchedFacts(g: Graph, k: nat, n: nat)
    requires k <= |Order(g, k)| && k < n
    ensures var f := Fetched(Order(g, k)[..k], g.maxDepth);
            |f| <= n - 1 && Distinct(f) && forall u :: u in f ==> u in Take(Urls(Order(g, k)), n)
  {
    OrderGood(g, k);
    var o := Order(g, k);
    var f := Fetched(o[..k], g.maxDepth);
    FetchedDistinct(o[..k], g.maxDepth);
    forall u | u in f ensures u in Take(Urls(o), n) {
      assert Occurs(o[..k], u);
      var i :| 0 <= i < k && o[..k][i].url == u;
      assert Take(Urls(o), n)[i] == u;
    }
  }

  lemma {:induction false} FetchedDistinct(items: seq<Item>, maxDepth: nat)
    requires DistinctUrls(items)
    ensures var f := Fetched(items, maxDepth);
            |f| <= |items| && Distinct(f) && forall u :: u in f ==> Occurs(items, u)
  {
    if items != [] {
      var init, last := items[..|items| - 1], items[|items| - 1];
      FetchedDistinct(init, maxDepth);
      var f := Fetched(init, maxDepth);
      forall u | u in f ensures u != last.url && Occurs(items, u) {
        assert Occurs(init, u);
        var i :| 0 <= i < |init| && init[i].url == u;
        assert items[i].url == u;
      }
      assert items[|init|].url == last.url;
      var f' := Fetched(items, maxDepth);
      assert f' == f + if last.depth < maxDepth then [last.url] else [];
      forall u | u in f' ensures Occurs(items, u) {
        if u !in f {
          assert u == last.url;
        }
      }
      DistinctSnoc(f, last.url);
      assert f + [] == f;
    }
  }

  lemma DistinctSnoc<T>(s: seq<T>, x: T)
    requires Distinct(s) && x !in s
    ensures Distinct(s + [x])
  {
  }

  ghost predicate Occurs(items: seq<Item>, u: string)
  {
    exists i :: 0 <= i < |items| && items[i].url == u
  }
}
