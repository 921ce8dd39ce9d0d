/** The bounded breadth-first crawl: a worklist loop over a queue, a set of seen URLs and a
    growing list of pages, proved against the discovery order of the link graph. */
module Crawl {
  import opened Discovery
  import opened Scrape
  import opened Links

  // ---- The crawl as a value -----------------------------------------------------------------

  /** The record a visited item leaves in the result. */
  function PageFor(scraped: Scraped, item: Item): PageResult
  {
    match scraped
    case Error(p) =>
      PageResult(item.url, item.depth, [], [], [], "", [], [], if p.Some? then p.value.httpStatus else 0, false)
    case Page(r) =>
      PageResult(item.url, item.depth, r.links, r.headers, r.paragraphs, r.markdown, r.html, r.rawHtml,
                 r.httpStatus, r.truncated)
  }

  function PagesFor(scrape: Scraper, items: seq<Item>): (pages: seq<PageResult>)
    ensures |pages| == |items|
  {
    if items == [] then []
    else
      var last := items[|items| - 1];
      PagesFor(scrape, items[..|items| - 1]) + [PageFor(scrape(last.url), last)]
  }

  /** The number of items whose fetch fails. */
  function CountFailed(scrape: Scraper, items: seq<Item>): nat
  {
    if items == [] then 0
    else
      var last := items[|items| - 1];
      CountFailed(scrape, items[..|items| - 1]) + (if scrape(last.url).Error? then 1 else 0)
  }

  predicate AnyTruncated(pages: seq<PageResult>)
  {
    pages != [] && (pages[|pages| - 1].truncated || AnyTruncated(pages[..|pages| - 1]))
  }

  /** The first iteration below n that is stopped or whose wait fails, or n. */
  function Halt(env: Env, n: nat): (h: nat)
    ensures h <= n && Calm(env, h)
    ensures h < n ==> env.stop(h) || env.waitFails(h)
  {
    if n == 0 then 0
    else
      var h := Halt(env, n - 1);
      if h < n - 1 || env.stop(h) || env.waitFails(h) then h else n
  }

  /** The first k iterations are neither stopped nor refused by the rate limiter. */
  ghost predicate Calm(env: Env, k: nat)
  {
    forall i: nat :: i < k ==> !env.stop(i) && !env.waitFails(i)
  }

  function CrawlScraper(env: Env, o: Options): Scraper
  {
    ScraperFor(env.lib, env.site, CrawlTypes(o))
  }

  function CrawlGraph(env: Env, seed: (string, Url), o: Options): Graph
  {
    LinkGraph(env.lib, CrawlScraper(env, o), seed, MaxDepth(o))
  }

  /** The items a crawl visits, in order. */
  function Visited(env: Env, seed: (string, Url), o: Options): seq<Item>
  {
    First(CrawlGraph(env, seed, o), Halt(env, MaxPages(o)))
  }

  /** The rate limiter's wait fails while an item has been taken from the queue. */
  predicate CutByWait(env: Env, g: Graph, n: nat)
  {
    var h := Halt(env, n);
    h < n && !env.stop(h) && |Order(g, h)| > h
  }

  function CrawlSpec(env: Env, raw: string, o: Options): Outcome
  {
    match Seed(env.lib, raw)
    case None => BadSeed
    case Some(seed) =>
      var items := Visited(env, seed, o);
      var pages := PagesFor(CrawlScraper(env, o), items);
      var body := EMPTY.(pages := pages, truncated := AnyTruncated(pages));
      if CutByWait(env, CrawlGraph(env, seed, o), MaxPages(o)) then RateError(body)
      else Done(body.(pagesCrawled := |pages|,
                      pagesSkipped := CountFailed(CrawlScraper(env, o), items),
                      httpStatus := if |pages| > 0 then pages[0].httpStatus else 0,
                      durationMs := env.elapsed))
  }

  // ---- The crawl as written -----------------------------------------------------------------

  /** fetched lists the URLs passed to the scraper, in order. */
  method CrawlBFS(env: Env, raw: string, opts: Options) returns (r: Outcome, fetched: seq<string>)
    ensures r == CrawlSpec(env, raw, opts)
    ensures fetched == if Seed(env.lib, raw).None? then []
                       else Urls(Visited(env, Seed(env.lib, raw).value, opts))
  {
    var maxPages := if opts.maxPages <= 0 then 10 else opts.maxPages;
    var maxDepth := if opts.maxDepth < 0 then 2 else opts.maxDepth;
    var extract := if |opts.extract| == 0 then ["markdown"] else opts.extract;

    var normal := NormalizeURL(env.lib, raw);
    if normal.None? {
      return BadSeed, [];
    }
    var parsed := env.lib.parse(normal.value);
    if parsed.None? {
      return BadSeed, [];
    }
    var seed := (normal.value, parsed.value);
    ghost var g := CrawlGraph(env, seed, opts);

    var pages, truncated, skipped, cut;
    pages, truncated, skipped, cut, fetched :=
      CrawlLoop(env, ScraperFor(env.lib, env.site, extract), seed, maxPages, maxDepth, g);
    var out := EMPTY.(pages := pages, truncated := truncated);
    if cut {
      return RateError(out), fetched;
    }
    out := out.(pagesCrawled := |pages|, pagesSkipped := skipped);
    if |pages| > 0 {
      out := out.(httpStatus := pages[0].httpStatus);
    }
    r := Done(out.(durationMs := env.elapsed));
  }

  /** The loop's variables when the items in done have been visited. */
  ghost predicate Recorded(scrape: Scraper, done: seq<Item>, pages: seq<PageResult>,
                           truncated: bool, skipped: nat, fetched: seq<string>)
  {
    && pages == PagesFor(scrape, done)
    && truncated == AnyTruncated(pages)
    && skipped == CountFailed(scrape, done)
    && fetched == Urls(done)
  }

  /** The worklist loop; cut tells that it returned from the rate limiter's error. */
  method CrawlLoop(env: Env, scrape: Scraper, seed: (string, Url), maxPages: nat, maxDepth: nat, ghost g: Graph)
    returns (pages: seq<PageResult>, truncated: bool, skipped: nat, cut: bool, fetched: seq<string>)
    requires Describes(g, env.lib, scrape, seed, maxDepth)
    ensures Recorded(scrape, First(g, Halt(env, maxPages)), pages, truncated, skipped, fetched)
    ensures cut == CutByWait(env, g, maxPages)
  {
    pages, truncated, skipped, cut, fetched := [], false, 0, false, [];
    var seen := {seed.0};
    var queue := [Item(seed.0, 0)];
    ghost var order, done := queue, [];
    FrontierStart(g, seed.0);

    while |queue| > 0 && |pages| < maxPages
      invariant |pages| <= maxPages
      invariant Reached(env, g, order, |pages|, queue, seen, done)
      invariant Recorded(scrape, done, pages, truncated, skipped, fetched)
      decreases maxPages - |pages|
    {
      ghost var k, waiting, known := |pages|, queue, seen;
      if env.stop(|pages|) {
        break;
      }
      var item := queue[0];
      queue := queue[1..];
      if env.waitFails(|pages|) {
        LeaveByWait(env, g, maxPages, order, k, waiting, known, done);
        cut := true;
        return;
      }

      var scraped;
      scraped, pages, truncated, skipped, fetched := Visit(scrape, item, pages, truncated, skipped, fetched, done);
      SuccessorsAre(g, env.lib, scrape, seed, maxDepth, item.url);
      ghost var level := Children(item, g.succ(item.url), maxDepth, seen);
      queue, seen := ExpandItem(env.lib, seed.1, item, scraped, maxDepth, queue, seen);
      Iterate(env, g, order, k, waiting, known, done, level);
      order, done := order + level, done + [item];
    }

    LeaveAtHead(env, g, maxPages, order, |pages|, queue, seen, done);
  }

  /** The search's variables at the head of iteration k: the items in done have been visited. */
  ghost predicate Reached(env: Env, g: Graph, order: seq<Item>, k: nat, queue: seq<Item>, seen: set<string>,
                          done: seq<Item>)
  {
    Frontier(g, order, k, queue, seen) && done == order[..k] && Calm(env, k)
  }

  /** Scraping one item and recording its page. */
  method Visit(scrape: Scraper, item: Item, pages0: seq<PageResult>, truncated0: bool, skipped0: nat,
               fetched0: seq<string>, ghost done: seq<Item>)
    returns (scraped: Scraped, pages: seq<PageResult>, truncated: bool, skipped: nat, fetched: seq<string>)
    requires Recorded(scrape, done, pages0, truncated0, skipped0, fetched0)
    ensures scraped == scrape(item.url) && |pages| == |pages0| + 1
    ensures Recorded(scrape, done + [item], pages, truncated, skipped, fetched)
  {
    Record(scrape, done, item, pages0, truncated0, skipped0, fetched0);
    truncated, skipped := truncated0, skipped0;
    scraped := scrape(item.url);
    fetched := fetched0 + [item.url];
    pages := pages0 + [PageFor(scraped, item)];
    if scraped.Error? {
      skipped := skipped + 1;
    } else {
      truncated := truncated || scraped.result.truncated;
    }
  }

  /** The rest of an iteration: nothing for a failed fetch or an item at the depth limit,
      otherwise the inner loop over the page's links. */
  method ExpandItem(lib: Lib, seedUrl: Url, item: Item, scraped: Scraped, maxDepth: nat,
                    queue0: seq<Item>, seen0: set<string>)
    returns (queue: seq<Item>, seen: set<string>)
    ensures var level := Children(item, Targets(lib, seedUrl, LinksOf(scraped)), maxDepth, seen0);
            queue == queue0 + level && seen == seen0 + Seen(level)
  {
    queue, seen := queue0, seen0;
    if scraped.Error? {
      return;
    }
    if item.depth >= maxDepth {
      return;
    }
    queue, seen := EnqueueLinks(lib, seedUrl, scraped.result.links, item.depth + 1, queue, seen);
  }

  /** The inner loop: same-host links not seen before join the queue, one level down. */
  method EnqueueLinks(lib: Lib, seedUrl: Url, links: seq<string>, depth: nat, queue0: seq<Item>, seen0: set<string>)
    returns (queue: seq<Item>, seen: set<string>)
    ensures var level := Fresh(seen0, Targets(lib, seedUrl, links), depth);
            queue == queue0 + level && seen == seen0 + Seen(level)
  {
    queue, seen := queue0, seen0;
    ghost var level: seq<Item> := [];
    ghost var all := Fresh(seen0, Targets(lib, seedUrl, links), depth);
    assert links[0..] == links;
    for i := 0 to |links|
      invariant level + Fresh(seen, Targets(lib, seedUrl, links[i..]), depth) == all
      invariant queue == queue0 + level && seen == seen0 + Seen(level)
    {
      TargetsStep(lib, seedUrl, links, i);
      var norm := NormalizeURL(lib, links[i]);
      if norm.None? {
        continue;
      }
      var u := lib.parse(norm.value);
      if u.None? || !SameHost(lib, seedUrl, u.value) {
        continue;
      }
      if norm.value in seen {
        continue;
      }
      SeenSnoc(level, Item(norm.value, depth));
      seen := seen + {norm.value};
      queue := queue + [Item(norm.value, depth)];
      level := level + [Item(norm.value, depth)];
    }
    assert links[|links|..] == [];
    assert level == all;
  }

  // ---- Steps of the loop --------------------------------------------------------------------

  lemma Iterate(env: Env, g: Graph, order: seq<Item>, k: nat, queue: seq<Item>, seen: set<string>, done: seq<Item>,
                level: seq<Item>)
    requires Reached(env, g, order, k, queue, seen, done) && |queue| > 0 && !env.stop(k) && !env.waitFails(k)
    requires level == Children(queue[0], g.succ(queue[0].url), g.maxDepth, seen)
    ensures Reached(env, g, order + level, k + 1, queue[1..] + level, seen + Seen(level), done + [queue[0]])
  {
    Advance(g, order, k, queue, seen, level);
  }

  /** Visiting one more item extends the pages, the count and the fetches by it. */
  lemma Record(scrape: Scraper, done: seq<Item>, item: Item, pages: seq<PageResult>, truncated: bool, skipped: nat,
               fetched: seq<string>)
    requires Recorded(scrape, done, pages, truncated, skipped, fetched)
    ensures var p := PageFor(scrape(item.url), item);
            Recorded(scrape, done + [item], pages + [p], truncated || p.truncated,
                     skipped + (if scrape(item.url).Error? then 1 else 0), fetched + [item.url])
  {
  }

  /** The loop ends in iteration k because the rate limiter refuses. */
  lemma LeaveByWait(env: Env, g: Graph, n: nat, order: seq<Item>, k: nat, queue: seq<Item>, seen: set<string>,
                    done: seq<Item>)
    requires Reached(env, g, order, k, queue, seen, done) && k < n && |queue| > 0
    requires !env.stop(k) && env.waitFails(k)
    ensures First(g, Halt(env, n)) == done && CutByWait(env, g, n)
  {
  }

  /** The loop ends at the head of iteration k: it is full, out of work or stopped. */
  lemma LeaveAtHead(env: Env, g: Graph, n: nat, order: seq<Item>, k: nat, queue: seq<Item>, seen: set<string>,
                    done: seq<Item>)
    requires Reached(env, g, order, k, queue, seen, done) && k <= n
    requires k == n || |queue| == 0 || env.stop(k)
    ensures First(g, Halt(env, n)) == done && !CutByWait(env, g, n)
  {
    if k == |order| {
      OrderPrefix(g, k, Halt(env, n));
    }
  }
}
