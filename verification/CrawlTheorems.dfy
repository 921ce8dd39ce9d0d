/** What the crawl and the map guarantee, for every site (finite or not), every URL library,
    every limit and every pattern of stops. */
module CrawlTheorems {
  import opened Basics
  import opened Discovery
  import opened Scrape
  import opened Links
  import opened Crawl
  import opened SiteMap

  function PageUrls(pages: seq<PageResult>): seq<string>
  {
    seq(|pages|, i requires 0 <= i < |pages| => pages[i].url)
  }

  function CrawledPages(env: Env, raw: string, o: Options): seq<PageResult>
    requires Seed(env.lib, raw).Some?
  {
    ResultOf(CrawlSpec(env, raw, o)).pages
  }

  /** Neither a stop nor a failing wait in any iteration. */
  ghost predicate Undisturbed(env: Env)
  {
    forall i: nat :: !env.stop(i) && !env.waitFails(i)
  }

  lemma {:induction false} PagesAt(scrape: Scraper, items: seq<Item>, i: nat)
    requires i < |items|
    ensures PagesFor(scrape, items)[i] == PageFor(scrape(items[i].url), items[i])
  {
    if i < |items| - 1 {
      PagesAt(scrape, items[..|items| - 1], i);
    }
  }

  lemma PagesMirrorItems(scrape: Scraper, items: seq<Item>)
    ensures var pages := PagesFor(scrape, items);
            && PageUrls(pages) == Urls(items)
            && forall i :: 0 <= i < |items| ==> pages[i].url == items[i].url && pages[i].depth == items[i].depth
  {
    forall i | 0 <= i < |items|
      ensures PagesFor(scrape, items)[i].url == items[i].url && PagesFor(scrape, items)[i].depth == items[i].depth
    {
      PagesAt(scrape, items, i);
    }
  }

  // ---- Exact depths, nearest first, complete ------------------------------------------------

  /** Every page carries its exact shortest-path distance from the seed in the same-host graph
      of fetchable pages; URLs are distinct; depths never decrease; the limits hold. This is so
      whenever and however the run ends. */
  lemma CrawlIsExact(env: Env, raw: string, o: Options)
    requires Seed(env.lib, raw).Some?
    ensures var seed := Seed(env.lib, raw).value;
            var pages := CrawledPages(env, raw, o);
            && |pages| <= MaxPages(o)
            && Distinct(PageUrls(pages))
            && (forall i, j :: 0 <= i < j < |pages| ==> pages[i].depth <= pages[j].depth)
            && (forall i :: 0 <= i < |pages| ==>
                  && pages[i].depth <= MaxDepth(o)
                  && Distance(CrawlGraph(env, seed, o), pages[i].url, pages[i].depth))
  {
    var seed := Seed(env.lib, raw).value;
    var items := Visited(env, seed, o);
    FirstIsExact(CrawlGraph(env, seed, o), Halt(env, MaxPages(o)));
    PagesMirrorItems(CrawlScraper(env, o), items);
    DistinctPages(CrawlScraper(env, o), items);
    CrawledAre(env, raw, o);
  }

  lemma CrawledAre(env: Env, raw: string, o: Options)
    requires Seed(env.lib, raw).Some?
    ensures CrawledPages(env, raw, o) == PagesFor(CrawlScraper(env, o), Visited(env, Seed(env.lib, raw).value, o))
  {
  }

  lemma DistinctPages(scrape: Scraper, items: seq<Item>)
    requires DistinctUrls(items)
    ensures Distinct(PageUrls(PagesFor(scrape, items)))
  {
    PagesMirrorItems(scrape, items);
  }

  /** No page is off the seed's host. */
  lemma CrawlStaysOnHost(env: Env, raw: string, o: Options, page: PageResult)
    requires Seed(env.lib, raw).Some?
    ensures page in CrawledPages(env, raw, o) ==> OnHost(env.lib, Seed(env.lib, raw).value.1, page.url)
  {
    CrawlIsExact(env, raw, o);
    WalkStaysOnHost(env.lib, CrawlScraper(env, o), Seed(env.lib, raw).value, MaxDepth(o), page.url, page.depth);
  }

  /** A reachable URL within the depth limit is left out only when the crawl was full or
      stopped, and then it is at least as deep as every page returned. */
  lemma CrawlIsNearest(env: Env, raw: string, o: Options, v: string, d: nat)
    requires Seed(env.lib, raw).Some?
    ensures var pages := CrawledPages(env, raw, o);
            Distance(CrawlGraph(env, Seed(env.lib, raw).value, o), v, d) && d <= MaxDepth(o) && v !in PageUrls(pages)
            ==> |pages| == Halt(env, MaxPages(o)) && forall i :: 0 <= i < |pages| ==> pages[i].depth <= d
  {
    var g := CrawlGraph(env, Seed(env.lib, raw).value, o);
    if Distance(g, v, d) && d <= MaxDepth(o) && v !in PageUrls(CrawledPages(env, raw, o)) {
      PagesMirrorItems(CrawlScraper(env, o), Visited(env, Seed(env.lib, raw).value, o));
      FirstIsNearest(g, Halt(env, MaxPages(o)), v, d);
    }
  }

  /** The loop's queue is empty when it ends: nothing was discovered that was not visited. */
  predicate QueueEmptied(env: Env, seed: (string, Url), o: Options)
  {
    |Order(CrawlGraph(env, seed, o), Halt(env, MaxPages(o)))| <= Halt(env, MaxPages(o))
  }

  /** Sound, and complete if and only if the queue ran empty, be it in the very iteration in
      which the crawl was full or would have been stopped or refused. */
  lemma CrawlIsComplete(env: Env, raw: string, o: Options)
    requires Seed(env.lib, raw).Some?
    ensures var seed := Seed(env.lib, raw).value;
            var g, urls := CrawlGraph(env, seed, o), PageUrls(CrawledPages(env, raw, o));
            && (forall v :: v in urls ==> InReach(g, v))
            && ((forall v :: InReach(g, v) ==> v in urls) <==> QueueEmptied(env, seed, o))
  {
    var seed := Seed(env.lib, raw).value;
    CrawledAre(env, raw, o);
    PagesMirrorItems(CrawlScraper(env, o), Visited(env, seed, o));
    FirstIsComplete(CrawlGraph(env, seed, o), Halt(env, MaxPages(o)));
  }

  /** A crawl that returns normally and was not stopped is whole: it is full, or complete. */
  lemma CrawlIsWhole(env: Env, raw: string, o: Options)
    requires Seed(env.lib, raw).Some? && CrawlSpec(env, raw, o).Done? && forall i: nat :: !env.stop(i)
    ensures |CrawledPages(env, raw, o)| == MaxPages(o) || QueueEmptied(env, Seed(env.lib, raw).value, o)
  {
  }

  /** The first iteration is stopped or refused: nothing is fetched at all. */
  predicate NeverStarts(env: Env)
  {
    env.stop(0) || env.waitFails(0)
  }

  /** Unless links are among the requested types the crawl sees no link: it returns the seed's
      page and nothing else, whatever the limits and whatever happens after the first
      iteration. */
  lemma CrawlWithoutLinks(env: Env, raw: string, o: Options)
    requires Seed(env.lib, raw).Some? && !LinksRequested(env.lib, CrawlTypes(o))
    ensures PageUrls(CrawledPages(env, raw, o)) == if NeverStarts(env) then [] else [Seed(env.lib, raw).value.0]
  {
    var seed := Seed(env.lib, raw).value;
    forall u ensures CrawlGraph(env, seed, o).succ(u) == [] {
      assert LinksOf(CrawlScraper(env, o)(u)) == [];
    }
    NoLinksOrder(CrawlGraph(env, seed, o), Halt(env, MaxPages(o)));
    PagesMirrorItems(CrawlScraper(env, o), Visited(env, seed, o));
  }

  /** The default of both the crawler and the API asks for markdown alone. */
  lemma DefaultCrawlIsOnePage(env: Env, raw: string, o: Options)
    requires Seed(env.lib, raw).Some? && o.extract == [] && env.lib.lower("markdown") == "markdown"
    ensures PageUrls(CrawledPages(env, raw, o)) == if NeverStarts(env) then [] else [Seed(env.lib, raw).value.0]
  {
    var t := ["markdown"];
    assert forall i :: 0 <= i < |t| ==> env.lib.lower(t[i]) == "markdown";
    assert "markdown"[0] != "links"[0] && "markdown"[0] != "all"[0];
    CrawlWithoutLinks(env, raw, o);
  }

  // ---- Prefix stability ---------------------------------------------------------------------

  /** Runs that differ only in how far they get return prefixes of one sequence of pages. */
  lemma LongerRunExtends(e1: Env, e2: Env, raw: string, o1: Options, o2: Options)
    requires e1.lib == e2.lib && e1.site == e2.site && Seed(e1.lib, raw).Some?
    requires o1.extract == o2.extract && MaxDepth(o1) == MaxDepth(o2)
    requires Halt(e1, MaxPages(o1)) <= Halt(e2, MaxPages(o2))
    ensures CrawledPages(e1, raw, o1) <= CrawledPages(e2, raw, o2)
  {
    var seed := Seed(e1.lib, raw).value;
    var scrape := CrawlScraper(e1, o1);
    var i1, i2 := Visited(e1, seed, o1), Visited(e2, seed, o2);
    FirstIsStable(CrawlGraph(e1, seed, o1), Halt(e1, MaxPages(o1)), Halt(e2, MaxPages(o2)));
    forall i | 0 <= i < |i1| ensures PagesFor(scrape, i1)[i] == PagesFor(scrape, i2)[i] {
      PagesAt(scrape, i1, i);
      PagesAt(scrape, i2, i);
    }
  }

  lemma HaltGrows(env: Env, n: nat, m: nat)
    requires n <= m
    ensures Halt(env, n) <= Halt(env, m)
  {
  }

  /** Raising MaxPages only extends the sequence of pages. */
  lemma RaisingMaxPagesExtends(env: Env, raw: string, o1: Options, o2: Options)
    requires Seed(env.lib, raw).Some? && o1.extract == o2.extract && MaxDepth(o1) == MaxDepth(o2)
    requires MaxPages(o1) <= MaxPages(o2)
    ensures CrawledPages(env, raw, o1) <= CrawledPages(env, raw, o2)
  {
    HaltGrows(env, MaxPages(o1), MaxPages(o2));
    LongerRunExtends(env, env, raw, o1, o2);
  }

  /** Stopping, at any iteration and for any reason, yields a prefix of the undisturbed pages. */
  lemma StoppingYieldsPrefix(env: Env, calm: Env, raw: string, o: Options)
    requires env.lib == calm.lib && env.site == calm.site && Seed(env.lib, raw).Some? && Undisturbed(calm)
    ensures CrawledPages(env, raw, o) <= CrawledPages(calm, raw, o)
  {
    LongerRunExtends(env, calm, raw, o, o);
  }

  // ---- Counters -----------------------------------------------------------------------------

  /** The positions of the pages whose fetch failed. */
  function FailedAt(env: Env, pages: seq<PageResult>): set<int>
  {
    set i | 0 <= i < |pages| && !env.site(pages[i].url).Fetched?
  }

  lemma {:induction false} FailuresCounted(scrape: Scraper, items: seq<Item>)
    ensures CountFailed(scrape, items) == |set i | 0 <= i < |items| && scrape(items[i].url).Error?|
  {
    var failed := set i | 0 <= i < |items| && scrape(items[i].url).Error?;
    if items != [] {
      var init := items[..|items| - 1];
      var before := set i | 0 <= i < |init| && scrape(init[i].url).Error?;
      FailuresCounted(scrape, init);
      if scrape(items[|items| - 1].url).Error? {
        assert failed == before + {|items| - 1};
      } else {
        assert failed == before;
      }
    }
  }

  lemma {:induction false} TruncationSeen(pages: seq<PageResult>)
    ensures AnyTruncated(pages) <==> exists i :: 0 <= i < |pages| && pages[i].truncated
  {
    if pages != [] {
      var init := pages[..|pages| - 1];
      TruncationSeen(init);
      assert forall i :: 0 <= i < |init| ==> init[i] == pages[i];
    }
  }

  /** On a normal exit PagesCrawled is the number of pages, PagesSkipped the number of failed
      fetches among them, Truncated the disjunction over the pages and the status that of the
      first page; on the rate limiter's error the counters were never set. */
  lemma CrawlAccounting(env: Env, raw: string, o: Options)
    requires Seed(env.lib, raw).Some?
    ensures var r := ResultOf(CrawlSpec(env, raw, o));
            && (r.truncated <==> exists i :: 0 <= i < |r.pages| && r.pages[i].truncated)
            && (CrawlSpec(env, raw, o).Done? ==>
                  && r.pagesCrawled == |r.pages|
                  && r.pagesSkipped == |FailedAt(env, r.pages)|
                  && (|r.pages| > 0 ==> r.httpStatus == r.pages[0].httpStatus))
            && (CrawlSpec(env, raw, o).RateError? ==> r.pagesCrawled == r.pagesSkipped == r.httpStatus == 0)
  {
    var seed := Seed(env.lib, raw).value;
    var items := Visited(env, seed, o);
    var scrape := CrawlScraper(env, o);
    var pages := PagesFor(scrape, items);
    PagesMirrorItems(scrape, items);
    FailuresOfPages(env, CrawlTypes(o), items);
    TruncationSeen(pages);
  }

  lemma FailuresOfPages(env: Env, types: seq<string>, items: seq<Item>)
    ensures var scrape := ScraperFor(env.lib, env.site, types);
            CountFailed(scrape, items) == |FailedAt(env, PagesFor(scrape, items))|
  {
    var scrape := ScraperFor(env.lib, env.site, types);
    PagesMirrorItems(scrape, items);
    FailuresCounted(scrape, items);
    assert FailedAt(env, PagesFor(scrape, items)) == set i | 0 <= i < |items| && scrape(items[i].url).Error?;
  }

  lemma HaltsAtOnce(env: Env, n: nat)
    requires env.stop(0)
    ensures Halt(env, n) == 0
  {
  }

  lemma MapStoppedAtOnce(env: Env, raw: string, o: Options)
    requires Seed(env.lib, raw).Some? && env.stop(0)
    ensures MapSpec(env, raw, o).Done? && MappedUrls(env, raw, o) == [Seed(env.lib, raw).value.0]
    ensures ResultOf(MapSpec(env, raw, o)).durationMs == env.elapsed
  {
    var g := MapGraph(env, Seed(env.lib, raw).value, o);
    assert Order(g, 0) == [Item(g.seed, 0)];
    assert LeaveFrom(env, g, MaxUrls(o), 0) == 0;
  }

  lemma CrawlRefusedAtOnce(env: Env, raw: string, o: Options)
    requires Seed(env.lib, raw).Some? && !env.stop(0) && env.waitFails(0)
    ensures CrawlSpec(env, raw, o).RateError? && CrawledPages(env, raw, o) == []
  {
    var g := CrawlGraph(env, Seed(env.lib, raw).value, o);
    assert Halt(env, MaxPages(o)) == 0;
    assert Order(g, 0) == [Item(g.seed, 0)];
  }

  lemma MapRefusedAtOnce(env: Env, raw: string, o: Options)
    requires Seed(env.lib, raw).Some? && !env.stop(0) && env.waitFails(0) && MaxUrls(o) > 1 && MaxDepth(o) > 0
    ensures MapSpec(env, raw, o).RateError? && MappedUrls(env, raw, o) == [Seed(env.lib, raw).value.0]
  {
    var g := MapGraph(env, Seed(env.lib, raw).value, o);
    assert Order(g, 0) == [Item(g.seed, 0)];
    assert LeaveFrom(env, g, MaxUrls(o), 0) == 0;
  }

  lemma CrawlStartsWithSeed(env: Env, raw: string, o: Options)
    requires Seed(env.lib, raw).Some? && !env.stop(0) && !env.waitFails(0)
    ensures var pages := CrawledPages(env, raw, o);
            |pages| > 0 && pages[0].url == Seed(env.lib, raw).value.0 && pages[0].depth == 0
  {
    var seed := Seed(env.lib, raw).value;
    CrawledAre(env, raw, o);
    FirstIsExact(CrawlGraph(env, seed, o), Halt(env, MaxPages(o)));
    PagesMirrorItems(CrawlScraper(env, o), Visited(env, seed, o));
  }

  // ---- What a page carries --------------------------------------------------------------------

  /** A page of a crawl carries, field by field, what the scrape of its URL extracted; of a
      failed fetch the status alone, and of a refused one not even that. */
  lemma CrawledPageCarries(env: Env, raw: string, o: Options, i: nat)
    requires Seed(env.lib, raw).Some?
    ensures i < |CrawledPages(env, raw, o)| ==> Carries(env, o, CrawledPages(env, raw, o)[i])
  {
    var seed := Seed(env.lib, raw).value;
    CrawledAre(env, raw, o);
    if i < |CrawledPages(env, raw, o)| {
      PagesAt(CrawlScraper(env, o), Visited(env, seed, o), i);
    }
  }

  /** The page is what the fetch of its URL makes of it. */
  predicate Carries(env: Env, o: Options, p: PageResult)
  {
    match env.site(p.url)
    case Refused => p == PageResult(p.url, p.depth, [], [], [], "", [], [], 0, false)
    case Failed(status, _) => p == PageResult(p.url, p.depth, [], [], [], "", [], [], status, false)
    case Fetched(status, doc, _) =>
      var r := Extract(env.lib, CrawlTypes(o), p.url, status, doc);
      && p.links == r.links && p.headers == r.headers && p.paragraphs == r.paragraphs
      && p.markdown == r.markdown && p.html == r.html && p.rawHtml == r.rawHtml
      && p.httpStatus == status && p.truncated == r.truncated
  }

  // ---- The map ------------------------------------------------------------------------------

  function MappedUrls(env: Env, raw: string, o: Options): seq<string>
    requires Seed(env.lib, raw).Some?
  {
    ResultOf(MapSpec(env, raw, o)).urls
  }

  /** An undisturbed map lists the first MaxURLs URLs of the discovery order; one that is
      stopped or refused lists a prefix of them. */
  lemma MapIsFirst(env: Env, raw: string, o: Options)
    requires Seed(env.lib, raw).Some?
    ensures var first := Urls(First(MapGraph(env, Seed(env.lib, raw).value, o), MaxUrls(o)));
            && MappedUrls(env, raw, o) <= first
            && (Undisturbed(env) ==> MapSpec(env, raw, o).Done? && MappedUrls(env, raw, o) == first)
  {
    var g := MapGraph(env, Seed(env.lib, raw).value, o);
    var n := MaxUrls(o);
    var h := LeaveFrom(env, g, n, 0);
    if |Order(g, h)| >= n || |Order(g, h)| <= h {
      OrderTake(g, h, n);
    } else {
      OrderPrefix(g, h, n);
    }
  }

  /** A stop or failing wait in any iteration yields a prefix of the undisturbed list. */
  lemma StoppingYieldsUrlPrefix(env: Env, calm: Env, raw: string, o: Options)
    requires env.lib == calm.lib && env.site == calm.site && Seed(env.lib, raw).Some? && Undisturbed(calm)
    ensures MappedUrls(env, raw, o) <= MappedUrls(calm, raw, o)
  {
    MapIsFirst(env, raw, o);
    MapIsFirst(calm, raw, o);
  }

  /** A map that returns normally and was not stopped is whole: it lists the first MaxURLs
      URLs of the discovery order. */
  lemma MapIsWhole(env: Env, raw: string, o: Options)
    requires Seed(env.lib, raw).Some? && MapSpec(env, raw, o).Done? && forall i: nat :: !env.stop(i)
    ensures MappedUrls(env, raw, o) == Urls(First(MapGraph(env, Seed(env.lib, raw).value, o), MaxUrls(o)))
  {
    var g := MapGraph(env, Seed(env.lib, raw).value, o);
    var n := MaxUrls(o);
    var h := LeaveFrom(env, g, n, 0);
    MappedIs(env, raw, o, g);
    OrderTake(g, h, n);
  }

  /** Raising MaxURLs only extends the list of URLs, whatever stops or refuses the runs. */
  lemma RaisingMaxUrlsExtends(env: Env, raw: string, o1: Options, o2: Options)
    requires Seed(env.lib, raw).Some? && MaxDepth(o1) == MaxDepth(o2) && MaxUrls(o1) <= MaxUrls(o2)
    ensures MappedUrls(env, raw, o1) <= MappedUrls(env, raw, o2)
  {
    var g := MapGraph(env, Seed(env.lib, raw).value, o1);
    var h1, h2 := LeaveFrom(env, g, MaxUrls(o1), 0), LeaveFrom(env, g, MaxUrls(o2), 0);
    MappedIs(env, raw, o1, g);
    MappedIs(env, raw, o2, g);
    LeaveGrows(env, g, MaxUrls(o1), MaxUrls(o2), 0);
    OrderPrefix(g, h1, h2);
    TakeMore(Order(g, h1), Order(g, h2), MaxUrls(o1), MaxUrls(o2));
  }

  lemma MappedIs(env: Env, raw: string, o: Options, g: Graph)
    requires Seed(env.lib, raw).Some? && g == MapGraph(env, Seed(env.lib, raw).value, o)
    ensures MappedUrls(env, raw, o) == Urls(Take(Order(g, LeaveFrom(env, g, MaxUrls(o), 0)), MaxUrls(o)))
  {
  }

  lemma TakeMore(a: seq<Item>, b: seq<Item>, n: nat, m: nat)
    requires a <= b && n <= m
    ensures Urls(Take(a, n)) <= Urls(Take(b, m))
  {
  }

  /** The URL is on the host and within the depth limit. */
  ghost predicate WithinReach(env: Env, seed: (string, Url), o: Options, url: string)
  {
    OnHost(env.lib, seed.1, url) && InReach(MapGraph(env, seed, o), url)
  }

  /** Mapped URLs are distinct, on the host, within the limits, and start with the seed. */
  lemma MapIsSound(env: Env, raw: string, o: Options)
    requires Seed(env.lib, raw).Some?
    ensures var urls := MappedUrls(env, raw, o);
            && 1 <= |urls| <= MaxUrls(o) && urls[0] == Seed(env.lib, raw).value.0
            && Distinct(urls)
            && forall i :: 0 <= i < |urls| ==> WithinReach(env, Seed(env.lib, raw).value, o, urls[i])
  {
    var seed := Seed(env.lib, raw).value;
    var urls := MappedUrls(env, raw, o);
    var f := First(MapGraph(env, seed, o), MaxUrls(o));
    MapIsFirst(env, raw, o);
    FirstIsExact(MapGraph(env, seed, o), MaxUrls(o));
    MapListsSeed(env, raw, o);
    PrefixDistinct(f, urls);
    forall i | 0 <= i < |urls| ensures WithinReach(env, seed, o, urls[i]) {
      assert urls[i] == Urls(f)[i] == f[i].url;
      FirstIsWithinReach(env, seed, o, f[i]);
    }
  }

  lemma FirstIsWithinReach(env: Env, seed: (string, Url), o: Options, item: Item)
    requires env.lib.parse(seed.0) == Some(seed.1)
    requires item in First(MapGraph(env, seed, o), MaxUrls(o))
    ensures WithinReach(env, seed, o, item.url)
  {
    FirstIsExact(MapGraph(env, seed, o), MaxUrls(o));
    assert Distance(MapGraph(env, seed, o), item.url, item.depth);
    WalkStaysOnHost(env.lib, MapScraper(env), seed, MaxDepth(o), item.url, item.depth);
  }

  lemma MapListsSeed(env: Env, raw: string, o: Options)
    requires Seed(env.lib, raw).Some?
    ensures |MappedUrls(env, raw, o)| >= 1 && MappedUrls(env, raw, o)[0] == Seed(env.lib, raw).value.0
  {
    var g := MapGraph(env, Seed(env.lib, raw).value, o);
    MappedIs(env, raw, o, g);
    OrderPrefix(g, 0, LeaveFrom(env, g, MaxUrls(o), 0));
    assert Order(g, 0) == [Item(g.seed, 0)];
  }

  lemma PrefixDistinct(items: seq<Item>, urls: seq<string>)
    requires DistinctUrls(items) && urls <= Urls(items)
    ensures Distinct(urls)
  {
  }

  // ---- One document, one URL ----------------------------------------------------------------------

  lemma WalkIsCanonical(lib: Lib, scrape: Scraper, raw: string, maxDepth: nat, v: string, d: nat)
    requires RoundTrips(lib) && Seed(lib, raw).Some?
    requires Walk(LinkGraph(lib, scrape, Seed(lib, raw).value, maxDepth), v, d)
    ensures Canonical(lib, v)
  {
    var seed := Seed(lib, raw).value;
    SeedIff(lib, raw, seed.0, seed.1);
    WalkStaysOnHost(lib, scrape, seed, maxDepth, v, d);
    if d == 0 {
      NoFragment(lib, raw, v);
    } else {
      var u, l :| Walk(LinkGraph(lib, scrape, seed, maxDepth), u, d - 1) && l in LinksOf(scrape(u)) && ComesTo(lib, l, v);
      NoFragment(lib, l, v);
    }
  }

  /** Under the library's law every page's URL is free of a fragment, and no two pages are of
      URLs that parse alike. */
  lemma CrawledAreDistinctDocuments(env: Env, raw: string, o: Options)
    requires RoundTrips(env.lib) && Seed(env.lib, raw).Some?
    ensures var pages := CrawledPages(env, raw, o);
            && (forall i :: 0 <= i < |pages| ==> Canonical(env.lib, pages[i].url))
            && forall i, j :: 0 <= i < j < |pages| ==> env.lib.parse(pages[i].url) != env.lib.parse(pages[j].url)
  {
    var pages := CrawledPages(env, raw, o);
    CrawlIsExact(env, raw, o);
    forall i | 0 <= i < |pages| ensures Canonical(env.lib, pages[i].url) {
      WalkIsCanonical(env.lib, CrawlScraper(env, o), raw, MaxDepth(o), pages[i].url, pages[i].depth);
    }
    forall i, j | 0 <= i < j < |pages| ensures env.lib.parse(pages[i].url) != env.lib.parse(pages[j].url) {
      assert PageUrls(pages)[i] != PageUrls(pages)[j];
    }
  }

  /** The same of the mapped URLs: a document is listed once, whatever fragments its links have. */
  lemma MappedAreDistinctDocuments(env: Env, raw: string, o: Options)
    requires RoundTrips(env.lib) && Seed(env.lib, raw).Some?
    ensures var urls := MappedUrls(env, raw, o);
            && (forall i :: 0 <= i < |urls| ==> Canonical(env.lib, urls[i]))
            && forall i, j :: 0 <= i < j < |urls| ==> env.lib.parse(urls[i]) != env.lib.parse(urls[j])
  {
    MapIsSound(env, raw, o);
    var urls := MappedUrls(env, raw, o);
    forall i | 0 <= i < |urls| ensures Canonical(env.lib, urls[i]) {
      MappedIsCanonical(env, raw, o, urls[i]);
    }
  }

  lemma MappedIsCanonical(env: Env, raw: string, o: Options, v: string)
    requires RoundTrips(env.lib) && Seed(env.lib, raw).Some?
    requires WithinReach(env, Seed(env.lib, raw).value, o, v)
    ensures Canonical(env.lib, v)
  {
    var g := MapGraph(env, Seed(env.lib, raw).value, o);
    var d: nat :| d <= g.maxDepth && Distance(g, v, d);
    WalkIsCanonical(env.lib, MapScraper(env), raw, MaxDepth(o), v, d);
  }

  // ---- The two loops agree --------------------------------------------------------------------

  lemma {:induction false} OrderDependsOnSuccessors(g1: Graph, g2: Graph, k: nat)
    requires g1.seed == g2.seed && g1.maxDepth == g2.maxDepth && forall u :: g1.succ(u) == g2.succ(u)
    ensures Order(g1, k) == Order(g2, k)
  {
    if k > 0 {
      OrderDependsOnSuccessors(g1, g2, k - 1);
      OrderStep(g1, Order(g1, k - 1), k - 1);
      OrderStep(g2, Order(g2, k - 1), k - 1);
    }
  }

  /** The crawl and the map, two loops with different stopping rules, discover the same URLs in
      the same order: with links requested, equal depth limits and nothing disturbing them, a
      map of n URLs lists exactly the URLs of the pages of a crawl of n pages. */
  lemma TwoLoopsAgree(env: Env, raw: string, crawl: Options, map_: Options)
    requires Seed(env.lib, raw).Some? && Undisturbed(env)
    requires LinksRequested(env.lib, CrawlTypes(crawl)) && LinksRequested(env.lib, ["links"])
    requires MaxPages(crawl) == MaxUrls(map_) && MaxDepth(crawl) == MaxDepth(map_)
    ensures MappedUrls(env, raw, map_) == PageUrls(CrawledPages(env, raw, crawl))
  {
    var seed := Seed(env.lib, raw).value;
    var g1, g2 := CrawlGraph(env, seed, crawl), MapGraph(env, seed, map_);
    forall u ensures g1.succ(u) == g2.succ(u) {
      assert LinksOf(CrawlScraper(env, crawl)(u)) == LinksOf(MapScraper(env)(u));
    }
    OrderDependsOnSuccessors(g1, g2, MaxPages(crawl));
    MapIsFirst(env, raw, map_);
    PagesMirrorItems(CrawlScraper(env, crawl), Visited(env, seed, crawl));
  }
}
