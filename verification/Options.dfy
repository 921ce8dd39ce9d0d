/** Request options on their way through the system: validated by the API, defaulted by its
    handlers, stored with the job, carried by the queue payload and applied by the worker. */
module Options {
  import opened Basics
  import Scrape
  import Links

  datatype RequestOptions = RequestOptions(
    timeoutSeconds: Option<int>, maxRetries: Option<int>, followRedirects: Option<bool>,
    maxPages: Option<int>, maxDepth: Option<int>, maxUrls: Option<int>, renderJs: Option<bool>)

  datatype JobOptions = JobOptions(
    timeoutSeconds: Option<int>, maxRetries: Option<int>, followRedirects: Option<bool>,
    maxPages: Option<int>, maxDepth: Option<int>, maxUrls: Option<int>, renderJs: Option<bool>)

  datatype PayloadOptions = PayloadOptions(
    timeoutSeconds: Option<int>, maxRetries: Option<int>, followRedirects: Option<bool>,
    maxPages: Option<int>, maxDepth: Option<int>, maxUrls: Option<int>, renderJs: Option<bool>)

  /** The body of a scrape, crawl or map request; a map request has no extract list. */
  datatype Request = Request(url: string, extract: seq<string>, options: Option<RequestOptions>)

  datatype Kind = Scrape | Crawl | Map

  /** The identifier of a job: a UUID. */
  type JobId = string

  /** The queue's message. jobId is None when its text is no UUID. */
  datatype Payload = Payload(jobId: Option<JobId>, kind: Kind, url: string, extract: seq<string>,
                             options: Option<PayloadOptions>)

  // ---- Validation ---------------------------------------------------------------------------

  const VALID_TYPES: seq<string> := ["links", "headers", "paragraphs", "markdown", "html", "raw_html"]

  predicate Outside(value: Option<int>, low: int, high: int)
  {
    value.Some? && (value.value < low || value.value > high)
  }

  /** None when the options are accepted, otherwise the message. */
  function ValidateOptions(o: RequestOptions): Option<string>
  {
    if Outside(o.timeoutSeconds, 1, 60) then Some("timeout_seconds must be between 1 and 60")
    else if Outside(o.maxRetries, 0, 5) then Some("max_retries must be between 0 and 5")
    else if Outside(o.maxPages, 1, 100) then Some("max_pages must be between 1 and 100")
    else if Outside(o.maxDepth, 0, 5) then Some("max_depth must be between 0 and 5")
    else if Outside(o.maxUrls, 1, 500) then Some("max_urls must be between 1 and 500")
    else None
  }

  function ValidateExtract(lib: Scrape.Lib, types: seq<string>): Option<string>
  {
    if types == [] then None
    else if lib.lower(types[0]) !in VALID_TYPES then Some("invalid extract type")
    else ValidateExtract(lib, types[1..])
  }

  function ValidateUrl(lib: Scrape.Lib, url: string): Option<string>
  {
    if url == "" then Some("url is required")
    else
      match lib.parse(url)
      case None => Some("url must be a valid http:// or https:// URL")
      case Some(u) =>
        if (u.scheme != "http" && u.scheme != "https") || u.host == ""
        then Some("url must be a valid http:// or https:// URL") else None
  }

  /** Scrape and crawl requests go through the same checks. */
  function ValidateCrawl(lib: Scrape.Lib, req: Request): Option<string>
  {
    if ValidateUrl(lib, req.url).Some? then ValidateUrl(lib, req.url)
    else if ValidateExtract(lib, req.extract).Some? then ValidateExtract(lib, req.extract)
    else if req.options.Some? then ValidateOptions(req.options.value)
    else None
  }

  function ValidateMap(lib: Scrape.Lib, req: Request): Option<string>
  {
    if ValidateUrl(lib, req.url).Some? then ValidateUrl(lib, req.url)
    else if req.options.Some? then ValidateOptions(req.options.value)
    else None
  }

  // ---- The mapping layers -------------------------------------------------------------------

  const NO_OPTIONS := RequestOptions(None, None, None, None, None, None, None)

  function OrElse<T>(value: Option<T>, default: T): Option<T>
  {
    if value.None? then Some(default) else value
  }

  function CrawlDefaults(options: Option<RequestOptions>): RequestOptions
  {
    var o := if options.None? then NO_OPTIONS else options.value;
    o.(maxPages := OrElse(o.maxPages, 10), maxDepth := OrElse(o.maxDepth, 2))
  }

  function MapDefaults(options: Option<RequestOptions>): RequestOptions
  {
    var o := if options.None? then NO_OPTIONS else options.value;
    o.(maxUrls := OrElse(o.maxUrls, 50), maxDepth := OrElse(o.maxDepth, 2))
  }

  function ToJobOptions(o: Option<RequestOptions>): JobOptions
  {
    match o
    case None => JobOptions(None, None, None, None, None, None, None)
    case Some(r) =>
      JobOptions(r.timeoutSeconds, r.maxRetries, r.followRedirects, r.maxPages, r.maxDepth, r.maxUrls, r.renderJs)
  }

  function ToPayloadOptions(o: JobOptions): PayloadOptions
  {
    PayloadOptions(o.timeoutSeconds, o.maxRetries, o.followRedirects, o.maxPages, o.maxDepth, o.maxUrls, o.renderJs)
  }

  /** What acceptJob puts into the queue. */
  function PayloadOf(id: JobId, kind: Kind, url: string, extract: seq<string>, o: Option<RequestOptions>): Payload
  {
    Payload(Some(id), kind, url, extract, Some(ToPayloadOptions(ToJobOptions(o))))
  }

  function ScrapePayload(id: JobId, req: Request): Payload
  {
    PayloadOf(id, Scrape, req.url, if req.extract == [] then ["links"] else req.extract, req.options)
  }

  function CrawlPayload(id: JobId, req: Request): Payload
  {
    PayloadOf(id, Crawl, req.url, if req.extract == [] then ["markdown"] else req.extract,
              Some(CrawlDefaults(req.options)))
  }

  function MapPayload(id: JobId, req: Request): Payload
  {
    PayloadOf(id, Map, req.url, ["links"], Some(MapDefaults(req.options)))
  }

  function OrZero(value: Option<int>): int { if value.Some? then value.value else 0 }

  /** The worker's crawl options: a field the payload leaves out stays 0. */
  function CrawlOptions(p: Payload): Links.Options
  {
    match p.options
    case None => Links.Options(0, 0, 0, p.extract)
    case Some(o) => Links.Options(OrZero(o.maxPages), OrZero(o.maxDepth), 0, p.extract)
  }

  function MapOptions(p: Payload): Links.Options
  {
    match p.options
    case None => Links.Options(0, 0, 0, [])
    case Some(o) => Links.Options(0, OrZero(o.maxDepth), OrZero(o.maxUrls), [])
  }

  /** applyJobOptions: how many attempts the worker makes. */
  function Retries(p: Payload, default: int): int
  {
    if p.options.Some? && p.options.value.maxRetries.Some? then p.options.value.maxRetries.value else default
  }

  // ---- End to end ---------------------------------------------------------------------------

  /** What a request asks for, or the default, is the limit the crawler works with; an explicit
      depth of 0 is not mistaken for a missing one at any layer. */
  lemma CrawlLimitsSurvive(lib: Scrape.Lib, id: JobId, req: Request)
    requires ValidateCrawl(lib, req).None?
    ensures var asked := if req.options.Some? then req.options.value else NO_OPTIONS;
            var o := CrawlOptions(CrawlPayload(id, req));
            && Links.MaxPages(o) == (if asked.maxPages.Some? then asked.maxPages.value else 10)
            && Links.MaxDepth(o) == (if asked.maxDepth.Some? then asked.maxDepth.value else 2)
            && 1 <= Links.MaxPages(o) <= 100 && Links.MaxDepth(o) <= 5
            && Links.CrawlTypes(o) == (if req.extract == [] then ["markdown"] else req.extract)
  {
  }

  lemma MapLimitsSurvive(lib: Scrape.Lib, id: JobId, req: Request)
    requires ValidateMap(lib, req).None?
    ensures var asked := if req.options.Some? then req.options.value else NO_OPTIONS;
            var o := MapOptions(MapPayload(id, req));
            && Links.MaxUrls(o) == (if asked.maxUrls.Some? then asked.maxUrls.value else 50)
            && Links.MaxDepth(o) == (if asked.maxDepth.Some? then asked.maxDepth.value else 2)
            && 1 <= Links.MaxUrls(o) <= 500 && Links.MaxDepth(o) <= 5
  {
  }

  /** Every option of a request reaches the payload as it is, through each mapping. */
  lemma OptionsSurvive(id: JobId, kind: Kind, url: string, extract: seq<string>, o: RequestOptions)
    ensures var p := PayloadOf(id, kind, url, extract, Some(o));
            && p.jobId == Some(id) && p.kind == kind && p.url == url && p.extract == extract && p.options.Some?
            && var q := p.options.value;
               && q.timeoutSeconds == o.timeoutSeconds && q.maxRetries == o.maxRetries
               && q.followRedirects == o.followRedirects && q.renderJs == o.renderJs
               && q.maxPages == o.maxPages && q.maxDepth == o.maxDepth && q.maxUrls == o.maxUrls
  {
  }

  /** Without options none are carried. */
  lemma NoOptionsSurvive(id: JobId, kind: Kind, url: string, extract: seq<string>)
    ensures var p := PayloadOf(id, kind, url, extract, None);
            p.options == Some(PayloadOptions(None, None, None, None, None, None, None))
  {
  }

  /** A payload without options: ten pages, or fifty URLs, but depth 0, since a field left out is
      0 and a depth of 0 is not replaced by the default. */
  lemma WithoutOptions(p: Payload)
    requires p.options.None?
    ensures Links.MaxPages(CrawlOptions(p)) == 10 && Links.MaxDepth(CrawlOptions(p)) == 0
    ensures Links.CrawlTypes(CrawlOptions(p)) == if p.extract == [] then ["markdown"] else p.extract
    ensures Links.MaxUrls(MapOptions(p)) == 50 && Links.MaxDepth(MapOptions(p)) == 0
  {
  }

  predicate InRange(value: Option<int>, low: int, high: int)
  {
    value.Some? ==> low <= value.value <= high
  }

  /** The options a request may have. */
  predicate AcceptableOptions(o: RequestOptions)
  {
    && InRange(o.timeoutSeconds, 1, 60) && InRange(o.maxRetries, 0, 5) && InRange(o.maxPages, 1, 100)
    && InRange(o.maxDepth, 0, 5) && InRange(o.maxUrls, 1, 500)
  }

  /** The URL of a request may be any that parses, with scheme http or https and a host. */
  predicate AcceptableUrl(lib: Scrape.Lib, url: string)
  {
    && url != "" && lib.parse(url).Some?
    && (lib.parse(url).value.scheme == "http" || lib.parse(url).value.scheme == "https")
    && lib.parse(url).value.host != ""
  }

  /** The extract types a request may name, in whatever case. */
  predicate AcceptableType(t: string)
  {
    t == "links" || t == "headers" || t == "paragraphs" || t == "markdown" || t == "html" || t == "raw_html"
  }

  lemma OptionsAcceptedIff(o: RequestOptions)
    ensures ValidateOptions(o).None? <==> AcceptableOptions(o)
  {
  }

  lemma UrlAcceptedIff(lib: Scrape.Lib, url: string)
    ensures ValidateUrl(lib, url).None? <==> AcceptableUrl(lib, url)
  {
  }

  lemma TypesAcceptedIff(lib: Scrape.Lib, types: seq<string>)
    ensures ValidateExtract(lib, types).None? <==> forall i :: 0 <= i < |types| ==> AcceptableType(lib.lower(types[i]))
  {
    ValidTypesOnly(lib, types);
    forall i | 0 <= i < |types| ensures lib.lower(types[i]) in VALID_TYPES <==> AcceptableType(lib.lower(types[i])) {
      TypeIs(lib.lower(types[i]));
    }
  }

  /** A scrape or crawl request is accepted if and only if its URL, its types and its options
      are acceptable; a map request, if its URL and its options are. */
  lemma AcceptedIff(lib: Scrape.Lib, req: Request)
    ensures ValidateCrawl(lib, req).None? <==>
      && AcceptableUrl(lib, req.url)
      && (forall i :: 0 <= i < |req.extract| ==> AcceptableType(lib.lower(req.extract[i])))
      && (req.options.Some? ==> AcceptableOptions(req.options.value))
    ensures ValidateMap(lib, req).None? <==>
      AcceptableUrl(lib, req.url) && (req.options.Some? ==> AcceptableOptions(req.options.value))
  {
    UrlAcceptedIff(lib, req.url);
    TypesAcceptedIff(lib, req.extract);
    if req.options.Some? {
      OptionsAcceptedIff(req.options.value);
    }
  }

  lemma TypeIs(t: string)
    ensures t in VALID_TYPES <==> AcceptableType(t)
  {
  }

  lemma {:induction false} ValidTypesOnly(lib: Scrape.Lib, types: seq<string>)
    ensures ValidateExtract(lib, types).None? <==> forall i :: 0 <= i < |types| ==> lib.lower(types[i]) in VALID_TYPES
  {
    if types != [] {
      ValidTypesOnly(lib, types[1..]);
      assert types == [types[0]] + types[1..];
    }
  }
}
