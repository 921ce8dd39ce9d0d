/** Fetching and extracting one page. The network, the HTML parser and the URL library are
    arbitrary functions, so what is proved holds whatever they do. */
module Scrape {
  import opened Basics
  import Markdown
  import Extractors
  import Dom
  import Walker

  /** A parsed URL, as far as the program looks into it. */
  datatype Url = Url(scheme: string, host: string, hostname: string, rest: string, fragment: string)

  /** Go's net/url and strings packages: parsing, printing, resolving a reference against a base,
      the case folding behind EqualFold and the lower-casing behind ToLower; and goquery's
      printing of a selection as HTML. */
  datatype Lib = Lib(
    parse: string -> Option<Url>,
    show: Url -> string,
    resolve: Extractors.Resolver,
    fold: string -> string,
    lower: string -> string,
    html: seq<Markdown.Node> -> seq<Byte>)

  /** The outcome of fetching a URL, and the time taken: refused before any request, failed (with
      the status that was seen) or parsed. */
  datatype Fetch =
    | Refused
    | Failed(status: int, elapsed: int)
    | Fetched(status: int, doc: seq<Markdown.Node>, elapsed: int)

  type Site = string -> Fetch

  datatype PageResult = PageResult(
    url: string, depth: nat,
    links: seq<string>, headers: seq<string>, paragraphs: seq<string>,
    markdown: string, html: seq<Byte>, rawHtml: seq<Byte>,
    httpStatus: int, truncated: bool)

  datatype Result = Result(
    links: seq<string>, headers: seq<string>, paragraphs: seq<string>,
    markdown: string, html: seq<Byte>, rawHtml: seq<Byte>, truncated: bool,
    pages: seq<PageResult>, pagesCrawled: int, pagesSkipped: int,
    urls: seq<string>, httpStatus: int, durationMs: int)

  const EMPTY: Result := Result([], [], [], "", [], [], false, [], 0, 0, [], 0, 0)

  const MAX_STORED_HTML: nat := 512 * 1024

  /** ScrapePage's pair of results: the error case may come with a bare result or none. */
  datatype Scraped =
    | Page(result: Result)
    | Error(partial: Option<Result>)

  // ---- Extract types ------------------------------------------------------------------------

  /** The set of extract types asked for; an empty request means links. */
  function ExtractSet(lib: Lib, types: seq<string>): set<string>
  {
    if types == [] then {"links"} else set i | 0 <= i < |types| :: lib.lower(types[i])
  }

  method BuildExtractSet(lib: Lib, types: seq<string>) returns (s: set<string>)
    ensures s == ExtractSet(lib, types)
  {
    s := {};
    if |types| == 0 {
      s := s + {"links"};
    } else {
      for i := 0 to |types|
        invariant s == set j | 0 <= j < i :: lib.lower(types[j])
      {
        s := s + {lib.lower(types[i])};
      }
    }
  }

  /** Whether a scrape with these types fills in the links of a page. */
  predicate LinksRequested(lib: Lib, types: seq<string>)
  {
    "links" in ExtractSet(lib, types) || "all" in ExtractSet(lib, types)
  }

  /** The guard a caller can evaluate: the list is empty, or names links or all in some case. */
  lemma LinksRequestedIff(lib: Lib, types: seq<string>)
    ensures LinksRequested(lib, types)
       <==> types == [] || exists i :: 0 <= i < |types| && lib.lower(types[i]) in {"links", "all"}
  {
  }

  // ---- One page -----------------------------------------------------------------------------

  /** HTML is cut by bytes, if need be inside a character. */
  function TruncateHtml(s: seq<Byte>): (seq<Byte>, bool)
  {
    if |s| <= MAX_STORED_HTML then (s, false) else (s[..MAX_STORED_HTML], true)
  }

  /** The first half mebibyte, and whether there was more. */
  lemma TruncationIs(s: seq<Byte>)
    ensures var (cut, truncated) := TruncateHtml(s);
            && cut <= s && |cut| == (if |s| <= 524_288 then |s| else 524_288)
            && (truncated <==> |s| > 524_288)
  {
  }

  function MainMarkdown(doc: seq<Markdown.Node>): string
  {
    match Extractors.StrippedMain(doc)
    case None => ""
    case Some(main) => Markdown.ToMarkdown(main.children)
  }

  function MainHtml(lib: Lib, doc: seq<Markdown.Node>): seq<Byte>
  {
    match Extractors.StrippedMain(doc)
    case None => lib.html([])
    case Some(main) => lib.html([main])
  }

  function RawHtml(lib: Lib, doc: seq<Markdown.Node>): seq<Byte>
  {
    lib.html(Extractors.BodyOrAll(doc))
  }

  function LinksIn(lib: Lib, url: string, doc: seq<Markdown.Node>): seq<string>
  {
    Extractors.Collect(doc, Extractors.LinkOf(lib.resolve, url))
  }

  function TextsIn(wanted: Markdown.Tag -> bool, doc: seq<Markdown.Node>): seq<string>
  {
    Extractors.Collect(doc, Extractors.TextIn(wanted))
  }

  predicate Wants(lib: Lib, types: seq<string>, t: string)
  {
    t in ExtractSet(lib, types) || "all" in ExtractSet(lib, types)
  }

  function Extract(lib: Lib, types: seq<string>, url: string, status: int, doc: seq<Markdown.Node>): Result
  {
    var wantsRaw := "raw_html" in ExtractSet(lib, types);
    EMPTY.(
      httpStatus := status,
      links := if LinksRequested(lib, types) then LinksIn(lib, url, doc) else [],
      headers := if Wants(lib, types, "headers") then TextsIn(Extractors.HEADER, doc) else [],
      paragraphs := if Wants(lib, types, "paragraphs") then TextsIn(Extractors.PARAGRAPH, doc) else [],
      markdown := if Wants(lib, types, "markdown") then MainMarkdown(doc) else "",
      html := if Wants(lib, types, "html") then TruncateHtml(MainHtml(lib, doc)).0 else [],
      rawHtml := if wantsRaw then TruncateHtml(RawHtml(lib, doc)).0 else [],
      truncated := (Wants(lib, types, "html") && |MainHtml(lib, doc)| > MAX_STORED_HTML)
                   || (wantsRaw && |RawHtml(lib, doc)| > MAX_STORED_HTML))
  }

  /** What noise, inserted anywhere in the document, does to the fields of a scrape. Markdown and
      HTML stay as they are unless the noise contains an element that becomes the main content.
      Links, headers and paragraphs, read from the unstripped document, stay as they are if and
      only if the noise has none itself and, for the latter two, stands in none whose trimmed
      text it changes. */
  lemma ScrapeAfterNoise(lib: Lib, types: seq<string>, url: string, status: int, doc: seq<Markdown.Node>,
                         path: seq<nat>, pos: nat, x: Markdown.Node)
    requires Markdown.ValidPlace(doc, path, pos) && x.Element? && Markdown.IsNoise(x.tag)
    ensures var doc' := Markdown.InsertAt(doc, path, pos, x);
            var r, r' := Extract(lib, types, url, status, doc), Extract(lib, types, url, status, doc');
            var header, paragraph := Extractors.TextIn(Extractors.HEADER), Extractors.TextIn(Extractors.PARAGRAPH);
            && (Extractors.TakenBy(doc, path, pos, x).None? ==> r'.markdown == r.markdown && r'.html == r.html)
            && (LinksRequested(lib, types) ==>
                  (r'.links == r.links <==> LinksIn(lib, url, [x]) == []))
            && (Wants(lib, types, "headers") ==>
                  (r'.headers == r.headers
                   <==> TextsIn(Extractors.HEADER, [x]) == [] && Extractors.SameAlong(doc, path, pos, x, header)))
            && (Wants(lib, types, "paragraphs") ==>
                  (r'.paragraphs == r.paragraphs
                   <==> TextsIn(Extractors.PARAGRAPH, [x]) == [] && Extractors.SameAlong(doc, path, pos, x, paragraph)))
  {
    MainFieldsAfterNoise(lib, doc, path, pos, x);
    Extractors.LinksShowIff(lib.resolve, url, doc, path, pos, x);
    Extractors.TextsShowIff(Extractors.HEADER, doc, path, pos, x);
    Extractors.TextsShowIff(Extractors.PARAGRAPH, doc, path, pos, x);
  }

  lemma MainFieldsAfterNoise(lib: Lib, doc: seq<Markdown.Node>, path: seq<nat>, pos: nat, x: Markdown.Node)
    requires Markdown.ValidPlace(doc, path, pos) && x.Element? && Markdown.IsNoise(x.tag)
    ensures var doc' := Markdown.InsertAt(doc, path, pos, x);
            Extractors.TakenBy(doc, path, pos, x).None?
            ==> MainMarkdown(doc') == MainMarkdown(doc) && MainHtml(lib, doc') == MainHtml(lib, doc)
  {
    Extractors.MainAfterNoise(doc, path, pos, x);
  }

  function Scraping(lib: Lib, site: Site, url: string, types: seq<string>): Scraped
  {
    match site(url)
    case Refused => Error(None)
    case Failed(status, elapsed) => Error(Some(EMPTY.(httpStatus := status, durationMs := elapsed)))
    case Fetched(status, doc, elapsed) => Page(Extract(lib, types, url, status, doc).(durationMs := elapsed))
  }

  /** What a scrape leaves alone: a failed one has the status and the time alone, a refused one
      nothing; and no scrape has pages, URLs or counters. */
  lemma ScrapeLeavesAlone(lib: Lib, site: Site, url: string, types: seq<string>)
    ensures match Scraping(lib, site, url, types)
            case Error(None) => site(url).Refused?
            case Error(Some(r)) =>
              && site(url) == Failed(r.httpStatus, r.durationMs)
              && r == Result([], [], [], "", [], [], false, [], 0, 0, [], r.httpStatus, r.durationMs)
            case Page(r) =>
              && site(url).Fetched? && r.httpStatus == site(url).status && r.durationMs == site(url).elapsed
              && r.pages == [] && r.pagesCrawled == r.pagesSkipped == 0 && r.urls == []
  {
  }

  method ScrapePage(lib: Lib, site: Site, url: string, types: seq<string>) returns (r: Scraped)
    ensures r == Scraping(lib, site, url, types)
  {
    match site(url)
    case Refused =>
      r := Error(None);
    case Failed(status, elapsed) =>
      r := Error(Some(EMPTY.(httpStatus := status, durationMs := elapsed)));
    case Fetched(status, doc, elapsed) =>
      var result := EMPTY.(httpStatus := status);
      var extractSet := BuildExtractSet(lib, types);
      result := ExtractLists(lib, extractSet, url, doc, result);
      result := ExtractMain(lib, extractSet, doc, result);
      if "raw_html" in extractSet {
        var (h, trunc) := TruncateHtml(lib.html(Extractors.BodyOrAll(doc)));
        result := result.(rawHtml := h, truncated := result.truncated || trunc);
      }
      r := Page(result.(durationMs := elapsed));
  }

  /** The part of ScrapePage that lists links, headers and paragraphs. */
  method ExtractLists(lib: Lib, extractSet: set<string>, url: string, doc: seq<Markdown.Node>, sofar: Result)
    returns (result: Result)
    ensures result == sofar.(
      links := if "links" in extractSet || "all" in extractSet then LinksIn(lib, url, doc) else sofar.links,
      headers := if "headers" in extractSet || "all" in extractSet then TextsIn(Extractors.HEADER, doc) else sofar.headers,
      paragraphs := if "paragraphs" in extractSet || "all" in extractSet then TextsIn(Extractors.PARAGRAPH, doc)
                    else sofar.paragraphs)
  {
    result := sofar;
    if "links" in extractSet || "all" in extractSet {
      var links := Extractors.ExtractLinks(doc, lib.resolve, url);
      result := result.(links := links);
    }
    if "headers" in extractSet || "all" in extractSet {
      var headers := Extractors.ExtractTexts(doc, Extractors.HEADER);
      result := result.(headers := headers);
    }
    if "paragraphs" in extractSet || "all" in extractSet {
      var paragraphs := Extractors.ExtractTexts(doc, Extractors.PARAGRAPH);
      result := result.(paragraphs := paragraphs);
    }
  }

  /** The part of ScrapePage that works on a clone of the main content. */
  method ExtractMain(lib: Lib, extractSet: set<string>, doc: seq<Markdown.Node>, sofar: Result) returns (result: Result)
    ensures result == sofar.(
      markdown := if "markdown" in extractSet || "all" in extractSet then MainMarkdown(doc) else sofar.markdown,
      html := if "html" in extractSet || "all" in extractSet then TruncateHtml(MainHtml(lib, doc)).0 else sofar.html,
      truncated := sofar.truncated || (("html" in extractSet || "all" in extractSet) && TruncateHtml(MainHtml(lib, doc)).1))
  {
    result := sofar;
    if "markdown" in extractSet || "html" in extractSet || "all" in extractSet {
      var md, selection := StripMain(doc);
      if "markdown" in extractSet || "all" in extractSet {
        result := result.(markdown := md);
      }
      if "html" in extractSet || "all" in extractSet {
        var (h, trunc) := TruncateHtml(lib.html(selection));
        result := result.(html := h, truncated := result.truncated || trunc);
      }
    }
  }

  /** Clones and strips the main content; its markdown, and what is left to be printed. */
  method StripMain(doc: seq<Markdown.Node>) returns (md: string, selection: seq<Markdown.Node>)
    ensures md == MainMarkdown(doc)
    ensures selection == if Extractors.StrippedMain(doc).Some? then [Extractors.StrippedMain(doc).value] else []
  {
    var main := Extractors.MainContent(doc);
    if main.None? {
      return "", [];
    }
    md, selection := StripElement(main.value);
  }

  method StripElement(n: Markdown.Node) returns (md: string, selection: seq<Markdown.Node>)
    requires n.Element?
    ensures md == Markdown.ToMarkdown(Markdown.Strip(n.children)) && selection == [Extractors.Stripped(n)]
  {
    var clone := Dom.Build(n.tag, n.attrs, n.children);
    clone.StripNoise();
    md := Walker.HtmlToMarkdown(clone);
    var stripped := Dom.Values(clone);
    selection := [Markdown.Element(clone.tag, clone.attrs, stripped)];
  }

  /** ScrapePage with everything but the URL fixed, as the crawl and the map use it. */
  type Scraper = string -> Scraped

  function ScraperFor(lib: Lib, site: Site, types: seq<string>): Scraper
  {
    (url: string) => Scraping(lib, site, url, types)
  }
}
