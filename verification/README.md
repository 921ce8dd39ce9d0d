# Verification of the scraping service's core

A Dafny model of the service's hard core and proofs about it: the two breadth-first crawlers, the
job protocol between API, Redis list, jobs table and workers, the HTML-to-markdown walk, the
retry loop, and the pagination of the job list.
`dafny verify dfyconfig.toml` checks everything.

## What is modelled

**Crawler** (`Discovery`, `Links`, `Crawl`, `SiteMap`, `CrawlTheorems`). A site is an arbitrary,
possibly infinite, function from URL to fetch outcome; `net/url`, case folding and lower-casing
are arbitrary functions too. `Discovery.Order` is the discovery order of a graph as a value;
`Walk` and `Distance` define distances independently of any search. The methods `Crawl.CrawlBFS`
and `SiteMap.MapBFS` keep the source's loops, their different stopping rules, their counters and
their error exits, and are proved equal to specifications over that order. The theorems then say
what the order means: exact shortest-path depths, nothing nearer left out, completeness,
prefix stability, and that both loops discover the same sequence. Stops and rate-limiter failures
may occur in any iteration.

**Job protocol** (`Jobs`, `JobQueue`, `Protocol`, `ProtocolInvariant`, `ProtocolTheorems`,
`Payloads`, `Drain`). `Jobs.Store` and `JobQueue.Queue` are the table and the list, with the methods of the
source. `Protocol` puts them into a transition system with any number of workers and requests:
creation and enqueueing as separate steps, dequeue, claim, update, a cancel's UPDATE and SELECT
as separate steps, crashes, restarts, lost, repeated and foreign payloads. A database error leaves
the statement in limbo, from where it may take effect at any later time or never. `UpdateJob` has
no status guard, so every guarantee about rows rests on one global invariant (`Inv`) about who may
still send an update.

**Worker and API** (`Options`, `Retry`, `Worker`, `Api`, `Pagination`, `EndToEnd`,
`Answers`). `Worker.ProcessJob` is the sequential path of one job, calling the crawler methods and
the retry loop; `EndToEnd` shows that it and the handlers follow the protocol. `Answers` draws the
parts together: whatever result a run of the whole system shows answers an accepted request for
that very job.

**Markdown** (`Text`, `Markdown`, `MarkdownForms`, `Dom`, `Walker`,
`Extractors`, used by `Scrape`). `Dom.Elem` is a mutable DOM
element that owns its subtree; `StripNoise` removes nodes in place. `Walker` appends to a shared
builder. Both are proved equal to functions on trees, about which the preservation theorems are
proved. `Extractors` selects the main content and lists links, headers and paragraphs.

## Where the code and its documentation disagree

The model follows the code.

- `docs/how-to/crawl.md:33` promises that a crawl can be cancelled while it is processing. A cancel
  only affects queued rows, and `cancelCheck`, evaluated on the live table of a system in which
  anything else may happen, never cuts a run short (`Answers.LiveCheckNeverCuts`).
- A crawl follows links only when the requested types name them. The default crawl, of the API and
  of the crawler, asks for markdown and visits one page (`CrawlTheorems.DefaultCrawlIsOnePage`,
  `EndToEnd.AcceptedCrawlWithoutLinks`); of the two ways to ask for links, the API refuses "all".
- `docs/explanation/job-lifecycle.md:120` says that blocked and invalid URLs are not retried. Every
  error is; such a URL is tried once only if no second attempt is possible
  (`EndToEnd.RefusedIsRetried`, `EndToEnd.RefusedThreeTimes`).
- `docs/explanation/job-lifecycle.md:158` says that `retries_used` counts attempts. In every
  reachable row it is 0 or 1, and responses only ever show 0
  (`ProtocolTheorems.ResponsesAreConsistent`); it is the number of attempts if and only if the first
  one failed and no second was possible (`Retry.RetriesUsedIff`,
  `EndToEnd.StoredRetriesCountAttemptsIff`).
- `docs/explanation/job-lifecycle.md:162` shows a failed response with the partial result's status.
  The response of a failed job never carries results or counts
  (`ProtocolTheorems.ResponsesAreConsistent`).

## Limits of the code that no document mentions

- `max_retries: 0` is accepted and makes the worker panic, which ends its process; the row stays
  processing for ever (`EndToEnd.PanicsIff`, `EndToEnd.AcceptedRequestPanics`,
  `Drain.ZeroRetriesNeverFinish`).
- A queue payload without options is crawled at depth 0, since a missing depth is not replaced by
  the default (`Options.WithoutOptions`). The API always sends them.
- The backoff doubles only up to the 38th attempt, where a 64-bit duration overflows
  (`Retry.BackoffIsExactIff`). Requests allow five.
- Noise is stripped only from the clone that markdown and HTML are made of. Links, headers and
  paragraphs are read from the whole document, so a crawl follows the links of a nav or footer
  (`Extractors.NavLinkShows`), and an article inside noise can become the main content
  (`Extractors.MainAfterNoise`).
- A page number large enough to overflow the offset can return the first page
  (`Pagination.PageIsTrueIff`, `Pagination.FarPageReturnsFirst`).
- The SELECT after a lost cancel can report "queued" for a job that did not exist at the UPDATE
  (`ProtocolTheorems.LostCancelReadsQueuedIff`). A client would have to name the job's random UUID before
  its row exists; for an existing row it cannot happen.

## Model

| member | source | states |
|---|---|---|
| Crawl.CrawlBFS | internal/crawl/crawl.go:49-143 | The crawl's result, counters, error exits and the sequence of fetched URLs are those of the specification over the discovery order, for every limit, stop pattern and site. |
| Crawl.CrawlLoop | internal/crawl/crawl.go:75-134 | The worklist loop visits the first items of the discovery order up to the first stop, failed wait or limit, and records exactly one page for each. |
| Crawl.Visit | internal/crawl/crawl.go:92-114 | One item is scraped once and leaves one page, counted as failed or truncated as its fetch was. |
| Crawl.ExpandItem | internal/crawl/crawl.go:116-133 | A failed fetch or an item at the depth limit adds nothing to the queue. |
| Crawl.EnqueueLinks | internal/crawl/crawl.go:119-133 | The inner loop appends the same-host URLs not seen before, each once, in document order, one level deeper. |
| CrawlTheorems.CrawlIsExact | internal/crawl/crawl.go:70-134 | Every page's depth is its shortest-path distance from the seed in the same-host graph of fetchable pages; URLs are distinct, depths never decrease, the limits hold. |
| CrawlTheorems.CrawlStaysOnHost | internal/crawl/crawl.go:43-45 | Every page's URL parses, and its folded host name is that of the seed. |
| CrawlTheorems.CrawlIsNearest | internal/crawl/crawl.go:75-134 | A reachable URL is left out only if the crawl was full or cut short, and is then at least as deep as every page returned. |
| CrawlTheorems.CrawlIsComplete | internal/crawl/crawl.go:75-134 | Every URL returned is within the depth limit, and every URL within it is returned if and only if the queue had run empty when the crawl ended. |
| CrawlTheorems.CrawlIsWhole | internal/crawl/crawl.go:75-142 | A crawl that returns normally without having been stopped is full, or its queue ran empty. |
| CrawlTheorems.CrawlWithoutLinks | internal/scraper/scraper.go:137-139 | With neither links nor all requested a crawl returns the seed alone, or nothing if its first iteration is cut. |
| CrawlTheorems.DefaultCrawlIsOnePage | internal/crawl/crawl.go:57-59 | The same of the default extract list. |
| CrawlTheorems.LongerRunExtends | internal/crawl/crawl.go:75-83 | Runs on one site that differ only in how far they get return prefixes of one sequence of pages. |
| CrawlTheorems.RaisingMaxPagesExtends | internal/crawl/crawl.go:75-75 | Raising MaxPages only extends the pages. |
| CrawlTheorems.StoppingYieldsPrefix | internal/crawl/crawl.go:76-81 | A stop or failed wait in any iteration yields a prefix of the undisturbed crawl. |
| CrawlTheorems.CrawlAccounting | internal/crawl/crawl.go:93-142 | On a normal exit PagesCrawled counts the pages, PagesSkipped the pages that could not be fetched, Truncated is the disjunction over pages; on a rate-limiter error the counters were never set. |
| CrawlTheorems.CrawledPageCarries | internal/crawl/crawl.go:93-113 | Page i carries, field by field, what the scrape of its URL extracted; of a failed fetch the status alone. |
| CrawlTheorems.CrawledAreDistinctDocuments | internal/crawl/crawl.go:33-41 | When printed URLs parse back, no page's URL has a fragment and no two pages are of URLs that parse alike. |
| SiteMap.MapBFS | internal/crawl/crawl.go:146-220 | The map's result is that of its specification; it fetches at most MaxURLs - 1 URLs, each once, all of them listed; it terminates on infinite sites. |
| SiteMap.MapLoop | internal/crawl/crawl.go:170-213 | The loop lists the URLs discovered up to the iteration in which it ends, cut to MaxURLs. |
| SiteMap.ListLinks | internal/crawl/crawl.go:194-212 | The inner loop lists each new same-host URL at once and breaks when the list is full; otherwise queue and seen set grow by the same level. |
| SiteMap.LeaveFrom | internal/crawl/crawl.go:170-176 | Some iteration ends the loop, also on a site without end. |
| CrawlTheorems.MapIsFirst | internal/crawl/crawl.go:166-213 | A map lists a prefix of the first MaxURLs discovered URLs, and all of them when undisturbed. |
| CrawlTheorems.MapIsWhole | internal/crawl/crawl.go:170-219 | A map that returns normally without having been stopped lists the first MaxURLs discovered URLs. |
| CrawlTheorems.RaisingMaxUrlsExtends | internal/crawl/crawl.go:170-212 | Raising MaxURLs only extends the list, with the same stops and failing waits in both runs. |
| CrawlTheorems.StoppingYieldsUrlPrefix | internal/crawl/crawl.go:170-188 | A stop or failed wait in any iteration yields a prefix of the undisturbed list. |
| CrawlTheorems.MapIsSound | internal/crawl/crawl.go:166-213 | Mapped URLs are distinct, on the seed's host, within the depth limit, at most MaxURLs, and start with the seed. |
| CrawlTheorems.MappedAreDistinctDocuments | internal/crawl/crawl.go:33-41 | When printed URLs parse back, no mapped URL has a fragment and no two parse alike: a document is listed once. |
| CrawlTheorems.TwoLoopsAgree | internal/crawl/crawl.go:75-213 | With links requested and equal limits the map lists exactly the crawl's page URLs, in the same order. |
| Discovery.FirstIsExact | internal/crawl/crawl.go:70-134 | The first n discovered items carry exact distances, are distinct and ordered by depth. |
| Discovery.FirstIsNearest | internal/crawl/crawl.go:70-134 | What the first n items leave out is at least as far as all of them. |
| Discovery.FirstIsComplete | internal/crawl/crawl.go:70-134 | The first n items are all within the depth limit, and are all that is within it if and only if nothing else was discovered once they are expanded. |
| Discovery.FirstIsStable | internal/crawl/crawl.go:75-75 | A larger limit only extends the list. |
| Discovery.WalkListed | internal/crawl/crawl.go:116-133 | Every walk within the depth limit ends at a listed item unless the next item to expand is nearer than its length. |
| Links.WalkStaysOnHost | internal/crawl/crawl.go:119-133 | Whatever a walk reaches parses, has the seed's folded host name, and is the seed or what a link on a page one step nearer prints as without its fragment. |
| Links.TargetsIff | internal/crawl/crawl.go:119-133 | A URL is taken from a page's links if and only if it parses with the seed's folded host name and some link parses and prints as it without the fragment. |
| Links.FragmentIsIgnored | internal/crawl/crawl.go:33-41 | URLs that parse alike but for the fragment have one normal form. |
| Links.NormalFormIff | internal/crawl/crawl.go:33-41 | A URL's normal form is what it prints as without its fragment, and there is none exactly when it does not parse. |
| Links.SeedIff | internal/crawl/crawl.go:61-68 | The seed is the normal form of the URL asked for, and its parse. |
| Links.Advance | internal/crawl/crawl.go:83-133 | One iteration keeps queue and seen set equal to the rest and the URLs of the discovery order. |
| Scrape.ScrapePage | internal/scraper/scraper.go:111-171 | Which fields a scrape fills, for every set of extract types and every fetch outcome. |
| Scrape.ScrapeLeavesAlone | internal/scraper/scraper.go:121-135 | A refused scrape returns nothing, a failed one its status and time alone, and no scrape has pages, URLs or counters. |
| Scrape.TruncationIs | internal/scraper/markdown.go:121-126 | HTML is cut to its first 524288 bytes, and marked if and only if it was longer. |
| Scrape.BuildExtractSet | internal/scraper/scraper.go:221-231 | The loop builds the set of lower-cased types, or links for none. |
| Scrape.LinksRequestedIff | internal/scraper/scraper.go:137-137 | Links are filled in exactly when the list is empty or names links or all in some case. |
| Scrape.ScrapeAfterNoise | internal/scraper/scraper.go:137-167 | What noise, inserted anywhere in the document, does to a scrape: markdown and HTML stay unless the noise contains an element that becomes the main content; links stay if and only if the noise has none; headers and paragraphs if and only if it has none and changes the trimmed text of none it stands in. |
| Extractors.ExtractLinks | internal/scraper/scraper.go:233-247 | The loop lists the resolved href of every a element of the document, in order. |
| Extractors.ExtractTexts | internal/scraper/scraper.go:249-267 | The loop lists the non-empty trimmed text of every header, or paragraph, of the document, in order. |
| Extractors.MainContent | internal/scraper/markdown.go:11-18 | The first article of the document; without one its first main; without one its first element with role main; without one its first body; and nothing exactly when there is none of these. |
| Extractors.WantedNames | internal/scraper/scraper.go:249-267 | Headers are the elements named h1 to h4, paragraphs those named p. |
| Extractors.BodyOrAllIs | internal/scraper/scraper.go:160-163 | Raw HTML is made of the first body, or of the whole document without one. |
| Extractors.CollectInsertIff | internal/scraper/scraper.go:233-267 | A subtree inserted anywhere leaves what an extractor lists as it was if and only if it contributes nothing and no element above it contributes otherwise. |
| Extractors.LinksShowIff | internal/scraper/scraper.go:233-247 | An inserted subtree, noise included, leaves the links as they were if and only if it has none. |
| Extractors.NavLinkShows | internal/scraper/scraper.go:233-247 | The failing input: a link in a nav, wherever the nav stands, is among the links. |
| Extractors.TextsShowIff | internal/scraper/scraper.go:249-267 | The same for headers and paragraphs, with the exact condition on those the subtree stands in. |
| Extractors.MainAfterNoise | internal/scraper/markdown.go:11-22 | After the insertion of noise anywhere, the stripped main content is the first selected element inside the noise if none of that selector stands before it, and otherwise what it was. |
| Extractors.PlainNoiseTakesNothing | internal/scraper/markdown.go:11-22 | Noise in which no selector selects anything never becomes the main content. |
| Dom.Elem.StripNoise | internal/scraper/markdown.go:20-22 | Removing noise elements in place leaves exactly the stripped tree and nothing else changed. |
| Dom.Elem.StripAt | internal/scraper/markdown.go:20-22 | One child's tree is replaced by what stripping leaves of it. |
| Dom.Elem.RemoveAt | internal/scraper/markdown.go:21-21 | Removing a child removes its subtree and leaves the siblings in order. |
| Dom.Build | internal/scraper/scraper.go:148-148 | The clone that is stripped is a new tree with the same contents. |
| Dom.Values | internal/scraper/scraper.go:153-155 | The stripped clone is read back as it stands, to be printed as HTML. |
| Walker.HtmlToMarkdown | internal/scraper/markdown.go:25-29 | The builder's trimmed content is the markdown function of the document. |
| Walker.WalkMarkdown | internal/scraper/markdown.go:31-107 | The walk appends exactly the rendering of the children and keeps what the builder held. |
| Walker.WalkElement | internal/scraper/markdown.go:46-105 | Each element case appends its rendering, in both modes. |
| Walker.WriteList | internal/scraper/markdown.go:75-86 | A list appends one line for each li child and nothing for others. |
| Walker.TextBelow | internal/scraper/markdown.go:55-55 | The combined text of a subtree, noise included. |
| Markdown.RenderConcat | internal/scraper/markdown.go:31-107 | The walk distributes over concatenation of sibling lists. |
| Markdown.NoiseIndependence | internal/scraper/markdown.go:20-29 | Noise inserted anywhere, at any depth and under any element, does not show in the markdown of the stripped tree; read backwards, neither does its deletion. |
| Markdown.StripIgnoresNoise | internal/scraper/markdown.go:20-22 | Stripping undoes the insertion of a noise subtree at any place. |
| Markdown.StripIsExact | internal/scraper/markdown.go:20-22 | Stripping leaves no noise, and changes a tree exactly when it had some. |
| Markdown.TextPreservation | internal/scraper/markdown.go:25-111 | The non-blank text the branches take up appears in order in the markdown; it is the whole text exactly when noise, br and list children other than li hold only white space. |
| Markdown.KeepText | internal/scraper/markdown.go:31-107 | The same for any node list and mode, before the final trimming. |
| Markdown.ListDrop | internal/scraper/markdown.go:31-107 | What the branches take up is the whole text if and only if nothing else is in the places they pass over; otherwise strictly less. |
| Markdown.VerbatimRender | internal/scraper/markdown.go:91-104 | In preformatted mode text, code and default elements are rendered verbatim. |
| Markdown.PreIsVerbatim | internal/scraper/markdown.go:87-90 | A pre block of such content is its exact text between fences. |
| MarkdownForms.NamesOf | internal/scraper/markdown.go:47-103 | Which element names are noise, headings, lists and items. |
| MarkdownForms.HeadingForm | internal/scraper/markdown.go:50-56 | A heading's markdown is as many number signs as the digit in its name, a space and its trimmed text. |
| MarkdownForms.LinkForm | internal/scraper/markdown.go:63-74 | A link's is its text in brackets and its address in parentheses; without an address its text, without text nothing. |
| MarkdownForms.ListForm | internal/scraper/markdown.go:75-86 | A list's is one line for each item, behind "1. " when ordered and "- " when not. |
| MarkdownForms.CodeForm | internal/scraper/markdown.go:91-98 | Inline code's is its text in back quotes. |
| MarkdownForms.QuoteForm | internal/scraper/markdown.go:99-102 | A block quote's is its text behind a greater-than sign. |
| MarkdownForms.BreakForm | internal/scraper/markdown.go:61-62 | A br between two texts is one line break between them. |
| MarkdownForms.ParagraphForm | internal/scraper/markdown.go:57-60 | Paragraphs are separated by blank lines. |
| MarkdownForms.TextForm | internal/scraper/markdown.go:33-43 | A text's is its words, single-spaced. |
| Text.NonWsCollapse | internal/scraper/markdown.go:109-111 | Collapsing white space keeps every other character, in order. |
| Text.CollapseIs | internal/scraper/markdown.go:109-111 | Collapsing keeps the words and leaves a single space between them, and none at the ends. |
| Text.TrimSplits | internal/scraper/markdown.go:28-28 | Trimming takes off white space at both ends, all of it and nothing else. |
| Jobs.Store.CreateJob | internal/store/store.go:131-146 | One blank queued row is added. |
| Jobs.Store.GetJob | internal/store/store.go:150-180 | The row, or not found. |
| Jobs.Store.ClaimJob | internal/store/store.go:186-196 | Succeeds exactly on a queued row, which becomes processing; nothing else changes. |
| Jobs.Store.UpdateJob | internal/store/store.go:201-242 | The unguarded update with its keep-old-value columns, and not found exactly when the row is missing. |
| Jobs.Store.CancelJob | internal/store/store.go:321-342 | Fails exactly a queued row with "cancelled"; otherwise not found or the status that prevents it, and no change. |
| Jobs.ResponseShows | internal/api/handlers.go:427-462 | A response repeats its row's identity, URL, times and outcome, and its counts are those of the results. |
| JobQueue.Queue.Enqueue | internal/queue/queue.go:83-92 | Adds one payload to the push history. |
| JobQueue.Queue.Dequeue | internal/queue/queue.go:96-115 | Returns the oldest payload not yet popped, or none when all were. |
| JobQueue.Queue.QueueDepth | internal/queue/queue.go:118-124 | The number of pushes less the number of pops. |
| JobQueue.PopKeepsFifo | internal/queue/queue.go:96-115 | Popping at the tail keeps pops followed by the reversed list equal to the pushes. |
| JobQueue.FifoMeans | internal/queue/queue.go:83-124 | The payload popped n-th is the one pushed n-th; the depth is the difference. |
| ProtocolInvariant.StepKeepsInv | cmd/worker/main.go:82-278 | Every step of the system, failures included, keeps the global invariant on rows, outstanding updates, cancels, submissions and the list. |
| ProtocolInvariant.RunHasInv | cmd/worker/main.go:82-278 | The invariant holds in every state of every run. |
| ProtocolTheorems.AtMostOnce | internal/store/store.go:186-242 | Each job is claimed at most once and updated at most once in the whole history, a cancel and a claim exclude each other, and no update precedes its claim. |
| ProtocolTheorems.AtMostOneUpdateSent | cmd/worker/main.go:237-278 | In any run at most one update is ever sent for a job, counting those that fail or are lost. |
| ProtocolTheorems.FailureLeavesStatement | internal/store/store.go:186-242 | A statement whose caller got an error changes nothing then and may take effect later. |
| ProtocolTheorems.LimboTakesEffectOnce | internal/store/store.go:186-242 | It takes effect as if sent at that moment, or never, and only once. |
| ProtocolTheorems.WorkerMoves | cmd/worker/main.go:82-132 | A worker takes the oldest payload, throws one without a job away, is gone or back with nothing, and none of this touches the table. |
| ProtocolTheorems.ListMishaps | internal/queue/queue.go:83-115 | Lost, repeated and unpushed payloads leave the table as it is. |
| ProtocolTheorems.TerminalIsFinal | internal/store/store.go:201-242 | A completed or failed row never changes in any column, no row is deleted, and none is queued again. |
| ProtocolTheorems.PollerSeesFinalResponse | internal/api/handlers.go:427-462 | A poller who saw a terminal response sees the same one forever. |
| ProtocolTheorems.ResponsesAreConsistent | internal/api/handlers.go:427-462 | In every reachable state a response's fields follow from its status: results, error, completion time, and the duration, which is the result's; a failed row lacks a completion time exactly when it was cancelled; stored retries are 0 for a completed and 1 for a failed run, and a response only ever shows 0. |
| ProtocolTheorems.ClaimantIsUndisturbed | cmd/worker/main.go:140-146 | From claim to own update the row stays processing, so the cancel check answers no, also when its read fails. |
| ProtocolTheorems.MergeIsAssignment | internal/store/store.go:222-233 | Every update that may still take effect, a claimant's or one left in limbo, meets blank columns: the keep-old-value merge is assignment and never mixes two outcomes. |
| ProtocolTheorems.CancelledIsNeverFetched | internal/store/store.go:321-329 | After a cancel answered with success no worker ever has, or had, the job. |
| ProtocolTheorems.LostCancelReadsNonQueued | internal/store/store.go:330-339 | The SELECT of a cancel that lost against an existing job reads a status other than queued, however late it runs. |
| ProtocolTheorems.LostCancelReadsQueuedIff | internal/store/store.go:330-339 | From any reachable state: a cancel whose UPDATE hit no row can still be answered with "queued" if and only if there was no row then, and there is none yet or a queued one. |
| ProtocolTheorems.ListIsFifo | internal/queue/queue.go:83-124 | For any number of producers and consumers, pops followed by the list read tail to head are the pushes. |
| Drain.StepMeasure | cmd/worker/main.go:82-186 | Every worker step lowers the measure over waiting and held payloads; other steps raise it only by pushing. |
| Drain.WorkIsBounded | cmd/worker/main.go:82-186 | In failure-free runs the workers take at most three steps for each payload pushed. |
| Drain.RunLosesNothing | internal/api/handlers.go:156-198 | In failure-free runs every queued job is on its way and every processing one in a worker's hands. |
| Payloads.RunKeepsPayloads | internal/queue/queue.go:83-115 | What holds of every payload that enters holds of every payload pending, waiting, pushed or with a worker, in every run. |
| Payloads.RunKeepsJob | internal/store/store.go:186-242 | No statement changes a job's URL, extract types, options or creation time. |
| Drain.SubmittedCanFinish | cmd/worker/main.go:188-205 | If every payload that enters is a crawl, a map, or a scrape with max_retries at least 1, every claimed job can be finished, in every run. |
| Drain.WorkLeftCanBeDone | cmd/worker/main.go:82-112 | The measure is 0 exactly when no worker can move and none has a job it cannot finish. |
| Drain.AtRestAllHaveEndedIff | cmd/worker/main.go:82-186 | In failure-free runs, with no submission pending and no worker able to move, every job is completed or failed if and only if no worker has one that it cannot finish. |
| Drain.SystemDrains | cmd/worker/main.go:82-186 | From the inputs alone: with max_retries at least 1 on every scrape, every job has ended once API and workers are quiescent. |
| Drain.ZeroRetriesNeverFinish | cmd/worker/main.go:207-241 | A claimed scrape that may make no attempt never ends: in every later state of every run, with crashes, restarts, cancels and repeated payloads, its row is processing. |
| Retry.ExecuteWithRetry | cmd/worker/main.go:207-228 | Attempts stop at the first success, the bound or the context's end; the outcome is that attempt's; nothing is returned exactly when no attempt is allowed; the time slept is the sum of the backoffs. |
| Retry.RetryUndisturbed | cmd/worker/main.go:207-228 | Without shutdown: min(first success, bound) attempts, and the first success or else the last failure. |
| Retry.RetriesUsedIff | cmd/worker/main.go:207-235 | The 0 or 1 stored equals the attempts made if and only if the first failed and no second was possible, and the retries made if and only if the first succeeded or exactly two were made and failed. |
| Retry.BackoffIsExactIff | cmd/worker/main.go:213-213 | The total backoff after a attempts is 100(2^(a-1) - 1) ms if and only if a is at most 38. |
| Retry.ValidatedBackoffIsShort | cmd/worker/main.go:213-213 | At most five attempts sleep at most 1500 ms. |
| Worker.ProcessJob | cmd/worker/main.go:114-186 | The table after one job, for every payload, table, kind and behaviour of the outside; panics exactly when a claimed scrape returns neither result nor error. |
| Worker.WorkOnce | cmd/worker/main.go:82-112 | One round takes the oldest payload not yet popped and processes it; with none waiting nothing changes. |
| Worker.CheckCancelled | cmd/worker/main.go:140-146 | The check answers yes exactly when the row can be read and is not processing. |
| Worker.HandleJobResult | cmd/worker/main.go:237-278 | Stores the outcome of a run; panics and stores nothing without result and error; stores nothing once the context has ended. |
| Worker.RunJob | cmd/worker/main.go:148-182 | Each kind is run with its own options and returns the result and error of its run. |
| Worker.RunScrape | cmd/worker/main.go:175-182 | The scrape branch returns what the retry loop ended with, or gives up when the limiter refuses. |
| Worker.CheckNeverCuts | cmd/worker/main.go:140-146 | A run whose cancel check answers no is the run without one. |
| Answers.LiveCheckNeverCuts | cmd/worker/main.go:140-146 | With each cancel check evaluated on the table as it then is in a run of the system, a job runs as if there were no check. |
| EndToEnd.PanicsIff | cmd/worker/main.go:207-241 | A claimed job panics exactly when it is a scrape without an attempt that the limiter lets through. |
| EndToEnd.AcceptedRequestPanics | internal/api/validator.go:56-58 | The request that sets max_retries to 0 is accepted and panics. |
| EndToEnd.StoredRetriesCountAttemptsIff | cmd/worker/main.go:181-185 | What a claimed scrape stores as retries_used is its number of attempts if and only if the first failed and no second was possible. |
| EndToEnd.RefusedIsRetried | cmd/worker/main.go:211-225 | A URL refused before any request is tried once if and only if no second attempt is possible; without interruption every attempt is made, and 1 is stored. |
| EndToEnd.RefusedThreeTimes | cmd/worker/main.go:211-225 | An accepted request with max_retries 3 for a refused URL: three attempts, 1 stored. |
| EndToEnd.FailingScrapeUsesItsRetries | cmd/worker/main.go:188-228 | An always failing, uninterrupted scrape makes exactly the requested number of attempts or, without one, the worker's default. |
| EndToEnd.FirstFetchIsResult | cmd/worker/main.go:207-228 | An uninterrupted scrape's result is what the first attempt to succeed extracted, and it makes no further one. |
| EndToEnd.StoppedAtOnce | internal/crawl/crawl.go:75-81 | A context that has ended, or a check that answers yes, before the first iteration leaves a crawl without pages and a map with its seed. |
| EndToEnd.RefusedAtOnce | internal/crawl/crawl.go:86-90 | A wait that fails in the first iteration fails a crawl without pages and a map with its seed, with the error's message; a refused scrape stores nothing. |
| EndToEnd.SeedIsFetchedFirst | internal/crawl/crawl.go:83-113 | A crawl that gets to fetch fetches the seed first, and reports the status it got. |
| EndToEnd.AcceptedBackoffIsShort | internal/api/validator.go:56-58 | A scrape for an accepted request that sets max_retries sleeps at most 1500 ms, whatever happens. |
| EndToEnd.ProcessingFollowsProtocol | cmd/worker/main.go:114-132 | The worker's method discards or claims as the protocol's steps do, with the same table. |
| EndToEnd.FollowsAfterClaim | cmd/worker/main.go:134-186 | After the claim it finishes, abandons or crashes as the protocol's steps do, with the same table; an outcome for which the context has ended is not stored. |
| EndToEnd.ProcessedResponse | internal/api/handlers.go:427-462 | What a poller gets after the run: its result, or its error and the duration; other rows are untouched. |
| EndToEnd.SubmissionFollowsProtocol | internal/api/handlers.go:156-198 | acceptJob's table and pushes are those after the protocol's submission and its push or failed push. |
| EndToEnd.CancellationFollowsProtocol | internal/api/handlers.go:294-317 | The DELETE handler's table and code are those after the protocol's request, UPDATE and SELECT. |
| EndToEnd.AcceptedIsBounded | internal/api/validator.go:52-69 | Every payload of an accepted request carries limits of at most 100 pages, 500 URLs and depth 5. |
| EndToEnd.AcceptedCrawlSeesLinksIff | internal/api/validator.go:9-16 | An accepted crawl sees links exactly when its request names links in some case. |
| EndToEnd.AcceptedCrawlWithoutLinks | internal/api/handlers.go:110-113 | Otherwise an undisturbed crawl fetches the seed alone. |
| Answers.RunIsSmall | cmd/worker/main.go:148-186 | A result of a bounded payload's run keeps the limits, counts its pages and repeats no URL. |
| Answers.RunIsWhole | cmd/worker/main.go:148-186 | Unless the context ended, a crawl's result is full or has exactly the URLs within the depth limit, a map's is the first MaxURLs URLs, a scrape's the first attempt to succeed; every page visited and every URL mapped is on the requested host. |
| Answers.EveryResponseIsAnAnswer | internal/api/handlers.go:427-462 | In every reachable state of every run of accepted requests, each result shown is that of a whole run for an accepted request of that job with its URL, extract types and options; it keeps the limits, and every page visited and every URL mapped is on the host of the response's own URL. |
| Options.CrawlLimitsSurvive | internal/api/handlers.go:99-213 | The limits a crawl request asks for, or the defaults, reach the crawler through every mapping; an explicit depth 0 survives. |
| Options.MapLimitsSurvive | internal/api/handlers.go:130-213 | The same for a map request. |
| Options.OptionsSurvive | internal/api/handlers.go:200-213 | Every option of a request reaches the payload as it is. |
| Options.WithoutOptions | cmd/worker/main.go:150-173 | A payload without options crawls ten pages, or maps fifty URLs, but at depth 0. |
| Options.AcceptedIff | internal/api/validator.go:20-100 | A request is accepted if and only if its URL parses with scheme http or https and a host, its types are valid in any case, and each option is missing or in its range. |
| Options.ValidTypesOnly | internal/api/validator.go:43-50 | Extract types pass exactly when each lower-cased type is valid. |
| Api.AcceptJob | internal/api/handlers.go:156-198 | Row first, then payload, with the same URL, types and options; a failed push leaves the queued row behind. |
| Api.HandleScrape | internal/api/handlers.go:77-96 | Refused requests change nothing; accepted ones create one row and push one payload. |
| Api.HandleCrawl | internal/api/handlers.go:99-127 | The same, with the crawl's defaults. |
| Api.HandleMap | internal/api/handlers.go:130-154 | The same, with the map's defaults. |
| Api.HandleDeleteJob | internal/api/handlers.go:294-317 | 200 exactly for a queued job, which is cancelled; 404, 409 and 400 change nothing. |
| Api.HandleListJobs | internal/api/handlers.go:240-290 | An unknown status is refused and a refused query is a server error; otherwise the summaries of the clamped page of the store's rows, newest first, with page and limit, and as total the number of jobs of the table whose status has the filter's name. |
| Api.NoFilterListsAll | internal/store/store.go:267-278 | Without a filter the whole table is listed. |
| Api.StatusNames | internal/store/store.go:21-26 | The names of the four statuses. |
| Pagination.ListJobs | internal/store/store.go:247-316 | The window of the filtered list at the 64-bit offset, with its total. |
| Pagination.StoreClampIsNoOp | internal/store/store.go:248-253 | The store's clamping changes nothing after the handler's. |
| Pagination.PagesPartition | internal/store/store.go:247-316 | Pages 1 to ceil(total / limit) put together are the filtered list: nothing lost, repeated or reordered. |
| Pagination.StorePageIsKept | internal/store/store.go:260-278 | A page shows only rows that pass the filter. |
| Pagination.FilterConcat | internal/store/store.go:260-278 | The filter distributes over concatenation, so that what is listed follows from single rows. |
| Pagination.FilterOne | internal/store/store.go:260-278 | A single row is listed exactly when it passes. |
| Pagination.FilterLosesNothing | internal/store/store.go:260-278 | Every row that passes keeps its multiplicity, and no other is listed. |
| Pagination.PageHasRowsIff | internal/store/store.go:247-316 | Exactly those pages have rows; later ones, up to overflow, are empty. |
| Pagination.PageIsTrueIff | internal/store/store.go:254-254 | For every page and limit the answer is the right page if and only if the offset does not overflow, or wraps past the end of the list. |
| Pagination.FarPageReturnsFirst | internal/store/store.go:254-254 | A page number whose offset wraps to 0 and so returns the first page. |

## Left out

- Fetching, Chrome rendering, DNS and private-address checks, redirects, timeouts: a fetch is an arbitrary outcome function, one outcome for each URL of a crawl and for each attempt of a scrape.
- goquery, `net/url`, JSON, pgx and go-redis: assumed to give a tree, a URL record with a fragment, lossless payloads and results, atomic statements, and an atomic list.
- Parsing HTML, resolving a reference and printing elements as HTML are arbitrary functions; so nothing is said about raw_html but that it prints the unstripped body. The document is a value; the clone made of its main content is an object changed in place.
- The rate limiters' inside: a wait is a step that may fail.
- LLM extraction, metrics, logging, health checks, environment parsing, `main`.
- Text other than HTML is made of characters, so the markdown length in a response counts characters where the source counts bytes.
- Clock values, UUID generation and UUID parsing: parameters. A fetch comes with the time it took.
- Liveness under failures: only failure-free runs are shown to drain.
- Worker.ProcessJob: the sequential path without database errors other than that of an ended context, its cancel check evaluated on the table right after its claim. Errors and interference are the subject of the transition system, whose steps it is shown to follow; `Answers.LiveCheckNeverCuts` has the check on the live table.
- Worker.RunScrape: the outcomes of a job's attempts are given beforehand; the attempts do not depend on the time slept.
- Retry.ExecuteWithRetry: a wait is either slept in full or interrupted; the clock itself is not modelled.
- Api.HandleCrawl: fills in defaults on a copy of the request's options, where the source writes into the request; nothing reads the request afterwards.
- Api.HandleMap: as for HandleCrawl.
- Api.HandleListJobs: the order among rows created at the same time is a parameter, fixed for one query.
- Pagination.ListJobs: one snapshot in a fixed total order. The source runs two queries ordered by creation time alone, so a tie, or a job created in between, may move rows between pages.
- Jobs.Store.CreateJob: the identifier is a parameter, and a clash, which a random UUID makes unlikely, is an insert error.
- CrawlTheorems.CrawlIsExact: the graph is that of the site as fetched; a site that answers differently later is a different site. Each URL is fetched at most once in a crawl, so this excludes no run.
