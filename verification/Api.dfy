/** The API's handlers: submission, cancellation and listing, with their status codes. */
module Api {
  import opened Basics
  import opened Options
  import opened Jobs
  import opened JobQueue
  import Pagination
  import Scrape

  const OK := 200
  const ACCEPTED := 202
  const BAD_REQUEST := 400
  const NOT_FOUND := 404
  const CONFLICT := 409
  const SERVER_ERROR := 500

  // ---- Submission -----------------------------------------------------------------------------

  /** acceptJob: the row first, then the payload. A failed push leaves the queued row behind.
      id is the database's; one that is taken makes the insert fail. */
  method AcceptJob(store: Store, queue: Queue, kind: Kind, url: string, extract: seq<string>,
                   options: Option<RequestOptions>, id: JobId, at: int, pushFails: bool) returns (code: int)
    requires queue.Valid()
    modifies store, queue
    ensures queue.Valid() && queue.popped == old(queue.popped)
    ensures code == if id in old(store.rows) || pushFails then SERVER_ERROR else ACCEPTED
    ensures store.rows == if id in old(store.rows) then old(store.rows)
                          else old(store.rows)[id := NewRow(url, extract, ToJobOptions(options), at)]
    ensures queue.pushed == old(queue.pushed) + if code == ACCEPTED then [PayloadOf(id, kind, url, extract, options)] else []
  {
    var jobOptions := ToJobOptions(options);
    var created := store.CreateJob(url, extract, jobOptions, id, at);
    if !created {
      return SERVER_ERROR;
    }
    var payload := Payload(Some(id), kind, url, extract, Some(ToPayloadOptions(jobOptions)));
    if pushFails {
      return SERVER_ERROR;
    }
    queue.Enqueue(payload);
    return ACCEPTED;
  }

  /** What a submission does, for every kind: refused requests change nothing; of an accepted
      one the row and the payload carry the same URL, extract list and options. */
  twostate predicate Submitted(store: Store, queue: Queue, code: int, refused: bool, id: JobId, at: int,
                               pushFails: bool, p: Payload, options: JobOptions)
    reads store, queue
  {
    && code == (if refused then BAD_REQUEST else if id in old(store.rows) || pushFails then SERVER_ERROR else ACCEPTED)
    && store.rows == (if refused || id in old(store.rows) then old(store.rows)
                      else old(store.rows)[id := NewRow(p.url, p.extract, options, at)])
    && queue.pushed == old(queue.pushed) + (if code == ACCEPTED then [p] else [])
    && queue.popped == old(queue.popped)
  }

  method HandleScrape(store: Store, queue: Queue, lib: Scrape.Lib, req: Request, id: JobId, at: int, pushFails: bool)
    returns (code: int)
    requires queue.Valid()
    modifies store, queue
    ensures queue.Valid()
    ensures Submitted(store, queue, code, ValidateCrawl(lib, req).Some?, id, at, pushFails,
                      ScrapePayload(id, req), ToJobOptions(req.options))
  {
    if ValidateCrawl(lib, req).Some? {
      return BAD_REQUEST;
    }
    var extract := req.extract;
    if |extract| == 0 {
      extract := ["links"];
    }
    code := AcceptJob(store, queue, Kind.Scrape, req.url, extract, req.options, id, at, pushFails);
  }

  method HandleCrawl(store: Store, queue: Queue, lib: Scrape.Lib, req: Request, id: JobId, at: int, pushFails: bool)
    returns (code: int)
    requires queue.Valid()
    modifies store, queue
    ensures queue.Valid()
    ensures Submitted(store, queue, code, ValidateCrawl(lib, req).Some?, id, at, pushFails,
                      CrawlPayload(id, req), ToJobOptions(Some(CrawlDefaults(req.options))))
  {
    if ValidateCrawl(lib, req).Some? {
      return BAD_REQUEST;
    }
    var extract := req.extract;
    if |extract| == 0 {
      extract := ["markdown"];
    }
    var options := if req.options.None? then NO_OPTIONS else req.options.value;
    if options.maxPages.None? {
      options := options.(maxPages := Some(10));
    }
    if options.maxDepth.None? {
      options := options.(maxDepth := Some(2));
    }
    code := AcceptJob(store, queue, Kind.Crawl, req.url, extract, Some(options), id, at, pushFails);
  }

  method HandleMap(store: Store, queue: Queue, lib: Scrape.Lib, req: Request, id: JobId, at: int, pushFails: bool)
    returns (code: int)
    requires queue.Valid()
    modifies store, queue
    ensures queue.Valid()
    ensures Submitted(store, queue, code, ValidateMap(lib, req).Some?, id, at, pushFails,
                      MapPayload(id, req), ToJobOptions(Some(MapDefaults(req.options))))
  {
    if ValidateMap(lib, req).Some? {
      return BAD_REQUEST;
    }
    var options := if req.options.None? then NO_OPTIONS else req.options.value;
    if options.maxUrls.None? {
      options := options.(maxUrls := Some(50));
    }
    if options.maxDepth.None? {
      options := options.(maxDepth := Some(2));
    }
    code := AcceptJob(store, queue, Kind.Map, req.url, ["links"], Some(options), id, at, pushFails);
  }

  // ---- Cancellation ---------------------------------------------------------------------------

  /** id is None when the path holds no UUID. */
  method HandleDeleteJob(store: Store, id: Option<JobId>, at: int) returns (code: int)
    modifies store
    ensures code == if id.None? then BAD_REQUEST
                    else if id.value !in old(store.rows) then NOT_FOUND
                    else if old(store.rows)[id.value].status != Queued then CONFLICT
                    else OK
    ensures store.rows == if code == OK then Exec(old(store.rows), Cancel(id.value), at) else old(store.rows)
  {
    if id.None? {
      return BAD_REQUEST;
    }
    var r := store.CancelJob(id.value, at);
    match r {
      case Cancelled => code := OK;
      case NotFound => code := NOT_FOUND;
      case CannotCancel(_) => code := CONFLICT;
    }
  }

  // ---- Listing --------------------------------------------------------------------------------

  function StatusText(s: Status): string
  {
    match s
    case Queued => "queued"
    case Processing => "processing"
    case Completed => "completed"
    case Failed => "failed"
  }

  /** The store's WHERE clause: no filter text keeps every row. */
  function Keeps(t: Table, filter: string): JobId -> bool
  {
    (id: JobId) => id in t && (filter == "" || StatusText(t[id].status) == filter)
  }

  predicate ValidFilter(filter: string)
  {
    filter == "" || exists s :: StatusText(s) == filter
  }

  /** An order in which ORDER BY created_at DESC may list the table. */
  ghost predicate NewestFirst(t: Table, order: seq<JobId>)
  {
    && (forall id :: id in order <==> id in t)
    && (forall i, j :: 0 <= i < j < |order| ==> order[i] != order[j])
    && (forall i, j :: 0 <= i < j < |order| && order[i] in t && order[j] in t
          ==> t[order[i]].createdAt >= t[order[j]].createdAt)
  }

  datatype Summary = Summary(id: JobId, url: string, status: string, createdAt: int, updatedAt: int)

  datatype ListReply =
    | BadFilter
    | QueryFailed
    | Listed(jobs: seq<Summary>, total: nat, page: int, limit: int)

  function SummaryOf(id: JobId, r: Row): Summary
  {
    Summary(id, r.url, StatusText(r.status), r.createdAt, r.updatedAt)
  }

  /** order stands for the database's choice among rows created at the same time. */
  method HandleListJobs(store: Store, order: seq<JobId>, page: int, limit: int, filter: string)
    returns (reply: ListReply)
    requires NewestFirst(store.rows, order)
    ensures reply.BadFilter? <==> !ValidFilter(filter)
    ensures ValidFilter(filter) ==>
      var p, l := Pagination.ClampPage(page), Pagination.ClampLimit(limit);
      match Pagination.StorePage(order, p - 1, l, Keeps(store.rows, filter))
      case Refused => reply == QueryFailed
      case Listing(ids, total) =>
        && reply.Listed? && reply.total == total && reply.page == p && reply.limit == l
        && total == |Matching(store.rows, filter)|
        && |reply.jobs| == |ids|
        && forall i :: 0 <= i < |ids| ==> ids[i] in store.rows && reply.jobs[i] == SummaryOf(ids[i], store.rows[ids[i]])
  {
    var p, l := page, limit;
    if p < 1 {
      p := 1;
    }
    if l < 1 || l > 100 {
      l := 20;
    }
    if filter != "" {
      var names := ["queued", "processing", "completed", "failed"];
      var valid := false;
      for i := 0 to |names|
        invariant valid <==> exists k :: 0 <= k < i && names[k] == filter
      {
        if names[i] == filter {
          valid := true;
          break;
        }
      }
      FilterNames(names, filter);
      if !valid {
        return BadFilter;
      }
    }
    var keep := Keeps(store.rows, filter);
    var listing := Pagination.ListJobs(order, p, l, keep);
    match listing {
      case Refused =>
        return QueryFailed;
      case Listing(ids, total) =>
        Pagination.StorePageIsKept(order, p, l, keep);
        TotalIs(store.rows, order, filter);
        var jobs := Summaries(store, ids);
        return Listed(jobs, total, p, l);
    }
  }

  /** The jobs of the table whose status has the filter's name; all of them without a filter. */
  ghost function Matching(t: Table, filter: string): set<JobId>
  {
    set id | id in t && (filter == "" || StatusText(t[id].status) == filter)
  }

  /** The rows listed in any order are as many as the table has with the filter's status. */
  lemma TotalIs(t: Table, order: seq<JobId>, filter: string)
    requires NewestFirst(t, order)
    ensures |Pagination.Filter(order, Keeps(t, filter))|
         == |Matching(t, filter)|
  {
    var keep := Keeps(t, filter);
    Pagination.FilterCounts(order, keep);
    assert Pagination.Passing(order, keep) == Matching(t, filter);
  }

  /** Without a filter the whole table is listed, in its order. */
  lemma NoFilterListsAll(t: Table, order: seq<JobId>)
    requires NewestFirst(t, order)
    ensures Pagination.Filter(order, Keeps(t, "")) == order
  {
    Pagination.FilterAll(order, Keeps(t, ""));
  }

  /** The names a filter may have. */
  lemma StatusNames()
    ensures StatusText(Queued) == "queued" && StatusText(Processing) == "processing"
    ensures StatusText(Completed) == "completed" && StatusText(Failed) == "failed"
  {
  }

  /** The numbers behind the codes. */
  lemma Codes()
    ensures OK == 200 && ACCEPTED == 202 && BAD_REQUEST == 400
    ensures NOT_FOUND == 404 && CONFLICT == 409 && SERVER_ERROR == 500
  {
  }

  method Summaries(store: Store, ids: seq<JobId>) returns (jobs: seq<Summary>)
    requires forall i :: 0 <= i < |ids| ==> ids[i] in store.rows
    ensures |jobs| == |ids|
    ensures forall i :: 0 <= i < |ids| ==> jobs[i] == SummaryOf(ids[i], store.rows[ids[i]])
  {
    jobs := [];
    for i := 0 to |ids|
      invariant |jobs| == i
      invariant forall k :: 0 <= k < i ==> jobs[k] == SummaryOf(ids[k], store.rows[ids[k]])
    {
      var r := store.rows[ids[i]];
      jobs := jobs + [Summary(ids[i], r.url, StatusText(r.status), r.createdAt, r.updatedAt)];
    }
  }

  lemma FilterNames(names: seq<string>, filter: string)
    requires names == ["queued", "processing", "completed", "failed"]
    ensures (exists k :: 0 <= k < |names| && names[k] == filter) <==> (exists s :: StatusText(s) == filter)
  {
    assert names[0] == StatusText(Queued) && names[1] == StatusText(Processing);
    assert names[2] == StatusText(Completed) && names[3] == StatusText(Failed);
    if s :| StatusText(s) == filter {
      var k := match s case Queued => 0 case Processing => 1 case Completed => 2 case Failed => 3;
      assert names[k] == filter;
    }
  }
}
