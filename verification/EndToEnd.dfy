/** One job from request to stored result: how the worker and the API follow the protocol, what
    retries_used tells, and which limits an accepted request carries. */
module EndToEnd {
  import opened Basics
  import opened Options
  import opened Jobs
  import opened Links
  import opened CrawlTheorems
  import opened Retry
  import opened Protocol
  import opened ProtocolInvariant
  import opened Payloads
  import opened Worker
  import Api
  import Scrape

  // ---- One job --------------------------------------------------------------------------------

  lemma {:induction false} TriedSomething(outcome: nat -> Scrape.Scraped, interrupted: nat -> bool, n: int, k: nat, last: Tried)
    ensures RetryFrom(outcome, interrupted, n, k, last) == Nothing <==> k >= n && last == Nothing
    decreases n - k
  {
    if k < n && !(k > 0 && interrupted(k)) && outcome(k).Error? {
      TriedSomething(outcome, interrupted, n, k + 1, Failure(outcome(k).partial));
    }
  }

  /** A claimed job makes the worker panic exactly when it is a scrape that may make no attempt
      and the rate limiter lets it through: max_retries 0, which the API accepts. */
  lemma PanicsIff(world: World, p: Payload, defaultRetries: int)
    ensures Running(world, p, defaultRetries, NEVER) == Panicked
       <==> p.kind.Scrape? && Retries(p, defaultRetries) <= 0 && !world.limiterFails(0)
  {
    if p.kind.Scrape? {
      TriedSomething(Attempt(world, p), world.interrupted, Retries(p, defaultRetries), 0, Nothing);
    }
  }

  /** The request that does so is accepted, whatever the worker's own default. */
  lemma AcceptedRequestPanics(lib: Scrape.Lib, id: JobId, req: Request, world: World, defaultRetries: int)
    requires ValidateUrl(lib, req.url).None? && ValidateExtract(lib, req.extract).None?
    requires req.options == Some(NO_OPTIONS.(maxRetries := Some(0)))
    ensures ValidateCrawl(lib, req).None?
    ensures Running(world, ScrapePayload(id, req), defaultRetries, NEVER) == Panicked <==> !world.limiterFails(0)
  {
  }

  /** The worker's method follows the protocol: it discards, claims in vain, or claims and goes
      on as FollowsAfterClaim says, each time with the table the method leaves. */
  lemma ProcessingFollowsProtocol(s: State, w: nat, world: World, claimAt: int, endAt: int)
    requires WorkerIn(s, w, true)
    ensures var p := s.workers[w].payload;
            var after := Processed(s.rows, p, s.defaultRetries, world, claimAt, endAt);
            if p.jobId.None? then Enabled(s, Discard(w)) && Apply(s, Discard(w)).rows == after
            else
              && Enabled(s, ClaimOk(w, claimAt))
              && var s1 := Apply(s, ClaimOk(w, claimAt));
                 if Hits(s.rows, Claim(p.jobId.value))
                 then
                   && w < |s1.workers| && s1.workers[w] == Working(p, p.jobId.value)
                   && s1.rows == Exec(s.rows, Claim(p.jobId.value), claimAt)
                   && s1.defaultRetries == s.defaultRetries
                 else s1.rows == after && w < |s1.workers| && s1.workers[w].Idle?
  {
  }

  /** From the claim on it finishes, abandons the job, or panics: the protocol's Crash, of a
      worker that cannot finish. */
  lemma FollowsAfterClaim(s: State, w: nat, rows: Table, world: World, claimAt: int, endAt: int)
    requires WorkerIn(s, w, false) && s.workers[w].payload.jobId == Some(s.workers[w].id)
    requires Hits(rows, Claim(s.workers[w].id)) && s.rows == Exec(rows, Claim(s.workers[w].id), claimAt)
    ensures var p := s.workers[w].payload;
            var after := Processed(rows, p, s.defaultRetries, world, claimAt, endAt);
            match Running(world, p, s.defaultRetries, NEVER)
            case Ended(o) =>
              if world.ended then Enabled(s, Abandon(w)) && Apply(s, Abandon(w)).rows == after
              else Enabled(s, Finish(w, o, endAt)) && Apply(s, Finish(w, o, endAt)).rows == after
            case GaveUp => Enabled(s, Abandon(w)) && Apply(s, Abandon(w)).rows == after
            case Panicked =>
              !CanFinish(p, s.defaultRetries) && Enabled(s, Crash(w)) && Apply(s, Crash(w)).rows == after
  {
    var p := s.workers[w].payload;
    if p.kind.Scrape? {
      TriedSomething(Attempt(world, p), world.interrupted, Retries(p, s.defaultRetries), 0, Nothing);
    }
  }

  /** What a poller gets once a queued job has been processed: the run's result, or its error;
      of an error's partial result, the duration alone. Other jobs are as before. */
  lemma ProcessedResponse(rows: Table, id: JobId, p: Payload, defaultRetries: int, world: World, claimAt: int, endAt: int)
    requires id in rows && rows[id].status == Queued && RowConsistent(rows[id]) && p.jobId == Some(id)
    requires Running(world, p, defaultRetries, NEVER).Ended? && !world.ended
    ensures var after := Processed(rows, p, defaultRetries, world, claimAt, endAt);
            && after.Keys == rows.Keys
            && (forall other :: other in rows && other != id ==> after[other] == rows[other])
            && var r := JobToResponse(id, after[id]);
               match Running(world, p, defaultRetries, NEVER).outcome
               case Good(result) =>
                 && r.status == Completed && r.results == Some(result) && r.error.None?
                 && r.completed == Some(endAt) && r.durationMs == Some(result.durationMs)
               case Bad(partial, message) =>
                 && r.status == Failed && r.results.None? && r.error == Some(message) && r.completed == Some(endAt)
                 && r.durationMs == (if partial.Some? then Some(partial.value.durationMs) else None)
  {
  }

  // ---- retries_used ---------------------------------------------------------------------------

  /** The attempts a claimed scrape makes. */
  function AttemptsOf(world: World, p: Payload, defaultRetries: int): nat
  {
    AttemptsFrom(Attempt(world, p), world.interrupted, Retries(p, defaultRetries), 0)
  }

  /** The number stored with a scrape's outcome is the number of attempts if and only if the
      first attempt failed and no second one was possible. */
  lemma StoredRetriesCountAttemptsIff(world: World, p: Payload, defaultRetries: int, id: JobId)
    requires p.kind.Scrape? && Running(world, p, defaultRetries, NEVER).Ended?
    ensures UpdateFor(id, Running(world, p, defaultRetries, NEVER).outcome).retries == AttemptsOf(world, p, defaultRetries)
       <==> Attempt(world, p)(0).Error? && OneAllowed(world.interrupted, Retries(p, defaultRetries))
  {
    TriedSomething(Attempt(world, p), world.interrupted, Retries(p, defaultRetries), 0, Nothing);
    RetriesUsedIff(Attempt(world, p), world.interrupted, Retries(p, defaultRetries));
  }

  /** A URL that is refused before any request, because it is invalid or its host is blocked, is
      tried once if and only if no second attempt is possible: like any other error it is
      retried. Without an interruption every attempt is made, and 1 is stored. */
  lemma RefusedIsRetried(world: World, p: Payload, defaultRetries: int, id: JobId)
    requires p.kind.Scrape? && !world.limiterFails(0) && Retries(p, defaultRetries) >= 1
    requires forall i: nat :: world.sites(i)(p.url) == Scrape.Refused
    ensures AttemptsOf(world, p, defaultRetries) == 1 <==> OneAllowed(world.interrupted, Retries(p, defaultRetries))
    ensures (forall i: nat :: !world.interrupted(i)) ==>
      && AttemptsOf(world, p, defaultRetries) == Retries(p, defaultRetries)
      && Running(world, p, defaultRetries, NEVER) == Ended(Bad(None, world.message))
      && UpdateFor(id, Bad(None, world.message)).retries == 1
  {
    var n := Retries(p, defaultRetries);
    assert forall i: nat :: Attempt(world, p)(i) == Scrape.Error(None);
    RetriesUsedIff(Attempt(world, p), world.interrupted, n);
    if forall i: nat :: !world.interrupted(i) {
      AllAttemptsMade(Attempt(world, p), world.interrupted, n, 0);
      AllFail(Attempt(world, p), world.interrupted, n, 0, Nothing);
    }
  }

  lemma {:induction false} AllFail(outcome: nat -> Scrape.Scraped, interrupted: nat -> bool, n: int, k: nat, last: Tried)
    requires k <= n && forall i: nat :: outcome(i) == Scrape.Error(None) && !interrupted(i)
    ensures RetryFrom(outcome, interrupted, n, k, last) == if k < n then Failure(None) else last
    decreases n - k
  {
    if k < n {
      AllFail(outcome, interrupted, n, k + 1, Failure(None));
    }
  }

  /** An accepted request that sets max_retries to 3, for a URL that is refused: three attempts
      are made, and 1 is stored. */
  lemma RefusedThreeTimes(lib: Scrape.Lib, req: Request, id: JobId, world: World, defaultRetries: int)
    requires ValidateUrl(lib, req.url).None? && ValidateExtract(lib, req.extract).None?
    requires req.options == Some(NO_OPTIONS.(maxRetries := Some(3)))
    requires !world.limiterFails(0) && forall i: nat :: world.sites(i)(req.url) == Scrape.Refused && !world.interrupted(i)
    ensures ValidateCrawl(lib, req).None?
    ensures AttemptsOf(world, ScrapePayload(id, req), defaultRetries) == 3
    ensures var r := Running(world, ScrapePayload(id, req), defaultRetries, NEVER);
            r.Ended? && UpdateFor(id, r.outcome).retries == 1
  {
    RefusedIsRetried(world, ScrapePayload(id, req), defaultRetries, id);
  }

  /** A scrape for an accepted request that sets max_retries sleeps at most 1500 ms between its
      attempts, whatever happens to them. */
  lemma AcceptedBackoffIsShort(lib: Scrape.Lib, req: Request, id: JobId, world: World, defaultRetries: int)
    requires ValidateCrawl(lib, req).None? && req.options.Some? && req.options.value.maxRetries.Some?
    ensures TotalSleepNs(AttemptsOf(world, ScrapePayload(id, req), defaultRetries)) <= 1500 * 1_000_000
  {
    ValidatedBackoffIsShort(AttemptsOf(world, ScrapePayload(id, req), defaultRetries));
  }

  /** A scrape whose every fetch fails makes exactly the attempts it may: the requested number
      or, without one, the worker's default. */
  lemma FailingScrapeUsesItsRetries(world: World, p: Payload, defaultRetries: int, requested: Option<int>)
    requires p.options.Some? && p.options.value.maxRetries == requested
    requires forall i: nat :: !world.sites(i)(p.url).Fetched? && !world.interrupted(i)
    ensures var n := if requested.Some? then requested.value else defaultRetries;
            AttemptsOf(world, p, defaultRetries) == if n >= 0 then n else 0
  {
    var n := if requested.Some? then requested.value else defaultRetries;
    assert forall i: nat :: Attempt(world, p)(i).Error?;
    if n >= 0 {
      AllAttemptsMade(Attempt(world, p), world.interrupted, n, 0);
    }
  }

  /** Attempt i is made on the site as it then is: the first one to be fetched is the result. */
  lemma FirstFetchIsResult(world: World, p: Payload, defaultRetries: int, k: nat)
    requires p.kind.Scrape? && !world.limiterFails(0) && k < Retries(p, defaultRetries)
    requires forall i: nat :: !world.interrupted(i)
    requires world.sites(k)(p.url).Fetched? && forall i: nat :: i < k ==> !world.sites(i)(p.url).Fetched?
    ensures AttemptsOf(world, p, defaultRetries) == k + 1
    ensures var f := world.sites(k)(p.url);
            var r := Scrape.Extract(world.lib, p.extract, p.url, f.status, f.doc).(durationMs := f.elapsed);
            Running(world, p, defaultRetries, NEVER) == Ended(Good(r))
  {
    FirstIsReached(world, p, Retries(p, defaultRetries), k, 0, Nothing);
  }

  lemma {:induction false} FirstIsReached(world: World, p: Payload, n: int, k: nat, j: nat, last: Tried)
    requires j <= k < n && forall i: nat :: !world.interrupted(i)
    requires world.sites(k)(p.url).Fetched? && forall i: nat :: i < k ==> !world.sites(i)(p.url).Fetched?
    ensures AttemptsFrom(Attempt(world, p), world.interrupted, n, j) == k + 1
    ensures RetryFrom(Attempt(world, p), world.interrupted, n, j, last) == Tried.Success(Attempt(world, p)(k).result)
    decreases k - j
  {
    if j < k {
      FirstIsReached(world, p, n, k, j + 1, Failure(Attempt(world, p)(j).partial));
    }
  }

  /** A context that has ended before the first iteration, or a cancel check that then answers
      yes, leaves a crawl without pages and a map with its seed alone; and both report the time
      they took. */
  lemma StoppedAtOnce(world: World, p: Payload, defaultRetries: int, cancelled: nat -> bool)
    requires (world.shutdown(0) || cancelled(0)) && Seed(world.lib, p.url).Some?
    ensures var r := Running(world, p, defaultRetries, cancelled);
            && (p.kind.Crawl? ==> r.Ended? && r.outcome.Good? && r.outcome.result.pages == []
                                  && r.outcome.result.durationMs == world.elapsed)
            && (p.kind.Map? ==> r.Ended? && r.outcome.Good? && r.outcome.result.urls == [Seed(world.lib, p.url).value.0]
                                && r.outcome.result.durationMs == world.elapsed)
  {
    var env := EnvOf(world, cancelled);
    assert env.stop(0);
    if p.kind.Crawl? {
      HaltsAtOnce(env, MaxPages(CrawlOptions(p)));
    } else if p.kind.Map? {
      MapStoppedAtOnce(env, p.url, MapOptions(p));
    }
  }

  /** A wait that fails in the first iteration makes the job fail with the error's message, having
      fetched nothing; but a map that needs no fetch never waits. */
  lemma RefusedAtOnce(world: World, p: Payload, defaultRetries: int, cancelled: nat -> bool)
    requires !world.shutdown(0) && !cancelled(0) && world.limiterFails(0) && Seed(world.lib, p.url).Some?
    ensures var r := Running(world, p, defaultRetries, cancelled);
            && (p.kind.Crawl? ==>
                  r.Ended? && r.outcome.Bad? && r.outcome.message == world.message
                  && r.outcome.partial.Some? && r.outcome.partial.value.pages == [])
            && (p.kind.Map? && MaxUrls(MapOptions(p)) > 1 && MaxDepth(MapOptions(p)) > 0 ==>
                  r.Ended? && r.outcome.Bad? && r.outcome.message == world.message
                  && r.outcome.partial.Some? && r.outcome.partial.value.urls == [Seed(world.lib, p.url).value.0])
            && (p.kind.Scrape? ==> r == GaveUp)
  {
    var env := EnvOf(world, cancelled);
    assert !env.stop(0) && env.waitFails(0);
    if p.kind.Crawl? {
      CrawlRefusedAtOnce(env, p.url, CrawlOptions(p));
    } else if p.kind.Map? && MaxUrls(MapOptions(p)) > 1 && MaxDepth(MapOptions(p)) > 0 {
      MapRefusedAtOnce(env, p.url, MapOptions(p));
    }
  }

  /** A crawl that gets to fetch at all fetches the seed first, on the site as it then is. */
  lemma SeedIsFetchedFirst(world: World, p: Payload, cancelled: nat -> bool)
    requires !world.shutdown(0) && !cancelled(0) && !world.limiterFails(0) && Seed(world.lib, p.url).Some?
    ensures var pages := CrawledPages(EnvOf(world, cancelled), p.url, CrawlOptions(p));
            var seed := Seed(world.lib, p.url).value.0;
            && |pages| > 0 && pages[0].url == seed && pages[0].depth == 0
            && (world.sites(0)(seed).Fetched? ==> pages[0].httpStatus == world.sites(0)(seed).status)
            && (world.sites(0)(seed).Failed? ==> pages[0].httpStatus == world.sites(0)(seed).status)
  {
    var env := EnvOf(world, cancelled);
    assert !env.stop(0) && !env.waitFails(0);
    CrawlStartsWithSeed(env, p.url, CrawlOptions(p));
    CrawledPageCarries(env, p.url, CrawlOptions(p), 0);
  }

  // ---- The API follows the protocol -----------------------------------------------------------

  /** acceptJob's table and push history are those after the protocol's Submit, followed by
      Enqueue or, when the push fails, EnqueueFail. */
  lemma SubmissionFollowsProtocol(s: State, kind: Kind, url: string, extract: seq<string>, o: Option<RequestOptions>,
                                  id: JobId, at: int, pushFails: bool)
    requires Inv(s) && id !in s.rows
    ensures var row, p := NewRow(url, extract, ToJobOptions(o), at), PayloadOf(id, kind, url, extract, o);
            && Enabled(s, Submit(id, p, row)) && RowFits(row, p)
            && var s1 := Apply(s, Submit(id, p, row));
               var push := if pushFails then EnqueueFail(id) else Enqueue(id);
               && Enabled(s1, push)
               && var s2 := Apply(s1, push);
                  && s2.rows == s.rows[id := row] && s2.pending == s.pending
                  && s2.pushed == s.pushed + (if pushFails then [] else [p])
  {
    assert id !in s.pending;
    assert s.pending[id := PayloadOf(id, kind, url, extract, o)] - {id} == s.pending;
  }

  function CodeOf(reply: Reply): int
  {
    match reply
    case Success => Api.OK
    case Missing => Api.NOT_FOUND
    case Conflict(_) => Api.CONFLICT
    case Broken => Api.SERVER_ERROR
  }

  /** HandleDeleteJob's table and code are those after the protocol's request, UPDATE and, when
      that hit no row, SELECT. */
  lemma CancellationFollowsProtocol(s: State, id: JobId, at: int)
    ensures var c := |s.cancels|;
            var s1 := Apply(s, CancelAsk(id));
            && Enabled(s1, CancelUpdate(c, at))
            && var s2 := Apply(s1, CancelUpdate(c, at));
               var hit := id in s.rows && s.rows[id].status == Queued;
               && c < |s2.cancels| && (!hit ==> Enabled(s2, CancelSelect(c)))
               && var s3 := if hit then s2 else Apply(s2, CancelSelect(c));
                  && s3.rows == Exec(s.rows, Cancel(id), at)
                  && c < |s3.cancels| && s3.cancels[c].Replied?
                  && CodeOf(s3.cancels[c].reply) ==
                       (if id !in s.rows then Api.NOT_FOUND else if !hit then Api.CONFLICT else Api.OK)
  {
  }

  // ---- Requests -------------------------------------------------------------------------------

  /** The limits of a payload: at most 100 pages, 500 URLs, and depth 5. */
  predicate Bounded(p: Payload)
  {
    match p.kind
    case Crawl => MaxPages(CrawlOptions(p)) <= 100 && MaxDepth(CrawlOptions(p)) <= 5
    case Map => MaxUrls(MapOptions(p)) <= 500 && MaxDepth(MapOptions(p)) <= 5
    case Scrape => true
  }

  /** The payloads the API's three endpoints put into the queue. */
  ghost predicate FromAccepted(lib: Scrape.Lib, p: Payload)
  {
    exists id, req ::
      || (ValidateCrawl(lib, req).None? && p == ScrapePayload(id, req))
      || (ValidateCrawl(lib, req).None? && p == CrawlPayload(id, req))
      || (ValidateMap(lib, req).None? && p == MapPayload(id, req))
  }

  lemma AcceptedIsBounded(lib: Scrape.Lib, p: Payload)
    requires FromAccepted(lib, p)
    ensures Bounded(p)
  {
    var id, req :|
      || (ValidateCrawl(lib, req).None? && p == ScrapePayload(id, req))
      || (ValidateCrawl(lib, req).None? && p == CrawlPayload(id, req))
      || (ValidateMap(lib, req).None? && p == MapPayload(id, req));
    if p.kind.Crawl? {
      CrawlLimitsSurvive(lib, id, req);
    } else if p.kind.Map? {
      MapLimitsSurvive(lib, id, req);
    }
  }

  /** An accepted crawl sees links if and only if the request names links, in whatever case:
      the other way to ask for them, "all", is refused by the validator. */
  lemma AcceptedCrawlSeesLinksIff(lib: Scrape.Lib, id: JobId, req: Request)
    requires ValidateCrawl(lib, req).None? && lib.lower("markdown") == "markdown"
    ensures Scrape.LinksRequested(lib, CrawlTypes(CrawlOptions(CrawlPayload(id, req))))
       <==> exists i :: 0 <= i < |req.extract| && lib.lower(req.extract[i]) == "links"
  {
    var types := if req.extract == [] then ["markdown"] else req.extract;
    CrawlLimitsSurvive(lib, id, req);
    Scrape.LinksRequestedIff(lib, types);
    ValidTypesOnly(lib, req.extract);
    NotValid();
  }

  lemma NotValid()
    ensures "all" !in VALID_TYPES && "markdown" != "links" && "markdown" != "all"
  {
  }

  /** So an accepted crawl that does not name links, such as the default one, fetches the seed
      and nothing else. */
  lemma AcceptedCrawlWithoutLinks(env: Env, id: JobId, req: Request)
    requires ValidateCrawl(env.lib, req).None? && env.lib.lower("markdown") == "markdown"
    requires forall i :: 0 <= i < |req.extract| ==> env.lib.lower(req.extract[i]) != "links"
    requires Seed(env.lib, req.url).Some?
    ensures PageUrls(CrawledPages(env, req.url, CrawlOptions(CrawlPayload(id, req))))
         == if NeverStarts(env) then [] else [Seed(env.lib, req.url).value.0]
  {
    AcceptedCrawlSeesLinksIff(env.lib, id, req);
    CrawlWithoutLinks(env, req.url, CrawlOptions(CrawlPayload(id, req)));
  }
}
