/** The worker's side of one job: claim, dispatch on the kind, run, and store the outcome. */
module Worker {
  import opened Basics
  import opened Options
  import opened Jobs
  import opened JobQueue
  import opened Discovery
  import opened Links
  import opened Crawl
  import opened SiteMap
  import opened Retry
  import opened Protocol
  import Scrape

  /** What the outside does during one run: the site (a scrape may find another one at each
      attempt), when the context ends (shutdown(i): before iteration i of a loop; interrupted(i):
      in the wait before attempt i; ended: before the outcome is stored), which waits of the rate
      limiter fail, which of the cancel check's reads fail, the time taken, and the text of an
      error. */
  datatype World = World(
    lib: Scrape.Lib, sites: nat -> Scrape.Site, shutdown: nat -> bool, interrupted: nat -> bool, ended: bool,
    limiterFails: nat -> bool, readFails: nat -> bool, elapsed: int, message: string)

  /** A context that has ended stays so. */
  ghost predicate Coherent(world: World)
  {
    forall i: nat :: world.shutdown(i) || world.interrupted(i) ==> world.ended
  }

  /** How a claimed job's run ends: with an outcome to store, without one because the rate
      limiter refused a scrape, or in a nil dereference. */
  datatype Ran =
    | Ended(outcome: JobOutcome)
    | GaveUp
    | Panicked

  // ---- The run as a value -------------------------------------------------------------------

  function EnvOf(world: World, cancelled: nat -> bool): Env
  {
    Env(world.lib, world.sites(0), (i: nat) => world.shutdown(i) || cancelled(i), world.limiterFails, world.elapsed)
  }

  function Attempt(world: World, p: Payload): nat -> Scrape.Scraped
  {
    (i: nat) => Scrape.Scraping(world.lib, world.sites(i), p.url, p.extract)
  }

  /** The error return becomes a failed job, with what was gathered before the error. */
  function FromOutcome(o: Outcome, message: string): Ran
  {
    match o
    case BadSeed => Ended(Bad(None, message))
    case RateError(partial) => Ended(Bad(Some(partial), message))
    case Done(result) => Ended(Good(result))
  }

  function FromTried(t: Tried, message: string): Ran
  {
    match t
    case Nothing => Panicked
    case Success(result) => Ended(Good(result))
    case Failure(partial) => Ended(Bad(partial, message))
    case Interrupted => Ended(Bad(None, message))
  }

  /** A claimed job's run, when cancelled tells what the cancel check answers. */
  function Running(world: World, p: Payload, defaultRetries: int, cancelled: nat -> bool): Ran
  {
    match p.kind
    case Crawl => FromOutcome(CrawlSpec(EnvOf(world, cancelled), p.url, CrawlOptions(p)), world.message)
    case Map => FromOutcome(MapSpec(EnvOf(world, cancelled), p.url, MapOptions(p)), world.message)
    case Scrape =>
      if world.limiterFails(0) then GaveUp
      else FromTried(RetryFrom(Attempt(world, p), world.interrupted, Retries(p, defaultRetries), 0, Nothing), world.message)
  }

  const NEVER: nat -> bool := (i: nat) => false

  /** The table after one job has been processed by a worker that nothing disturbs. */
  function Processed(rows: Table, p: Payload, defaultRetries: int, world: World, claimAt: int, endAt: int): Table
  {
    if p.jobId.None? || !Hits(rows, Claim(p.jobId.value)) then rows
    else
      var claimed := Exec(rows, Claim(p.jobId.value), claimAt);
      match Running(world, p, defaultRetries, NEVER)
      case Ended(outcome) => if world.ended then claimed else Exec(claimed, UpdateFor(p.jobId.value, outcome), endAt)
      case _ => claimed
  }

  // ---- The worker as written ----------------------------------------------------------------

  function CalculateRetries(result: Option<Scrape.Result>, err: Option<string>): int
  {
    if err.None? && result.Some? then 0 else 1
  }

  /** The pair of a result and an error, as the run returns them. */
  function Returned(outcome: JobOutcome): (Option<Scrape.Result>, Option<string>)
  {
    match outcome
    case Good(result) => (Some(result), None)
    case Bad(partial, message) => (partial, Some(message))
  }

  /** Stores the outcome, unless the context has ended: then the update fails before it is sent.
      Panics, storing nothing, when there is neither result nor error. */
  method HandleJobResult(store: Store, id: JobId, result: Option<Scrape.Result>, err: Option<string>, ended: bool, at: int)
    returns (panicked: bool)
    modifies store
    ensures panicked <==> result.None? && err.None?
    ensures panicked || ended ==> store.rows == old(store.rows)
    ensures forall o: JobOutcome :: Returned(o) == (result, err) && !ended ==> store.rows == Exec(old(store.rows), UpdateFor(id, o), at)
  {
    var retriesUsed := CalculateRetries(result, err);
    if err.None? {
      if result.None? {
        return true;
      }
      if !ended {
        var _ := store.UpdateJob(id, Completed, result, None, retriesUsed, at);
      }
    } else {
      var partial: Option<Scrape.Result> := None;
      if result.Some? {
        partial := Some(Scrape.EMPTY.(httpStatus := result.value.httpStatus, durationMs := result.value.durationMs));
      }
      if !ended {
        var _ := store.UpdateJob(id, Failed, partial, err, retriesUsed, at);
      }
    }
    panicked := false;
  }

  /** The pair a crawl or map returns. */
  function Pair(o: Outcome, message: string): (Option<Scrape.Result>, Option<string>)
  {
    match o
    case BadSeed => (None, Some(message))
    case RateError(partial) => (Some(partial), Some(message))
    case Done(result) => (Some(result), None)
  }

  /** The scrape branch; gaveUp when the rate limiter refuses. */
  method RunScrape(p: Payload, maxRetries: int, world: World)
    returns (gaveUp: bool, result: Option<Scrape.Result>, err: Option<string>)
    ensures gaveUp <==> world.limiterFails(0)
    ensures !gaveUp ==>
      match FromTried(RetryFrom(Attempt(world, p), world.interrupted, maxRetries, 0, Nothing), world.message)
      case Ended(o) => Returned(o) == (result, err)
      case _ => result.None? && err.None?
  {
    gaveUp, result, err := false, None, None;
    if world.limiterFails(0) {
      return true, None, None;
    }
    var tried, _, _ := ExecuteWithRetry(Attempt(world, p), world.interrupted, maxRetries);
    match tried {
      case Nothing =>
      case Success(r) => result := Some(r);
      case Failure(partial) => result, err := partial, Some(world.message);
      case Interrupted => err := Some(world.message);
    }
  }

  /** cancelCheck, as it reads the store. */
  method CheckCancelled(store: Store, id: JobId, readFails: bool) returns (stop: bool)
    ensures stop == CancelCheck(store.rows, id, readFails)
  {
    if readFails {
      return false;
    }
    var job := store.GetJob(id);
    if job.None? {
      return false;
    }
    return job.value.status != Processing;
  }

  /** The dispatch on the job's kind. */
  method RunJob(p: Payload, defaultRetries: int, world: World, cancelCheck: nat -> bool)
    returns (gaveUp: bool, result: Option<Scrape.Result>, err: Option<string>)
    ensures match Running(world, p, defaultRetries, cancelCheck)
            case Ended(o) => !gaveUp && (result, err) == Returned(o)
            case GaveUp => gaveUp
            case Panicked => !gaveUp && result.None? && err.None?
  {
    gaveUp := false;
    match p.kind {
      case Crawl =>
        var o, _ := CrawlBFS(EnvOf(world, cancelCheck), p.url, CrawlOptions(p));
        result, err := Pair(o, world.message).0, Pair(o, world.message).1;
      case Map =>
        var o, _ := MapBFS(EnvOf(world, cancelCheck), p.url, MapOptions(p));
        result, err := Pair(o, world.message).0, Pair(o, world.message).1;
      case Scrape =>
        gaveUp, result, err := RunScrape(p, Retries(p, defaultRetries), world);
    }
  }

  method ProcessJob(store: Store, p: Payload, defaultRetries: int, world: World, claimAt: int, endAt: int)
    returns (panicked: bool)
    modifies store
    ensures store.rows == Processed(old(store.rows), p, defaultRetries, world, claimAt, endAt)
    ensures panicked <==> p.jobId.Some? && Hits(old(store.rows), Claim(p.jobId.value))
                          && Running(world, p, defaultRetries, NEVER) == Panicked
  {
    panicked := false;
    if p.jobId.None? {
      return;
    }
    var id := p.jobId.value;
    var claimed := store.ClaimJob(id, claimAt);
    if !claimed {
      return;
    }
    var rows, readFails := store.rows, world.readFails;
    var cancelCheck := (i: nat) => CancelCheck(rows, id, readFails(i));
    assert rows[id].status == Processing;
    forall i: nat ensures !cancelCheck(i) {
      assert !CancelCheck(rows, id, readFails(i));
    }
    CheckNeverCuts(world, p, defaultRetries, cancelCheck);
    var gaveUp, result, err := RunJob(p, defaultRetries, world, cancelCheck);
    if gaveUp {
      return;
    }
    panicked := HandleJobResult(store, id, result, err, world.ended, endAt);
  }

  /** One round of the worker's loop: the oldest waiting payload is taken and processed; when
      none waits, nothing happens. */
  method WorkOnce(store: Store, queue: Queue, defaultRetries: int, world: World, claimAt: int, endAt: int)
    returns (panicked: bool)
    requires queue.Valid()
    modifies store, queue
    ensures queue.Valid() && queue.pushed == old(queue.pushed)
    ensures |old(queue.popped)| == |old(queue.pushed)| ==>
      !panicked && store.rows == old(store.rows) && queue.popped == old(queue.popped)
    ensures |old(queue.popped)| < |old(queue.pushed)| ==>
      var p := old(queue.pushed)[|old(queue.popped)|];
      && queue.popped == old(queue.popped) + [p]
      && store.rows == Processed(old(store.rows), p, defaultRetries, world, claimAt, endAt)
  {
    panicked := false;
    var payload := queue.Dequeue();
    if payload.None? {
      return;
    }
    panicked := ProcessJob(store, payload.value, defaultRetries, world, claimAt, endAt);
  }

  // ---- The cancel check -----------------------------------------------------------------------

  lemma HaltSame(e1: Env, e2: Env, n: nat)
    requires e1.waitFails == e2.waitFails && forall i: nat :: e1.stop(i) == e2.stop(i)
    ensures Halt(e1, n) == Halt(e2, n)
  {
  }

  lemma {:induction false} LeaveSame(e1: Env, e2: Env, g: Graph, n: nat, k: nat, h: nat)
    requires e1.waitFails == e2.waitFails && forall i: nat :: e1.stop(i) == e2.stop(i)
    requires k <= h && h == LeaveFrom(e1, g, n, k)
    ensures LeaveFrom(e2, g, n, k) == h
    decreases h - k
  {
    if k < h {
      LeaveSame(e1, e2, g, n, k + 1, h);
    }
  }

  /** A run whose cancel check always answers no is the run without one. */
  lemma CheckNeverCuts(world: World, p: Payload, defaultRetries: int, cancelled: nat -> bool)
    requires forall i: nat :: !cancelled(i)
    ensures Running(world, p, defaultRetries, cancelled) == Running(world, p, defaultRetries, NEVER)
  {
    var e1, e2 := EnvOf(world, cancelled), EnvOf(world, NEVER);
    assert forall i: nat :: e1.stop(i) == e2.stop(i) == world.shutdown(i);
    var seed := Seed(world.lib, p.url);
    if p.kind.Crawl? {
      HaltSame(e1, e2, MaxPages(CrawlOptions(p)));
    }
    if p.kind.Map? && seed.Some? {
      var g := MapGraph(e1, seed.value, MapOptions(p));
      LeaveSame(e1, e2, g, MaxUrls(MapOptions(p)), 0, LeaveFrom(e1, g, MaxUrls(MapOptions(p)), 0));
    }
  }
}
