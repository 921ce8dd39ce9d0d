/** What the whole system stores: in every reachable state of every run, each result shown answers
    an accepted request for that very job. */
module Answers {
  import opened Basics
  import opened Discovery
  import opened Options
  import opened Jobs
  import opened Links
  import opened Crawl
  import opened SiteMap
  import opened CrawlTheorems
  import opened Retry
  import opened Protocol
  import opened ProtocolTheorems
  import opened Payloads
  import opened Worker
  import opened EndToEnd
  import Scrape

  // ---- One run --------------------------------------------------------------------------------

  /** A result within the API's limits, with a true page count and no repeated URL. */
  predicate Small(r: Scrape.Result)
  {
    && |r.pages| <= 100 && r.pagesCrawled == |r.pages| && Distinct(PageUrls(r.pages))
    && (forall i :: 0 <= i < |r.pages| ==> r.pages[i].depth <= 5)
    && |r.urls| <= 500 && Distinct(r.urls)
  }

  lemma ScrapedIsSmall(lib: Scrape.Lib, site: Scrape.Site, url: string, types: seq<string>)
    requires Scrape.Scraping(lib, site, url, types).Page?
    ensures var r := Scrape.Scraping(lib, site, url, types).result; Small(r) && r.pages == [] && r.urls == []
  {
  }

  lemma {:induction false} RetryIsSmall(world: World, p: Payload, n: int, k: nat, last: Tried)
    requires !last.Success?
    ensures var t := RetryFrom(Attempt(world, p), world.interrupted, n, k, last);
            t.Success? ==> Small(t.result) && t.result.pages == [] && t.result.urls == []
    decreases n - k
  {
    if k < n && !(k > 0 && world.interrupted(k)) {
      var s := Attempt(world, p)(k);
      if s.Error? {
        RetryIsSmall(world, p, n, k + 1, Failure(s.partial));
      } else {
        ScrapedIsSmall(world.lib, world.sites(k), p.url, p.extract);
      }
    }
  }

  lemma CrawlIsSmall(env: Env, raw: string, o: Links.Options)
    requires MaxPages(o) <= 100 && MaxDepth(o) <= 5 && CrawlSpec(env, raw, o).Done?
    ensures Small(CrawlSpec(env, raw, o).result)
  {
    CrawlIsExact(env, raw, o);
    CrawlAccounting(env, raw, o);
  }

  lemma MapIsSmall(env: Env, raw: string, o: Links.Options)
    requires MaxUrls(o) <= 500 && MapSpec(env, raw, o).Done?
    ensures Small(MapSpec(env, raw, o).result)
  {
    MapIsSound(env, raw, o);
  }

  /** What a bounded payload's run yields is small, also when it is cut short. */
  lemma RunIsSmall(world: World, p: Payload, defaultRetries: int, cancelled: nat -> bool)
    requires Bounded(p)
    ensures var r := Running(world, p, defaultRetries, cancelled);
            r.Ended? && r.outcome.Good? ==> Small(r.outcome.result)
  {
    var env := EnvOf(world, cancelled);
    if p.kind.Crawl? && CrawlSpec(env, p.url, CrawlOptions(p)).Done? {
      CrawlIsSmall(env, p.url, CrawlOptions(p));
    } else if p.kind.Map? && MapSpec(env, p.url, MapOptions(p)).Done? {
      MapIsSmall(env, p.url, MapOptions(p));
    } else if p.kind.Scrape? {
      RetryIsSmall(world, p, Retries(p, defaultRetries), 0, Nothing);
    }
  }

  /** r is what the first successful attempt gave, and that was among the first n. */
  ghost predicate FirstGood(outcome: nat -> Scrape.Scraped, n: int, r: Scrape.Result)
  {
    exists j: nat :: j < n && outcome(j) == Scrape.Page(r) && forall i: nat :: i < j ==> outcome(i).Error?
  }

  lemma {:induction false} SuccessIsFirst(outcome: nat -> Scrape.Scraped, interrupted: nat -> bool, n: int, k: nat, last: Tried)
    requires !last.Success? && forall i: nat :: i < k ==> outcome(i).Error?
    ensures var t := RetryFrom(outcome, interrupted, n, k, last); t.Success? ==> FirstGood(outcome, n, t.result)
    decreases n - k
  {
    if k < n && !(k > 0 && interrupted(k)) && outcome(k).Error? {
      SuccessIsFirst(outcome, interrupted, n, k + 1, Failure(outcome(k).partial));
    }
  }

  /** The result is all that the payload asked for: a crawl is full, or has exactly the URLs
      within its depth limit; a map has the first MaxURLs URLs of the discovery order; a scrape
      is the first attempt that succeeds. */
  ghost predicate Whole(world: World, p: Payload, defaultRetries: int, r: Scrape.Result)
  {
    var env, seed := EnvOf(world, NEVER), Seed(world.lib, p.url);
    match p.kind
    case Crawl =>
      && seed.Some?
      && (|r.pages| == MaxPages(CrawlOptions(p))
          || forall v :: InReach(CrawlGraph(env, seed.value, CrawlOptions(p)), v) <==> v in PageUrls(r.pages))
    case Map =>
      seed.Some? && r.urls == Urls(First(MapGraph(env, seed.value, MapOptions(p)), MaxUrls(MapOptions(p))))
    case Scrape => FirstGood(Attempt(world, p), Retries(p, defaultRetries), r)
  }

  /** Every page visited and every URL mapped is on the host of the given URL. */
  predicate OnHostOf(lib: Scrape.Lib, url: string, r: Scrape.Result)
  {
    && (forall page :: page in r.pages ==> Seed(lib, url).Some? && OnHost(lib, Seed(lib, url).value.1, page.url))
    && (forall u :: u in r.urls ==> Seed(lib, url).Some? && OnHost(lib, Seed(lib, url).value.1, u))
  }

  lemma CrawlAnswers(env: Env, raw: string, o: Links.Options)
    requires CrawlSpec(env, raw, o).Done? && forall i: nat :: !env.stop(i)
    ensures Seed(env.lib, raw).Some?
    ensures var r := CrawlSpec(env, raw, o).result;
            && OnHostOf(env.lib, raw, r)
            && (|r.pages| == MaxPages(o)
                || forall v :: InReach(CrawlGraph(env, Seed(env.lib, raw).value, o), v) <==> v in PageUrls(r.pages))
  {
    var r := CrawlSpec(env, raw, o).result;
    CrawlIsWhole(env, raw, o);
    CrawlIsComplete(env, raw, o);
    forall page | page in r.pages ensures OnHost(env.lib, Seed(env.lib, raw).value.1, page.url) {
      CrawlStaysOnHost(env, raw, o, page);
    }
  }

  lemma MapAnswers(env: Env, raw: string, o: Links.Options)
    requires MapSpec(env, raw, o).Done? && forall i: nat :: !env.stop(i)
    ensures Seed(env.lib, raw).Some?
    ensures var r := MapSpec(env, raw, o).result;
            && OnHostOf(env.lib, raw, r)
            && r.urls == Urls(First(MapGraph(env, Seed(env.lib, raw).value, o), MaxUrls(o)))
  {
    var r := MapSpec(env, raw, o).result;
    MapIsWhole(env, raw, o);
    MapIsSound(env, raw, o);
    forall u | u in r.urls ensures OnHost(env.lib, Seed(env.lib, raw).value.1, u) {
      var i :| 0 <= i < |r.urls| && r.urls[i] == u;
      assert WithinReach(env, Seed(env.lib, raw).value, o, r.urls[i]);
    }
  }

  /** A run that the context's end did not reach before its outcome was stored is whole, and on
      the requested host. */
  lemma RunIsWhole(world: World, p: Payload, defaultRetries: int, r: Scrape.Result)
    requires Coherent(world) && !world.ended && Running(world, p, defaultRetries, NEVER) == Ended(Good(r))
    ensures Whole(world, p, defaultRetries, r) && OnHostOf(world.lib, p.url, r)
  {
    var env := EnvOf(world, NEVER);
    forall i: nat ensures !env.stop(i) {
      assert !world.shutdown(i);
    }
    if p.kind.Crawl? {
      CrawlAnswers(env, p.url, CrawlOptions(p));
    } else if p.kind.Map? {
      MapAnswers(env, p.url, MapOptions(p));
    } else {
      SuccessIsFirst(Attempt(world, p), world.interrupted, Retries(p, defaultRetries), 0, Nothing);
      RetryIsSmall(world, p, Retries(p, defaultRetries), 0, Nothing);
    }
  }

  // ---- The cancel check in a running system ---------------------------------------------------

  /** Up to state n, the run's i-th cancel check finds the system in state at(i), where worker w
      has the job. */
  ghost predicate HeldAt(trace: seq<State>, at: nat -> nat, n: nat, w: nat, p: Payload, id: JobId)
  {
    forall i: nat :: at(i) <= n && at(i) < |trace| && w < |trace[at(i)].workers| && trace[at(i)].workers[w] == Working(p, id)
  }

  /** What the checks of such a run answer. */
  ghost function CheckAlong(trace: seq<State>, at: nat -> nat, id: JobId, readFails: nat -> bool): nat -> bool
  {
    (i: nat) => at(i) < |trace| && CancelCheck(trace[at(i)].rows, id, readFails(i))
  }

  /** Whatever the rest of the system does meanwhile, a job whose cancel check is evaluated on
      the live table, each time in the state the system is then in, runs as if there were no
      check: it is never cut short. */
  lemma LiveCheckNeverCuts(trace: seq<State>, acts: seq<Action>, at: nat -> nat, n: nat, w: nat, p: Payload, id: JobId,
                           world: World, defaultRetries: int)
    requires IsRun(trace, acts) && HeldAt(trace, at, n, w, p, id)
    ensures Running(world, p, defaultRetries, CheckAlong(trace, at, id, world.readFails))
         == Running(world, p, defaultRetries, NEVER)
  {
    var check := CheckAlong(trace, at, id, world.readFails);
    forall i: nat ensures !check(i) {
      ClaimantIsUndisturbed(trace, acts, at(i), w, world.readFails(i));
    }
    CheckNeverCuts(world, p, defaultRetries, check);
  }

  // ---- Every run ------------------------------------------------------------------------------

  /** The outcome that worker w stores at state n is what its job's run yields, with the cancel
      check evaluated in the states since its claim. The context has not ended by then: it is
      the one the update is sent with, so the outcome of a run that its end cut short never
      reaches the database. */
  ghost predicate HonestEnd(lib: Scrape.Lib, trace: seq<State>, n: nat, w: nat, o: JobOutcome)
    requires n < |trace| && WorkerIn(trace[n], w, false)
  {
    var p, id := trace[n].workers[w].payload, trace[n].workers[w].id;
    exists world: World, at: nat -> nat ::
      && world.lib == lib && Coherent(world) && !world.ended && HeldAt(trace, at, n, w, p, id)
      && Running(world, p, trace[n].defaultRetries, CheckAlong(trace, at, id, world.readFails)) == Ended(o)
  }

  /** Submissions come from accepted requests, with the row that belongs to the payload; the
      list repeats only what was pushed; and jobs end with what their runs yield. Everything
      else is as wild as the protocol allows. */
  ghost predicate HonestRun(lib: Scrape.Lib, trace: seq<State>, acts: seq<Action>)
  {
    && IsRun(trace, acts)
    && (forall i :: 0 <= i < |acts| && acts[i].Submit? ==>
          FromAccepted(lib, acts[i].payload) && RowFits(acts[i].row, acts[i].payload))
    && (forall i :: 0 <= i < |acts| && acts[i].Inject? ==> acts[i].payload in trace[i].pushed)
    && (forall i :: 0 <= i < |acts| && Ends(acts[i]) ==>
          WorkerIn(trace[i], acts[i].w, false) && HonestEnd(lib, trace, i, acts[i].w, acts[i].outcome))
  }

  /** The payload of an accepted request for a job of the table. */
  ghost predicate Fits(lib: Scrape.Lib, t: Table, p: Payload)
  {
    FromAccepted(lib, p) && p.jobId.Some? && p.jobId.value in t && RowFits(t[p.jobId.value], p)
  }

  lemma SubmittedFits(lib: Scrape.Lib, trace: seq<State>, acts: seq<Action>, i: nat, n: nat)
    requires HonestRun(lib, trace, acts) && i < n < |trace| && acts[i].Submit?
    ensures Fits(lib, trace[n].rows, acts[i].payload)
  {
    var id := acts[i].id;
    assert Enabled(trace[i], acts[i]);
    assert id in trace[i + 1].rows && trace[i + 1].rows[id] == acts[i].row;
    RunKeepsJob(trace, acts, i + 1, n, id);
  }

  /** Up to state n every payload with a worker fits the table of state n. */
  lemma WorkersFit(lib: Scrape.Lib, trace: seq<State>, acts: seq<Action>, i: nat, n: nat, w: nat)
    requires HonestRun(lib, trace, acts) && i <= n < |trace| && WorkerIn(trace[i], w, false)
    ensures Fits(lib, trace[n].rows, trace[i].workers[w].payload)
    ensures trace[i].workers[w].payload.jobId == Some(trace[i].workers[w].id)
  {
    var t := trace[n].rows;
    var ok := (p: Payload) => Fits(lib, t, p);
    forall k | 0 <= k < i && Brings(acts[k])
      ensures ok(acts[k].payload) || (acts[k].Inject? && acts[k].payload in trace[k].pushed)
    {
      if acts[k].Submit? {
        SubmittedFits(lib, trace, acts, k, n);
      }
    }
    RunKeepsPayloads(trace, acts, ok, i);
    assert PhaseHas(trace[i].workers[w], ok);
  }

  /** Some accepted request's run for the job as the table has it, cut short neither by a cancel
      check nor by the context's end, yields o. */
  ghost predicate Yields(lib: Scrape.Lib, defaultRetries: int, t: Table, id: JobId, o: JobOutcome)
  {
    exists world: World, p: Payload ::
      && world.lib == lib && Coherent(world) && !world.ended
      && Fits(lib, t, p) && p.jobId == Some(id)
      && Running(world, p, defaultRetries, NEVER) == Ended(o)
  }

  ghost predicate RowYielded(lib: Scrape.Lib, d: int, t: Table, id: JobId, r: Row)
  {
    r.status == Completed ==> r.result.Some? && Yields(lib, d, t, id, Good(r.result.value))
  }

  ghost predicate StmtYielded(lib: Scrape.Lib, d: int, t: Table, stmt: Stmt)
  {
    stmt.Update? && stmt.status == Completed ==> stmt.result.Some? && Yields(lib, d, t, stmt.id, Good(stmt.result.value))
  }

  ghost predicate AllYielded(lib: Scrape.Lib, d: int, t: Table, rows: Table, limbo: seq<Option<Stmt>>)
  {
    && (forall id :: id in rows ==> RowYielded(lib, d, t, id, rows[id]))
    && (forall k :: 0 <= k < |limbo| && limbo[k].Some? ==> StmtYielded(lib, d, t, limbo[k].value))
  }

  lemma RunKeepsYielded(lib: Scrape.Lib, d: int, t: Table, s: State, stmt: Stmt, at: int)
    requires AllYielded(lib, d, t, s.rows, s.limbo) && StmtYielded(lib, d, t, stmt)
    ensures AllYielded(lib, d, t, Run(s, stmt, at).rows, s.limbo)
  {
  }

  lemma EndIsYielded(lib: Scrape.Lib, trace: seq<State>, acts: seq<Action>, i: nat, n: nat)
    requires HonestRun(lib, trace, acts) && i < n < |trace| && Ends(acts[i])
    ensures StmtYielded(lib, trace[0].defaultRetries, trace[n].rows,
                        UpdateFor(trace[i].workers[acts[i].w].id, acts[i].outcome))
  {
    var w, o := acts[i].w, acts[i].outcome;
    var p, id := trace[i].workers[w].payload, trace[i].workers[w].id;
    RunKeepsSettings(trace, acts, i);
    WorkersFit(lib, trace, acts, i, n, w);
    assert HonestEnd(lib, trace, i, w, o);
    var world: World, at: nat -> nat :|
      && world.lib == lib && Coherent(world) && !world.ended && HeldAt(trace, at, i, w, p, id)
      && Running(world, p, trace[i].defaultRetries, CheckAlong(trace, at, id, world.readFails)) == Ended(o);
    LiveCheckNeverCuts(trace, acts, at, i, w, p, id, world, trace[i].defaultRetries);
  }

  lemma EndKeepsYielded(lib: Scrape.Lib, d: int, t: Table, s: State, a: Action)
    requires AllYielded(lib, d, t, s.rows, s.limbo) && Enabled(s, a) && Ends(a)
    requires StmtYielded(lib, d, t, UpdateFor(s.workers[a.w].id, a.outcome))
    ensures AllYielded(lib, d, t, Apply(s, a).rows, Apply(s, a).limbo)
  {
    if a.Finish? {
      RunKeepsYielded(lib, d, t, s, UpdateFor(s.workers[a.w].id, a.outcome), a.at);
    }
  }

  lemma CommitKeepsYielded(lib: Scrape.Lib, d: int, t: Table, s: State, a: Action)
    requires AllYielded(lib, d, t, s.rows, s.limbo) && Enabled(s, a) && a.Commit?
    ensures AllYielded(lib, d, t, Apply(s, a).rows, Apply(s, a).limbo)
  {
    RunKeepsYielded(lib, d, t, s, s.limbo[a.k].value, a.at);
  }

  lemma OtherKeepsYielded(lib: Scrape.Lib, d: int, t: Table, s: State, a: Action)
    requires AllYielded(lib, d, t, s.rows, s.limbo) && Enabled(s, a) && !Ends(a) && !a.Commit?
    ensures AllYielded(lib, d, t, Apply(s, a).rows, Apply(s, a).limbo)
  {
    if a.ClaimOk? {
      RunKeepsYielded(lib, d, t, s, Claim(s.workers[a.w].payload.jobId.value), a.at);
    } else if a.CancelUpdate? {
      RunKeepsYielded(lib, d, t, s, Cancel(s.cancels[a.c].id), a.at);
    }
  }

  lemma {:induction false} RunYields(lib: Scrape.Lib, trace: seq<State>, acts: seq<Action>, i: nat, n: nat, d: int, t: Table)
    requires HonestRun(lib, trace, acts) && i <= n < |trace| && d == trace[0].defaultRetries && t == trace[n].rows
    ensures AllYielded(lib, d, t, trace[i].rows, trace[i].limbo)
  {
    if i > 0 {
      RunYields(lib, trace, acts, i - 1, n, d, t);
      NextYields(lib, trace, acts, i - 1, i, n, d, t);
    }
  }

  lemma NextYields(lib: Scrape.Lib, trace: seq<State>, acts: seq<Action>, i: nat, next: nat, n: nat, d: int, t: Table)
    requires HonestRun(lib, trace, acts) && next == i + 1 <= n < |trace|
    requires d == trace[0].defaultRetries && t == trace[n].rows
    requires AllYielded(lib, d, t, trace[i].rows, trace[i].limbo)
    ensures AllYielded(lib, d, t, trace[next].rows, trace[next].limbo)
  {
    var s, a := trace[i], acts[i];
    if Ends(a) {
      EndIsYielded(lib, trace, acts, i, n);
      EndKeepsYielded(lib, d, t, s, a);
    } else if a.Commit? {
      CommitKeepsYielded(lib, d, t, s, a);
    } else {
      OtherKeepsYielded(lib, d, t, s, a);
    }
  }

  /** The result answers an accepted request for the job, as its row has it, in full. */
  ghost predicate IsAnswer(lib: Scrape.Lib, defaultRetries: int, id: JobId, row: Row, r: Scrape.Result)
  {
    exists world: World, p: Payload ::
      && world.lib == lib && FromAccepted(lib, p) && p.jobId == Some(id) && RowFits(row, p)
      && Running(world, p, defaultRetries, NEVER) == Ended(Good(r)) && Whole(world, p, defaultRetries, r)
  }

  lemma YieldAnswers(lib: Scrape.Lib, d: int, t: Table, id: JobId, r: Scrape.Result)
    requires id in t && Yields(lib, d, t, id, Good(r))
    ensures IsAnswer(lib, d, id, t[id], r) && Small(r) && OnHostOf(lib, t[id].url, r)
  {
    var world: World, p: Payload :|
      && world.lib == lib && Coherent(world) && !world.ended
      && Fits(lib, t, p) && p.jobId == Some(id)
      && Running(world, p, d, NEVER) == Ended(Good(r));
    AcceptedIsBounded(lib, p);
    RunIsSmall(world, p, d, NEVER);
    RunIsWhole(world, p, d, r);
  }

  /** In every reachable state of every run, under every interleaving, failure and repetition,
      the results a poller is shown are those of a whole run for an accepted request of that
      very job, with its URL, extract types and options; they keep the API's limits, and every
      page visited and URL mapped is on the host of the response's own URL. */
  lemma EveryResponseIsAnAnswer(lib: Scrape.Lib, trace: seq<State>, acts: seq<Action>, i: nat, id: JobId)
    requires HonestRun(lib, trace, acts) && i < |trace| && id in trace[i].rows
    ensures var row := trace[i].rows[id];
            var response := JobToResponse(id, row);
            response.results.Some? ==>
              && IsAnswer(lib, trace[0].defaultRetries, id, row, response.results.value)
              && Small(response.results.value) && OnHostOf(lib, response.url, response.results.value)
  {
    var r := trace[i].rows[id];
    RunYields(lib, trace, acts, i, i, trace[0].defaultRetries, trace[i].rows);
    if r.status == Completed {
      assert RowYielded(lib, trace[0].defaultRetries, trace[i].rows, id, r);
      YieldAnswers(lib, trace[0].defaultRetries, trace[i].rows, id, r.result.value);
    }
  }
}
