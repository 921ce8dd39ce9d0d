/** The job protocol as a transition system: the jobs table, the Redis list, any number of
    workers, any number of API requests, and every way a step can fail.

    A database error leaves open whether the statement took effect. Such a statement moves to
    limbo, from where it may take effect at any later moment, between any two other steps, or
    never. A crash in the middle of a call is such an error followed by a crash. The queue may
    lose payloads, and may receive any payload at any time: repeated, late or foreign ones. */
module Protocol {
  import opened Basics
  import opened Options
  import opened Jobs
  import Scrape

  /** Where a worker's loop stands: waiting for the queue; with a payload, before its claim;
      claimed, until its own update; or not running. */
  datatype Phase =
    | Idle
    | Holding(payload: Payload)
    | Working(payload: Payload, id: JobId)
    | Down

  datatype Reply = Success | Missing | Conflict(status: Status) | Broken

  /** Where a DELETE request stands: before its UPDATE; after an UPDATE that hit no row and
      before its SELECT (existed: whether there was a row then); or answered. */
  datatype CancelPhase =
    | Asked(id: JobId)
    | Lost(id: JobId, existed: bool)
    | Replied(id: JobId, reply: Reply)

  /** What a job's run amounts to: a result, or an error with perhaps a partial result. */
  datatype JobOutcome =
    | Good(result: Scrape.Result)
    | Bad(partial: Option<Scrape.Result>, message: string)

  /** The statements that took effect, by job. */
  datatype Event = ClaimedEvent(id: JobId) | UpdatedEvent(id: JobId) | CancelledEvent(id: JobId)

  datatype State = State(
    rows: Table,
    pending: map<JobId, Payload>,   // submissions between CreateJob and Enqueue
    waiting: seq<Payload>,          // the Redis list, head first
    workers: seq<Phase>,
    cancels: seq<CancelPhase>,
    limbo: seq<Option<Stmt>>,       // statements whose caller got an error
    defaultRetries: int,
    commits: multiset<Event>,       // history: statements that took effect
    pushed: seq<Payload>,           // history of the list
    popped: seq<Payload>)

  datatype Action =
    // API: submission
    | Submit(id: JobId, payload: Payload, row: Row)
    | SubmitLost(id: JobId, row: Row)
    | Enqueue(id: JobId)
    | EnqueueFail(id: JobId)
    // the list
    | Inject(payload: Payload)
    | Dequeue(w: nat)
    | Lose
    // a worker with a payload
    | Discard(w: nat)
    | ClaimOk(w: nat, at: int)
    | ClaimFail(w: nat)
    // a worker with a claimed job
    | Finish(w: nat, outcome: JobOutcome, at: int)
    | FinishFail(w: nat, outcome: JobOutcome)
    | Abandon(w: nat)
    | Crash(w: nat)
    | Restart(w: nat)
    // API: cancellation
    | CancelAsk(id: JobId)
    | CancelUpdate(c: nat, at: int)
    | CancelUpdateFail(c: nat)
    | CancelSelect(c: nat)
    | CancelSelectFail(c: nat)
    // statements in limbo
    | Commit(k: nat, at: int)
    | Drop(k: nat)

  // ---- The worker's update ------------------------------------------------------------------

  /** handleJobResult: a success stores the whole result; a failure stores the message and, of
      a partial result, only status and duration. calculateRetries gives 0 or 1. */
  function UpdateFor(id: JobId, outcome: JobOutcome): Stmt
  {
    match outcome
    case Good(result) => Update(id, Completed, Some(result), None, 0)
    case Bad(partial, message) =>
      Update(id, Failed,
             if partial.Some?
             then Some(Scrape.EMPTY.(httpStatus := partial.value.httpStatus, durationMs := partial.value.durationMs))
             else None,
             Some(message), 1)
  }

  /** A scrape that may make no attempt has neither result nor error, and handleJobResult
      dereferences the missing result: the worker cannot finish such a job, only crash. */
  predicate CanFinish(p: Payload, defaultRetries: int)
  {
    p.kind == Scrape ==> Retries(p, defaultRetries) >= 1
  }

  /** cancelCheck: true only when the row is read and is not processing. */
  predicate CancelCheck(rows: Table, id: JobId, readFails: bool)
  {
    !readFails && id in rows && rows[id].status != Processing
  }

  // ---- Transitions --------------------------------------------------------------------------

  function EventOf(s: Stmt): Event
  {
    match s
    case Claim(id) => ClaimedEvent(id)
    case Update(id, _, _, _, _) => UpdatedEvent(id)
    case Cancel(id) => CancelledEvent(id)
  }

  /** One statement taking effect, if it hits a row. */
  function Run(s: State, stmt: Stmt, at: int): State
  {
    if Hits(s.rows, stmt)
    then s.(rows := Exec(s.rows, stmt, at), commits := s.commits + multiset{EventOf(stmt)})
    else s
  }

  function SetWorker(s: State, w: nat, p: Phase): State
    requires w < |s.workers|
  {
    s.(workers := s.workers[w := p])
  }

  function SetCancel(s: State, c: nat, p: CancelPhase): State
    requires c < |s.cancels|
  {
    s.(cancels := s.cancels[c := p])
  }

  function ToLimbo(s: State, stmt: Stmt): State
  {
    s.(limbo := s.limbo + [Some(stmt)])
  }

  function Push(s: State, p: Payload): State
  {
    s.(waiting := [p] + s.waiting, pushed := s.pushed + [p])
  }

  function Pop(s: State): State
    requires s.waiting != []
  {
    var n := |s.waiting| - 1;
    s.(waiting := s.waiting[..n], popped := s.popped + [s.waiting[n]])
  }

  predicate WorkerIn(s: State, w: nat, holding: bool)
  {
    w < |s.workers| && if holding then s.workers[w].Holding? else s.workers[w].Working?
  }

  predicate Enabled(s: State, a: Action)
  {
    match a
    case Submit(id, payload, row) => id !in s.rows && payload.jobId == Some(id) && IsNew(row)
    case SubmitLost(id, row) => id !in s.rows && IsNew(row)
    case Enqueue(id) => id in s.pending
    case EnqueueFail(id) => id in s.pending
    case Inject(_) => true
    case Dequeue(w) => w < |s.workers| && s.workers[w].Idle? && s.waiting != []
    case Lose => s.waiting != []
    case Discard(w) => WorkerIn(s, w, true) && s.workers[w].payload.jobId.None?
    case ClaimOk(w, _) => WorkerIn(s, w, true) && s.workers[w].payload.jobId.Some?
    case ClaimFail(w) => WorkerIn(s, w, true) && s.workers[w].payload.jobId.Some?
    case Finish(w, _, _) => WorkerIn(s, w, false) && CanFinish(s.workers[w].payload, s.defaultRetries)
    case FinishFail(w, _) => WorkerIn(s, w, false) && CanFinish(s.workers[w].payload, s.defaultRetries)
    case Abandon(w) => WorkerIn(s, w, false)
    case Crash(w) => w < |s.workers|
    case Restart(w) => w < |s.workers| && s.workers[w].Down?
    case CancelAsk(_) => true
    case CancelUpdate(c, _) => c < |s.cancels| && s.cancels[c].Asked?
    case CancelUpdateFail(c) => c < |s.cancels| && s.cancels[c].Asked?
    case CancelSelect(c) => c < |s.cancels| && s.cancels[c].Lost?
    case CancelSelectFail(c) => c < |s.cancels| && s.cancels[c].Lost?
    case Commit(k, _) => k < |s.limbo| && s.limbo[k].Some?
    case Drop(k) => k < |s.limbo| && s.limbo[k].Some?
  }

  predicate IsNew(row: Row)
  {
    row == NewRow(row.url, row.extract, row.options, row.createdAt)
  }

  function Apply(s: State, a: Action): State
    requires Enabled(s, a)
  {
    match a
    case Submit(id, payload, row) => s.(rows := s.rows[id := row], pending := s.pending[id := payload])
    case SubmitLost(id, row) => s.(rows := s.rows[id := row])
    case Enqueue(id) => Push(s, s.pending[id]).(pending := s.pending - {id})
    case EnqueueFail(id) => s.(pending := s.pending - {id})
    case Inject(p) => Push(s, p)
    case Dequeue(w) => SetWorker(Pop(s), w, Holding(s.waiting[|s.waiting| - 1]))
    case Lose => Pop(s)
    case Discard(w) => SetWorker(s, w, Idle)
    case ClaimOk(w, at) =>
      var p := s.workers[w].payload;
      var id := p.jobId.value;
      SetWorker(Run(s, Claim(id), at), w, if Hits(s.rows, Claim(id)) then Working(p, id) else Idle)
    case ClaimFail(w) => SetWorker(ToLimbo(s, Claim(s.workers[w].payload.jobId.value)), w, Idle)
    case Finish(w, outcome, at) => SetWorker(Run(s, UpdateFor(s.workers[w].id, outcome), at), w, Idle)
    case FinishFail(w, outcome) => SetWorker(ToLimbo(s, UpdateFor(s.workers[w].id, outcome)), w, Idle)
    case Abandon(w) => SetWorker(s, w, Idle)
    case Crash(w) => SetWorker(s, w, Down)
    case Restart(w) => SetWorker(s, w, Idle)
    case CancelAsk(id) => s.(cancels := s.cancels + [Asked(id)])
    case CancelUpdate(c, at) =>
      var id := s.cancels[c].id;
      SetCancel(Run(s, Cancel(id), at), c,
                if Hits(s.rows, Cancel(id)) then Replied(id, Success) else Lost(id, id in s.rows))
    case CancelUpdateFail(c) =>
      SetCancel(ToLimbo(s, Cancel(s.cancels[c].id)), c, Replied(s.cancels[c].id, Broken))
    case CancelSelect(c) =>
      var id := s.cancels[c].id;
      SetCancel(s, c, Replied(id, if id in s.rows then Conflict(s.rows[id].status) else Missing))
    case CancelSelectFail(c) => SetCancel(s, c, Replied(s.cancels[c].id, Broken))
    case Commit(k, at) => Run(s, s.limbo[k].value, at).(limbo := s.limbo[k := None])
    case Drop(k) => s.(limbo := s.limbo[k := None])
  }

  predicate Init(s: State)
  {
    && s.rows == map[] && s.pending == map[] && s.waiting == [] && s.cancels == [] && s.limbo == []
    && s.commits == multiset{} && s.pushed == [] && s.popped == []
    && forall w :: 0 <= w < |s.workers| ==> s.workers[w].Idle?
  }

  /** A worker sends the update for its job, whatever comes of it. */
  predicate Ends(a: Action) { a.Finish? || a.FinishFail? }

  /** trace[i] leads to trace[i + 1] by acts[i]. */
  ghost predicate IsRun(trace: seq<State>, acts: seq<Action>)
  {
    && |trace| == |acts| + 1
    && Init(trace[0])
    && forall i :: 0 <= i < |acts| ==> Enabled(trace[i], acts[i]) && trace[i + 1] == Apply(trace[i], acts[i])
  }
}
