/** The global invariant behind every guarantee of the job protocol. UpdateJob itself has no
    status guard; what protects a row is who may still send an update for it: the one worker
    that claimed the job, or one statement that worker left in limbo, never both. */
module ProtocolInvariant {
  import opened Basics
  import opened Options
  import opened Jobs
  import opened JobQueue
  import opened Protocol

  // ---- The invariant ------------------------------------------------------------------------

  /** Nothing has been recorded for the job yet. */
  predicate Blank(r: Row)
  {
    && r.result.None? && r.errorMsg.None? && r.httpStatus.None? && r.durationMs.None?
    && r.completedAt.None? && r.retriesUsed == 0
  }

  /** Status and duration are those of the result, if there is one. */
  predicate MirrorsResult(r: Row)
  {
    && r.httpStatus == (if r.result.Some? then Some(r.result.value.httpStatus) else None)
    && r.durationMs == (if r.result.Some? then Some(r.result.value.durationMs) else None)
  }

  /** What the columns say, by status: queued and processing rows are blank; completed rows have
      a result, no error and retries_used 0; a failed row has no completion time exactly when it
      was cancelled, and then it has no result, and otherwise retries_used 1. */
  predicate RowConsistent(r: Row)
  {
    MirrorsResult(r) &&
    match r.status
    case Queued => Blank(r)
    case Processing => Blank(r)
    case Completed => r.result.Some? && r.completedAt.Some? && r.errorMsg.None? && r.retriesUsed == 0
    case Failed =>
      && r.errorMsg.Some?
      && if r.completedAt.None? then Blank(r.(errorMsg := None)) && r.errorMsg == Some("cancelled")
         else r.retriesUsed == 1
  }

  /** How often each statement took effect for a job, as a function of its row. */
  predicate Counted(commits: multiset<Event>, id: JobId, claims: nat, updates: nat, cancels: nat)
  {
    && commits[ClaimedEvent(id)] == claims
    && commits[UpdatedEvent(id)] == updates
    && commits[CancelledEvent(id)] == cancels
  }

  predicate HistoryMatches(commits: multiset<Event>, id: JobId, r: Row)
  {
    match r.status
    case Queued => Counted(commits, id, 0, 0, 0)
    case Processing => Counted(commits, id, 1, 0, 0)
    case Completed => Counted(commits, id, 1, 1, 0)
    case Failed => if r.completedAt.None? then Counted(commits, id, 0, 0, 1) else Counted(commits, id, 1, 1, 0)
  }

  ghost predicate RowsInv(rows: Table, commits: multiset<Event>)
  {
    && (forall id :: id in rows ==> RowConsistent(rows[id]) && HistoryMatches(commits, id, rows[id]))
    && (forall id :: id !in rows ==> Counted(commits, id, 0, 0, 0))
  }

  /** A statement only the claimant of a job sends: terminal, and with the columns that go with
      the status. */
  predicate ClaimantsUpdate(s: Stmt)
  {
    && s.Update?
    && ((s.status == Completed && s.result.Some? && s.errorMsg.None? && s.retries == 0)
        || (s.status == Failed && s.errorMsg.Some? && s.retries == 1))
  }

  predicate InProcess(rows: Table, id: JobId)
  {
    id in rows && rows[id].status == Processing
  }

  predicate UpdateIn(l: Option<Stmt>, id: JobId)
  {
    l.Some? && l.value.Update? && l.value.id == id
  }

  /** Only a processing job has an update outstanding, and it has at most one: with its worker
      or in limbo. */
  ghost predicate HoldersInv(rows: Table, workers: seq<Phase>, limbo: seq<Option<Stmt>>)
  {
    && (forall w :: 0 <= w < |workers| && workers[w].Working? ==> InProcess(rows, workers[w].id))
    && (forall w, v :: 0 <= w < v < |workers| && workers[w].Working? && workers[v].Working? ==> workers[w].id != workers[v].id)
    && (forall k :: 0 <= k < |limbo| && limbo[k].Some? && limbo[k].value.Update? ==>
          ClaimantsUpdate(limbo[k].value) && InProcess(rows, limbo[k].value.id))
    && (forall k, w :: 0 <= k < |limbo| && 0 <= w < |workers| && workers[w].Working? ==> !UpdateIn(limbo[k], workers[w].id))
    && (forall k, l :: 0 <= k < l < |limbo| && limbo[k].Some? && limbo[k].value.Update? ==> !UpdateIn(limbo[l], limbo[k].value.id))
  }

  /** No worker has the job, and no update for it is in limbo. */
  ghost predicate NoWorkerOn(workers: seq<Phase>, id: JobId)
  {
    forall w :: 0 <= w < |workers| && workers[w].Working? ==> workers[w].id != id
  }

  ghost predicate NoUpdateFor(limbo: seq<Option<Stmt>>, id: JobId)
  {
    forall k :: 0 <= k < |limbo| ==> !UpdateIn(limbo[k], id)
  }

  ghost predicate CancelsInv(rows: Table, commits: multiset<Event>, cancels: seq<CancelPhase>)
  {
    forall c :: 0 <= c < |cancels| ==>
      match cancels[c]
      case Asked(_) => true
      case Lost(id, existed) => existed ==> id in rows && rows[id].status != Queued
      case Replied(id, reply) => reply == Success ==> commits[CancelledEvent(id)] > 0
  }

  ghost predicate PendingInv(rows: Table, pending: map<JobId, Payload>)
  {
    forall id :: id in pending ==> id in rows && pending[id].jobId == Some(id)
  }

  ghost predicate Inv(s: State)
  {
    && RowsInv(s.rows, s.commits)
    && HoldersInv(s.rows, s.workers, s.limbo)
    && CancelsInv(s.rows, s.commits, s.cancels)
    && PendingInv(s.rows, s.pending)
    && Fifo(s.popped, s.waiting, s.pushed)
  }

  // ---- One statement ------------------------------------------------------------------------

  /** The statements that may take effect: any claim or cancel, and a claimant's update of a job
      in process. */
  predicate Allowed(rows: Table, s: Stmt)
  {
    s.Update? ==> ClaimantsUpdate(s) && InProcess(rows, s.id)
  }

  lemma RunKeepsRows(s: State, stmt: Stmt, at: int)
    requires RowsInv(s.rows, s.commits) && Allowed(s.rows, stmt)
    ensures RowsInv(Run(s, stmt, at).rows, Run(s, stmt, at).commits)
  {
    if Hits(s.rows, stmt) {
      var s' := Run(s, stmt, at);
      var id := stmt.id;
      assert RowConsistent(s.rows[id]) && HistoryMatches(s.commits, id, s.rows[id]);
      assert RowConsistent(s'.rows[id]);
      assert HistoryMatches(s'.commits, id, s'.rows[id]);
      forall i | i in s'.rows && i != id
        ensures RowConsistent(s'.rows[i]) && HistoryMatches(s'.commits, i, s'.rows[i])
      {
        assert s'.rows[i] == s.rows[i];
        assert HistoryMatches(s.commits, i, s.rows[i]);
      }
      forall i | i !in s'.rows ensures Counted(s'.commits, i, 0, 0, 0) {
        assert Counted(s.commits, i, 0, 0, 0);
      }
    }
  }

  /** A statement leaves other rows alone, never queues a row again, and never touches a
      terminal one. */
  lemma RunMoves(s: State, stmt: Stmt, at: int, id: JobId)
    requires Allowed(s.rows, stmt) && id in s.rows
    ensures var s' := Run(s, stmt, at);
            && id in s'.rows
            && (id != stmt.id ==> s'.rows[id] == s.rows[id])
            && (s.rows[id].status != Queued ==> s'.rows[id].status != Queued)
            && (Terminal(s.rows[id].status) ==> s'.rows[id] == s.rows[id])
            && (InProcess(s.rows, id) && !stmt.Update? ==> s'.rows[id] == s.rows[id])
  {
  }

  lemma RunKeepsCancels(s: State, stmt: Stmt, at: int, cancels: seq<CancelPhase>)
    requires Allowed(s.rows, stmt) && CancelsInv(s.rows, s.commits, cancels)
    ensures CancelsInv(Run(s, stmt, at).rows, Run(s, stmt, at).commits, cancels)
  {
  }

  lemma RunKeepsPending(s: State, stmt: Stmt, at: int, pending: map<JobId, Payload>)
    requires PendingInv(s.rows, pending)
    ensures PendingInv(Run(s, stmt, at).rows, pending)
  {
  }

  /** A claim or cancel disturbs no holder; an update does not either, once its sender no longer
      counts as one. */
  lemma RunKeepsHolders(s: State, stmt: Stmt, at: int, workers: seq<Phase>, limbo: seq<Option<Stmt>>)
    requires HoldersInv(s.rows, workers, limbo) && Allowed(s.rows, stmt)
    requires stmt.Update? ==> NoWorkerOn(workers, stmt.id) && NoUpdateFor(limbo, stmt.id)
    ensures HoldersInv(Run(s, stmt, at).rows, workers, limbo)
  {
  }

  // ---- Holders move -------------------------------------------------------------------------

  lemma WorkerLetsGo(rows: Table, workers: seq<Phase>, limbo: seq<Option<Stmt>>, w: nat, p: Phase)
    requires HoldersInv(rows, workers, limbo) && w < |workers| && !p.Working?
    ensures HoldersInv(rows, workers[w := p], limbo)
    ensures workers[w].Working? ==> NoWorkerOn(workers[w := p], workers[w].id) && NoUpdateFor(limbo, workers[w].id)
  {
  }

  lemma WorkerTakes(rows: Table, workers: seq<Phase>, limbo: seq<Option<Stmt>>, w: nat, p: Payload, id: JobId)
    requires HoldersInv(rows, workers, limbo) && w < |workers| && InProcess(rows, id)
    requires NoWorkerOn(workers, id) && NoUpdateFor(limbo, id)
    ensures HoldersInv(rows, workers[w := Working(p, id)], limbo)
  {
  }

  lemma LimboGrows(rows: Table, workers: seq<Phase>, limbo: seq<Option<Stmt>>, stmt: Stmt)
    requires HoldersInv(rows, workers, limbo) && Allowed(rows, stmt)
    requires stmt.Update? ==> NoWorkerOn(workers, stmt.id) && NoUpdateFor(limbo, stmt.id)
    ensures HoldersInv(rows, workers, limbo + [Some(stmt)])
  {
  }

  lemma LimboSettles(rows: Table, workers: seq<Phase>, limbo: seq<Option<Stmt>>, k: nat)
    requires HoldersInv(rows, workers, limbo) && k < |limbo| && limbo[k].Some?
    ensures HoldersInv(rows, workers, limbo[k := None])
    ensures limbo[k].value.Update? ==>
              NoWorkerOn(workers, limbo[k].value.id) && NoUpdateFor(limbo[k := None], limbo[k].value.id)
  {
  }

  /** A queued job has no holder. */
  lemma QueuedHasNoHolder(s: State, id: JobId)
    requires HoldersInv(s.rows, s.workers, s.limbo) && !InProcess(s.rows, id)
    ensures NoWorkerOn(s.workers, id) && NoUpdateFor(s.limbo, id)
  {
  }

  // ---- Steps --------------------------------------------------------------------------------

  lemma NewRowKeepsInv(s: State, id: JobId, row: Row, pending: map<JobId, Payload>)
    requires Inv(s) && id !in s.rows && IsNew(row)
    requires pending == s.pending || (exists p: Payload :: p.jobId == Some(id) && pending == s.pending[id := p])
    ensures Inv(s.(rows := s.rows[id := row], pending := pending))
  {
  }

  lemma ClaimStep(s: State, w: nat, at: int)
    requires Inv(s) && Enabled(s, ClaimOk(w, at))
    ensures Inv(Apply(s, ClaimOk(w, at)))
  {
    var p := s.workers[w].payload;
    var id := p.jobId.value;
    var s' := Run(s, Claim(id), at);
    RunKeepsRows(s, Claim(id), at);
    RunKeepsCancels(s, Claim(id), at, s.cancels);
    RunKeepsPending(s, Claim(id), at, s.pending);
    WorkerLetsGo(s.rows, s.workers, s.limbo, w, Idle);
    if Hits(s.rows, Claim(id)) {
      QueuedHasNoHolder(s, id);
      RunKeepsHolders(s, Claim(id), at, s.workers, s.limbo);
      WorkerTakes(s'.rows, s.workers, s.limbo, w, p, id);
    }
  }

  lemma FinishStep(s: State, w: nat, outcome: JobOutcome, at: int)
    requires Inv(s) && Enabled(s, Finish(w, outcome, at))
    ensures Inv(Apply(s, Finish(w, outcome, at)))
  {
    var stmt := UpdateFor(s.workers[w].id, outcome);
    RunKeepsRows(s, stmt, at);
    RunKeepsCancels(s, stmt, at, s.cancels);
    RunKeepsPending(s, stmt, at, s.pending);
    WorkerLetsGo(s.rows, s.workers, s.limbo, w, Idle);
    RunKeepsHolders(s, stmt, at, s.workers[w := Idle], s.limbo);
  }

  lemma FinishFailStep(s: State, w: nat, outcome: JobOutcome)
    requires Inv(s) && Enabled(s, FinishFail(w, outcome))
    ensures Inv(Apply(s, FinishFail(w, outcome)))
  {
    var stmt := UpdateFor(s.workers[w].id, outcome);
    WorkerLetsGo(s.rows, s.workers, s.limbo, w, Idle);
    LimboGrows(s.rows, s.workers[w := Idle], s.limbo, stmt);
  }

  lemma CommitStep(s: State, k: nat, at: int)
    requires Inv(s) && Enabled(s, Commit(k, at))
    ensures Inv(Apply(s, Commit(k, at)))
  {
    var stmt := s.limbo[k].value;
    RunKeepsRows(s, stmt, at);
    RunKeepsCancels(s, stmt, at, s.cancels);
    RunKeepsPending(s, stmt, at, s.pending);
    LimboSettles(s.rows, s.workers, s.limbo, k);
    RunKeepsHolders(s, stmt, at, s.workers, s.limbo[k := None]);
  }

  lemma CancelUpdateStep(s: State, c: nat, at: int)
    requires Inv(s) && Enabled(s, CancelUpdate(c, at))
    ensures Inv(Apply(s, CancelUpdate(c, at)))
  {
    var id := s.cancels[c].id;
    RunKeepsRows(s, Cancel(id), at);
    RunKeepsCancels(s, Cancel(id), at, s.cancels);
    RunKeepsPending(s, Cancel(id), at, s.pending);
    RunKeepsHolders(s, Cancel(id), at, s.workers, s.limbo);
  }

  lemma WorkerStep(s: State, a: Action)
    requires Inv(s) && Enabled(s, a)
    requires a.Dequeue? || a.Lose? || a.Discard? || a.ClaimFail? || a.Abandon? || a.Crash? || a.Restart?
    ensures Inv(Apply(s, a))
  {
    if a.Dequeue? || a.Lose? {
      PopKeepsFifo(s.popped, s.waiting, s.pushed);
    }
    if !a.Lose? {
      var p := Apply(s, a).workers[a.w];
      WorkerLetsGo(s.rows, s.workers, s.limbo, a.w, p);
      if a.ClaimFail? {
        LimboGrows(s.rows, s.workers[a.w := p], s.limbo, Claim(s.workers[a.w].payload.jobId.value));
      }
    }
  }

  lemma ApiStep(s: State, a: Action)
    requires Inv(s) && Enabled(s, a)
    requires a.Submit? || a.SubmitLost? || a.Enqueue? || a.EnqueueFail? || a.Inject?
    ensures Inv(Apply(s, a))
  {
    match a {
      case Submit(id, payload, row) => NewRowKeepsInv(s, id, row, s.pending[id := payload]);
      case SubmitLost(id, row) => NewRowKeepsInv(s, id, row, s.pending);
      case Enqueue(id) => PushKeepsFifo(s.popped, s.waiting, s.pushed, s.pending[id]);
      case EnqueueFail(id) =>
      case Inject(p) => PushKeepsFifo(s.popped, s.waiting, s.pushed, p);
    }
  }

  lemma OtherStep(s: State, a: Action)
    requires Inv(s) && Enabled(s, a)
    requires a.CancelAsk? || a.CancelUpdateFail? || a.CancelSelect? || a.CancelSelectFail? || a.Drop?
    ensures Inv(Apply(s, a))
  {
    if a.Drop? {
      LimboSettles(s.rows, s.workers, s.limbo, a.k);
    }
    if a.CancelUpdateFail? {
      LimboGrows(s.rows, s.workers, s.limbo, Cancel(s.cancels[a.c].id));
    }
  }

  /** No step gives a job that is past queued to a worker that does not have it. */
  lemma NobodyTakes(s: State, a: Action, id: JobId, w: nat)
    requires Enabled(s, a) && id in s.rows && s.rows[id].status != Queued
    requires w < |s.workers| && w < |Apply(s, a).workers|
    ensures var p := Apply(s, a).workers[w];
            p.Working? && p.id == id ==> p == s.workers[w]
  {
  }

  /** Every step of the system keeps the invariant. */
  lemma StepKeepsInv(s: State, a: Action)
    requires Inv(s) && Enabled(s, a)
    ensures Inv(Apply(s, a))
  {
    match a {
      case ClaimOk(w, at) => ClaimStep(s, w, at);
      case Finish(w, outcome, at) => FinishStep(s, w, outcome, at);
      case FinishFail(w, outcome) => FinishFailStep(s, w, outcome);
      case Commit(k, at) => CommitStep(s, k, at);
      case CancelUpdate(c, at) => CancelUpdateStep(s, c, at);
      case Dequeue(_) => WorkerStep(s, a);
      case Lose => WorkerStep(s, a);
      case Discard(_) => WorkerStep(s, a);
      case ClaimFail(_) => WorkerStep(s, a);
      case Abandon(_) => WorkerStep(s, a);
      case Crash(_) => WorkerStep(s, a);
      case Restart(_) => WorkerStep(s, a);
      case Submit(_, _, _) => ApiStep(s, a);
      case SubmitLost(_, _) => ApiStep(s, a);
      case Enqueue(_) => ApiStep(s, a);
      case EnqueueFail(_) => ApiStep(s, a);
      case Inject(_) => ApiStep(s, a);
      case CancelAsk(_) => OtherStep(s, a);
      case CancelUpdateFail(_) => OtherStep(s, a);
      case CancelSelect(_) => OtherStep(s, a);
      case CancelSelectFail(_) => OtherStep(s, a);
      case Drop(_) => OtherStep(s, a);
    }
  }

  /** So it holds in every state of every run. */
  lemma {:induction false} RunHasInv(trace: seq<State>, acts: seq<Action>, i: nat)
    requires IsRun(trace, acts) && i < |trace|
    ensures Inv(trace[i])
  {
    if i > 0 {
      RunHasInv(trace, acts, i - 1);
      StepKeepsInv(trace[i - 1], acts[i - 1]);
    }
  }
}
