/** What the job protocol guarantees over whole runs, under every interleaving, with repeated
    payloads, crashes, lost messages and statements of unknown fate. */
module ProtocolTheorems {
  import opened Basics
  import opened Options
  import opened Jobs
  import opened JobQueue
  import opened Protocol
  import opened ProtocolInvariant

  /** Each job is claimed at most once and updated at most once, in the whole history of the
      system; a cancel that took effect and a claim exclude each other; and there is never an
      update without the claim. */
  lemma AtMostOnce(trace: seq<State>, acts: seq<Action>, i: nat, id: JobId)
    requires IsRun(trace, acts) && i < |trace|
    ensures var c := trace[i].commits;
            && c[ClaimedEvent(id)] + c[CancelledEvent(id)] <= 1
            && c[UpdatedEvent(id)] <= c[ClaimedEvent(id)]
  {
    RunHasInv(trace, acts, i);
    var s := trace[i];
    if id in s.rows {
      assert HistoryMatches(s.commits, id, s.rows[id]);
    } else {
      assert Counted(s.commits, id, 0, 0, 0);
    }
  }

  // ---- Statements of unknown fate -------------------------------------------------------------

  /** A statement whose caller got an error changes nothing then, and is left in limbo. */
  lemma FailureLeavesStatement(s: State, a: Action)
    requires Enabled(s, a) && (a.ClaimFail? || a.FinishFail? || a.CancelUpdateFail?)
    ensures var stmt := if a.ClaimFail? then Claim(s.workers[a.w].payload.jobId.value)
                        else if a.FinishFail? then UpdateFor(s.workers[a.w].id, a.outcome)
                        else Cancel(s.cancels[a.c].id);
            Apply(s, a).rows == s.rows && Apply(s, a).commits == s.commits && Apply(s, a).limbo == s.limbo + [Some(stmt)]
  {
  }

  /** From limbo it takes effect as if sent now, or never; either way it is gone. */
  lemma LimboTakesEffectOnce(s: State, k: nat, at: int)
    requires k < |s.limbo| && s.limbo[k].Some?
    ensures Enabled(s, Commit(k, at)) && Enabled(s, Drop(k))
    ensures Apply(s, Commit(k, at)).rows == Exec(s.rows, s.limbo[k].value, at)
    ensures Apply(s, Drop(k)).rows == s.rows
    ensures Apply(s, Commit(k, at)).limbo == Apply(s, Drop(k)).limbo == s.limbo[k := None]
  {
  }

  /** What a worker's steps other than claim and update do: it takes the oldest payload, throws
      away one without a job, is gone, or is back with nothing; the table stays as it is, and so
      does the list but for the payload taken. */
  lemma WorkerMoves(s: State, a: Action)
    requires Enabled(s, a) && (a.Dequeue? || a.Discard? || a.Abandon? || a.Crash? || a.Restart?)
    ensures var s', n := Apply(s, a), |s.waiting|;
            && s'.rows == s.rows && s'.limbo == s.limbo && s'.pending == s.pending && s'.commits == s.commits
            && s'.workers == s.workers[a.w := if a.Dequeue? then Holding(s.waiting[n - 1]) else if a.Crash? then Down else Idle]
            && s'.waiting == (if a.Dequeue? then s.waiting[..n - 1] else s.waiting)
  {
  }

  /** Payloads lost, repeated, or never pushed: the table stays as it is. */
  lemma ListMishaps(s: State, a: Action)
    requires Enabled(s, a) && (a.Lose? || a.Inject? || a.EnqueueFail?)
    ensures var s', n := Apply(s, a), |s.waiting|;
            && s'.rows == s.rows && s'.workers == s.workers
            && s'.waiting == (if a.Lose? then s.waiting[..n - 1] else if a.Inject? then [a.payload] + s.waiting else s.waiting)
            && s'.pending == (if a.EnqueueFail? then s.pending - {a.id} else s.pending)
  {
  }

  // ---- One update per job ---------------------------------------------------------------------

  /** The job is past queued and no worker has it. */
  ghost predicate Over(s: State, id: JobId)
  {
    id in s.rows && s.rows[id].status != Queued && NoWorkerOn(s.workers, id)
  }

  lemma EndIsOver(trace: seq<State>, acts: seq<Action>, i: nat, next: nat)
    requires IsRun(trace, acts) && next == i + 1 < |trace| && Ends(acts[i])
    ensures WorkerIn(trace[i], acts[i].w, false)
    ensures Over(trace[next], trace[i].workers[acts[i].w].id)
  {
    var s, a := trace[i], acts[i];
    var id := s.workers[a.w].id;
    RunHasInv(trace, acts, i);
    WorkerLetsGo(s.rows, s.workers, s.limbo, a.w, Idle);
    StepMoves(s, a, id);
  }

  lemma OverStep(trace: seq<State>, acts: seq<Action>, j: nat, next: nat, id: JobId)
    requires IsRun(trace, acts) && next == j + 1 < |trace| && Over(trace[j], id)
    ensures Over(trace[next], id)
  {
    var s, a := trace[j], acts[j];
    RunHasInv(trace, acts, j);
    StepMoves(s, a, id);
    assert |trace[next].workers| == |s.workers|;
    forall w | 0 <= w < |s.workers| && trace[next].workers[w].Working? ensures trace[next].workers[w].id != id {
      NobodyTakes(s, a, id, w);
    }
  }

  lemma {:induction false} OverStays(trace: seq<State>, acts: seq<Action>, i: nat, j: nat, id: JobId)
    requires IsRun(trace, acts) && i <= j < |trace| && Over(trace[i], id)
    ensures Over(trace[j], id)
    decreases j
  {
    if i < j {
      var k := j - 1;
      OverStays(trace, acts, i, k, id);
      OverStep(trace, acts, k, j, id);
      assert Over(trace[j], id);
    }
  }

  /** In any run at most one update is ever sent for a job, counting also those that fail: two
      steps that end a worker's job end different jobs. */
  lemma AtMostOneUpdateSent(trace: seq<State>, acts: seq<Action>, i: nat, j: nat)
    requires IsRun(trace, acts) && i < j < |acts| && Ends(acts[i]) && Ends(acts[j])
    ensures WorkerIn(trace[i], acts[i].w, false) && WorkerIn(trace[j], acts[j].w, false)
    ensures trace[i].workers[acts[i].w].id != trace[j].workers[acts[j].w].id
  {
    EndIsOver(trace, acts, i, i + 1);
    EndIsOver(trace, acts, j, j + 1);
    OverStays(trace, acts, i + 1, j, trace[i].workers[acts[i].w].id);
  }

  /** What one step may do to an existing row. */
  lemma StepMoves(s: State, a: Action, id: JobId)
    requires Inv(s) && Enabled(s, a) && id in s.rows
    ensures var s' := Apply(s, a);
            && id in s'.rows
            && (Terminal(s.rows[id].status) ==> s'.rows[id] == s.rows[id])
            && (s.rows[id].status != Queued ==> s'.rows[id].status != Queued)
  {
    if a.ClaimOk? {
      RunMoves(s, Claim(s.workers[a.w].payload.jobId.value), a.at, id);
    } else if a.Finish? {
      RunMoves(s, UpdateFor(s.workers[a.w].id, a.outcome), a.at, id);
    } else if a.Commit? {
      RunMoves(s, s.limbo[a.k].value, a.at, id);
    } else if a.CancelUpdate? {
      RunMoves(s, Cancel(s.cancels[a.c].id), a.at, id);
    }
  }

  lemma RowMoves(trace: seq<State>, acts: seq<Action>, j: nat, id: JobId)
    requires IsRun(trace, acts) && j < |acts| && id in trace[j].rows
    ensures id in trace[j + 1].rows
    ensures Terminal(trace[j].rows[id].status) ==> trace[j + 1].rows[id] == trace[j].rows[id]
    ensures trace[j].rows[id].status != Queued ==> trace[j + 1].rows[id].status != Queued
  {
    RunHasInv(trace, acts, j);
    StepMoves(trace[j], acts[j], id);
  }

  /** A terminal row never changes again, in any column, although UpdateJob would not refuse
      to change it; rows are never deleted and never queued again. */
  lemma {:induction false} TerminalIsFinal(trace: seq<State>, acts: seq<Action>, i: nat, j: nat, id: JobId)
    requires IsRun(trace, acts) && i <= j < |trace| && id in trace[i].rows
    ensures id in trace[j].rows
    ensures Terminal(trace[i].rows[id].status) ==> trace[j].rows[id] == trace[i].rows[id]
    ensures trace[i].rows[id].status != Queued ==> trace[j].rows[id].status != Queued
    decreases j
  {
    if i < j {
      TerminalIsFinal(trace, acts, i, j - 1, id);
      RowMoves(trace, acts, j - 1, id);
    }
  }

  /** So a poller who saw a terminal response sees the same response forever. */
  lemma PollerSeesFinalResponse(trace: seq<State>, acts: seq<Action>, i: nat, j: nat, id: JobId)
    requires IsRun(trace, acts) && i <= j < |trace| && id in trace[i].rows
    requires Terminal(JobToResponse(id, trace[i].rows[id]).status)
    ensures id in trace[j].rows && JobToResponse(id, trace[j].rows[id]) == JobToResponse(id, trace[i].rows[id])
  {
    TerminalIsFinal(trace, acts, i, j, id);
  }

  /** What a response carries follows from its status, in every reachable state: a completed
      job always has results and no error, a failed one an error and no results, and the others
      nothing yet. A failed job has no completion time exactly when a cancel made it fail.
      retries_used shows only with a completed job, and is always 0. */
  lemma ResponsesAreConsistent(trace: seq<State>, acts: seq<Action>, i: nat, id: JobId)
    requires IsRun(trace, acts) && i < |trace| && id in trace[i].rows
    ensures RowConsistent(trace[i].rows[id])
    ensures var r := JobToResponse(id, trace[i].rows[id]);
            match r.status
            case Completed =>
              && r.results.Some? && r.meta.Some? && r.error.None? && r.completed.Some?
              && r.meta.value.retriesUsed == 0 && r.durationMs == Some(r.results.value.durationMs)
            case Failed =>
              && r.results.None? && r.meta.None? && r.error.Some?
              && (r.completed.None? <==> trace[i].commits[CancelledEvent(id)] == 1)
            case _ => r.results.None? && r.meta.None? && r.error.None? && r.completed.None? && r.durationMs.None?
  {
    RunHasInv(trace, acts, i);
    assert HistoryMatches(trace[i].commits, id, trace[i].rows[id]);
  }

  /** From its claim to its own update a worker's row stays processing, so the cancel check of
      a running crawl or map answers no whether or not its read succeeds: it never cuts a run
      short. */
  lemma ClaimantIsUndisturbed(trace: seq<State>, acts: seq<Action>, i: nat, w: nat, readFails: bool)
    requires IsRun(trace, acts) && i < |trace| && w < |trace[i].workers| && trace[i].workers[w].Working?
    ensures InProcess(trace[i].rows, trace[i].workers[w].id)
    ensures !CancelCheck(trace[i].rows, trace[i].workers[w].id, readFails)
  {
    RunHasInv(trace, acts, i);
  }

  /** An update that may still take effect: a claimant's own, or one left in limbo. */
  ghost predicate Outstanding(s: State, u: Stmt)
  {
    || (exists w: nat, o: JobOutcome :: WorkerIn(s, w, false) && u == UpdateFor(s.workers[w].id, o))
    || (u.Update? && Some(u) in s.limbo)
  }

  lemma OutstandingIsInProcess(s: State, u: Stmt)
    requires Inv(s) && Outstanding(s, u)
    ensures ClaimantsUpdate(u) && InProcess(s.rows, u.id)
  {
    if u.Update? && Some(u) in s.limbo {
      var k :| 0 <= k < |s.limbo| && s.limbo[k] == Some(u);
      assert UpdateIn(s.limbo[k], u.id);
    } else {
      var w: nat, o: JobOutcome :| WorkerIn(s, w, false) && u == UpdateFor(s.workers[w].id, o);
    }
  }

  /** Whatever update takes effect, now or from limbo, overwrites blank columns only: keeping
      old values where the new ones are null comes to plain assignment, and never mixes two
      outcomes. */
  lemma MergeIsAssignment(trace: seq<State>, acts: seq<Action>, i: nat, u: Stmt, at: int)
    requires IsRun(trace, acts) && i < |trace| && Outstanding(trace[i], u)
    ensures u.id in trace[i].rows && Blank(trace[i].rows[u.id])
    ensures var r := Set(trace[i].rows[u.id], u, at);
            && r.status == u.status && r.result == u.result && r.errorMsg == u.errorMsg
            && r.retriesUsed == u.retries && r.completedAt == Some(at)
            && r.httpStatus == (if u.result.Some? then Some(u.result.value.httpStatus) else None)
            && r.durationMs == (if u.result.Some? then Some(u.result.value.durationMs) else None)
  {
    RunHasInv(trace, acts, i);
    OutstandingIsInProcess(trace[i], u);
    assert RowConsistent(trace[i].rows[u.id]);
  }

  // ---- Cancel against claim -----------------------------------------------------------------

  lemma StepKeepsCommits(s: State, a: Action, e: Event)
    requires Enabled(s, a)
    ensures s.commits[e] <= Apply(s, a).commits[e]
  {
  }

  lemma NextKeepsCommits(trace: seq<State>, acts: seq<Action>, j: nat, next: nat, e: Event)
    requires IsRun(trace, acts) && next == j + 1 < |trace|
    ensures trace[j].commits[e] <= trace[next].commits[e]
  {
    StepKeepsCommits(trace[j], acts[j], e);
  }

  /** The history never forgets. */
  lemma {:induction false} CommitsGrow(trace: seq<State>, acts: seq<Action>, i: nat, j: nat, e: Event)
    requires IsRun(trace, acts) && i <= j < |trace|
    ensures trace[i].commits[e] <= trace[j].commits[e]
    decreases j
  {
    if i < j {
      var k := j - 1;
      CommitsGrow(trace, acts, i, k, e);
      NextKeepsCommits(trace, acts, k, j, e);
      assert trace[i].commits[e] <= trace[k].commits[e] <= trace[j].commits[e];
    }
  }

  /** A cancel that was answered with success: no worker ever has the job, before or after, so
      it is never fetched. */
  lemma CancelledIsNeverFetched(trace: seq<State>, acts: seq<Action>, i: nat, j: nat, c: nat, w: nat, id: JobId)
    requires IsRun(trace, acts) && i < |trace| && j < |trace|
    requires c < |trace[i].cancels| && trace[i].cancels[c] == Replied(id, Success)
    requires w < |trace[j].workers|
    ensures !(trace[j].workers[w].Working? && trace[j].workers[w].id == id)
  {
    RunHasInv(trace, acts, i);
    RunHasInv(trace, acts, j);
    var last := if i < j then j else i;
    CommitsGrow(trace, acts, i, last, CancelledEvent(id));
    CommitsGrow(trace, acts, j, last, ClaimedEvent(id));
    AtMostOnce(trace, acts, last, id);
    ClaimantHasClaimed(trace[j], w);
  }

  lemma ClaimantHasClaimed(s: State, w: nat)
    requires Inv(s) && w < |s.workers|
    ensures s.workers[w].Working? ==> s.commits[ClaimedEvent(s.workers[w].id)] == 1
  {
  }

  /** A cancel that lost against an existing job reads, in its separate SELECT, a status that is
      not queued, however much later that runs. */
  lemma LostCancelReadsNonQueued(trace: seq<State>, acts: seq<Action>, i: nat, c: nat)
    requires IsRun(trace, acts) && i < |trace|
    requires c < |trace[i].cancels| && trace[i].cancels[c].Lost? && trace[i].cancels[c].existed
    ensures var after := Apply(trace[i], CancelSelect(c)).cancels[c];
            after.reply.Conflict? && after.reply.status != Queued
  {
    RunHasInv(trace, acts, i);
  }

  ghost predicate Continues(trace: seq<State>, acts: seq<Action>, trace': seq<State>, acts': seq<Action>)
  {
    IsRun(trace', acts') && trace <= trace' && acts <= acts'
  }

  /** Some continuation of the run answers the cancel with "cannot cancel job with status
      queued". */
  ghost predicate CanReadQueued(trace: seq<State>, acts: seq<Action>, c: nat, id: JobId)
  {
    exists trace': seq<State>, acts': seq<Action> ::
      && Continues(trace, acts, trace', acts')
      && c < |trace'[|acts'|].cancels| && trace'[|acts'|].cancels[c] == Replied(id, Conflict(Queued))
  }

  /** From any reachable state, exactly: a cancel that hit no row can still be answered with
      "queued" if and only if there was no row at its UPDATE and there is still none, or one
      that is queued. */
  lemma LostCancelReadsQueuedIff(trace: seq<State>, acts: seq<Action>, c: nat, id: JobId, existed: bool)
    requires IsRun(trace, acts)
    requires c < |trace[|acts|].cancels| && trace[|acts|].cancels[c] == Lost(id, existed)
    ensures CanReadQueued(trace, acts, c, id)
       <==> !existed && (id in trace[|acts|].rows ==> trace[|acts|].rows[id].status == Queued)
  {
    var s := trace[|acts|];
    RunHasInv(trace, acts, |acts|);
    if id in s.rows && s.rows[id].status != Queued {
      forall trace', acts' | Continues(trace, acts, trace', acts')
        ensures PastQueued(trace'[|acts'|], c, id)
      {
        NeverReadsQueued(trace', acts', |acts|, |acts'|, c, id);
      }
    } else if id in s.rows {
      var _, _ := ReadQueued(trace, acts, c, id);
    } else {
      var row := NewRow("", [], JobOptions(None, None, None, None, None, None, None), 0);
      var trace1, acts1 := Then(trace, acts, Submit(id, Payload(Some(id), Kind.Scrape, "", [], None), row));
      var trace2, acts2 := ReadQueued(trace1, acts1, c, id);
      assert Continues(trace, acts, trace2, acts2);
    }
  }

  /** The SELECT of a lost cancel runs while the row is queued. */
  lemma ReadQueued(trace: seq<State>, acts: seq<Action>, c: nat, id: JobId)
    returns (trace': seq<State>, acts': seq<Action>)
    requires IsRun(trace, acts) && c < |trace[|acts|].cancels|
    requires trace[|acts|].cancels[c].Lost? && trace[|acts|].cancels[c].id == id
    requires id in trace[|acts|].rows && trace[|acts|].rows[id].status == Queued
    ensures Continues(trace, acts, trace', acts')
    ensures c < |trace'[|acts'|].cancels| && trace'[|acts'|].cancels[c] == Replied(id, Conflict(Queued))
  {
    trace', acts' := Then(trace, acts, CancelSelect(c));
  }

  /** A run with one more step. */
  lemma Then(trace0: seq<State>, acts0: seq<Action>, a: Action) returns (trace: seq<State>, acts: seq<Action>)
    requires IsRun(trace0, acts0) && Enabled(trace0[|acts0|], a)
    ensures Continues(trace0, acts0, trace, acts) && |acts| == |acts0| + 1
    ensures trace[|acts|] == Apply(trace0[|acts0|], a)
  {
    trace, acts := trace0 + [Apply(trace0[|acts0|], a)], acts0 + [a];
  }

  /** The row is past queued, and the cancel has not been told otherwise. */
  ghost predicate PastQueued(s: State, c: nat, id: JobId)
  {
    && id in s.rows && s.rows[id].status != Queued
    && c < |s.cancels| && !s.cancels[c].Asked? && s.cancels[c].id == id
    && s.cancels[c] != Replied(id, Conflict(Queued))
  }

  lemma PastQueuedStep(trace: seq<State>, acts: seq<Action>, j: nat, next: nat, c: nat, id: JobId)
    requires IsRun(trace, acts) && next == j + 1 < |trace| && PastQueued(trace[j], c, id)
    ensures PastQueued(trace[next], c, id)
  {
    RunHasInv(trace, acts, j);
    StepMoves(trace[j], acts[j], id);
    CancelMoves(trace[j], acts[j], c);
  }

  /** What one step may do to a cancel whose UPDATE has run. */
  lemma CancelMoves(s: State, a: Action, c: nat)
    requires Enabled(s, a) && c < |s.cancels| && !s.cancels[c].Asked?
    ensures var s' := Apply(s, a);
            && c < |s'.cancels|
            && (s'.cancels[c] == s.cancels[c]
                || (a == CancelSelect(c)
                    && s'.cancels[c] == Replied(s.cancels[c].id,
                         if s.cancels[c].id in s.rows then Conflict(s.rows[s.cancels[c].id].status) else Missing))
                || (a == CancelSelectFail(c) && s'.cancels[c] == Replied(s.cancels[c].id, Broken)))
  {
  }

  lemma {:induction false} NeverReadsQueued(trace: seq<State>, acts: seq<Action>, i: nat, j: nat, c: nat, id: JobId)
    requires IsRun(trace, acts) && i <= j < |trace| && PastQueued(trace[i], c, id)
    ensures PastQueued(trace[j], c, id)
    decreases j
  {
    if i < j {
      NeverReadsQueued(trace, acts, i, j - 1, c, id);
      PastQueuedStep(trace, acts, j - 1, j, c, id);
    }
  }

  // ---- The list -----------------------------------------------------------------------------

  /** With any number of producers and consumers the list is first in, first out, and its length
      is the number of pushes less the number of pops. */
  lemma ListIsFifo(trace: seq<State>, acts: seq<Action>, i: nat)
    requires IsRun(trace, acts) && i < |trace|
    ensures var s := trace[i];
            && s.popped + Reverse(s.waiting) == s.pushed
            && |s.waiting| == |s.pushed| - |s.popped|
            && forall n :: 0 <= n < |s.popped| ==> s.popped[n] == s.pushed[n]
  {
    RunHasInv(trace, acts, i);
    FifoMeans(trace[i].popped, trace[i].waiting, trace[i].pushed);
  }
}
