/** Runs without failures drain: every worker step brings the system closer to rest, work that
    is left can always be done, and at rest every job has ended. */
module Drain {
  import opened Basics
  import opened Options
  import opened Jobs
  import opened Protocol
  import opened ProtocolInvariant
  import opened Payloads

  /** No error, crash, shutdown or loss. Repeated and foreign payloads are allowed. */
  predicate FailureFree(a: Action)
  {
    || a.Submit? || a.Enqueue? || a.Inject? || a.Dequeue? || a.Discard? || a.ClaimOk? || a.Finish?
    || a.CancelAsk? || a.CancelUpdate? || a.CancelSelect?
  }

  predicate WorkerAction(a: Action)
  {
    a.Dequeue? || a.Discard? || a.ClaimOk? || a.Finish?
  }

  // ---- The measure --------------------------------------------------------------------------

  /** The worker steps a payload still needs. */
  function Weight(p: Phase): nat
  {
    match p
    case Holding(_) => 2
    case Working(_, _) => 1
    case _ => 0
  }

  function Load(workers: seq<Phase>): nat
  {
    if workers == [] then 0 else Weight(workers[0]) + Load(workers[1..])
  }

  function Measure(s: State): nat
  {
    3 * |s.waiting| + Load(s.workers)
  }

  lemma {:induction false} LoadUpdate(workers: seq<Phase>, w: nat, p: Phase)
    requires w < |workers|
    ensures Load(workers[w := p]) == Load(workers) - Weight(workers[w]) + Weight(p)
  {
    var ws := workers[w := p];
    if w == 0 {
      assert ws[1..] == workers[1..];
    } else {
      assert ws[1..] == workers[1..][w - 1 := p];
      LoadUpdate(workers[1..], w - 1, p);
    }
  }

  lemma {:induction false} NoLoad(workers: seq<Phase>)
    ensures Load(workers) == 0 <==> forall w :: 0 <= w < |workers| ==> Weight(workers[w]) == 0
  {
    if workers != [] {
      NoLoad(workers[1..]);
      assert forall w :: 1 <= w < |workers| ==> workers[w] == workers[1..][w - 1];
    }
  }

  /** Every worker step strictly lowers the measure; of the other steps, a push raises it by 3
      and the rest leave it alone. */
  lemma StepMeasure(s: State, a: Action)
    requires Enabled(s, a) && FailureFree(a)
    ensures WorkerAction(a) ==> Measure(Apply(s, a)) < Measure(s)
    ensures !WorkerAction(a) ==> Measure(Apply(s, a)) == Measure(s) + 3 * (|Apply(s, a).pushed| - |s.pushed|)
    ensures WorkerAction(a) ==> Apply(s, a).pushed == s.pushed
  {
    if WorkerAction(a) {
      LoadUpdate(s.workers, a.w, Apply(s, a).workers[a.w]);
      assert Apply(s, a).workers == s.workers[a.w := Apply(s, a).workers[a.w]];
    }
  }

  ghost predicate FailureFreeRun(trace: seq<State>, acts: seq<Action>)
  {
    IsRun(trace, acts) && forall i :: 0 <= i < |acts| ==> FailureFree(acts[i])
  }

  /** The payloads pushed, three steps for each, less what the measure still promises. */
  function Spent(s: State): int
  {
    3 * |s.pushed| - Measure(s)
  }

  lemma RunMeasure(trace: seq<State>, acts: seq<Action>, j: nat)
    requires FailureFreeRun(trace, acts) && j < |acts|
    ensures Spent(trace[j + 1]) >= Spent(trace[j]) + (if WorkerAction(acts[j]) then 1 else 0)
  {
    StepMeasure(trace[j], acts[j]);
  }

  function WorkerSteps(acts: seq<Action>): nat
  {
    if acts == [] then 0
    else WorkerSteps(acts[..|acts| - 1]) + (if WorkerAction(acts[|acts| - 1]) then 1 else 0)
  }

  lemma {:induction false} StepsAreSpent(trace: seq<State>, acts: seq<Action>, j: nat)
    requires FailureFreeRun(trace, acts) && j <= |acts|
    ensures WorkerSteps(acts[..j]) <= Spent(trace[j])
  {
    if j == 0 {
      NoLoad(trace[0].workers);
    } else {
      StepsAreSpent(trace, acts, j - 1);
      assert acts[..j][..j - 1] == acts[..j - 1];
      RunMeasure(trace, acts, j - 1);
    }
  }

  /** However API and workers interleave, the workers take at most three steps for each payload
      pushed: with finitely many submissions they come to rest. */
  lemma WorkIsBounded(trace: seq<State>, acts: seq<Action>)
    requires FailureFreeRun(trace, acts)
    ensures WorkerSteps(acts) + Measure(trace[|acts|]) <= 3 * |trace[|acts|].pushed|
  {
    StepsAreSpent(trace, acts, |acts|);
    assert acts[..|acts|] == acts;
  }

  // ---- Nothing is forgotten -----------------------------------------------------------------

  predicate Carries(p: Payload, id: JobId) { p.jobId == Some(id) }

  /** The job's payload is still to be pushed, waits, or is held by a worker. */
  ghost predicate UnderWay(s: State, id: JobId)
  {
    || id in s.pending
    || (exists n :: 0 <= n < |s.waiting| && Carries(s.waiting[n], id))
    || (exists w :: 0 <= w < |s.workers| && s.workers[w].Holding? && Carries(s.workers[w].payload, id))
  }

  ghost predicate InHand(s: State, id: JobId)
  {
    exists w :: 0 <= w < |s.workers| && s.workers[w].Working? && s.workers[w].id == id
  }

  /** Without failures every queued job is under way and every processing one in a worker's
      hands; no worker is down. */
  ghost predicate NothingLost(s: State)
  {
    && (forall id :: id in s.rows && s.rows[id].status == Queued ==> UnderWay(s, id))
    && (forall id :: id in s.rows && s.rows[id].status == Processing ==> InHand(s, id))
    && (forall w :: 0 <= w < |s.workers| ==> !s.workers[w].Down?)
  }

  /** A job that is under way stays so unless a worker lets go of a payload for it. */
  lemma WorkerKeepsUnderWay(s: State, s': State, w: nat, id: JobId)
    requires w < |s.workers| && s'.waiting == s.waiting && s'.pending == s.pending
    requires |s'.workers| == |s.workers| && s'.workers == s.workers[w := s'.workers[w]]
    requires UnderWay(s, id)
    requires s.workers[w].Holding? ==> !Carries(s.workers[w].payload, id)
    ensures UnderWay(s', id)
  {
    if v :| 0 <= v < |s.workers| && s.workers[v].Holding? && Carries(s.workers[v].payload, id) {
      assert s'.workers[v] == s.workers[v];
    }
  }

  lemma WorkerKeepsInHand(s: State, s': State, w: nat, id: JobId)
    requires w < |s.workers| && |s'.workers| == |s.workers|
    requires s'.workers == s.workers[w := s'.workers[w]]
    requires InHand(s, id)
    requires s.workers[w].Working? ==> s.workers[w].id != id
    ensures InHand(s', id)
  {
    var v :| 0 <= v < |s.workers| && s.workers[v].Working? && s.workers[v].id == id;
    assert s'.workers[v] == s.workers[v];
  }

  lemma PushKeepsUnderWay(s: State, p: Payload, id: JobId)
    requires UnderWay(s, id)
    ensures UnderWay(Push(s, p), id)
  {
    if n :| 0 <= n < |s.waiting| && Carries(s.waiting[n], id) {
      assert Push(s, p).waiting[n + 1] == s.waiting[n];
    }
  }

  lemma DequeueKeepsUnderWay(s: State, w: nat, id: JobId)
    requires Enabled(s, Dequeue(w)) && UnderWay(s, id)
    ensures UnderWay(Apply(s, Dequeue(w)), id)
  {
    var s' := Apply(s, Dequeue(w));
    var last := |s.waiting| - 1;
    if v :| 0 <= v < |s.workers| && s.workers[v].Holding? && Carries(s.workers[v].payload, id) {
      assert s'.workers[v] == s.workers[v];
    } else if n :| 0 <= n < |s.waiting| && Carries(s.waiting[n], id) {
      if n < last {
        assert s'.waiting[n] == s.waiting[n];
      } else {
        assert s'.workers[w] == Holding(s.waiting[last]);
      }
    }
  }

  lemma EnqueueKeepsUnderWay(s: State, id: JobId, other: JobId)
    requires Inv(s) && Enabled(s, Enqueue(other)) && UnderWay(s, id)
    ensures UnderWay(Apply(s, Enqueue(other)), id)
  {
    var s' := Apply(s, Enqueue(other));
    if id == other {
      assert Carries(s'.waiting[0], id);
    } else {
      PushKeepsUnderWay(s, s.pending[other], id);
      if n :| 0 <= n < |Push(s, s.pending[other]).waiting| && Carries(Push(s, s.pending[other]).waiting[n], id) {
        assert Carries(s'.waiting[n], id);
      }
    }
  }

  lemma ClaimKeepsNothingLost(s: State, w: nat, at: int)
    requires Inv(s) && NothingLost(s) && Enabled(s, ClaimOk(w, at))
    ensures NothingLost(Apply(s, ClaimOk(w, at)))
  {
    var s' := Apply(s, ClaimOk(w, at));
    var mine := s.workers[w].payload.jobId.value;
    forall id | id in s'.rows && s'.rows[id].status == Queued ensures UnderWay(s', id) {
      assert id != mine && s.rows[id].status == Queued;
      WorkerKeepsUnderWay(s, s', w, id);
    }
    forall id | id in s'.rows && s'.rows[id].status == Processing ensures InHand(s', id) {
      if s.rows[id].status == Processing {
        WorkerKeepsInHand(s, s', w, id);
      } else {
        assert s'.workers[w].Working? && s'.workers[w].id == id;
      }
    }
  }

  lemma FinishKeepsNothingLost(s: State, w: nat, outcome: JobOutcome, at: int)
    requires Inv(s) && NothingLost(s) && Enabled(s, Finish(w, outcome, at))
    ensures NothingLost(Apply(s, Finish(w, outcome, at)))
  {
    var s' := Apply(s, Finish(w, outcome, at));
    var mine := s.workers[w].id;
    assert Terminal(s'.rows[mine].status);
    forall id | id in s'.rows && s'.rows[id].status == Queued ensures UnderWay(s', id) {
      assert s'.rows[id] == s.rows[id];
      WorkerKeepsUnderWay(s, s', w, id);
    }
    forall id | id in s'.rows && s'.rows[id].status == Processing ensures InHand(s', id) {
      assert s'.rows[id] == s.rows[id];
      WorkerKeepsInHand(s, s', w, id);
    }
  }

  lemma DiscardKeepsNothingLost(s: State, w: nat)
    requires Inv(s) && NothingLost(s) && Enabled(s, Discard(w))
    ensures NothingLost(Apply(s, Discard(w)))
  {
    var s' := Apply(s, Discard(w));
    forall id | id in s'.rows && s'.rows[id].status == Queued ensures UnderWay(s', id) {
      WorkerKeepsUnderWay(s, s', w, id);
    }
    forall id | id in s'.rows && s'.rows[id].status == Processing ensures InHand(s', id) {
      WorkerKeepsInHand(s, s', w, id);
    }
  }

  lemma DequeueKeepsNothingLost(s: State, w: nat)
    requires Inv(s) && NothingLost(s) && Enabled(s, Dequeue(w))
    ensures NothingLost(Apply(s, Dequeue(w)))
  {
    var s' := Apply(s, Dequeue(w));
    forall id | id in s'.rows && s'.rows[id].status == Queued ensures UnderWay(s', id) {
      DequeueKeepsUnderWay(s, w, id);
    }
    forall id | id in s'.rows && s'.rows[id].status == Processing ensures InHand(s', id) {
      WorkerKeepsInHand(s, s', w, id);
    }
  }

  lemma ApiKeepsUnderWay(s: State, a: Action, id: JobId)
    requires Inv(s) && Enabled(s, a) && FailureFree(a) && !WorkerAction(a) && UnderWay(s, id)
    ensures UnderWay(Apply(s, a), id)
  {
    if a.Enqueue? {
      EnqueueKeepsUnderWay(s, id, a.id);
    } else if a.Inject? {
      PushKeepsUnderWay(s, a.payload, id);
    } else {
      OtherKeepsUnderWay(s, Apply(s, a), id);
    }
  }

  lemma ApiKeepsNothingLost(s: State, a: Action)
    requires Inv(s) && NothingLost(s) && Enabled(s, a) && FailureFree(a) && !WorkerAction(a)
    ensures NothingLost(Apply(s, a))
  {
    var s' := Apply(s, a);
    assert s'.workers == s.workers;
    forall id | id in s'.rows && s'.rows[id].status == Queued ensures UnderWay(s', id) {
      if a.Submit? && a.id == id {
        assert id in s'.pending;
      } else {
        assert s'.rows[id] == s.rows[id];
        ApiKeepsUnderWay(s, a, id);
      }
    }
    forall id | id in s'.rows && s'.rows[id].status == Processing ensures InHand(s', id) {
      assert s'.rows[id] == s.rows[id];
      assert InHand(s, id);
    }
  }

  lemma OtherKeepsUnderWay(s: State, s': State, id: JobId)
    requires s'.waiting == s.waiting && s'.workers == s.workers && s.pending.Keys <= s'.pending.Keys
    requires UnderWay(s, id)
    ensures UnderWay(s', id)
  {
  }

  lemma StepLosesNothing(s: State, a: Action)
    requires Inv(s) && NothingLost(s) && Enabled(s, a) && FailureFree(a)
    ensures NothingLost(Apply(s, a))
  {
    if a.Dequeue? {
      DequeueKeepsNothingLost(s, a.w);
    } else if a.Discard? {
      DiscardKeepsNothingLost(s, a.w);
    } else if a.ClaimOk? {
      ClaimKeepsNothingLost(s, a.w, a.at);
    } else if a.Finish? {
      FinishKeepsNothingLost(s, a.w, a.outcome, a.at);
    } else {
      ApiKeepsNothingLost(s, a);
    }
  }

  lemma {:induction false} RunLosesNothing(trace: seq<State>, acts: seq<Action>, i: nat)
    requires FailureFreeRun(trace, acts) && i < |trace|
    ensures NothingLost(trace[i])
  {
    if i > 0 {
      var s, a := trace[i - 1], acts[i - 1];
      RunLosesNothing(trace, acts, i - 1);
      RunHasInv(trace, acts, i - 1);
      StepLosesNothing(s, a);
    }
  }

  // ---- Rest ---------------------------------------------------------------------------------

  /** Every job a worker has claimed can be finished: none is a scrape without an attempt. */
  ghost predicate AllCanFinish(s: State)
  {
    forall w :: 0 <= w < |s.workers| && s.workers[w].Working? ==> CanFinish(s.workers[w].payload, s.defaultRetries)
  }

  ghost predicate WorkersAtRest(s: State)
  {
    forall a: Action :: WorkerAction(a) ==> !Enabled(s, a)
  }

  /** If every payload that enters allows an attempt, which every crawl and map does and every
      scrape with max_retries at least 1, then every claimed job can be finished. */
  lemma SubmittedCanFinish(trace: seq<State>, acts: seq<Action>, i: nat)
    requires IsRun(trace, acts) && i < |trace|
    requires forall k :: 0 <= k < |acts| && Brings(acts[k]) ==> CanFinish(acts[k].payload, trace[0].defaultRetries)
    ensures AllCanFinish(trace[i])
  {
    var d := trace[0].defaultRetries;
    var ok := (p: Payload) => CanFinish(p, d);
    RunKeepsPayloads(trace, acts, ok, i);
    RunKeepsSettings(trace, acts, i);
    assert forall w :: 0 <= w < |trace[i].workers| ==> PhaseHas(trace[i].workers[w], ok);
  }

  /** The workers are at rest with nothing left exactly when the measure is 0; short of that,
      either some worker can move or some has a job it cannot finish. */
  lemma WorkLeftCanBeDone(s: State)
    requires |s.workers| > 0 && forall w :: 0 <= w < |s.workers| ==> !s.workers[w].Down?
    ensures WorkersAtRest(s) && AllCanFinish(s) <==> Measure(s) == 0
  {
    NoLoad(s.workers);
    if WorkersAtRest(s) && AllCanFinish(s) {
      forall w | 0 <= w < |s.workers| ensures s.workers[w].Idle? {
        assert !Enabled(s, Discard(w)) && !Enabled(s, ClaimOk(w, 0)) && !Enabled(s, Finish(w, Bad(None, ""), 0));
      }
      assert !Enabled(s, Dequeue(0));
    }
  }

  /** Every job is completed or failed. */
  ghost predicate AllEnded(rows: Table)
  {
    forall id :: id in rows ==> Terminal(rows[id].status)
  }

  /** Drained: when no submission is between row and queue and no worker can move, every job is
      completed or failed if and only if no worker has one that it cannot finish. */
  lemma AtRestAllHaveEndedIff(trace: seq<State>, acts: seq<Action>, i: nat)
    requires FailureFreeRun(trace, acts) && i < |trace| && |trace[i].workers| > 0
    requires trace[i].pending == map[] && WorkersAtRest(trace[i])
    ensures AllEnded(trace[i].rows) <==> AllCanFinish(trace[i])
  {
    var s := trace[i];
    RunLosesNothing(trace, acts, i);
    RunHasInv(trace, acts, i);
    WorkLeftCanBeDone(s);
    NoLoad(s.workers);
    if AllCanFinish(s) {
      forall id | id in s.rows ensures Terminal(s.rows[id].status) {
        assert !UnderWay(s, id) && !InHand(s, id);
      }
    } else {
      var w :| 0 <= w < |s.workers| && s.workers[w].Working? && !CanFinish(s.workers[w].payload, s.defaultRetries);
      assert InProcess(s.rows, s.workers[w].id);
    }
  }

  /** From the inputs alone: with at least one worker, no failures, and an attempt allowed to
      every payload, every job has ended once API and workers are quiescent. */
  lemma SystemDrains(trace: seq<State>, acts: seq<Action>, i: nat)
    requires FailureFreeRun(trace, acts) && i < |trace| && |trace[0].workers| > 0
    requires forall k :: 0 <= k < |acts| && Brings(acts[k]) ==> CanFinish(acts[k].payload, trace[0].defaultRetries)
    requires trace[i].pending == map[] && WorkersAtRest(trace[i])
    ensures AllEnded(trace[i].rows) && Measure(trace[i]) == 0
  {
    SubmittedCanFinish(trace, acts, i);
    RunKeepsSettings(trace, acts, i);
    RunLosesNothing(trace, acts, i);
    WorkLeftCanBeDone(trace[i]);
    AtRestAllHaveEndedIff(trace, acts, i);
  }

  // ---- Jobs that cannot be finished -----------------------------------------------------------

  /** The job is in process, whoever has it cannot finish it, and no update for it is on its
      way. */
  ghost predicate Unfinishable(s: State, id: JobId)
  {
    && InProcess(s.rows, id) && NoUpdateFor(s.limbo, id)
    && forall w :: 0 <= w < |s.workers| && s.workers[w].Working? && s.workers[w].id == id
         ==> !CanFinish(s.workers[w].payload, s.defaultRetries)
  }

  lemma RowStaysInProcess(s: State, a: Action, id: JobId)
    requires Inv(s) && Enabled(s, a) && Unfinishable(s, id)
    ensures InProcess(Apply(s, a).rows, id)
  {
    if a.ClaimOk? {
      RunMoves(s, Claim(s.workers[a.w].payload.jobId.value), a.at, id);
    } else if a.Finish? {
      RunMoves(s, UpdateFor(s.workers[a.w].id, a.outcome), a.at, id);
    } else if a.Commit? {
      RunMoves(s, s.limbo[a.k].value, a.at, id);
    } else if a.CancelUpdate? {
      RunMoves(s, Cancel(s.cancels[a.c].id), a.at, id);
    }
  }

  lemma NoUpdateComes(s: State, a: Action, id: JobId)
    requires Enabled(s, a) && Unfinishable(s, id)
    ensures NoUpdateFor(Apply(s, a).limbo, id)
  {
  }

  lemma StillUnfinishable(s: State, a: Action, id: JobId)
    requires Inv(s) && Enabled(s, a) && Unfinishable(s, id)
    ensures Unfinishable(Apply(s, a), id)
  {
    RowStaysInProcess(s, a, id);
    NoUpdateComes(s, a, id);
    StepKeepsSettings(s, a);
    forall w | 0 <= w < |s.workers| && Apply(s, a).workers[w].Working? && Apply(s, a).workers[w].id == id
      ensures !CanFinish(Apply(s, a).workers[w].payload, s.defaultRetries)
    {
      NobodyTakes(s, a, id, w);
    }
  }

  /** A claimed scrape with max_retries 0 never ends: in every later state of every run, with
      the crash that the missing result causes, restarts, repeated payloads, cancels and lost
      statements, its row is processing. */
  lemma {:induction false} ZeroRetriesNeverFinish(trace: seq<State>, acts: seq<Action>, i: nat, j: nat, w: nat)
    requires IsRun(trace, acts) && i <= j < |trace| && w < |trace[i].workers|
    requires trace[i].workers[w].Working? && !CanFinish(trace[i].workers[w].payload, trace[i].defaultRetries)
    ensures Unfinishable(trace[j], trace[i].workers[w].id)
    decreases j
  {
    var id := trace[i].workers[w].id;
    if i == j {
      RunHasInv(trace, acts, i);
    } else {
      ZeroRetriesNeverFinish(trace, acts, i, j - 1, w);
      RunHasInv(trace, acts, j - 1);
      StillUnfinishable(trace[j - 1], acts[j - 1], id);
    }
  }
}
