/** Where payloads go: whatever holds of every payload that enters the system holds of every
    payload in it, pending, waiting, or with a worker. */
module Payloads {
  import opened Basics
  import opened Options
  import opened Jobs
  import opened Protocol

  ghost predicate PhaseHas(p: Phase, ok: Payload -> bool)
  {
    && (p.Holding? || p.Working? ==> ok(p.payload))
    && (p.Working? ==> p.payload.jobId == Some(p.id))
  }

  ghost predicate AllPayloads(s: State, ok: Payload -> bool)
  {
    && (forall id :: id in s.pending ==> ok(s.pending[id]))
    && (forall i :: 0 <= i < |s.waiting| ==> ok(s.waiting[i]))
    && (forall i :: 0 <= i < |s.pushed| ==> ok(s.pushed[i]))
    && (forall w :: 0 <= w < |s.workers| ==> PhaseHas(s.workers[w], ok))
  }

  /** The actions that bring a payload into the system. */
  predicate Brings(a: Action) { a.Submit? || a.Inject? }

  /** Every payload that enters is ok, or repeats one that was pushed before. */
  ghost predicate AllEntering(trace: seq<State>, acts: seq<Action>, n: nat, ok: Payload -> bool)
    requires n <= |acts| && n < |trace|
  {
    forall i :: 0 <= i < n && Brings(acts[i]) ==>
      ok(acts[i].payload) || (acts[i].Inject? && acts[i].payload in trace[i].pushed)
  }

  lemma ListKeepsPayloads(s: State, a: Action, ok: Payload -> bool)
    requires AllPayloads(s, ok) && Enabled(s, a)
    requires Brings(a) ==> ok(a.payload)
    ensures forall id :: id in Apply(s, a).pending ==> ok(Apply(s, a).pending[id])
    ensures forall i :: 0 <= i < |Apply(s, a).waiting| ==> ok(Apply(s, a).waiting[i])
    ensures forall i :: 0 <= i < |Apply(s, a).pushed| ==> ok(Apply(s, a).pushed[i])
  {
    if a.Dequeue? || a.Lose? {
      assert Apply(s, a).waiting == s.waiting[..|s.waiting| - 1];
    } else if !a.Enqueue? && !a.Inject? {
      assert Apply(s, a).waiting == s.waiting;
    }
  }

  lemma WorkerKeepsPayload(s: State, a: Action, ok: Payload -> bool, w: nat)
    requires AllPayloads(s, ok) && Enabled(s, a) && w < |s.workers| && w < |Apply(s, a).workers|
    ensures PhaseHas(Apply(s, a).workers[w], ok)
  {
    assert PhaseHas(s.workers[w], ok);
    if Apply(s, a).workers[w] != s.workers[w] {
      assert a.Dequeue? ==> ok(s.waiting[|s.waiting| - 1]);
    }
  }

  lemma {:induction false} RunKeepsPayloads(trace: seq<State>, acts: seq<Action>, ok: Payload -> bool, i: nat)
    requires IsRun(trace, acts) && i <= |acts| && AllEntering(trace, acts, i, ok)
    ensures AllPayloads(trace[i], ok)
  {
    if i > 0 {
      RunKeepsPayloads(trace, acts, ok, i - 1);
      NextKeepsPayloads(trace, acts, ok, i - 1, i);
    }
  }

  lemma NextKeepsPayloads(trace: seq<State>, acts: seq<Action>, ok: Payload -> bool, i: nat, next: nat)
    requires IsRun(trace, acts) && next == i + 1 <= |acts| && AllEntering(trace, acts, next, ok)
    requires AllPayloads(trace[i], ok)
    ensures AllPayloads(trace[next], ok)
  {
    var s, a := trace[i], acts[i];
    ListKeepsPayloads(s, a, ok);
    StepKeepsSettings(s, a);
    forall w | 0 <= w < |trace[next].workers| ensures PhaseHas(trace[next].workers[w], ok) {
      WorkerKeepsPayload(s, a, ok, w);
    }
  }

  // ---- The columns of a submission ------------------------------------------------------------

  /** The payload carries what the row has. */
  predicate RowFits(r: Row, p: Payload)
  {
    r.url == p.url && r.extract == p.extract && p.options == Some(ToPayloadOptions(r.options))
  }

  /** What a job was submitted with. */
  predicate SameJob(r: Row, r': Row)
  {
    r.url == r'.url && r.extract == r'.extract && r.options == r'.options && r.createdAt == r'.createdAt
  }

  lemma SameJobTwice(a: Row, b: Row, c: Row)
    requires SameJob(a, b) && SameJob(b, c)
    ensures SameJob(a, c)
  {
  }

  lemma StatementKeepsJob(s: State, stmt: Stmt, at: int, id: JobId)
    requires id in s.rows
    ensures id in Run(s, stmt, at).rows && SameJob(s.rows[id], Run(s, stmt, at).rows[id])
  {
  }

  lemma StepKeepsJob(s: State, a: Action, id: JobId)
    requires Enabled(s, a) && id in s.rows
    ensures id in Apply(s, a).rows && SameJob(s.rows[id], Apply(s, a).rows[id])
  {
    if a.ClaimOk? {
      StatementKeepsJob(s, Claim(s.workers[a.w].payload.jobId.value), a.at, id);
    } else if a.Finish? {
      StatementKeepsJob(s, UpdateFor(s.workers[a.w].id, a.outcome), a.at, id);
    } else if a.Commit? {
      StatementKeepsJob(s, s.limbo[a.k].value, a.at, id);
    } else if a.CancelUpdate? {
      StatementKeepsJob(s, Cancel(s.cancels[a.c].id), a.at, id);
    }
  }

  lemma NextKeepsJob(trace: seq<State>, acts: seq<Action>, j: nat, next: nat, id: JobId)
    requires IsRun(trace, acts) && next == j + 1 < |trace| && id in trace[j].rows
    ensures id in trace[next].rows && SameJob(trace[j].rows[id], trace[next].rows[id])
  {
    StepKeepsJob(trace[j], acts[j], id);
  }

  /** No statement changes them. */
  lemma {:induction false} RunKeepsJob(trace: seq<State>, acts: seq<Action>, i: nat, j: nat, id: JobId)
    requires IsRun(trace, acts) && i <= j < |trace| && id in trace[i].rows
    ensures id in trace[j].rows && SameJob(trace[i].rows[id], trace[j].rows[id])
    decreases j
  {
    if i < j {
      var k := j - 1;
      RunKeepsJob(trace, acts, i, k, id);
      NextKeepsJob(trace, acts, k, j, id);
      SameJobTwice(trace[i].rows[id], trace[k].rows[id], trace[j].rows[id]);
    }
  }

  // ---- Settings -------------------------------------------------------------------------------

  lemma StepKeepsSettings(s: State, a: Action)
    requires Enabled(s, a)
    ensures Apply(s, a).defaultRetries == s.defaultRetries && |Apply(s, a).workers| == |s.workers|
  {
  }

  /** The workers' number and their default never change. */
  lemma {:induction false} RunKeepsSettings(trace: seq<State>, acts: seq<Action>, i: nat)
    requires IsRun(trace, acts) && i < |trace|
    ensures trace[i].defaultRetries == trace[0].defaultRetries && |trace[i].workers| == |trace[0].workers|
  {
    if i > 0 {
      RunKeepsSettings(trace, acts, i - 1);
      StepKeepsSettings(trace[i - 1], acts[i - 1]);
    }
  }
}
