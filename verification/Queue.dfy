/** The Redis list between API and workers: pushed at the head, popped from the tail. */
module JobQueue {
  import opened Basics
  import opened Options

  function Reverse<T>(s: seq<T>): seq<T>
  {
    if s == [] then [] else Reverse(s[1..]) + [s[0]]
  }

  /** First in, first out: what was popped, followed by what waits read from tail to head, is
      what was pushed. */
  predicate Fifo<T(==)>(popped: seq<T>, waiting: seq<T>, pushed: seq<T>)
  {
    popped + Reverse(waiting) == pushed
  }

  lemma PushKeepsFifo<T>(popped: seq<T>, waiting: seq<T>, pushed: seq<T>, x: T)
    requires Fifo(popped, waiting, pushed)
    ensures Fifo(popped, [x] + waiting, pushed + [x])
  {
  }

  lemma {:induction false} ReverseLast<T>(s: seq<T>)
    requires s != []
    ensures Reverse(s) == [s[|s| - 1]] + Reverse(s[..|s| - 1])
  {
    if |s| > 1 {
      ReverseLast(s[1..]);
      assert s[1..][..|s| - 2] == s[..|s| - 1][1..];
      var mid := Reverse(s[..|s| - 1][1..]);
      assert Reverse(s) == ([s[|s| - 1]] + mid) + [s[0]];
      assert Reverse(s[..|s| - 1]) == mid + [s[0]];
    } else {
      assert s[1..] == [] && s[..0] == [];
    }
  }

  lemma PopKeepsFifo<T>(popped: seq<T>, waiting: seq<T>, pushed: seq<T>)
    requires Fifo(popped, waiting, pushed) && waiting != []
    ensures Fifo(popped + [waiting[|waiting| - 1]], waiting[..|waiting| - 1], pushed)
  {
    ReverseLast(waiting);
    var x := waiting[|waiting| - 1];
    assert popped + ([x] + Reverse(waiting[..|waiting| - 1])) == popped + [x] + Reverse(waiting[..|waiting| - 1]);
  }

  lemma {:induction false} ReverseLength<T>(s: seq<T>)
    ensures |Reverse(s)| == |s|
  {
    if s != [] {
      ReverseLength(s[1..]);
    }
  }

  /** The payload popped n-th is the payload pushed n-th, and the depth is the difference. */
  lemma FifoMeans<T>(popped: seq<T>, waiting: seq<T>, pushed: seq<T>)
    requires Fifo(popped, waiting, pushed)
    ensures |waiting| == |pushed| - |popped|
    ensures forall n :: 0 <= n < |popped| ==> popped[n] == pushed[n]
  {
    ReverseLength(waiting);
  }

  class Queue {
    var list: seq<Payload>
    ghost var pushed: seq<Payload>
    ghost var popped: seq<Payload>

    ghost predicate Valid()
      reads this
    {
      Fifo(popped, list, pushed)
    }

    constructor ()
      ensures Valid() && pushed == popped == []
    {
      list, pushed, popped := [], [], [];
    }

    /** LPUSH. */
    method Enqueue(payload: Payload)
      requires Valid()
      modifies this
      ensures Valid()
      ensures pushed == old(pushed) + [payload] && popped == old(popped)
    {
      PushKeepsFifo(popped, list, pushed, payload);
      list := [payload] + list;
      pushed := pushed + [payload];
    }

    /** BRPOP: the oldest payload not popped yet, or None when the wait times out. */
    method Dequeue() returns (payload: Option<Payload>)
      requires Valid()
      modifies this
      ensures Valid() && pushed == old(pushed)
      ensures payload == if |old(popped)| < |pushed| then Some(pushed[|old(popped)|]) else None
      ensures popped == if payload.Some? then old(popped) + [payload.value] else old(popped)
    {
      FifoMeans(popped, list, pushed);
      if |list| == 0 {
        return None;
      }
      PopKeepsFifo(popped, list, pushed);
      payload := Some(list[|list| - 1]);
      list := list[..|list| - 1];
      popped := popped + [payload.value];
      FifoMeans(popped, list, pushed);
    }

    method QueueDepth() returns (depth: nat)
      requires Valid()
      ensures depth == |pushed| - |popped|
    {
      FifoMeans(popped, list, pushed);
      depth := |list|;
    }
  }
}
