/**
 The bounded worker pool: workers that share the next index, as in `mapWithConcurrency` and in
 `syncOfferEvents`. A worker takes an index without an await in between, so that a turn of the loop
 below is one atomic step; which worker goes on next is left open.
 */
module WorkerPool {
  import opened Wrappers

  predicate Indices(s: set<nat>, n: nat) {
    forall i :: i in s ==> i < n
  }

  lemma {:induction false} IndicesAreFew(s: set<nat>, n: nat)
    requires Indices(s, n)
    ensures |s| <= n
  {
    if n == 0 {
      assert s == {} by { assert forall i :: i in s ==> i < 0; }
    } else if n - 1 in s {
      IndicesAreFew(s - {n - 1}, n - 1);
    } else {
      IndicesAreFew(s, n - 1);
    }
  }

  lemma SubsetIsSmaller(a: set<nat>, b: set<nat>)
    requires a <= b
    ensures |a| <= |b|
  {
    assert b == a + (b - a);
  }

  /** Where the pool stands: the indices handed out so far are in flight, done or failed. */
  ghost predicate Accounted(nextIndex: nat, inFlight: set<nat>, done: set<nat>, failed: set<nat>, throws: set<nat>) {
    && (forall i :: i in inFlight ==> i < nextIndex && i !in done && i !in failed)
    && (forall i :: i in done ==> i < nextIndex && i !in throws)
    && (forall i :: i in failed ==> i < nextIndex && i in throws)
    && (forall i: nat :: i < nextIndex ==> i in inFlight || i in done || i in failed)
  }

  /** The worker that takes the next index; there is no await between the test and the increment. */
  method TakeNext(calls: seq<nat>, inFlight: set<nat>, ghost done: set<nat>, ghost failed: set<nat>, ghost throws: set<nat>)
    returns (newCalls: seq<nat>, newInFlight: set<nat>)
    requires forall i :: 0 <= i < |calls| ==> calls[i] == i
    requires Accounted(|calls|, inFlight, done, failed, throws)
    ensures newCalls == calls + [|calls|] && Accounted(|newCalls|, newInFlight, done, failed, throws)
    ensures |newInFlight| == |inFlight| + 1
  {
    newCalls, newInFlight := calls + [|calls|], inFlight + {|calls|};
  }

  /** A mapper call comes back; one that throws ends its worker. */
  method Settle(index: nat, inFlight: set<nat>, done: set<nat>, failed: set<nat>, throws: set<nat>, ghost nextIndex: nat)
    returns (newInFlight: set<nat>, newDone: set<nat>, newFailed: set<nat>, alive: bool)
    requires index in inFlight && Accounted(nextIndex, inFlight, done, failed, throws)
    ensures Accounted(nextIndex, newInFlight, newDone, newFailed, throws)
    ensures |newInFlight| == |inFlight| - 1 && |newFailed| == |failed| + (if alive then 0 else 1)
    ensures alive == (index !in throws)
  {
    newInFlight, newDone, newFailed, alive := inFlight - {index}, done, failed, index !in throws;
    if alive {
      newDone := done + {index};
    } else {
      newFailed := failed + {index};
    }
  }

  /**
   Runs the mapper on the indices below `n`; it throws on those in `throws`, which ends its worker.
   Every index is handed out in order and at most once, no more calls run together than workers
   there are, and as long as fewer calls throw than workers may run, every index is handed out.
   */
  method MapWithConcurrency(n: nat, concurrency: int, throws: set<nat>)
    returns (calls: seq<nat>, done: set<nat>, failed: set<nat>, peak: nat)
    ensures |calls| <= n && forall i :: 0 <= i < |calls| ==> calls[i] == i
    ensures forall i: nat :: i < |calls| ==> (i in done <==> i !in throws) && (i in failed <==> i in throws)
    ensures Indices(done, |calls|) && Indices(failed, |calls|)
    ensures peak <= n && (peak > 0 ==> peak <= concurrency)
    ensures concurrency <= 0 ==> calls == []
    ensures |throws| < concurrency ==> |calls| == n
  {
    ghost var workerCount := if Min(n, concurrency) > 0 then Min(n, concurrency) else 0;
    calls, done, failed, peak := [], {}, {}, 0;
    var inFlight: set<nat> := {};
    var ready := if Min(n, concurrency) > 0 then Min(n, concurrency) else 0;
    ghost var ended := 0;
    while ready > 0 || inFlight != {}
      invariant |calls| <= n && forall i :: 0 <= i < |calls| ==> calls[i] == i
      invariant Accounted(|calls|, inFlight, done, failed, throws)
      invariant ready >= 0 && ended >= 0 && ready + |inFlight| + |failed| + ended == workerCount
      invariant ended > 0 ==> |calls| == n
      invariant workerCount == 0 ==> calls == []
      invariant |inFlight| <= peak <= workerCount
      decreases 3 * (n - |calls|) + 2 * |inFlight| + ready
    {
      if
      case ready > 0 =>
        ready := ready - 1;
        if |calls| < n {
          calls, inFlight := TakeNext(calls, inFlight, done, failed, throws);
          peak := if |inFlight| > peak then |inFlight| else peak;
        } else {
          ended := ended + 1;
        }
      case inFlight != {} =>
        var index :| index in inFlight;
        var alive;
        inFlight, done, failed, alive := Settle(index, inFlight, done, failed, throws, |calls|);
        if alive {
          ready := ready + 1;
        }
    }
    FailuresAreFew(failed, throws, |calls|);
  }

  lemma FailuresAreFew(failed: set<nat>, throws: set<nat>, nextIndex: nat)
    requires forall i :: i in failed ==> i < nextIndex && i in throws
    ensures |failed| <= |throws| && |failed| <= nextIndex
  {
    SubsetIsSmaller(failed, throws);
    IndicesAreFew(failed, nextIndex);
  }
}
