/**
  The sequential composition of futures. What a future returns is arbitrary: `ready(t, k)` tells
  whether the `k`-th poll of the `t`-th future is ready.
*/
module SeqFuture {

  datatype Poll = Pending | Ready

  /** Future `t` was polled `n` times: until it was ready if it comes before the current one, and never if after. */
  ghost predicate FutureOk(t: nat, n: nat, idx: nat, ready: (nat, nat) -> bool) {
    && (forall k: nat {:trigger ready(t, k)} :: k < n - 1 ==> !ready(t, k))
    && (t < idx ==> n > 0 && ready(t, n - 1))
    && (t == idx && n > 0 ==> !ready(t, n - 1))
    && (t > idx ==> n == 0)
  }

  ghost predicate InOrder(polls: seq<nat>, idx: nat, ready: (nat, nat) -> bool) {
    forall t: nat {:trigger FutureOk(t, polls[t], idx, ready)} :: t < |polls| ==> FutureOk(t, polls[t], idx, ready)
  }

  /** A poll of the current future. */
  lemma {:induction false} PollKeepsOrder(polls: seq<nat>, idx: nat, ready: (nat, nat) -> bool)
    requires InOrder(polls, idx, ready) && idx < |polls|
    ensures var k := polls[idx]; InOrder(polls[idx := k + 1], if ready(idx, k) then idx + 1 else idx, ready)
  {
    var k := polls[idx];
    var after, next := polls[idx := k + 1], if ready(idx, k) then idx + 1 else idx;
    assert FutureOk(idx, k, idx, ready);
    forall t: nat | t < |polls| ensures FutureOk(t, after[t], next, ready) {
      assert FutureOk(t, polls[t], idx, ready);
    }
  }

  class Sequence {
    const ready: (nat, nat) -> bool
    var polls: seq<nat>          // one per future
    var idx: nat

    ghost predicate Valid()
      reads this
    {
      idx <= |polls| && InOrder(polls, idx, ready)
    }

    constructor (ready: (nat, nat) -> bool)
      ensures Valid() && polls == [] && idx == 0 && this.ready == ready
    {
      this.ready := ready;
      polls := [];
      idx := 0;
    }

    method Push()
      requires Valid()
      modifies this`polls
      ensures Valid() && polls == old(polls) + [0]
    {
      ghost var before := polls;
      polls := polls + [0];
      forall t: nat | t < |polls| ensures FutureOk(t, polls[t], idx, ready) {
        assert t < |before| ==> FutureOk(t, before[t], idx, ready);
      }
    }

    /**
      Polls the current future, and the next ones as long as they are ready. Each future is polled
      only once the previous one is ready, and never after it is ready itself.
    */
    method PollOnce() returns (r: Poll)
      requires Valid() && idx < |polls|
      modifies this`polls, this`idx
      ensures Valid() && |polls| == old(|polls|) && old(idx) <= idx
      ensures r.Ready? <==> idx == |polls|
      ensures r.Pending? ==> polls[idx] > 0 && !ready(idx, polls[idx] - 1)
      ensures forall t :: 0 <= t < old(idx) ==> polls[t] == old(polls)[t]
      ensures forall t :: old(idx) <= t < |polls| ==> polls[t] == old(polls)[t] + (if t <= idx then 1 else 0)
    {
      while true
        invariant Valid() && |polls| == old(|polls|) && old(idx) <= idx < |polls|
        invariant forall t :: 0 <= t < old(idx) ==> polls[t] == old(polls)[t]
        invariant forall t :: old(idx) <= t < |polls| ==> polls[t] == old(polls)[t] + (if t < idx then 1 else 0)
        decreases |polls| - idx
      {
        PollKeepsOrder(polls, idx, ready);
        var k := polls[idx];
        polls := polls[idx := k + 1];
        if !ready(idx, k) {
          return Pending;
        }
        idx := idx + 1;
        if idx == |polls| {
          return Ready;
        }
      }
    }
  }
}
