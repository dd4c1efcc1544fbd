/**
  The join of the futures of a broadcast. A future aggregates the futures of the senders that
  accepted the message: it polls each of them once, then those whose task was scheduled, until
  all have replied or one has failed.

  What a sender future returns is arbitrary: `replies(t, k)` is the result of the `k`-th poll of
  the `t`-th future. What the task set yields at each call is a parameter of `Poll`; `BroadcastPolls`
  shows that the polls of a parent on its task set are such calls.
*/
module Broadcast {
  import opened Options

  datatype ChildPoll<R> = ChildPending | ChildOk(reply: R) | ChildErr

  datatype PollResult = Pending | ReadyOk | ReadyErr

  datatype FutureState = Uninit | InProgress | Completed

  /** The progress of a join: the replies received, how often each future was polled, and a failure. */
  datatype Join<R> = Join(outputs: seq<Option<R>>, polls: seq<nat>, failed: bool)

  /** The number of futures that did not reply. */
  function Missing<R>(outputs: seq<Option<R>>): nat {
    if |outputs| == 0 then 0
    else Missing(outputs[..|outputs| - 1]) + (if outputs[|outputs| - 1].None? then 1 else 0)
  }

  lemma {:induction false} MissingUpdate<R>(outputs: seq<Option<R>>, t: nat, r: R)
    requires t < |outputs| && outputs[t].None?
    ensures Missing(outputs) == Missing(outputs[t := Some(r)]) + 1
  {
    var n := |outputs| - 1;
    if t < n {
      MissingUpdate(outputs[..n], t, r);
      assert outputs[t := Some(r)][..n] == outputs[..n][t := Some(r)];
    } else {
      assert outputs[t := Some(r)][..n] == outputs[..n];
    }
  }

  lemma {:induction false} MissingNone<R>(outputs: seq<Option<R>>)
    ensures Missing(outputs) == 0 <==> forall t :: 0 <= t < |outputs| ==> outputs[t].Some?
  {
    var n := |outputs| - 1;
    if n >= 0 {
      MissingNone(outputs[..n]);
      assert forall t :: 0 <= t < n ==> outputs[..n][t] == outputs[t];
    }
  }

  predicate Shaped<R>(j: Join<R>, n: nat) {
    |j.outputs| == |j.polls| == n
  }

  /** Polls future `t`, unless it replied or the join failed. */
  function PollOne<R>(j: Join<R>, t: nat, replies: (nat, nat) -> ChildPoll<R>): Join<R>
    requires t < |j.outputs| == |j.polls|
  {
    if j.failed || j.outputs[t].Some? then j
    else
      var k := j.polls[t];
      var polled := j.(polls := j.polls[t := k + 1]);
      match replies(t, k)
      case ChildPending => polled
      case ChildOk(r) => polled.(outputs := j.outputs[t := Some(r)])
      case ChildErr => polled.(failed := true)
  }

  predicate InRange(ts: seq<nat>, n: nat) {
    forall i :: 0 <= i < |ts| ==> ts[i] < n
  }

  function PollEach<R>(j: Join<R>, ts: seq<nat>, replies: (nat, nat) -> ChildPoll<R>): (r: Join<R>)
    requires |j.outputs| == |j.polls| && InRange(ts, |j.outputs|)
    ensures |r.outputs| == |r.polls| == |j.outputs|
    decreases |ts|
  {
    if |ts| == 0 then j else PollOne(PollEach(j, ts[..|ts| - 1], replies), ts[|ts| - 1], replies)
  }

  predicate Done<R>(j: Join<R>) {
    j.failed || Missing(j.outputs) == 0
  }

  /** Polls the scheduled tasks of one call after the other, until the join is done. */
  function PollBatches<R>(j: Join<R>, batches: seq<seq<nat>>, replies: (nat, nat) -> ChildPoll<R>): (r: Join<R>)
    requires |j.outputs| == |j.polls| && forall i :: 0 <= i < |batches| ==> InRange(batches[i], |j.outputs|)
    ensures |r.outputs| == |r.polls| == |j.outputs|
    decreases |batches|
  {
    if |batches| == 0 || Done(j) then j else PollBatches(PollEach(j, batches[0], replies), batches[1..], replies)
  }

  /** The indices below `n`, in order. */
  function Indices(n: nat): (r: seq<nat>)
    ensures |r| == n && forall i :: 0 <= i < n ==> r[i] == i
  {
    if n == 0 then [] else Indices(n - 1) + [n - 1]
  }

  // ----- What a join means -----

  /** All polls of future `t` but the last returned `Pending`: it was not polled after it was ready. */
  ghost predicate NeverPolledAfterReady<R>(polls: nat, t: nat, replies: (nat, nat) -> ChildPoll<R>) {
    forall k {:trigger replies(t, k)} :: 0 <= k < polls - 1 ==> replies(t, k).ChildPending?
  }

  /** The output of future `t` is its reply, received at its last poll. */
  ghost predicate OutputOk<R>(j: Join<R>, t: nat, replies: (nat, nat) -> ChildPoll<R>)
    requires t < |j.outputs| == |j.polls|
  {
    && NeverPolledAfterReady(j.polls[t], t, replies)
    && match j.outputs[t]
       case Some(r) => j.polls[t] > 0 && replies(t, j.polls[t] - 1) == ChildOk(r)
       case None => j.polls[t] > 0 ==>
         replies(t, j.polls[t] - 1).ChildPending? || (j.failed && replies(t, j.polls[t] - 1).ChildErr?)
  }

  ghost predicate JoinOk<R>(j: Join<R>, n: nat, replies: (nat, nat) -> ChildPoll<R>) {
    && |j.outputs| == |j.polls| == n
    && (forall t :: 0 <= t < n ==> OutputOk(j, t, replies))
    && (j.failed ==> exists t :: 0 <= t < n && j.polls[t] > 0 && replies(t, j.polls[t] - 1).ChildErr?)
  }

  lemma {:induction false} PollOneKeepsJoin<R>(j: Join<R>, n: nat, t: nat, replies: (nat, nat) -> ChildPoll<R>)
    requires JoinOk(j, n, replies) && t < n
    ensures JoinOk(PollOne(j, t, replies), n, replies)
  {
    var p := PollOne(j, t, replies);
    if !j.failed && j.outputs[t].None? {
      assert OutputOk(j, t, replies);
      forall u | 0 <= u < n ensures OutputOk(p, u, replies) {
        assert OutputOk(j, u, replies);
      }
      if p.failed {
        assert p.polls[t] > 0 && replies(t, p.polls[t] - 1).ChildErr?;
      }
    }
  }

  lemma {:induction false} PollEachKeepsJoin<R>(j: Join<R>, n: nat, ts: seq<nat>, replies: (nat, nat) -> ChildPoll<R>)
    requires JoinOk(j, n, replies) && InRange(ts, n)
    ensures JoinOk(PollEach(j, ts, replies), n, replies)
    decreases |ts|
  {
    if |ts| > 0 {
      PollEachKeepsJoin(j, n, ts[..|ts| - 1], replies);
      PollOneKeepsJoin(PollEach(j, ts[..|ts| - 1], replies), n, ts[|ts| - 1], replies);
    }
  }

  lemma {:induction false} PollBatchesKeepsJoin<R>(j: Join<R>, n: nat, batches: seq<seq<nat>>,
                                                   replies: (nat, nat) -> ChildPoll<R>)
    requires JoinOk(j, n, replies) && forall i :: 0 <= i < |batches| ==> InRange(batches[i], n)
    ensures JoinOk(PollBatches(j, batches, replies), n, replies)
    decreases |batches|
  {
    if |batches| > 0 && !Done(j) {
      PollEachKeepsJoin(j, n, batches[0], replies);
      PollBatchesKeepsJoin(PollEach(j, batches[0], replies), n, batches[1..], replies);
    }
  }

  predicate Increasing(xs: seq<nat>) {
    forall i, j :: 0 <= i < j < |xs| ==> xs[i] < xs[j]
  }

  /** The senders that accept the message, in the order of their connection. */
  method Futures(accepts: seq<bool>) returns (futures: seq<nat>)
    ensures Increasing(futures)
    ensures forall i :: i in futures <==> 0 <= i < |accepts| && accepts[i]
  {
    futures := [];
    var i := 0;
    while i < |accepts|
      invariant 0 <= i <= |accepts| && Increasing(futures)
      invariant forall j :: 0 <= j < |futures| ==> futures[j] < i
      invariant forall k :: k in futures <==> 0 <= k < i && accepts[k]
    {
      i := i + 1;
      if i == |accepts| {
        // the argument is moved to the last sender
        if accepts[i - 1] {
          futures := futures + [i - 1];
        }
        break;
      }
      if accepts[i - 1] {
        futures := futures + [i - 1];
      }
    }
  }

  /** The aggregate future. */
  class BroadcastFuture<R> {
    const replies: (nat, nat) -> ChildPoll<R>
    var outputs: seq<Option<R>>
    var polls: seq<nat>
    var pendingCount: nat
    var state: FutureState

    ghost function Progress(failed: bool): Join<R>
      reads this
    {
      Join(outputs, polls, failed)
    }

    /** The count of pending futures is the number of missing outputs. */
    ghost predicate Valid()
      reads this
    {
      && |outputs| == |polls| && pendingCount == Missing(outputs)
      && (state != Completed ==> JoinOk(Progress(false), |outputs|, replies))
      && (state == Uninit ==> forall t :: 0 <= t < |outputs| ==> outputs[t].None? && polls[t] == 0)
      && (state == InProgress ==> pendingCount > 0)
    }

    constructor (n: nat, replies: (nat, nat) -> ChildPoll<R>)
      ensures Valid() && state == Uninit && |outputs| == n && this.replies == replies
    {
      this.replies := replies;
      outputs := seq(n, i => None);
      polls := seq(n, i => 0);
      pendingCount := n;
      state := Uninit;
      new;
      AllMissing(outputs);
    }

    /** Polls one sender future; `failed` if it returned an error. */
    method PollChild(t: nat) returns (failed: bool)
      requires |outputs| == |polls| && t < |outputs| && outputs[t].None? && pendingCount == Missing(outputs)
      modifies this`outputs, this`polls, this`pendingCount
      ensures Progress(failed) == PollOne(old(Progress(false)), t, replies)
      ensures |outputs| == |polls| && pendingCount == Missing(outputs)
    {
      var k := polls[t];
      polls := polls[t := k + 1];
      failed := false;
      match replies(t, k)
      case ChildOk(r) =>
        MissingUpdate(outputs, t, r);
        outputs := outputs[t := Some(r)];
        pendingCount := pendingCount - 1;
      case ChildErr => failed := true;
      case ChildPending =>
    }

    /** The first poll: every sender future is polled once, in order. */
    method PollAll() returns (failed: bool)
      requires Valid() && state == Uninit
      modifies this`outputs, this`polls, this`pendingCount
      ensures |outputs| == |polls| == old(|outputs|) && pendingCount == Missing(outputs)
      ensures Progress(failed) == PollEach(old(Progress(false)), Indices(|outputs|), replies)
    {
      var n := |outputs|;
      var i := 0;
      failed := false;
      ghost var start := Progress(false);
      ghost var all := Indices(n);
      while i < n
        invariant 0 <= i <= n && |outputs| == |polls| == n && pendingCount == Missing(outputs)
        invariant Progress(false) == PollEach(start, all[..i], replies)
        invariant forall t :: i <= t < n ==> outputs[t].None?
      {
        assert all[..i + 1][..i] == all[..i];
        failed := PollChild(i);
        i := i + 1;
        if failed {
          FailedStays(start, all, i, replies);
          return;
        }
      }
      assert all[..n] == all;
    }

    /** One call of the task set: the tasks that did not reply yet are polled. */
    method PollScheduled(batch: seq<nat>) returns (failed: bool)
      requires |outputs| == |polls| && InRange(batch, |outputs|) && pendingCount == Missing(outputs)
      modifies this`outputs, this`polls, this`pendingCount
      ensures |outputs| == |polls| == old(|outputs|) && pendingCount == Missing(outputs)
      ensures Progress(failed) == PollEach(old(Progress(false)), batch, replies)
    {
      var i := 0;
      failed := false;
      ghost var start := Progress(false);
      while i < |batch|
        invariant 0 <= i <= |batch| && |outputs| == |polls| == old(|outputs|) && pendingCount == Missing(outputs)
        invariant Progress(false) == PollEach(start, batch[..i], replies)
      {
        var t := batch[i];
        assert batch[..i + 1][..i] == batch[..i];
        if outputs[t].None? {
          failed := PollChild(t);
        }
        i := i + 1;
        if failed {
          FailedStays(start, batch, i, replies);
          return;
        }
      }
      assert batch[..i] == batch;
    }

    /** The state after polls that led to `j`. */
    ghost predicate Reports(j: Join<R>, result: PollResult)
      reads this
    {
      && Valid() && Progress(result.ReadyErr?) == j && JoinOk(j, |outputs|, replies)
      && state == (if result.Pending? then InProgress else Completed)
      && (result.ReadyOk? ==> pendingCount == 0)
    }

    /** The part of `Poll` that runs the first time. */
    method FirstPoll() returns (result: PollResult)
      requires Valid() && state == Uninit
      modifies this`outputs, this`polls, this`pendingCount, this`state
      ensures |outputs| == old(|outputs|)
      ensures Reports(PollEach(old(Progress(false)), Indices(|outputs|), replies), result)
    {
      PollEachKeepsJoin(Progress(false), |outputs|, Indices(|outputs|), replies);
      var failed := PollAll();
      if failed {
        state := Completed;
        return ReadyErr;
      }
      if pendingCount == 0 {
        state := Completed;
        return ReadyOk;
      }
      state := InProgress;
      return Pending;
    }

    /**
      `batches` are the successive results of `take_scheduled`, the last one being followed by
      `None`; the task set yields active tasks only.
    */
    method Poll(batches: seq<seq<nat>>) returns (result: PollResult)
      requires Valid() && state != Completed
      requires forall i :: 0 <= i < |batches| ==> InRange(batches[i], |outputs|)
      modifies this`outputs, this`polls, this`pendingCount, this`state
      ensures |outputs| == old(|outputs|)
      ensures Reports(PollBatches(Started(old(Progress(false)), old(state), replies), batches, replies), result)
    {
      var n := |outputs|;
      ghost var first := Started(Progress(false), state, replies);
      if state == Uninit {
        result := FirstPoll();
        if !result.Pending? {
          return;
        }
      }
      var i := 0;
      while i < |batches|
        invariant 0 <= i <= |batches| && |outputs| == n && Valid() && state == InProgress
        invariant PollBatches(first, batches, replies) == PollBatches(Progress(false), batches[i..], replies)
      {
        PollEachKeepsJoin(Progress(false), n, batches[i], replies);
        assert batches[i..][1..] == batches[i + 1..];
        var failed := PollScheduled(batches[i]);
        i := i + 1;
        if failed {
          state := Completed;
          return ReadyErr;
        }
        if pendingCount == 0 {
          state := Completed;
          return ReadyOk;
        }
      }
      return Pending;
    }
  }

  /** The join after the first poll of every future, which the first call makes. */
  function Started<R>(j: Join<R>, state: FutureState, replies: (nat, nat) -> ChildPoll<R>): (r: Join<R>)
    requires |j.outputs| == |j.polls|
    ensures |r.outputs| == |r.polls| == |j.outputs|
  {
    if state == Uninit then PollEach(j, Indices(|j.outputs|), replies) else j
  }

  /** `r` is what future `t` returns when polled until it is ready. */
  ghost predicate IsReply<R>(replies: (nat, nat) -> ChildPoll<R>, t: nat, r: R) {
    exists k: nat :: replies(t, k) == ChildOk(r) && NeverPolledAfterReady(k + 1, t, replies)
  }

  lemma {:induction false} ReplyIsUnique<R>(replies: (nat, nat) -> ChildPoll<R>, t: nat, r: R, r': R)
    requires IsReply(replies, t, r) && IsReply(replies, t, r')
    ensures r == r'
  {
    var k: nat :| replies(t, k) == ChildOk(r) && NeverPolledAfterReady(k + 1, t, replies);
    var k': nat :| replies(t, k') == ChildOk(r') && NeverPolledAfterReady(k' + 1, t, replies);
    assert k == k';
  }

  /** A successful join holds the reply of every future, in the order of the futures. */
  lemma {:induction false} OkCollectsAllReplies<R>(j: Join<R>, n: nat, replies: (nat, nat) -> ChildPoll<R>)
    requires JoinOk(j, n, replies) && !j.failed && Missing(j.outputs) == 0
    ensures forall t :: 0 <= t < n ==> j.outputs[t].Some? && IsReply(replies, t, j.outputs[t].value)
  {
    MissingNone(j.outputs);
    forall t | 0 <= t < n ensures IsReply(replies, t, j.outputs[t].value) {
      assert OutputOk(j, t, replies);
      assert replies(t, j.polls[t] - 1) == ChildOk(j.outputs[t].value);
    }
  }

  /** A join that is neither successful nor failed has a future whose polls all returned `Pending`. */
  lemma {:induction false} PendingHasAPendingFuture<R>(j: Join<R>, n: nat, replies: (nat, nat) -> ChildPoll<R>)
    returns (t: nat)
    requires JoinOk(j, n, replies) && !Done(j)
    ensures t < n && j.outputs[t].None?
    ensures forall k {:trigger replies(t, k)} :: 0 <= k < j.polls[t] ==> replies(t, k).ChildPending?
  {
    MissingNone(j.outputs);
    t :| 0 <= t < n && j.outputs[t].None?;
    assert OutputOk(j, t, replies);
  }

  lemma {:induction false} AllMissing<R>(outputs: seq<Option<R>>)
    requires forall t :: 0 <= t < |outputs| ==> outputs[t].None?
    ensures Missing(outputs) == |outputs|
  {
    var n := |outputs| - 1;
    if n >= 0 {
      AllMissing(outputs[..n]);
    }
  }

  lemma {:induction false} FailedStays<R>(j: Join<R>, ts: seq<nat>, i: nat, replies: (nat, nat) -> ChildPoll<R>)
    requires |j.outputs| == |j.polls| && InRange(ts, |j.outputs|) && i <= |ts|
    ensures PollEach(j, ts[..i], replies).failed ==> PollEach(j, ts, replies) == PollEach(j, ts[..i], replies)
    decreases |ts| - i
  {
    if i < |ts| {
      assert ts[..i + 1][..i] == ts[..i];
      FailedStays(j, ts, i + 1, replies);
    } else {
      assert ts[..i] == ts;
    }
  }
}
