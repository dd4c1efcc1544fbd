/** What a pass over futures of a broadcast does to each of them, by position. */
module BroadcastPasses {
  import opened Options
  import opened Broadcast

  predicate Distinct(ts: seq<nat>) {
    forall i, k :: 0 <= i < k < |ts| ==> ts[i] != ts[k]
  }

  /** The output that a future leaves when it has not replied before and is polled. */
  function Received<R>(reply: ChildPoll<R>): Option<R> {
    match reply
    case ChildOk(r) => Some(r)
    case _ => None
  }

  /** The `i`-th future of a pass has not replied, and its next poll fails. */
  predicate FailsAt<R>(j: Join<R>, ts: seq<nat>, i: nat, replies: (nat, nat) -> ChildPoll<R>)
    requires |j.outputs| == |j.polls| && InRange(ts, |j.outputs|)
  {
    i < |ts| && j.outputs[ts[i]].None? && replies(ts[i], j.polls[ts[i]]).ChildErr?
  }

  /** No future before the `i`-th of a pass fails. */
  predicate IsReached<R>(j: Join<R>, ts: seq<nat>, i: nat, replies: (nat, nat) -> ChildPoll<R>)
    requires |j.outputs| == |j.polls| && InRange(ts, |j.outputs|)
  {
    !j.failed && forall k :: 0 <= k < i ==> !FailsAt(j, ts, k, replies)
  }

  /** One turn of a pass: a future that has not replied is polled once, and its output is the reply to that poll. */
  lemma {:induction false} TurnPolls<R>(j: Join<R>, ts: seq<nat>, i: nat, replies: (nat, nat) -> ChildPoll<R>)
    requires |j.outputs| == |j.polls| && InRange(ts, |j.outputs|) && i < |ts|
    ensures InRange(ts[..i], |j.outputs|) && InRange(ts[..i + 1], |j.outputs|)
    ensures var a, b, t := PollEach(j, ts[..i], replies), PollEach(j, ts[..i + 1], replies), ts[i];
      if a.failed || a.outputs[t].Some? then b == a
      else
        var reply := replies(t, a.polls[t]);
        && b.polls == a.polls[t := a.polls[t] + 1] && b.outputs == a.outputs[t := Received(reply)]
        && b.failed == reply.ChildErr?
  {
    var a := PollEach(j, ts[..i], replies);
    assert ts[..i + 1][..i] == ts[..i];
    assert a.outputs[ts[i]].None? ==> a.outputs[ts[i] := None] == a.outputs;
  }

  /** A future that is not in the pass is left alone. */
  lemma {:induction false} PassLeaves<R>(j: Join<R>, ts: seq<nat>, t: nat, replies: (nat, nat) -> ChildPoll<R>)
    requires |j.outputs| == |j.polls| && InRange(ts, |j.outputs|) && t < |j.outputs| && t !in ts
    ensures var r := PollEach(j, ts, replies); r.polls[t] == j.polls[t] && r.outputs[t] == j.outputs[t]
    decreases |ts|
  {
    if |ts| > 0 {
      var n := |ts| - 1;
      PassLeaves(j, ts[..n], t, replies);
      TurnPolls(j, ts, n, replies);
      assert ts[..n + 1] == ts;
    }
  }

  lemma {:induction false} ReachedBefore<R>(j: Join<R>, ts: seq<nat>, i: nat, n: nat,
                                            replies: (nat, nat) -> ChildPoll<R>)
    requires |j.outputs| == |j.polls| && InRange(ts, |j.outputs|) && i <= n <= |ts|
    ensures InRange(ts[..n], |j.outputs|) && (IsReached(j, ts[..n], i, replies) <==> IsReached(j, ts, i, replies))
  {
    forall k | 0 <= k < i ensures FailsAt(j, ts[..n], k, replies) <==> FailsAt(j, ts, k, replies) {
    }
  }

  lemma {:induction false} PassFails<R>(j: Join<R>, ts: seq<nat>, replies: (nat, nat) -> ChildPoll<R>)
    requires |j.outputs| == |j.polls| && InRange(ts, |j.outputs|) && Distinct(ts)
    ensures PollEach(j, ts, replies).failed <==> !IsReached(j, ts, |ts|, replies)
    decreases |ts|
  {
    if |ts| > 0 {
      var n := |ts| - 1;
      TurnPolls(j, ts, n, replies);
      assert ts[..n + 1] == ts;
      PassFails(j, ts[..n], replies);
      ReachedBefore(j, ts, n, n, replies);
      PassLeaves(j, ts[..n], ts[n], replies);
      assert IsReached(j, ts, n + 1, replies) <==> IsReached(j, ts, n, replies) && !FailsAt(j, ts, n, replies);
    }
  }

  /**
    A pass over distinct futures: each that has not replied is polled exactly once more, up to the first that
    fails and that one included, and its output is the reply to that poll; the others are left alone.
    The join fails if and only if one of them does.
  */
  lemma {:induction false} PassExactly<R>(j: Join<R>, ts: seq<nat>, i: nat, replies: (nat, nat) -> ChildPoll<R>)
    requires |j.outputs| == |j.polls| && InRange(ts, |j.outputs|) && Distinct(ts) && i < |ts|
    ensures var r, t := PollEach(j, ts, replies), ts[i];
      if j.outputs[t].None? && IsReached(j, ts, i, replies) then
        r.polls[t] == j.polls[t] + 1 && r.outputs[t] == Received(replies(t, j.polls[t]))
      else r.polls[t] == j.polls[t] && r.outputs[t] == j.outputs[t]
    decreases |ts|
  {
    var n := |ts| - 1;
    TurnPolls(j, ts, n, replies);
    assert ts[..n + 1] == ts;
    ReachedBefore(j, ts, i, n, replies);
    if i < n {
      PassExactly(j, ts[..n], i, replies);
    } else {
      PassLeaves(j, ts[..n], ts[n], replies);
      PassFails(j, ts[..n], replies);
    }
  }
}
