/**
  Pulling the due events of a step one by one, each periodic one being inserted again at once:
  this ends exactly when no due event has a null period, and then leaves what rescheduling all due
  events leaves.
*/
module Draining {
  import opened Options
  import opened Agenda
  import opened Stepping

  /** The queue after one pull from its front. */
  function PulledOnce(p: Pending): Pending {
    if |p.queue| == 0 then p else Renewed(Pending(p.queue[1..], p.nextEpoch), p.queue[0])
  }

  function Pulled(p: Pending, n: nat): Pending {
    if n == 0 then p else PulledOnce(Pulled(p, n - 1))
  }

  /** Pulling a due event puts its next execution after the other due events. */
  lemma {:induction false} PullSkips(front: seq<Event>, r: Pending, t: int)
    requires |front| > 0 && front[0].action.period != Some(0) && forall i :: 0 <= i < |front| ==> front[i].time == t
    ensures var s := Renewed(r, front[0]);
      PulledOnce(Pending(front + r.queue, r.nextEpoch)) == Pending(front[1..] + s.queue, s.nextEpoch)
  {
    var e := front[0];
    assert (front + r.queue)[1..] == front[1..] + r.queue;
    if e.action.period.Some? {
      InsertSkips(front[1..], r.queue, Event(t + e.action.period.value, e.origin, r.nextEpoch, e.action));
    }
  }

  lemma {:induction false} RescheduledLast(p: Pending, due: seq<Event>, i: nat)
    requires 0 < i <= |due|
    ensures Rescheduled(p, due[..i]) == Renewed(Rescheduled(p, due[..i - 1]), due[i - 1])
  {
    assert due[..i][..i - 1] == due[..i - 1];
  }

  lemma {:induction false} PulledIsRescheduled(p: Pending, t: int, d: nat, i: nat)
    requires Sorted(p.queue) && d == DueCount(p.queue, t) && PositivePeriods(p.queue[..d]) && i <= d
    ensures var r := Rescheduled(Pending(p.queue[d..], p.nextEpoch), p.queue[..i]);
      Pulled(p, i) == Pending(p.queue[i..d] + r.queue, r.nextEpoch)
  {
    var q := p.queue;
    if i == 0 {
      assert q[0..d] + q[d..] == q;
    } else {
      PulledIsRescheduled(p, t, d, i - 1);
      assert q[..d][i - 1] == q[i - 1];
      var r := Rescheduled(Pending(q[d..], p.nextEpoch), q[..i - 1]);
      PullSkips(q[i - 1..d], r, t);
      assert q[i - 1..d][1..] == q[i..d];
      RescheduledLast(Pending(q[d..], p.nextEpoch), q, i);
    }
  }

  /** Pulling gets past the time `t`. */
  ghost predicate Ends(p: Pending, t: int) {
    exists n: nat :: var q := Pulled(p, n).queue; |q| == 0 || q[0].time != t
  }

  ghost predicate HasNullPeriodAt(q: seq<Event>, t: int) {
    exists e :: e in q && e.time == t && e.action.period == Some(0)
  }

  lemma {:induction false} RenewalKeepsNullPeriod(p: Pending, t: int)
    requires HasNullPeriodAt(p.queue, t)
    ensures HasNullPeriodAt(PulledOnce(p).queue, t)
  {
    var e :| e in p.queue && e.time == t && e.action.period == Some(0);
    var first, rest := p.queue[0], p.queue[1..];
    assert p.queue == [first] + rest;
    if e == first {
      var again := Event(t + 0, e.origin, p.nextEpoch, e.action);
      InsertMembers(rest, again, again);
      assert again in PulledOnce(p).queue;
    } else {
      assert e in rest;
      if first.action.period.Some? {
        InsertMembers(rest, Event(first.time + first.action.period.value, first.origin, p.nextEpoch, first.action), e);
      }
      assert e in PulledOnce(p).queue;
    }
  }

  lemma {:induction false} PullingKeepsNullPeriod(p: Pending, t: int, n: nat)
    requires HasNullPeriodAt(p.queue, t)
    ensures HasNullPeriodAt(Pulled(p, n).queue, t)
  {
    if n > 0 {
      PullingKeepsNullPeriod(p, t, n - 1);
      RenewalKeepsNullPeriod(Pulled(p, n - 1), t);
    }
  }

  lemma {:induction false} RenewalKeepsFront(p: Pending, t: int)
    requires Sorted(p.queue) && Numbered(p.queue, p.nextEpoch)
    requires forall i :: 0 <= i < |p.queue| ==> t <= p.queue[i].time
    ensures var q := PulledOnce(p);
      Sorted(q.queue) && Numbered(q.queue, q.nextEpoch) && forall i :: 0 <= i < |q.queue| ==> t <= q.queue[i].time
  {
    if |p.queue| > 0 && p.queue[0].action.period.Some? {
      var first, rest := p.queue[0], p.queue[1..];
      var e := Event(first.time + first.action.period.value, first.origin, p.nextEpoch, first.action);
      InsertKeepsSorted(rest, e);
      var r := Insert(rest, e);
      forall i | 0 <= i < |r| ensures t <= r[i].time {
        InsertMembers(rest, e, r[i]);
      }
    }
  }

  lemma {:induction false} PullingKeepsFront(p: Pending, t: int, n: nat)
    requires Sorted(p.queue) && Numbered(p.queue, p.nextEpoch)
    requires forall i :: 0 <= i < |p.queue| ==> t <= p.queue[i].time
    ensures var q := Pulled(p, n);
      Sorted(q.queue) && Numbered(q.queue, q.nextEpoch) && forall i :: 0 <= i < |q.queue| ==> t <= q.queue[i].time
  {
    if n > 0 {
      PullingKeepsFront(p, t, n - 1);
      RenewalKeepsFront(Pulled(p, n - 1), t);
    }
  }

  /** With a null period among the due events the front of the queue stays at their time for ever. */
  lemma {:induction false} NullPeriodNeverEnds(p: Pending, t: int, n: nat)
    requires Sorted(p.queue) && Numbered(p.queue, p.nextEpoch) && HasNullPeriodAt(p.queue, t)
    requires forall i :: 0 <= i < |p.queue| ==> t <= p.queue[i].time
    ensures var q := Pulled(p, n).queue; |q| > 0 && q[0].time == t
  {
    PullingKeepsFront(p, t, n);
    PullingKeepsNullPeriod(p, t, n);
    var q := Pulled(p, n).queue;
    var e :| e in q && e.time == t;
    var i :| 0 <= i < |q| && q[i] == e;
    assert i == 0 || Before(q[0], q[i]);
  }

  /** The exact condition: pulling the due events ends if and only if none of them has a null period. */
  lemma {:induction false} EndsExactlyWithoutNullPeriod(p: Pending, t: int)
    requires Sorted(p.queue) && Numbered(p.queue, p.nextEpoch)
    requires forall i :: 0 <= i < |p.queue| ==> t <= p.queue[i].time
    ensures Ends(p, t) <==> !HasNullPeriodAt(p.queue, t)
  {
    if HasNullPeriodAt(p.queue, t) {
      forall n: nat ensures var q := Pulled(p, n).queue; |q| > 0 && q[0].time == t {
        NullPeriodNeverEnds(p, t, n);
      }
    } else {
      var d := DueCount(p.queue, t);
      forall i | 0 <= i < d ensures p.queue[..d][i].action.period != Some(0) {
        assert p.queue[i] in p.queue;
      }
      PulledIsRescheduled(p, t, d, d);
      RestComesLater(p, t, d);
      var q := Pulled(p, d).queue;
      assert |q| == 0 || q[0].time != t;
    }
  }

  /** The events left once the due ones are pulled, with their next executions, come later. */
  lemma {:induction false} RestComesLater(p: Pending, t: int, d: nat)
    requires Sorted(p.queue) && d == DueCount(p.queue, t) && PositivePeriods(p.queue[..d])
    requires forall i :: 0 <= i < |p.queue| ==> t <= p.queue[i].time
    ensures var r := Rescheduled(Pending(p.queue[d..], p.nextEpoch), p.queue[..d]);
      AllAfter(r.queue, t) && Pending(p.queue[d..d] + r.queue, r.nextEpoch) == r
  {
    var q := p.queue;
    forall i | 0 <= i < |q[d..]| ensures t < q[d..][i].time {
      assert i == 0 || Before(q[d], q[d + i]);
    }
    ReschedulingComesLater(Pending(q[d..], p.nextEpoch), t, q[..d]);
  }

  lemma {:induction false} ReschedulingComesLater(p: Pending, t: int, due: seq<Event>)
    requires AllAfter(p.queue, t) && PositivePeriods(due) && forall i :: 0 <= i < |due| ==> due[i].time == t
    ensures AllAfter(Rescheduled(p, due).queue, t)
  {
    if |due| > 0 {
      var n := |due| - 1;
      ReschedulingComesLater(p, t, due[..n]);
      var q, e := Rescheduled(p, due[..n]), due[n];
      if e.action.period.Some? {
        var x := Event(t + e.action.period.value, e.origin, q.nextEpoch, e.action);
        forall i | 0 <= i < |Insert(q.queue, x)| ensures t < Insert(q.queue, x)[i].time {
          InsertMembers(q.queue, x, Insert(q.queue, x)[i]);
        }
      }
    }
  }

  /** Pulling never gets past the time of an event with a null period, whatever comes before it. */
  lemma {:induction false} NullPeriodHoldsFront(p: Pending, t: int, n: nat)
    requires Sorted(p.queue) && Numbered(p.queue, p.nextEpoch) && HasNullPeriodAt(p.queue, t)
    ensures var q := Pulled(p, n).queue; |q| > 0 && q[0].time <= t
  {
    var least := p.queue[0].time;
    forall i | 0 <= i < |p.queue| ensures least <= p.queue[i].time {
      assert i == 0 || Before(p.queue[0], p.queue[i]);
    }
    PullingKeepsFront(p, least, n);
    PullingKeepsNullPeriod(p, t, n);
    var q := Pulled(p, n).queue;
    var e :| e in q && e.time == t;
    var i :| 0 <= i < |q| && q[i] == e;
    assert i == 0 || Before(q[0], q[i]);
  }

  /**
    After a null period was requested through a function that takes an action, not a period, no number
    of pulls gets past the requested time, whatever else is planned and renewed before it. The functions
    that take a period refuse it.
  */
  lemma {:induction false} NullPeriodRequestNeverEnds(p: Pending, now: int, r: Request, n: nat)
    requires Sorted(p.queue) && Numbered(p.queue, p.nextEpoch) && now < r.time && r.action.period == Some(0)
    ensures r.checked ==> Submit(p, now, [r]) == p
    ensures !r.checked ==> var q := Pulled(Submit(p, now, [r]), n).queue; |q| > 0 && q[0].time <= r.time
  {
    assert [r][..0] == [];
    assert Submit(p, now, [r][..0]) == p;
    if !r.checked {
      var e := Event(r.time, r.origin, p.nextEpoch, r.action);
      InsertKeepsSorted(p.queue, e);
      InsertMembers(p.queue, e, e);
      assert HasNullPeriodAt(Insert(p.queue, e), r.time);
      NullPeriodHoldsFront(Pending(Insert(p.queue, e), p.nextEpoch + 1), r.time, n);
    }
  }

  // ----- Cancelled events in the queue -----

  /** Cancelled events do not matter to the submission of requests. */
  lemma {:induction false} SubmitIgnoresCancelled(p: Pending, now: int, requests: seq<Request>, some: set<nat>,
                                                  more: set<nat>)
    requires Planned(p, now) && Unproblematic(requests) && some <= more
    ensures var q := Submit(p, now, requests);
      var r := Submit(Pending(Live(p.queue, some), p.nextEpoch), now, requests);
      q.nextEpoch == r.nextEpoch && Live(q.queue, more) == Live(r.queue, more)
  {
    if |requests| == 0 {
      LiveTwice(p.queue, some, more);
    } else {
      var n := |requests| - 1;
      var l := Pending(Live(p.queue, some), p.nextEpoch);
      SubmitIgnoresCancelled(p, now, requests[..n], some, more);
      LiveKeepsPlanned(p, now, some);
      SubmitKeepsPlanned(p, now, requests[..n]);
      SubmitKeepsPlanned(l, now, requests[..n]);
      var q, r, x := Submit(p, now, requests[..n]), Submit(l, now, requests[..n]), requests[n];
      var e := Event(x.time, x.origin, q.nextEpoch, x.action);
      LiveInsert(q.queue, e, more);
      LiveInsert(r.queue, e, more);
    }
  }
}
