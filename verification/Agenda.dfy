/**
  The scheduler queue: events ordered by time, then by origin, then by the epoch of their
  insertion. The standard library's heap is an ordered sequence here.
*/
module Agenda {
  import opened Options

  /** An action: its period if it is periodic, and its cancellation key if it can be cancelled. */
  datatype Action = Action(id: nat, period: Option<nat>, key: Option<nat>)

  datatype Event = Event(time: int, origin: nat, epoch: nat, action: Action)

  predicate Before(a: Event, b: Event) {
    a.time < b.time || (a.time == b.time && (a.origin < b.origin || (a.origin == b.origin && a.epoch < b.epoch)))
  }

  predicate Sorted(q: seq<Event>) {
    forall i, j :: 0 <= i < j < |q| ==> Before(q[i], q[j])
  }

  /** All epochs of the queue were given by insertions before `nextEpoch`. */
  predicate Numbered(q: seq<Event>, nextEpoch: nat) {
    forall i :: 0 <= i < |q| ==> q[i].epoch < nextEpoch
  }

  /** The queue with an event added at its place. */
  function Insert(q: seq<Event>, e: Event): (r: seq<Event>)
    ensures |r| == |q| + 1
  {
    if |q| == 0 || Before(e, q[0]) then [e] + q else [q[0]] + Insert(q[1..], e)
  }

  /** Where an inserted event lands: after all events that are not after it. */
  lemma {:induction false} InsertAt(q: seq<Event>, e: Event) returns (k: nat)
    requires Sorted(q)
    ensures k <= |q| && Insert(q, e) == q[..k] + [e] + q[k..]
    ensures forall i :: 0 <= i < k ==> !Before(e, q[i])
    ensures forall i :: k <= i < |q| ==> Before(e, q[i])
  {
    if |q| == 0 || Before(e, q[0]) {
      k := 0;
      assert q[..0] + [e] + q[0..] == [e] + q;
    } else {
      var m := InsertAt(q[1..], e);
      k := m + 1;
      assert [q[0]] + (q[1..][..m] + [e] + q[1..][m..]) == q[..k] + [e] + q[k..];
    }
  }

  lemma {:induction false} InsertKeepsSorted(q: seq<Event>, e: Event)
    requires Sorted(q) && Numbered(q, e.epoch)
    ensures Sorted(Insert(q, e)) && Numbered(Insert(q, e), e.epoch + 1)
  {
    var k := InsertAt(q, e);
    var r := Insert(q, e);
    forall i, j | 0 <= i < j < |r| ensures Before(r[i], r[j]) {
      if i == k {
        assert r[j] == q[j - 1];
      } else if j == k {
        assert r[i] == q[i] && q[i].epoch < e.epoch;
      }
    }
  }

  lemma {:induction false} InsertMembers(q: seq<Event>, e: Event, x: Event)
    ensures x in Insert(q, e) <==> x == e || x in q
  {
    if |q| > 0 && !Before(e, q[0]) {
      InsertMembers(q[1..], e, x);
      assert q == [q[0]] + q[1..];
    }
  }

  /** An event that comes after all of `a` is inserted after `a`. */
  lemma {:induction false} InsertSkips(a: seq<Event>, b: seq<Event>, e: Event)
    requires forall i :: 0 <= i < |a| ==> Before(a[i], e)
    ensures Insert(a + b, e) == a + Insert(b, e)
  {
    if |a| == 0 {
      assert a + b == b;
    } else {
      assert Before(a[0], e);
      InsertSkips(a[1..], b, e);
      assert (a + b)[1..] == a[1..] + b;
      assert a + Insert(b, e) == [a[0]] + (a[1..] + Insert(b, e));
    }
  }

  predicate IsCancelled(a: Action, cancelled: set<nat>) {
    a.key.Some? && a.key.value in cancelled
  }

  /** The events that are not cancelled. */
  function Live(q: seq<Event>, cancelled: set<nat>): (r: seq<Event>) {
    if |q| == 0 then []
    else if IsCancelled(q[0].action, cancelled) then Live(q[1..], cancelled)
    else [q[0]] + Live(q[1..], cancelled)
  }

  lemma {:induction false} LiveMembers(q: seq<Event>, cancelled: set<nat>, e: Event)
    ensures e in Live(q, cancelled) <==> e in q && !IsCancelled(e.action, cancelled)
  {
    if |q| > 0 {
      LiveMembers(q[1..], cancelled, e);
      assert q == [q[0]] + q[1..];
    }
  }

  lemma {:induction false} LiveIsSorted(q: seq<Event>, cancelled: set<nat>)
    requires Sorted(q)
    ensures Sorted(Live(q, cancelled))
  {
    if |q| > 0 {
      LiveIsSorted(q[1..], cancelled);
      var rest := Live(q[1..], cancelled);
      forall j | 0 <= j < |rest| ensures Before(q[0], rest[j]) {
        LiveMembers(q[1..], cancelled, rest[j]);
      }
    }
  }

  lemma {:induction false} LiveIsNumbered(q: seq<Event>, cancelled: set<nat>, nextEpoch: nat)
    requires Numbered(q, nextEpoch)
    ensures Numbered(Live(q, cancelled), nextEpoch)
  {
    forall i | 0 <= i < |Live(q, cancelled)| ensures Live(q, cancelled)[i].epoch < nextEpoch {
      LiveMembers(q, cancelled, Live(q, cancelled)[i]);
    }
  }

  /** Cancelling more, all at once or little by little, leaves the same events. */
  lemma {:induction false} LiveTwice(q: seq<Event>, some: set<nat>, more: set<nat>)
    requires some <= more
    ensures Live(Live(q, some), more) == Live(q, more)
  {
    if |q| > 0 {
      LiveTwice(q[1..], some, more);
      var rest := Live(q[1..], some);
      if !IsCancelled(q[0].action, some) {
        assert ([q[0]] + rest)[1..] == rest;
      }
    }
  }

  /** Discarding cancelled events and inserting commute. */
  lemma {:induction false} LiveInsert(q: seq<Event>, e: Event, cancelled: set<nat>)
    requires Sorted(q) && Numbered(q, e.epoch)
    ensures Live(Insert(q, e), cancelled) ==
      if IsCancelled(e.action, cancelled) then Live(q, cancelled) else Insert(Live(q, cancelled), e)
  {
    if |q| == 0 {
    } else if Before(e, q[0]) {
      assert ([e] + q)[1..] == q;
      LiveInsertFirst(q, e, cancelled);
    } else {
      LiveInsert(q[1..], e, cancelled);
      assert ([q[0]] + Insert(q[1..], e))[1..] == Insert(q[1..], e);
      if !IsCancelled(q[0].action, cancelled) {
        assert ([q[0]] + Live(q[1..], cancelled))[1..] == Live(q[1..], cancelled);
      }
    }
  }

  lemma {:induction false} LiveInsertFirst(q: seq<Event>, e: Event, cancelled: set<nat>)
    requires Sorted(q) && |q| > 0 && Before(e, q[0])
    ensures Insert(Live(q, cancelled), e) == [e] + Live(q, cancelled)
  {
    if |Live(q, cancelled)| > 0 {
      LiveMembers(q, cancelled, Live(q, cancelled)[0]);
    }
  }
}
