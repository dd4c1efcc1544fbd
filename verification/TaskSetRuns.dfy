/** What the invariant of the task set means for every run. */
module TaskSetRuns {
  import opened Options
  import opened TaskSet

  ghost predicate Reachable(s: State) {
    exists len: nat, steps: seq<Step> :: len <= EMPTY && IsRun(New(len), steps) && s == After(New(len), steps)
  }

  lemma {:induction false} ReachableIsOk(s: State)
    requires Reachable(s)
    ensures Inv(s)
  {
    var len: nat, steps: seq<Step> :| len <= EMPTY && IsRun(New(len), steps) && s == After(New(len), steps);
    NewIsOk(len);
    RunKeepsInv(New(len), steps);
  }

  /** The tasks found by following the links from an index, if EMPTY is reached within `fuel` links. */
  function Follow(next: seq<nat>, index: nat, fuel: nat): Option<seq<nat>>
    decreases fuel
  {
    if index == EMPTY then Some([])
    else if fuel == 0 || index >= |next| then None
    else
      match Follow(next, next[index], fuel - 1)
      case None => None
      case Some(rest) => Some([index] + rest)
  }

  function Reversed(list: seq<nat>): (r: seq<nat>)
    ensures |r| == |list|
    ensures forall k :: 0 <= k < |list| ==> r[k] == list[|list| - 1 - k]
  {
    if |list| == 0 then [] else [list[|list| - 1]] + Reversed(list[..|list| - 1])
  }

  /** The links of the first `m` tasks of list `g` are followed from top to bottom. */
  lemma {:induction false} FollowList(s: State, g: nat, m: nat, fuel: nat)
    requires Inv(s) && g < |s.lists| && m <= |s.lists[g]| && m <= fuel
    ensures Follow(s.next, Top(s.lists[g][..m]), fuel) == Some(Reversed(s.lists[g][..m]))
  {
    var list := s.lists[g];
    if m > 0 {
      var t := list[m - 1];
      assert ListOk(s, g, m - 1) && TaskOk(s, t);
      FollowList(s, g, m - 1, fuel - 1);
      assert list[..m][..m - 1] == list[..m - 1];
    }
  }

  /** An index of the task set tells whether its list is empty. */
  lemma {:induction false} TopTells(s: State, g: nat)
    requires Inv(s) && g < |s.lists|
    ensures Top(s.lists[g]) == EMPTY <==> s.lists[g] == []
    ensures g < |s.iters| ==> s.iters[g] == Top(s.lists[g])
  {
    if |s.lists[g]| > 0 {
      assert ListOk(s, g, |s.lists[g]| - 1);
    }
    if g < |s.iters| {
      assert IterOk(s, g);
    }
  }

  predicate Distinct(list: seq<nat>) {
    forall i, j :: 0 <= i < j < |list| ==> list[i] != list[j]
  }

  lemma {:induction false} ListIsDistinct(s: State, g: nat)
    requires Inv(s) && g < |s.lists|
    ensures Distinct(s.lists[g]) && |s.lists[g]| <= |s.next|
  {
    var list := s.lists[g];
    forall i, j | 0 <= i < j < |list| ensures list[i] != list[j] {
      assert ListOk(s, g, i) && ListOk(s, g, j);
    }
    forall k | 0 <= k < |list| ensures list[k] < |s.next| {
      assert ListOk(s, g, k);
    }
    Pigeonhole(list, |s.next|);
  }

  lemma {:induction false} Pigeonhole(list: seq<nat>, n: nat)
    requires Distinct(list) && forall k :: 0 <= k < |list| ==> list[k] < n
    ensures |list| <= n
  {
    if |list| > 0 {
      assert list[0] < n;
      if k :| 0 <= k < |list| && list[k] == n - 1 {
        var rest := list[..k] + list[k + 1..];
        forall i | 0 <= i < |rest| ensures rest[i] < n - 1 {
          assert rest[i] == list[if i < k then i else i + 1] != list[k];
        }
        Pigeonhole(rest, n - 1);
      } else {
        Pigeonhole(list, n - 1);
      }
    }
  }

  /**
    The list that starts at the head is acyclic, ends with EMPTY, has no duplicates, and holds
    the scheduled tasks, none of which sleeps.
  */
  lemma {:induction false} HeadListIsSound(s: State) returns (list: seq<nat>)
    requires Reachable(s)
    ensures Shaped(s)
    ensures Follow(s.next, s.head.index, |s.next|) == Some(list) && Distinct(list)
    ensures forall k :: 0 <= k < |list| ==> list[k] < |s.next| && s.next[list[k]] != SLEEPING
    ensures list == Reversed(s.lists[|s.iters|])
  {
    ReachableIsOk(s);
    var g := |s.iters|;
    var shared := s.lists[g];
    ListIsDistinct(s, g);
    FollowList(s, g, |shared|, |s.next|);
    assert shared[..|shared|] == shared;
    list := Reversed(shared);
    forall k | 0 <= k < |list| ensures list[k] < |s.next| && s.next[list[k]] != SLEEPING {
      assert ListOk(s, g, |list| - 1 - k) && TaskOk(s, list[k]);
    }
  }

  /** Likewise for the tasks that an iterator has still to visit: its indexing never fails. */
  lemma {:induction false} IteratorIsSound(s: State, g: nat) returns (list: seq<nat>)
    requires Reachable(s) && g < |s.iters|
    ensures Shaped(s)
    ensures Follow(s.next, s.iters[g], |s.next|) == Some(list) && Distinct(list)
    ensures s.iters[g] != EMPTY ==> s.iters[g] < |s.next| && Enabled(s, Next(g))
    ensures list == Reversed(s.lists[g]) && s.lists[g] <= s.taken[g]
  {
    ReachableIsOk(s);
    assert IterOk(s, g);
    var rest := s.lists[g];
    ListIsDistinct(s, g);
    FollowList(s, g, |rest|, |s.next|);
    assert rest[..|rest|] == rest;
    list := Reversed(rest);
    if |rest| > 0 {
      assert ListOk(s, g, |rest| - 1);
    }
  }

  /**
    A task sleeps exactly when it is nowhere. Otherwise it is being inserted by one thread, or it is
    at one place of one list (the shared one or that of an iterator), or an iterator is dropping it.
  */
  lemma {:induction false} ExactlyOnePlace(s: State, t: nat)
    requires Reachable(s) && t < |s.next|
    ensures Shaped(s)
    ensures s.next[t] == SLEEPING <==> s.pos[t].Asleep?
    ensures forall g, k :: 0 <= g < |s.lists| && 0 <= k < |s.lists[g]| ==>
      (s.lists[g][k] == t <==> s.pos[t] == Listed(g, k))
    ensures s.pos[t].Listed? ==> s.pos[t].g < |s.lists| && s.pos[t].k < |s.lists[s.pos[t].g]|
  {
    ReachableIsOk(s);
    assert TaskOk(s, t);
    forall g, k | 0 <= g < |s.lists| && 0 <= k < |s.lists[g]|
      ensures s.lists[g][k] == t <==> s.pos[t] == Listed(g, k)
    {
      assert ListOk(s, g, k);
    }
  }

  /** A call to wake a task ends with the task scheduled. */
  lemma {:induction false} WakeSchedules(s: State, step: Step)
    requires Reachable(s) && Enabled(s, step) && (step.Begin? || step.Confirm? || step.Push?)
    ensures Apply(s, step).next[step.t] != SLEEPING
  {
    ReachableIsOk(s);
    assert TaskOk(s, step.t);
    if step.Begin? {
      assert HeadsOk(s, step.h);
    }
  }

  /** What a step yields to the owner: an iterator filters out the tasks that are not active. */
  function Yielded(s: State, step: Step): Option<nat> {
    if step.Next? && step.g < |s.iters| && s.iters[step.g] < s.count then Some(s.iters[step.g]) else None
  }

  /** The step yields task `t`, or finds it inactive, or discards it. */
  predicate TakesOut(s: State, step: Step, t: nat) {
    || Yielded(s, step) == Some(t)
    || (step.Next? && step.g < |s.iters| && s.iters[step.g] == t && s.count <= t)
    || (step.DropSleep? && step.t == t)
  }

  lemma {:induction false} OnlyTakenOutSleeps(s: State, step: Step, t: nat)
    requires Inv(s) && Enabled(s, step) && t < |s.next| && s.next[t] != SLEEPING
    ensures var u := Apply(s, step); t < |u.next| && (u.next[t] == SLEEPING ==> TakesOut(s, step, t))
  {
    assert TaskOk(s, t);
    if step.Begin? {
      assert HeadsOk(s, step.h);
    }
  }

  lemma {:induction false} StepKeepsInv(s: State, step: Step)
    requires Inv(s) && Enabled(s, step)
    ensures Inv(Apply(s, step))
  {
    if IsWake(step) {
      WakeKeepsInv(s, step);
    } else {
      OwnerKeepsInv(s, step);
    }
  }

  /** No lost wake: a scheduled task goes back to sleep only when it is yielded, unless it is inactive or discarded. */
  lemma {:induction false} ScheduledUntilTaken(s: State, steps: seq<Step>, t: nat) returns (j: nat)
    requires Inv(s) && IsRun(s, steps) && t < |s.next| && s.next[t] != SLEEPING
    requires t < |After(s, steps).next| && After(s, steps).next[t] == SLEEPING
    ensures j < |steps| && IsRun(s, steps[..j]) && TakesOut(After(s, steps[..j]), steps[j], t)
    decreases |steps|
  {
    var u := Apply(s, steps[0]);
    OnlyTakenOutSleeps(s, steps[0], t);
    StepKeepsInv(s, steps[0]);
    if u.next[t] == SLEEPING {
      j := 0;
    } else {
      var i := ScheduledUntilTaken(u, steps[1..], t);
      j := i + 1;
      assert steps[..j][1..] == steps[1..][..i];
    }
  }

  /** What an iterator yields: the tasks it was given, from the last scheduled one, each once. */
  lemma {:induction false} NextVisitsTheTop(s: State, g: nat)
    requires Reachable(s) && Enabled(s, Next(g))
    ensures var u := Apply(s, Next(g)); |s.lists[g]| > 0 && u.lists[g] == s.lists[g][..|s.lists[g]| - 1]
    ensures |s.lists[g]| <= |s.taken[g]| && s.iters[g] == s.taken[g][|s.lists[g]| - 1]
    ensures Apply(s, Next(g)).next[s.iters[g]] == SLEEPING
  {
    ReachableIsOk(s);
    assert IterOk(s, g);
  }

  /** Nothing but its own steps changes what an iterator has still to visit. */
  lemma {:induction false} OthersKeepList(s: State, step: Step, g: nat)
    requires Enabled(s, step) && g < |s.iters| && step != Next(g) && step != DropNext(g)
    ensures var u := Apply(s, step);
      g < |u.iters| && u.lists[g] == s.lists[g] && u.taken[g] == s.taken[g] && u.iters[g] == s.iters[g]
  {
  }

  /** The task that one step makes iterator `g` visit, if any. */
  function VisitedNow(s: State, step: Step, g: nat): seq<nat> {
    if step == Next(g) && g < |s.iters| then [s.iters[g]] else []
  }

  /** The tasks that iterator `g` visits in a run, in order. */
  function Visited(s: State, steps: seq<Step>, g: nat): seq<nat>
    requires IsRun(s, steps)
    decreases |steps|
  {
    if steps == [] then []
    else VisitedNow(s, steps[0], g) + Visited(Apply(s, steps[0]), steps[1..], g)
  }

  predicate NotDropped(steps: seq<Step>, g: nat) {
    forall i :: 0 <= i < |steps| ==> steps[i] != DropNext(g)
  }

  lemma {:induction false} VisitsTop(s: State, step: Step, g: nat)
    requires Inv(s) && Enabled(s, step) && step != DropNext(g) && g < |s.iters|
    ensures var u := Apply(s, step);
      g < |u.iters| && g < |u.lists| && VisitedNow(s, step, g) + Reversed(u.lists[g]) == Reversed(s.lists[g])
  {
    assert IterOk(s, g);
    if step != Next(g) {
      OthersKeepList(s, step, g);
    }
  }

  lemma {:induction false} Regroup(a: seq<nat>, b: seq<nat>, c: seq<nat>)
    ensures (a + b) + c == a + (b + c)
  {
  }

  /** What an iterator visited in a run, and what it has still to visit, is what it had to visit before. */
  lemma {:induction false} VisitsInOrder(s: State, steps: seq<Step>, g: nat)
    requires Inv(s) && IsRun(s, steps) && g < |s.iters| && NotDropped(steps, g)
    ensures var u := After(s, steps);
      g < |u.lists| && Visited(s, steps, g) + Reversed(u.lists[g]) == Reversed(s.lists[g])
    decreases |steps|
  {
    if steps != [] {
      var u := Apply(s, steps[0]);
      StepKeepsInv(s, steps[0]);
      VisitsTop(s, steps[0], g);
      VisitsInOrder(u, steps[1..], g);
      Regroup(VisitedNow(s, steps[0], g), Visited(u, steps[1..], g), Reversed(After(u, steps[1..]).lists[g]));
    }
  }

  /**
    The tasks visited between the take of a list, by the iterator it creates, and the exhaustion of that
    iterator are the tasks that were scheduled, from the last to the first, whatever the threads do meanwhile.
  */
  lemma {:induction false} ExhaustedVisitedAll(s: State, n: nat, steps: seq<Step>, g: nat)
    requires Reachable(s) && Enabled(s, Take(n)) && g == |s.iters| && s.lists[g] != []
    requires IsRun(Apply(s, Take(n)), steps) && NotDropped(steps, g)
    requires g < |After(Apply(s, Take(n)), steps).iters| && After(Apply(s, Take(n)), steps).iters[g] == EMPTY
    ensures Visited(Apply(s, Take(n)), steps, g) == Reversed(s.lists[g])
  {
    TakeArms(s, n);
    var t := Apply(s, Take(n));
    ReachableIsOk(s);
    StepKeepsInv(s, Take(n));
    VisitsInOrder(t, steps, g);
    RunKeepsInv(t, steps);
    var u := After(t, steps);
    TopTells(u, g);
  }

  /** Notifications that were decided, whether or not they were sent. */
  function Decided(s: State): nat {
    s.pending + s.sent
  }

  predicate NoTake(steps: seq<Step>) {
    forall i :: 0 <= i < |steps| ==> !steps[i].Take?
  }

  /** The notification requested for `s.armed` tasks is due. */
  predicate Due(s: State) {
    Shaped(s) && s.armed > 0 && |s.lists[Last(s)]| >= s.armed
  }

  lemma {:induction false} StepDecides(s: State, step: Step)
    requires Inv(s) && Enabled(s, step) && !step.Take?
    ensures var u := Apply(s, step);
      && Decided(u) - Decided(s) == (if Due(u) && !Due(s) then 1 else 0)
      && (Due(s) ==> Due(u)) && u.armed == s.armed
  {
    StepKeepsInv(s, step);
  }

  /**
    Until the owner takes the list again, the parent is notified at most once, and exactly when
    as many tasks as were requested have been scheduled.
  */
  lemma {:induction false} NotifiedExactlyOnce(s: State, steps: seq<Step>)
    requires Inv(s) && IsRun(s, steps) && NoTake(steps)
    ensures var u := After(s, steps);
      && Decided(u) - Decided(s) == (if Due(u) && !Due(s) then 1 else 0)
      && (Due(s) ==> Due(u)) && u.armed == s.armed
    decreases |steps|
  {
    if steps != [] {
      StepDecides(s, steps[0]);
      StepKeepsInv(s, steps[0]);
      NotifiedExactlyOnce(Apply(s, steps[0]), steps[1..]);
    }
  }

  /** Arming: the list was found empty, and the next `n` tasks scheduled will notify the parent. */
  lemma {:induction false} TakeArms(s: State, n: nat)
    requires Reachable(s) && Enabled(s, Take(n))
    ensures var u := Apply(s, Take(n));
      if s.lists[|s.iters|] == [] then u.head == Head(EMPTY, n) && u.armed == n && !Due(u) && |u.iters| == |s.iters|
      else u.armed == 0 && |u.iters| == |s.iters| + 1 && u.lists[|s.iters|] == u.taken[|s.iters|] == s.lists[|s.iters|]
  {
    ReachableIsOk(s);
    if |s.lists[|s.iters|]| > 0 {
      assert ListOk(s, |s.iters|, |s.lists[|s.iters|]| - 1);
    }
  }

  /** Once the list was found empty and one task requested, the parent is notified once if any task is scheduled. */
  lemma {:induction false} NextWakeNotifiesOnce(v: State, steps: seq<Step>)
    requires Inv(v) && v.head == Head(EMPTY, 1) && v.armed == 1 && !Due(v) && IsRun(v, steps) && NoTake(steps)
    ensures Decided(After(v, steps)) - Decided(v) == (if After(v, steps).head.index != EMPTY then 1 else 0)
  {
    NotifiedExactlyOnce(v, steps);
    RunKeepsInv(v, steps);
    var u := After(v, steps);
    if |u.lists[Last(u)]| > 0 {
      assert ListOk(u, Last(u), |u.lists[Last(u)]| - 1);
    }
  }
}
