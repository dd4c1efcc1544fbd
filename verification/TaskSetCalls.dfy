/** What the calls of the task set do when they go on alone, from any state of a run. */
module TaskSetCalls {
  import opened Options
  import opened TaskSet
  import opened TaskSetRuns

  lemma {:induction false} Then(s: State, step: Step, rest: seq<Step>)
    requires Enabled(s, step) && IsRun(Apply(s, step), rest)
    ensures IsRun(s, [step] + rest) && After(s, [step] + rest) == After(Apply(s, step), rest)
  {
    assert ([step] + rest)[1..] == rest;
  }

  lemma {:induction false} OneStep(s: State, step: Step)
    requires Enabled(s, step)
    ensures IsRun(s, [step]) && After(s, [step]) == Apply(s, step)
  {
    assert IsRun(Apply(s, step), []);
    Then(s, step, []);
    assert [step] + [] == [step];
  }

  // ----- Waking -----

  /** Task `t` was added to the scheduled tasks, and the parent is to be notified if the countdown ends. */
  predicate Scheduled(s: State, u: State, t: nat) {
    && Shaped(s) && Shaped(u) && t < |s.next| == |u.next| && |u.iters| == |s.iters|
    && u.lists == s.lists[Last(s) := s.lists[Last(s)] + [t]] && u.iters == s.iters
    && u.next == s.next[t := s.head.index] && u.head == Head(t, Decremented(s.head.countdown))
    && u.pending == s.pending + (if s.head.countdown == 1 then 1 else 0) && u.sent == s.sent && u.count == s.count
    && u.armed == s.armed
  }

  lemma {:induction false} LinkedEnds(s: State, t: nat) returns (steps: seq<Step>)
    requires Inv(s) && t < |s.next| && s.pos[t].Inserting? && !s.pos[t].stale && s.head == s.pos[t].h
    ensures IsRun(s, steps) && Scheduled(s, After(s, steps), t)
  {
    assert TaskOk(s, t);
    OneStep(s, Push(t));
    steps := [Push(t)];
    assert s.next[t := s.head.index] == s.next;
  }

  lemma {:induction false} RelinkedEnds(s: State, t: nat) returns (steps: seq<Step>)
    requires Inv(s) && t < |s.next| && s.pos[t].Inserting? && s.pos[t].stale && s.head == s.pos[t].h
    ensures IsRun(s, steps) && Scheduled(s, After(s, steps), t)
  {
    StepKeepsInv(s, Relink(t));
    var rest := LinkedEnds(Apply(s, Relink(t)), t);
    Then(s, Relink(t), rest);
    steps := [Relink(t)] + rest;
    assert s.next[t := s.head.index][t := s.head.index] == s.next[t := s.head.index];
  }

  lemma {:induction false} FailedEnds(s: State, t: nat) returns (steps: seq<Step>)
    requires Inv(s) && t < |s.next| && s.pos[t].Inserting? && !s.pos[t].stale
    ensures IsRun(s, steps) && Scheduled(s, After(s, steps), t)
  {
    StepKeepsInv(s, Fail(t));
    var rest := RelinkedEnds(Apply(s, Fail(t)), t);
    Then(s, Fail(t), rest);
    steps := [Fail(t)] + rest;
  }

  /** A thread that is inserting a task, whatever it read before, ends with the task scheduled last. */
  lemma {:induction false} InsertionEndsAlone(s: State, t: nat) returns (steps: seq<Step>)
    requires Inv(s) && t < |s.next| && s.pos[t].Inserting?
    ensures IsRun(s, steps) && Scheduled(s, After(s, steps), t)
  {
    if !s.pos[t].stale {
      if s.head == s.pos[t].h {
        steps := LinkedEnds(s, t);
      } else {
        steps := FailedEnds(s, t);
      }
    } else {
      StepKeepsInv(s, Relink(t));
      var u := Apply(s, Relink(t));
      var rest;
      if u.head == u.pos[t].h {
        rest := LinkedEnds(u, t);
      } else {
        rest := FailedEnds(u, t);
      }
      Then(s, Relink(t), rest);
      steps := [Relink(t)] + rest;
      assert u.next[t := s.head.index] == s.next[t := s.head.index];
    }
  }

  /**
    A call to wake a task, from any state of a run and with any value of the head read before: a sleeping task
    is scheduled last, and a task that is scheduled already is left as it is.
  */
  lemma {:induction false} WakesAlone(s: State, t: nat, h: Head) returns (steps: seq<Step>)
    requires Inv(s) && t < |s.next| && h in s.heads
    ensures IsRun(s, steps)
    ensures if s.next[t] == SLEEPING then Scheduled(s, After(s, steps), t) else After(s, steps) == s
  {
    if s.next[t] == SLEEPING {
      StepKeepsInv(s, Begin(t, h));
      var u := Apply(s, Begin(t, h));
      var rest := InsertionEndsAlone(u, t);
      Then(s, Begin(t, h), rest);
      steps := [Begin(t, h)] + rest;
      assert u.next[t := s.head.index] == s.next[t := s.head.index];
    } else {
      OneStep(s, Confirm(t));
      steps := [Confirm(t)];
    }
  }

  /** A notification that was decided can be sent. */
  lemma {:induction false} NotifiesAlone(s: State)
    requires Inv(s) && s.pending > 0
    ensures Enabled(s, Notify) && Apply(s, Notify) == s.(pending := s.pending - 1, sent := s.sent + 1)
  {
  }

  // ----- Iterating -----

  /** The owner may take the list at any time, and resize the set: new tasks sleep, and none is forgotten. */
  lemma {:induction false} OwnerMayAct(s: State, n: nat)
    requires Inv(s)
    ensures n <= 0xFFFF_FFFF ==> Enabled(s, Take(n))
    ensures n <= EMPTY ==>
      && Enabled(s, Resize(n))
      && var u := Apply(s, Resize(n));
         && u.count == n <= |u.next| && s.next <= u.next && u.lists == s.lists && u.iters == s.iters && u.head == s.head
         && forall t: nat :: |s.next| <= t < |u.next| ==> u.next[t] == SLEEPING
  {
  }

  /** Iterator `g` has visited the tasks it had left, which sleep again, and nothing else was touched. */
  predicate Drained(s: State, u: State, g: nat) {
    && Shaped(s) && Shaped(u) && g < |s.iters| && u.lists == s.lists[g := []] && u.iters == s.iters[g := EMPTY]
    && |u.next| == |s.next| && u.head == s.head && u.pending == s.pending && u.sent == s.sent && u.count == s.count
    && forall t :: 0 <= t < |s.next| ==> u.next[t] == if t in s.lists[g] then SLEEPING else s.next[t]
  }

  lemma {:induction false} TopOf(s: State, g: nat)
    requires Inv(s) && g < |s.iters| && |s.lists[g]| > 0
    ensures var t := s.iters[g];
      && t == s.lists[g][|s.lists[g]| - 1] && t < |s.next| && t != EMPTY && t !in Init(s.lists[g])
      && s.next[t] == Top(Init(s.lists[g])) && s.lists[g] == Init(s.lists[g]) + [t]
  {
    assert IterOk(s, g) && ListOk(s, g, |s.lists[g]| - 1) && TaskOk(s, s.iters[g]);
    ListIsDistinct(s, g);
  }

  /** One task less. */
  lemma {:induction false} DrainsOne(s: State, v: State, u: State, g: nat)
    requires Inv(s) && g < |s.iters| && |s.lists[g]| > 0 && s.iters[g] < |s.next|
    requires Shaped(v) && v.lists == s.lists[g := Init(s.lists[g])] && v.next == s.next[s.iters[g] := SLEEPING]
    requires |v.iters| == |s.iters| && v.iters == s.iters[g := v.iters[g]]
    requires v.head == s.head && v.pending == s.pending && v.sent == s.sent && v.count == s.count
    requires Drained(v, u, g)
    ensures Drained(s, u, g)
  {
    TopOf(s, g);
    assert v.lists[g := []] == s.lists[g := []] && v.iters[g := EMPTY] == s.iters[g := EMPTY];
  }

  /** An iterator that goes on alone visits every task it was given, and then is exhausted. */
  lemma {:induction false} DrainsAlone(s: State, g: nat) returns (steps: seq<Step>)
    requires Inv(s) && g < |s.iters|
    ensures IsRun(s, steps) && Drained(s, After(s, steps), g)
    decreases |s.lists[g]|
  {
    TopTells(s, g);
    if |s.lists[g]| == 0 {
      steps := [];
      assert s.lists[g := []] == s.lists && s.iters[g := EMPTY] == s.iters;
    } else {
      TopOf(s, g);
      StepKeepsInv(s, Next(g));
      var v := Apply(s, Next(g));
      var rest := DrainsAlone(v, g);
      Then(s, Next(g), rest);
      steps := [Next(g)] + rest;
      DrainsOne(s, v, After(v, rest), g);
    }
  }

  /** Likewise for an iterator that is dropped: it discards the tasks that are left. */
  lemma {:induction false} DropsAlone(s: State, g: nat) returns (steps: seq<Step>)
    requires Inv(s) && g < |s.iters|
    ensures IsRun(s, steps) && Drained(s, After(s, steps), g)
    decreases |s.lists[g]|
  {
    TopTells(s, g);
    if |s.lists[g]| == 0 {
      steps := [];
      assert s.lists[g := []] == s.lists && s.iters[g := EMPTY] == s.iters;
    } else {
      var t := s.iters[g];
      TopOf(s, g);
      StepKeepsInv(s, DropNext(g));
      var w := Apply(s, DropNext(g));
      StepKeepsInv(w, DropSleep(t));
      var v := Apply(w, DropSleep(t));
      var rest := DropsAlone(v, g);
      Then(w, DropSleep(t), rest);
      Then(s, DropNext(g), [DropSleep(t)] + rest);
      steps := [DropNext(g)] + ([DropSleep(t)] + rest);
      DrainsOne(s, v, After(v, rest), g);
    }
  }
}
