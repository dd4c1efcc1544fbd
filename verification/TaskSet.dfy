/**
  The set of sub-tasks of a composite future: a Treiber stack of scheduled tasks linked by index,
  whose head also holds a countdown to the notification of the parent, one atomic access per step.

  Any number of threads wake any tasks, and the owner takes the list of scheduled tasks and
  iterates over it. A thread may act on any value that the head once had.
*/
module TaskSet {

  const SLEEPING: nat := 0xFFFF_FFFF
  const EMPTY: nat := 0xFFFF_FFFE

  /** The head: the index of the last scheduled task, and the countdown. */
  datatype Head = Head(index: nat, countdown: nat)

  /** Where a task is (auxiliary); `Inserting` holds the local variables of the thread that inserts it. */
  datatype Pos =
    | Asleep
    | Inserting(h: Head, stale: bool)   // by one thread, which last read `h`; `stale` if the link is not yet `h`
    | Listed(g: nat, k: nat)            // the `k`-th task from the bottom of list `g`
    | Dropping                          // removed from a list by the drop of an iterator

  datatype State = State(
    next: seq<nat>,
    head: Head,
    iters: seq<nat>,           // the next index of each iterator ever created
    count: nat,                // the number of active tasks
    pending: nat,              // notifications about to be sent
    sent: nat,                 // notifications sent
    // auxiliary
    pos: seq<Pos>,
    lists: seq<seq<nat>>,      // what each iterator has still to visit, and the shared list last, bottom first
    taken: seq<seq<nat>>,      // what each iterator started with
    heads: set<Head>,          // the values that the head had
    armed: nat)                // the notification count requested since the list was last found populated

  datatype Step =
    | Begin(t: nat, h: Head)   // links a sleeping task to a head read earlier
    | Confirm(t: nat)          // finds a task already scheduled
    | Push(t: nat)             // moves the head
    | Fail(t: nat)             // fails to move the head
    | Relink(t: nat)
    | Notify
    | Take(n: nat)
    | Next(g: nat)
    | DropNext(g: nat)
    | DropSleep(t: nat)
    | Resize(len: nat)

  function New(len: nat): State {
    State(seq(len, i => SLEEPING), Head(EMPTY, 0), [], len, 0, 0, seq(len, i => Asleep), [[]], [], {Head(EMPTY, 0)}, 0)
  }

  predicate Shaped(s: State) {
    && |s.pos| == |s.next| <= EMPTY
    && |s.lists| == |s.iters| + 1 && |s.taken| == |s.iters|
  }

  function Last(s: State): nat
    requires Shaped(s)
  {
    |s.iters|
  }

  predicate Enabled(s: State, step: Step) {
    && Shaped(s)
    && match step
       case Begin(t, h) => t < |s.next| && s.next[t] == SLEEPING && h in s.heads
       case Confirm(t) => t < |s.next| && s.next[t] != SLEEPING
       case Push(t) => t < |s.next| && s.pos[t].Inserting? && !s.pos[t].stale && s.head == s.pos[t].h
       case Fail(t) => t < |s.next| && s.pos[t].Inserting? && !s.pos[t].stale
       case Relink(t) => t < |s.next| && s.pos[t].Inserting? && s.pos[t].stale
       case Notify => s.pending > 0
       case Take(n) => n <= 0xFFFF_FFFF
       case Next(g) => g < |s.iters| && s.iters[g] != EMPTY && s.iters[g] < |s.next|
       case DropNext(g) => g < |s.iters| && s.iters[g] != EMPTY && s.iters[g] < |s.next|
       case DropSleep(t) => t < |s.next| && s.pos[t].Dropping?
       case Resize(len) => len <= EMPTY
  }

  /** A step of a thread waking a task; the other steps are the owner's. */
  predicate IsWake(step: Step) {
    step.Begin? || step.Confirm? || step.Push? || step.Fail? || step.Relink? || step.Notify?
  }

  function Decremented(countdown: nat): nat {
    if countdown == 0 then 0 else countdown - 1
  }

  function Init(list: seq<nat>): seq<nat> {
    if |list| == 0 then [] else list[..|list| - 1]
  }

  function ApplyWake(s: State, step: Step): State
    requires Enabled(s, step) && IsWake(step)
  {
    match step
    case Begin(t, h) => s.(next := s.next[t := h.index], pos := s.pos[t := Inserting(h, false)])
    case Confirm(t) => s
    case Push(t) =>
      var h := Head(t, Decremented(s.head.countdown));
      var g := Last(s);
      s.(head := h, heads := s.heads + {h},
         pending := if s.head.countdown == 1 then s.pending + 1 else s.pending,
         pos := s.pos[t := Listed(g, |s.lists[g]|)],
         lists := s.lists[g := s.lists[g] + [t]])
    case Fail(t) => s.(pos := s.pos[t := Inserting(s.head, true)])
    case Relink(t) => s.(next := s.next[t := s.pos[t].h.index], pos := s.pos[t := Inserting(s.pos[t].h, false)])
    case Notify => s.(pending := s.pending - 1, sent := s.sent + 1)
  }

  function ApplyOwner(s: State, step: Step): State
    requires Enabled(s, step) && !IsWake(step)
  {
    match step
    case Take(n) =>
      if s.head.index == EMPTY then
        var h := Head(EMPTY, n);
        s.(head := h, heads := s.heads + {h}, armed := n)
      else
        var h := Head(EMPTY, 0);
        s.(head := h, heads := s.heads + {h}, armed := 0,
           iters := s.iters + [s.head.index], taken := s.taken + [s.lists[Last(s)]], lists := s.lists + [[]])
    case Next(g) =>
      var t := s.iters[g];
      s.(iters := s.iters[g := s.next[t]], next := s.next[t := SLEEPING], pos := s.pos[t := Asleep],
         lists := s.lists[g := Init(s.lists[g])])
    case DropNext(g) =>
      var t := s.iters[g];
      s.(iters := s.iters[g := s.next[t]], pos := s.pos[t := Dropping], lists := s.lists[g := Init(s.lists[g])])
    case DropSleep(t) => s.(next := s.next[t := SLEEPING], pos := s.pos[t := Asleep])
    case Resize(len) =>
      var more := if len > |s.next| then len - |s.next| else 0;
      s.(count := len, next := s.next + seq(more, i => SLEEPING), pos := s.pos + seq(more, i => Asleep))
  }

  function Apply(s: State, step: Step): State
    requires Enabled(s, step)
  {
    if IsWake(step) then ApplyWake(s, step) else ApplyOwner(s, step)
  }

  predicate IsRun(s: State, steps: seq<Step>)
    decreases |steps|
  {
    steps == [] || (Enabled(s, steps[0]) && IsRun(Apply(s, steps[0]), steps[1..]))
  }

  function After(s: State, steps: seq<Step>): State
    requires IsRun(s, steps)
    decreases |steps|
  {
    if steps == [] then s else After(Apply(s, steps[0]), steps[1..])
  }

  // ----- The invariant -----

  /** The index at the top of a list. */
  function Top(list: seq<nat>): nat {
    if |list| == 0 then EMPTY else list[|list| - 1]
  }

  /** A head value that a thread may link a task to. */
  predicate IsIndex(s: State, index: nat) {
    index == EMPTY || index < |s.next|
  }

  /** A task is in exactly one place, and its link tells whether it sleeps and what it is linked to. */
  predicate TaskOk(s: State, t: nat)
    requires Shaped(s)
  {
    t < |s.next| ==>
      match s.pos[t]
      case Asleep => s.next[t] == SLEEPING
      case Inserting(h, stale) => IsIndex(s, h.index) && IsIndex(s, s.next[t]) && (!stale ==> s.next[t] == h.index)
      case Listed(g, k) =>
        && g < |s.lists| && k < |s.lists[g]| && s.lists[g][k] == t
        && s.next[t] == Top(s.lists[g][..k]) && IsIndex(s, s.next[t])
      case Dropping => IsIndex(s, s.next[t])
  }

  /** Every task of a list knows its place: lists are duplicate-free and disjoint. */
  predicate ListOk(s: State, g: nat, k: nat)
    requires Shaped(s)
  {
    g < |s.lists| && k < |s.lists[g]| ==> s.lists[g][k] < |s.next| && s.pos[s.lists[g][k]] == Listed(g, k)
  }

  /** An iterator visits what it was given, from the top. */
  predicate IterOk(s: State, g: nat)
    requires Shaped(s)
  {
    g < |s.iters| ==> s.iters[g] == Top(s.lists[g]) && s.lists[g] <= s.taken[g]
  }

  /** The head is the top of the shared list, and its countdown is what is left of the request. */
  predicate HeadOk(s: State)
    requires Shaped(s)
  {
    var list := s.lists[Last(s)];
    && s.head.index == Top(list) && s.head in s.heads && s.armed <= 0xFFFF_FFFF
    && s.head.countdown == (if s.armed > |list| then s.armed - |list| else 0)
  }

  predicate HeadsOk(s: State, h: Head) {
    h in s.heads ==> IsIndex(s, h.index) && h.countdown <= 0xFFFF_FFFF
  }

  lemma {:induction false} WakeKeepsTask(s: State, step: Step, t: nat)
    requires Enabled(s, step) && IsWake(step) && TaskOk(s, t) && HeadOk(s) && HeadsOk(s, s.head)
    requires step.Begin? ==> HeadsOk(s, step.h)
    ensures Shaped(ApplyWake(s, step)) && TaskOk(ApplyWake(s, step), t)
  {
  }

  lemma {:induction false} WakeKeepsList(s: State, step: Step, g: nat, k: nat)
    requires Enabled(s, step) && IsWake(step) && ListOk(s, g, k)
    requires step.Begin? ==> TaskOk(s, step.t)
    ensures Shaped(ApplyWake(s, step)) && ListOk(ApplyWake(s, step), g, k)
  {
  }

  lemma {:induction false} WakeKeepsHead(s: State, step: Step, h: Head, g: nat)
    requires Enabled(s, step) && IsWake(step) && HeadOk(s) && HeadsOk(s, h) && IterOk(s, g)
    ensures var u := ApplyWake(s, step); Shaped(u) && HeadOk(u) && HeadsOk(u, h) && IterOk(u, g)
  {
  }

  lemma {:induction false} OwnerKeepsTask(s: State, step: Step, t: nat)
    requires Enabled(s, step) && !IsWake(step) && TaskOk(s, t)
    requires (step.Next? || step.DropNext?) ==> IterOk(s, step.g) && ListOk(s, step.g, |s.lists[step.g]| - 1)
    ensures Shaped(ApplyOwner(s, step)) && TaskOk(ApplyOwner(s, step), t)
  {
    if t < |s.next| && s.pos[t].Listed? {
      var list, k := s.lists[s.pos[t].g], s.pos[t].k;
      assert k < |list| - 1 ==> Init(list)[..k] == list[..k];
    }
  }

  lemma {:induction false} OwnerKeepsList(s: State, step: Step, g: nat, k: nat)
    requires Enabled(s, step) && !IsWake(step) && ListOk(s, g, k)
    requires (step.Next? || step.DropNext?) ==> IterOk(s, step.g) && ListOk(s, step.g, |s.lists[step.g]| - 1)
    ensures Shaped(ApplyOwner(s, step)) && ListOk(ApplyOwner(s, step), g, k)
  {
  }

  lemma {:induction false} OwnerKeepsHead(s: State, step: Step, h: Head, g: nat)
    requires Enabled(s, step) && !IsWake(step) && HeadOk(s) && HeadsOk(s, h) && IterOk(s, g)
    requires (step.Next? || step.DropNext?) ==>
      IterOk(s, step.g) && ListOk(s, step.g, |s.lists[step.g]| - 1) && TaskOk(s, s.iters[step.g])
    requires step.Take? && |s.lists[Last(s)]| > 0 ==> ListOk(s, Last(s), |s.lists[Last(s)]| - 1)
    ensures var u := ApplyOwner(s, step); Shaped(u) && HeadOk(u) && HeadsOk(u, h) && IterOk(u, g)
  {
  }

  ghost predicate Inv(s: State) {
    && Shaped(s) && HeadOk(s)
    && (forall t :: 0 <= t < |s.next| ==> TaskOk(s, t))
    && (forall g, k :: 0 <= g < |s.lists| && 0 <= k < |s.lists[g]| ==> ListOk(s, g, k))
    && (forall g :: 0 <= g < |s.iters| ==> IterOk(s, g))
    && (forall h :: h in s.heads ==> HeadsOk(s, h))
  }

  lemma {:induction false} NewIsOk(len: nat)
    requires len <= EMPTY
    ensures Inv(New(len))
  {
  }

  lemma {:induction false} WakeKeepsInv(s: State, step: Step)
    requires Inv(s) && Enabled(s, step) && IsWake(step)
    ensures Inv(Apply(s, step))
  {
    var u := ApplyWake(s, step);
    assert HeadsOk(s, s.head);
    WakeKeepsHead(s, step, s.head, 0);
    forall t | 0 <= t < |u.next| ensures TaskOk(u, t) {
      WakeKeepsTask(s, step, t);
    }
    forall g, k | 0 <= g < |u.lists| && 0 <= k < |u.lists[g]| ensures ListOk(u, g, k) {
      WakeKeepsList(s, step, g, k);
    }
    forall g | 0 <= g < |u.iters| ensures IterOk(u, g) {
      WakeKeepsHead(s, step, s.head, g);
    }
    forall h | h in u.heads ensures HeadsOk(u, h) {
      WakeKeepsHead(s, step, h, 0);
    }
  }

  lemma {:induction false} OwnerKeepsInv(s: State, step: Step)
    requires Inv(s) && Enabled(s, step) && !IsWake(step)
    ensures Inv(Apply(s, step))
  {
    var u := ApplyOwner(s, step);
    OwnerKeepsHead(s, step, s.head, 0);
    forall t | 0 <= t < |u.next| ensures TaskOk(u, t) {
      OwnerKeepsTask(s, step, t);
    }
    forall g, k | 0 <= g < |u.lists| && 0 <= k < |u.lists[g]| ensures ListOk(u, g, k) {
      OwnerKeepsList(s, step, g, k);
    }
    forall g | 0 <= g < |u.iters| ensures IterOk(u, g) {
      OwnerKeepsHead(s, step, s.head, g);
    }
    forall h | h in u.heads ensures HeadsOk(u, h) {
      OwnerKeepsHead(s, step, h, 0);
    }
  }

  lemma {:induction false} RunKeepsInv(s: State, steps: seq<Step>)
    requires Inv(s) && IsRun(s, steps)
    ensures Inv(After(s, steps))
    decreases |steps|
  {
    if steps != [] {
      if IsWake(steps[0]) {
        WakeKeepsInv(s, steps[0]);
      } else {
        OwnerKeepsInv(s, steps[0]);
      }
      RunKeepsInv(Apply(s, steps[0]), steps[1..]);
    }
  }
}
