/**
  The injector queue: batches of tasks in buckets of bounded size, popped from the back. Single
  tasks are inserted in the bucket at the front, which moves to the back when full.
*/
module Injector {
  import opened Options

  /** The buckets after `insert_task`. */
  function Inserted<T>(inner: seq<seq<T>>, cap: nat, task: T): seq<seq<T>> {
    if |inner| == 0 then [[task]]
    else if |inner[0]| < cap then inner[0 := inner[0] + [task]]
    else inner[0 := [task]] + [inner[0]]
  }

  /** The buckets after `push_bucket`. */
  function Pushed<T>(inner: seq<seq<T>>, bucket: seq<T>): seq<seq<T>> {
    inner + [bucket]
  }

  /** All the tasks, whatever their bucket. */
  function Contents<T>(inner: seq<seq<T>>): multiset<T> {
    if |inner| == 0 then multiset{} else Contents(inner[..|inner| - 1]) + multiset(inner[|inner| - 1])
  }

  /** Every bucket holds at least one task and at most its capacity. */
  predicate Filled<T>(inner: seq<seq<T>>, cap: nat) {
    forall i :: 0 <= i < |inner| ==> 0 < |inner[i]| <= cap
  }

  lemma {:induction false} AddToBoth<T>(a: multiset<T>, b: multiset<T>, c: multiset<T>, d: multiset<T>, e: multiset<T>)
    requires a + c == b + d
    ensures (a + e) + c == (b + e) + d
  {
    assert (a + e) + c == (a + c) + e;
    assert (b + e) + d == (b + d) + e;
  }

  lemma {:induction false} Cancel<T>(a: multiset<T>, b: multiset<T>, c: multiset<T>)
    requires a + c == b + c
    ensures a == b
  {
    assert a == (a + c) - c;
    assert b == (b + c) - c;
  }

  lemma {:induction false} ContentsUpdate<T>(inner: seq<seq<T>>, i: nat, bucket: seq<T>)
    requires i < |inner|
    ensures Contents(inner[i := bucket]) + multiset(inner[i]) == Contents(inner) + multiset(bucket)
  {
    var n := |inner| - 1;
    var after := inner[i := bucket];
    if i < n {
      ContentsUpdate(inner[..n], i, bucket);
      assert after[..n] == inner[..n][i := bucket];
      assert inner[..n][i] == inner[i];
      AddToBoth(Contents(after[..n]), Contents(inner[..n]), multiset(inner[i]), multiset(bucket), multiset(inner[n]));
    } else {
      assert after[..n] == inner[..n];
      assert Contents(after) == Contents(inner[..n]) + multiset(bucket);
    }
  }

  lemma {:induction false} ContentsPushed<T>(inner: seq<seq<T>>, bucket: seq<T>)
    ensures Contents(Pushed(inner, bucket)) == Contents(inner) + multiset(bucket)
  {
    assert Pushed(inner, bucket)[..|inner|] == inner;
  }

  /** An insertion adds the task and nothing else, whichever bucket takes it. */
  lemma {:induction false} ContentsInserted<T>(inner: seq<seq<T>>, cap: nat, task: T)
    ensures Contents(Inserted(inner, cap, task)) == Contents(inner) + multiset{task}
  {
    if |inner| == 0 {
      assert [[task]][..0] == [];
      assert Contents([[task]]) == Contents<T>([]) + multiset([task]);
    } else if |inner[0]| < cap {
      ContentsUpdate(inner, 0, inner[0] + [task]);
      assert multiset(inner[0] + [task]) == multiset(inner[0]) + multiset{task};
      Cancel(Contents(Inserted(inner, cap, task)), Contents(inner) + multiset{task}, multiset(inner[0]));
    } else {
      ContentsUpdate(inner, 0, [task]);
      ContentsPushed(inner[0 := [task]], inner[0]);
    }
  }

  /** The buckets after tasks were inserted one after the other. */
  function InsertedAll<T>(inner: seq<seq<T>>, cap: nat, tasks: seq<T>): seq<seq<T>> {
    if |tasks| == 0 then inner
    else Inserted(InsertedAll(inner, cap, tasks[..|tasks| - 1]), cap, tasks[|tasks| - 1])
  }

  /** The full runs of `cap` tasks that others follow. */
  function Runs<T>(tasks: seq<T>, cap: nat): seq<seq<T>>
    requires cap >= 1
    decreases |tasks|
  {
    if |tasks| <= cap then [] else [tasks[..cap]] + Runs(tasks[cap..], cap)
  }

  /** The tasks after the last of these. */
  function Remainder<T>(tasks: seq<T>, cap: nat): seq<T>
    requires cap >= 1
    decreases |tasks|
  {
    if |tasks| <= cap then tasks else Remainder(tasks[cap..], cap)
  }

  /** One task more: it starts a new run exactly if the last one is full. */
  lemma {:induction false} OneTaskMore<T>(tasks: seq<T>, cap: nat, task: T)
    requires cap >= 1 && |tasks| > 0
    ensures 0 < |Remainder(tasks, cap)| <= cap
    ensures var front, rest := Remainder(tasks, cap), Runs(tasks, cap);
      if |front| == cap then Remainder(tasks + [task], cap) == [task] && Runs(tasks + [task], cap) == rest + [front]
      else Remainder(tasks + [task], cap) == front + [task] && Runs(tasks + [task], cap) == rest
    decreases |tasks|
  {
    if |tasks| > cap {
      OneTaskMore(tasks[cap..], cap, task);
      assert (tasks + [task])[cap..] == tasks[cap..] + [task] && (tasks + [task])[..cap] == tasks[..cap];
    } else if |tasks| == cap {
      assert (tasks + [task])[cap..] == [task] && (tasks + [task])[..cap] == tasks;
    }
  }

  lemma {:induction false} NextBucket<T>(inner: seq<seq<T>>, cap: nat, task: T, full: seq<T>, rest: seq<seq<T>>)
    requires inner == [full] + rest && |full| == cap
    ensures Inserted(inner, cap, task) == [[task]] + (rest + [full])
  {
    assert inner[0 := [task]] == [[task]] + rest;
  }

  lemma {:induction false} SameBucket<T>(inner: seq<seq<T>>, cap: nat, task: T, front: seq<T>, rest: seq<seq<T>>)
    requires inner == [front] + rest && |front| < cap
    ensures Inserted(inner, cap, task) == [front + [task]] + rest
  {
  }

  /**
    Tasks inserted in an empty queue fill buckets one after the other, in order: the full ones are at the back,
    the first filled first, and the one being filled is at the front.
  */
  lemma {:induction false} InsertedInOrder<T>(cap: nat, tasks: seq<T>)
    requires cap >= 1 && |tasks| > 0
    ensures InsertedAll([], cap, tasks) == [Remainder(tasks, cap)] + Runs(tasks, cap)
    decreases |tasks|
  {
    var n := |tasks| - 1;
    assert tasks == tasks[..n] + [tasks[n]];
    if n > 0 {
      var front, rest := Remainder(tasks[..n], cap), Runs(tasks[..n], cap);
      InsertedInOrder(cap, tasks[..n]);
      OneTaskMore(tasks[..n], cap, tasks[n]);
      if |front| == cap {
        NextBucket(InsertedAll([], cap, tasks[..n]), cap, tasks[n], front, rest);
      } else {
        SameBucket(InsertedAll([], cap, tasks[..n]), cap, tasks[n], front, rest);
      }
    } else {
      assert InsertedAll<T>([], cap, tasks[..0]) == [];
    }
  }

  /** The queue as the source keeps it; the methods run under the lock of `inner`. */
  class InjectorQueue<T(==)> {
    const capacity: nat
    var inner: seq<seq<T>>
    var isEmpty: bool

    predicate Valid()
      reads this
    {
      capacity >= 1 && Filled(inner, capacity) && (isEmpty <==> |inner| == 0)
    }

    ghost function Tasks(): multiset<T>
      reads this
    {
      Contents(inner)
    }

    constructor (capacity: nat)
      requires capacity >= 1
      ensures Valid() && this.capacity == capacity && Tasks() == multiset{}
    {
      this.capacity := capacity;
      inner := [];
      isEmpty := true;
    }

    /** No bucket is ever empty or over its capacity, and the task is the only change. */
    method InsertTask(task: T)
      requires Valid()
      modifies this`inner, this`isEmpty
      ensures Valid() && !isEmpty
      ensures inner == Inserted(old(inner), capacity, task)
      ensures Tasks() == old(Tasks()) + multiset{task}
    {
      ContentsInserted(inner, capacity, task);
      if |inner| > 0 {
        if |inner[0]| < capacity {
          inner := inner[0 := inner[0] + [task]];
        } else {
          var fullBucket := inner[0];
          inner := inner[0 := [task]];
          inner := inner + [fullBucket];
        }
        return;
      }
      inner := [[task]];
      isEmpty := false;
    }

    method PushBucket(bucket: seq<T>)
      requires Valid() && 0 < |bucket| <= capacity
      modifies this`inner, this`isEmpty
      ensures Valid() && !isEmpty
      ensures inner == Pushed(old(inner), bucket)
      ensures Tasks() == old(Tasks()) + multiset(bucket)
    {
      ContentsPushed(inner, bucket);
      var wasEmpty := |inner| == 0;
      inner := inner + [bucket];
      if wasEmpty {
        isEmpty := false;
      }
    }

    /** A bucket is found exactly when the queue holds a task, and it is never empty. */
    method PopBucket() returns (bucket: Option<seq<T>>)
      requires Valid()
      modifies this`inner, this`isEmpty
      ensures Valid()
      ensures bucket == None <==> old(|inner|) == 0
      ensures bucket == None ==> inner == old(inner) && old(Tasks()) == multiset{}
      ensures bucket != None ==> |bucket.value| > 0 && old(inner) == Pushed(inner, bucket.value)
      ensures bucket != None ==> old(Tasks()) == Tasks() + multiset(bucket.value)
    {
      if isEmpty {
        return None;
      }
      var n := |inner| - 1;
      bucket := Some(inner[n]);
      inner := inner[..n];
      if |inner| == 0 {
        isEmpty := true;
      }
    }
  }
}
