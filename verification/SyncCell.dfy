/**
  The synchronized cell: one writer and any number of readers share a value that is stored and
  loaded field by field, guarded by a sequence count that is odd during a write. The count is a
  machine word, of `wrap` values; one atomic access per step.
*/
module SyncCell {

  type Value = seq<int>

  datatype Writer = Resting | Storing(v: Value, done: nat)

  /** A reader: the count it read and the fields it loaded so far, and the values it returned. */
  datatype Reader =
    | Away(results: seq<Value>, ranks: seq<nat>)
    | Loading(first: nat, loaded: Value, results: seq<Value>, ranks: seq<nat>)

  /**
    `count` does not wrap here: the word is its remainder. Auxiliary: `history` holds all values
    written, in order, and `ranks` the place in the history of each value returned.
  */
  datatype State = State(
    wrap: nat,
    cells: Value,
    count: nat,
    writer: Writer,
    history: seq<Value>,
    readers: seq<Reader>)

  datatype Step =
    | Begin(v: Value)
    | Store
    | Finish
    | Start(r: nat)
    | Load(r: nat)
    | Check(r: nat)

  function New(wrap: nat, v: Value, readers: nat): State {
    State(wrap, v, 0, Resting, [v], seq(readers, i => Away([], [])))
  }

  predicate Enabled(s: State, step: Step) {
    && s.wrap > 0 && |s.history| > 0
    && match step
       case Begin(v) => s.writer.Resting? && |v| == |s.cells|
       case Store => s.writer.Storing? && s.writer.done < |s.cells| && s.writer.done < |s.writer.v|
       case Finish => s.writer.Storing? && s.writer.done == |s.cells|
       case Start(r) => r < |s.readers| && s.readers[r].Away?
       case Load(r) => r < |s.readers| && s.readers[r].Loading? && |s.readers[r].loaded| < |s.cells|
       case Check(r) => r < |s.readers| && s.readers[r].Loading? && |s.readers[r].loaded| == |s.cells|
  }

  /** The two counts read by reader `r` are the same word. */
  predicate SameWord(s: State, r: nat)
    requires s.wrap > 0 && r < |s.readers| && s.readers[r].Loading?
  {
    s.count % s.wrap == s.readers[r].first % s.wrap
  }

  function Apply(s: State, step: Step): State
    requires Enabled(s, step)
  {
    match step
    case Begin(v) => s.(count := s.count + 1, writer := Storing(v, 0))
    case Store =>
      s.(cells := s.cells[s.writer.done := s.writer.v[s.writer.done]], writer := Storing(s.writer.v, s.writer.done + 1))
    case Finish => s.(count := s.count + 1, history := s.history + [s.writer.v], writer := Resting)
    case Start(r) =>
      var x := s.readers[r];
      if s.count % s.wrap % 2 == 1 then s else s.(readers := s.readers[r := Loading(s.count, [], x.results, x.ranks)])
    case Load(r) =>
      var x := s.readers[r];
      s.(readers := s.readers[r := x.(loaded := x.loaded + [s.cells[|x.loaded|]])])
    case Check(r) =>
      var x := s.readers[r];
      s.(readers := s.readers[r := if SameWord(s, r) then Away(x.results + [x.loaded], x.ranks + [x.first / 2])
                                   else Away(x.results, x.ranks)])
  }

  /** The writer did not go round all values of the count since reader `r` read it. */
  predicate NotLapped(s: State, step: Step) {
    step.Check? && step.r < |s.readers| && s.readers[step.r].Loading? ==> s.count < s.readers[step.r].first + s.wrap
  }

  predicate IsRun(s: State, steps: seq<Step>)
    decreases |steps|
  {
    steps == [] || (Enabled(s, steps[0]) && IsRun(Apply(s, steps[0]), steps[1..]))
  }

  function After(s: State, steps: seq<Step>): State
    requires IsRun(s, steps)
    decreases |steps|
  {
    if steps == [] then s else After(Apply(s, steps[0]), steps[1..])
  }

  /** A run in which no read spans as many writes as half the values of the count. */
  predicate IsUnlapped(s: State, steps: seq<Step>)
    requires IsRun(s, steps)
    decreases |steps|
  {
    steps == [] || (NotLapped(s, steps[0]) && IsUnlapped(Apply(s, steps[0]), steps[1..]))
  }

  // ----- The invariant -----

  /** The count tells whether a write is in progress, and how many were finished. */
  predicate WriterOk(s: State) {
    && s.wrap > 0 && s.wrap % 2 == 0 && |s.history| > 0
    && match s.writer
       case Resting => s.count == 2 * (|s.history| - 1) && s.cells == s.history[|s.history| - 1]
       case Storing(v, done) =>
         s.count == 2 * (|s.history| - 1) + 1 && |v| == |s.cells| && done <= |v| && s.cells[..done] == v[..done]
  }

  /** The count a reader read was even, and its fields are the current ones if no write began since. */
  predicate LoadOk(s: State, r: nat) {
    r < |s.readers| && s.readers[r].Loading? ==>
      var x := s.readers[r];
      && x.first % 2 == 0 && x.first <= s.count && |x.loaded| <= |s.cells| && x.first / 2 < |s.history|
      && (s.count == x.first ==> x.loaded == s.cells[..|x.loaded|])
  }

  ghost predicate Inv(s: State) {
    WriterOk(s) && forall r :: 0 <= r < |s.readers| ==> LoadOk(s, r)
  }

  lemma {:induction false} StepKeepsWriter(s: State, step: Step)
    requires WriterOk(s) && Enabled(s, step)
    ensures WriterOk(Apply(s, step))
  {
    if step.Store? {
      var t, d := Apply(s, step), s.writer.done;
      assert t.cells[..d + 1] == s.cells[..d] + [s.writer.v[d]];
      assert s.writer.v[..d + 1] == s.writer.v[..d] + [s.writer.v[d]];
    }
    if step.Finish? {
      assert s.cells[..|s.cells|] == s.cells && s.writer.v[..|s.cells|] == s.writer.v;
    }
  }

  /** The parity of the word is that of the count. */
  lemma {:induction false} Parity(count: nat, wrap: nat)
    requires wrap > 0 && wrap % 2 == 0
    ensures count % wrap % 2 == count % 2
  {
    var h, q := wrap / 2, count / wrap;
    assert count == wrap * q + count % wrap;
    assert wrap * q == 2 * (h * q);
  }

  lemma {:induction false} StepKeepsLoad(s: State, step: Step, r: nat)
    requires WriterOk(s) && Enabled(s, step) && LoadOk(s, r)
    ensures LoadOk(Apply(s, step), r)
  {
    if step.Start? {
      Parity(s.count, s.wrap);
    }
  }

  lemma {:induction false} StepKeepsInv(s: State, step: Step)
    requires Inv(s) && Enabled(s, step)
    ensures Inv(Apply(s, step))
  {
    StepKeepsWriter(s, step);
    forall r | 0 <= r < |Apply(s, step).readers| ensures LoadOk(Apply(s, step), r) {
      StepKeepsLoad(s, step, r);
    }
  }

  lemma {:induction false} RunKeepsInv(s: State, steps: seq<Step>)
    requires Inv(s) && IsRun(s, steps)
    ensures Inv(After(s, steps))
    decreases |steps|
  {
    if steps != [] {
      StepKeepsInv(s, steps[0]);
      RunKeepsInv(Apply(s, steps[0]), steps[1..]);
    }
  }

  ghost predicate Reachable(s: State) {
    exists wrap: nat, v: Value, readers: nat, steps: seq<Step> :: IsHistory(wrap, v, readers, steps, s)
  }

  ghost predicate IsHistory(wrap: nat, v: Value, readers: nat, steps: seq<Step>, s: State) {
    wrap > 0 && wrap % 2 == 0 && IsRun(New(wrap, v, readers), steps) && s == After(New(wrap, v, readers), steps)
  }

  lemma {:induction false} ReachableIsOk(s: State)
    requires Reachable(s)
    ensures Inv(s)
  {
    var wrap: nat, v: Value, readers: nat, steps: seq<Step> :| IsHistory(wrap, v, readers, steps, s);
    assert Inv(New(wrap, v, readers));
    RunKeepsInv(New(wrap, v, readers), steps);
  }

  // ----- What a read returns -----

  lemma {:induction false} SameRemainder(a: nat, b: nat, w: nat)
    requires w > 0 && a <= b < a + w && a % w == b % w
    ensures a == b
  {
    var x, y := a / w, b / w;
    assert a == w * x + a % w && b == w * y + b % w;
    if x < y {
      assert w * y == w * x + w * (y - x);
      Grows(w, y - x);
    } else if y < x {
      assert w * x == w * y + w * (x - y);
      Grows(w, x - y);
    }
  }

  lemma {:induction false} Grows(w: nat, d: nat)
    requires d > 0
    ensures w * d >= w
  {
  }

  /** The exact condition: a read that passes the check saw no write begin if and only if it was not lapped. */
  lemma {:induction false} PassesExactly(s: State, r: nat)
    requires Reachable(s) && Enabled(s, Check(r)) && SameWord(s, r)
    ensures NotLapped(s, Check(r)) <==> s.count == s.readers[r].first
  {
    ReachableIsOk(s);
    assert LoadOk(s, r);
    if NotLapped(s, Check(r)) {
      SameRemainder(s.readers[r].first, s.count, s.wrap);
    }
  }

  /**
    No torn read: when a read that was not lapped succeeds, no write began since it read the count,
    and the fields loaded are the value that is current at that instant, entirely.
  */
  lemma {:induction false} SuccessfulReadIsWhole(s: State, r: nat)
    requires Reachable(s) && Enabled(s, Check(r)) && NotLapped(s, Check(r)) && SameWord(s, r)
    ensures s.writer.Resting? && s.readers[r].loaded == s.cells == s.history[|s.history| - 1]
    ensures s.readers[r].first / 2 == |s.history| - 1
    ensures Apply(s, Check(r)).readers[r].results == s.readers[r].results + [s.history[|s.history| - 1]]
  {
    ReachableIsOk(s);
    assert LoadOk(s, r);
    PassesExactly(s, r);
    assert s.cells[..|s.cells|] == s.cells;
  }

  /** A read fails only if a write began since it read the count; either way the reader may start again. */
  lemma {:induction false} UndisturbedReadSucceeds(s: State, r: nat)
    requires Reachable(s) && Enabled(s, Check(r)) && NotLapped(s, Check(r))
    ensures var x, y := s.readers[r], Apply(s, Check(r)).readers[r];
      y.Away? && y.results == if s.count == x.first then x.results + [s.cells] else x.results
  {
    ReachableIsOk(s);
    assert LoadOk(s, r);
    if SameWord(s, r) {
      PassesExactly(s, r);
    }
    assert s.cells[..|s.cells|] == s.cells;
  }

  // ----- The order of reads -----

  /** What a reader returned was written, in that order, and no later than what it may return next. */
  predicate ResultsOk(results: seq<Value>, ranks: seq<nat>, history: seq<Value>, last: nat) {
    && |results| == |ranks|
    && (forall i :: 0 <= i < |ranks| ==> ranks[i] <= last && ranks[i] < |history| && results[i] == history[ranks[i]])
    && (forall i, j :: 0 <= i < j < |ranks| ==> ranks[i] <= ranks[j])
  }

  predicate ReaderOk(s: State, r: nat) {
    r < |s.readers| && |s.history| > 0 ==>
      match s.readers[r]
      case Away(results, ranks) => ResultsOk(results, ranks, s.history, |s.history| - 1)
      case Loading(first, loaded, results, ranks) => ResultsOk(results, ranks, s.history, first / 2)
  }

  lemma {:induction false} StepKeepsReader(s: State, step: Step, r: nat)
    requires WriterOk(s) && LoadOk(s, r) && Enabled(s, step) && NotLapped(s, step) && ReaderOk(s, r)
    ensures ReaderOk(Apply(s, step), r)
  {
    if step.Check? && step.r == r && SameWord(s, r) {
      SameRemainder(s.readers[r].first, s.count, s.wrap);
      assert s.cells[..|s.cells|] == s.cells;
    }
    if step.Start? {
      Parity(s.count, s.wrap);
    }
  }

  lemma {:induction false} RunKeepsReader(s: State, steps: seq<Step>, r: nat)
    requires Inv(s) && IsRun(s, steps) && IsUnlapped(s, steps) && r < |s.readers| && ReaderOk(s, r)
    ensures r < |After(s, steps).readers| && ReaderOk(After(s, steps), r)
    decreases |steps|
  {
    if steps != [] {
      assert LoadOk(s, r);
      StepKeepsInv(s, steps[0]);
      StepKeepsReader(s, steps[0], r);
      RunKeepsReader(Apply(s, steps[0]), steps[1..], r);
    }
  }

  /** In a run without lapped reads, all a reader returned was written, and in the order in which it was written. */
  lemma {:induction false} ReadsFollowWriteOrder(wrap: nat, v: Value, readers: nat, steps: seq<Step>, s: State, r: nat,
                                                 i: nat, j: nat)
    requires IsHistory(wrap, v, readers, steps, s) && IsUnlapped(New(wrap, v, readers), steps) && r < readers
    requires r < |s.readers| && i <= j < |s.readers[r].results|
    ensures var x := s.readers[r];
      && |x.ranks| == |x.results| && x.ranks[i] <= x.ranks[j] < |s.history|
      && x.results[i] == s.history[x.ranks[i]] && x.results[j] == s.history[x.ranks[j]]
  {
    assert Inv(New(wrap, v, readers));
    RunKeepsReader(New(wrap, v, readers), steps, r);
    RunKeepsInv(New(wrap, v, readers), steps);
  }

  // ----- Operations taken alone -----

  lemma {:induction false} RunConcat(s: State, a: seq<Step>, b: seq<Step>)
    requires IsRun(s, a) && IsRun(After(s, a), b)
    ensures IsRun(s, a + b) && After(s, a + b) == After(After(s, a), b)
    decreases |a|
  {
    if a == [] {
      assert a + b == b;
    } else {
      RunConcat(Apply(s, a[0]), a[1..], b);
      assert (a + b)[1..] == a[1..] + b;
    }
  }

  lemma {:induction false} OneStep(s: State, step: Step)
    requires Enabled(s, step)
    ensures IsRun(s, [step]) && After(s, [step]) == Apply(s, step)
  {
    assert [step][1..] == [];
    assert IsRun(Apply(s, step), []);
  }

  /** A read starts if and only if no write is in progress, whatever the count. */
  lemma {:induction false} StartsExactly(s: State, r: nat)
    requires Reachable(s) && Enabled(s, Start(r))
    ensures Apply(s, Start(r)).readers[r].Loading? <==> s.writer.Resting?
    ensures !s.writer.Resting? ==> Apply(s, Start(r)) == s
  {
    ReachableIsOk(s);
    Parity(s.count, s.wrap);
  }

  function Repeated(step: Step, n: nat): (steps: seq<Step>)
    ensures |steps| == n && forall i :: 0 <= i < n ==> steps[i] == step
  {
    seq(n, _ => step)
  }

  /** The fields that a reader has still to load, loaded one after the other. */
  lemma {:induction false} LoadsAlone(s: State, r: nat, n: nat)
    requires s.wrap > 0 && |s.history| > 0 && r < |s.readers| && s.readers[r].Loading?
    requires |s.readers[r].loaded| + n == |s.cells| && s.readers[r].loaded == s.cells[..|s.readers[r].loaded|]
    ensures IsRun(s, Repeated(Load(r), n))
    ensures After(s, Repeated(Load(r), n)) == s.(readers := s.readers[r := s.readers[r].(loaded := s.cells)])
    decreases n
  {
    if n == 0 {
      assert s.readers[r].loaded == s.cells;
    } else {
      var t := Apply(s, Load(r));
      var k := |s.readers[r].loaded|;
      assert s.cells[..k + 1] == s.cells[..k] + [s.cells[k]];
      LoadsAlone(t, r, n - 1);
      assert Repeated(Load(r), n)[1..] == Repeated(Load(r), n - 1);
    }
  }

  function ReadSteps(r: nat, fields: nat): seq<Step> {
    [Start(r)] + (Repeated(Load(r), fields) + [Check(r)])
  }

  /** A read that nothing disturbs, while no write is in progress, is a run, and returns the current value. */
  lemma {:induction false} ReadsAlone(s: State, r: nat)
    requires Reachable(s) && s.writer.Resting? && r < |s.readers| && s.readers[r].Away?
    ensures IsRun(s, ReadSteps(r, |s.cells|))
    ensures var t := After(s, ReadSteps(r, |s.cells|));
      && t.(readers := s.readers) == s && |t.readers| == |s.readers|
      && t.readers[r].Away? && t.readers[r].results == s.readers[r].results + [s.history[|s.history| - 1]]
      && forall i :: 0 <= i < |s.readers| && i != r ==> t.readers[i] == s.readers[i]
  {
    ReachableIsOk(s);
    StartsExactly(s, r);
    var t := Apply(s, Start(r));
    OneStep(s, Start(r));
    LoadsAlone(t, r, |s.cells|);
    var u := After(t, Repeated(Load(r), |s.cells|));
    OneStep(u, Check(r));
    RunConcat(t, Repeated(Load(r), |s.cells|), [Check(r)]);
    RunConcat(s, [Start(r)], Repeated(Load(r), |s.cells|) + [Check(r)]);
  }

  /** The fields that the writer has still to store, stored one after the other. */
  lemma {:induction false} StoresAlone(s: State, n: nat)
    requires s.wrap > 0 && |s.history| > 0 && s.writer.Storing? && |s.writer.v| == |s.cells| == s.writer.done + n
    requires s.cells[..s.writer.done] == s.writer.v[..s.writer.done]
    ensures IsRun(s, Repeated(Store, n))
    ensures After(s, Repeated(Store, n)) == s.(cells := s.writer.v, writer := Storing(s.writer.v, |s.writer.v|))
    decreases n
  {
    var d, v := s.writer.done, s.writer.v;
    if n == 0 {
      assert s.cells == s.cells[..d] && v == v[..d];
    } else {
      var t := Apply(s, Store);
      assert t.cells[..d + 1] == s.cells[..d] + [v[d]];
      assert v[..d + 1] == v[..d] + [v[d]];
      StoresAlone(t, n - 1);
      assert Repeated(Store, n)[1..] == Repeated(Store, n - 1);
    }
  }

  function WriteSteps(v: Value): seq<Step> {
    [Begin(v)] + (Repeated(Store, |v|) + [Finish])
  }

  /** A write is a run from any state in which the writer is at rest; it changes the value, and ends. */
  lemma {:induction false} WritesAlone(s: State, v: Value)
    requires s.wrap > 0 && |s.history| > 0 && s.writer.Resting? && |s.cells| == |v|
    ensures IsRun(s, WriteSteps(v))
    ensures After(s, WriteSteps(v)) == s.(cells := v, count := s.count + 2, history := s.history + [v])
  {
    var t := Apply(s, Begin(v));
    OneStep(s, Begin(v));
    StoresAlone(t, |v|);
    var u := After(t, Repeated(Store, |v|));
    OneStep(u, Finish);
    RunConcat(t, Repeated(Store, |v|), [Finish]);
    RunConcat(s, [Begin(v)], Repeated(Store, |v|) + [Finish]);
  }

  lemma {:induction false} ReachableRuns(s: State, more: seq<Step>)
    requires Reachable(s) && IsRun(s, more)
    ensures Reachable(After(s, more))
  {
    var wrap: nat, v: Value, readers: nat, steps: seq<Step> :| IsHistory(wrap, v, readers, steps, s);
    RunConcat(New(wrap, v, readers), steps, more);
    assert IsHistory(wrap, v, readers, steps + more, After(s, more));
  }

  /** A value written is what the next read returns, in every run. */
  lemma {:induction false} ReadReturnsWritten(s: State, v: Value, r: nat)
    requires Reachable(s) && s.writer.Resting? && |s.cells| == |v| && r < |s.readers| && s.readers[r].Away?
    ensures IsRun(s, WriteSteps(v) + ReadSteps(r, |v|))
    ensures var t := After(s, WriteSteps(v) + ReadSteps(r, |v|));
      r < |t.readers| && t.readers[r].Away? && t.readers[r].results == s.readers[r].results + [v]
  {
    ReachableIsOk(s);
    WritesAlone(s, v);
    ReachableRuns(s, WriteSteps(v));
    ReadsAlone(After(s, WriteSteps(v)), r);
    RunConcat(s, WriteSteps(v), ReadSteps(r, |v|));
  }

  // ----- A lapped read -----

  /** `n` writes of the same value. */
  lemma {:induction false} WriteOften(s: State, v: Value, n: nat) returns (steps: seq<Step>)
    requires s.wrap > 0 && |s.history| > 0 && s.writer.Resting? && |s.cells| == |v| == 2 && n > 0
    ensures IsRun(s, steps)
    ensures After(s, steps) == s.(cells := v, count := s.count + 2 * n, history := s.history + seq(n, _ => v))
    decreases n
  {
    var first := WriteSteps(v);
    WritesAlone(s, v);
    if n == 1 {
      steps := first;
      assert seq(1, _ => v) == [v];
    } else {
      var t := After(s, first);
      var rest := WriteOften(t, v, n - 1);
      RunConcat(s, first, rest);
      steps := first + rest;
      assert s.history + [v] + seq(n - 1, _ => v) == s.history + seq(n, _ => v);
    }
  }

  /** A reader reads the count and the first of two fields. */
  lemma {:induction false} ReadHalf(wrap: nat) returns (steps: seq<Step>)
    requires wrap > 0
    ensures var s := New(wrap, [0, 0], 1);
      IsRun(s, steps) && After(s, steps) == s.(readers := [Loading(0, [0], [], [])])
  {
    var s := New(wrap, [0, 0], 1);
    var t := s.(readers := [Loading(0, [], [], [])]);
    OneStep(s, Start(0));
    assert Apply(s, Start(0)).readers == [Loading(0, [], [], [])];
    OneStep(t, Load(0));
    assert [] + [t.cells[0]] == [0];
    assert Apply(t, Load(0)).readers == [Loading(0, [0], [], [])];
    RunConcat(s, [Start(0)], [Load(0)]);
    steps := [Start(0)] + [Load(0)];
  }

  /** The reader reads the second field after the writes. */
  lemma {:induction false} ReadOtherHalf(s: State, n: nat)
    requires s.wrap > 0 && |s.history| > 0 && s.cells == [1, 1] && s.readers == [Loading(0, [0], [], [])]
    requires s.count == s.wrap && s.history == [[0, 0]] + seq(n, _ => [1, 1])
    ensures Enabled(s, Load(0)) && Enabled(Apply(s, Load(0)), Check(0)) && Apply(s, Load(0)).history == s.history
    ensures SameWord(Apply(s, Load(0)), 0) && !NotLapped(Apply(s, Load(0)), Check(0))
    ensures Apply(Apply(s, Load(0)), Check(0)).readers[0].results == [[0, 1]] && [0, 1] !in s.history
  {
    var t := Apply(s, Load(0));
    assert [0] + [s.cells[1]] == [0, 1];
    assert t.readers == [Loading(0, [0, 1], [], [])];
    forall i | 0 <= i < |s.history| ensures s.history[i][1] == s.history[i][0] {
    }
    assert [0, 1][0] != [0, 1][1];
  }

  /**
    Whatever the width of the count, a read that spans half as many writes as the count has values may
    be torn: it passes the check and returns a value that was never written.
  */
  lemma {:induction false} LappedReadMayBeTorn(wrap: nat) returns (steps: seq<Step>, s: State)
    requires wrap >= 2 && wrap % 2 == 0
    ensures IsHistory(wrap, [0, 0], 1, steps, s) && |s.history| == 1 + wrap / 2
    ensures Enabled(s, Check(0)) && SameWord(s, 0) && !NotLapped(s, Check(0))
    ensures Apply(s, Check(0)).readers[0].results == [[0, 1]] && [0, 1] !in s.history
  {
    var start := New(wrap, [0, 0], 1);
    var first := ReadHalf(wrap);
    var half := After(start, first);
    var writes := WriteOften(half, [1, 1], wrap / 2);
    var done := After(half, writes);
    ReadOtherHalf(done, wrap / 2);
    OneStep(done, Load(0));
    s := Apply(done, Load(0));
    RunConcat(half, writes, [Load(0)]);
    RunConcat(start, first, writes + [Load(0)]);
    steps := first + (writes + [Load(0)]);
  }
}
