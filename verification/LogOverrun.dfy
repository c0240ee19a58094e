/** log_write tests the size of the log before it takes log.lock, so two calls can both pass the
    test and then both append.  This module decides for which sizes of the log area that lets the
    header outgrow the area, and shows the one panic that a well-behaved call can still meet. */
module LogOverrun {
  import opened LogMachine
  import opened LogTheorems

  /** Blocks that thread j has added when n blocks were added by threads 0, 1, 2 in turn. */
  function Share(n: nat, j: nat): nat
    requires j < 3
  {
    (n + 2 - j) / 3
  }

  /** Three calls in progress which have logged the blocks xs in turn. */
  ghost predicate Grown(l: Layout, s: State, xs: seq<int>) {
    && s.phase.Running? && !s.committing && s.outstanding == 3
    && |s.disk| == l.blocks && s.head == xs && |s.threads| >= 3
    && forall j | 0 <= j < 3 :: s.threads[j] == Inside(Share(|xs|, j), NoWrite)
  }

  lemma Extend(l: Layout, states: seq<State>, steps: seq<Step>, step: Step, s': State)
    requires Run(l, states, steps) && Next(l, states[|steps|], step, s')
    ensures Run(l, states + [s'], steps + [step])
    ensures (states + [s'])[|steps + [step]|] == s'
  {
  }

  lemma ExtendTwice(l: Layout, states: seq<State>, steps: seq<Step>, a: Step, s1: State, b: Step, s2: State)
    returns (states': seq<State>, steps': seq<Step>)
    requires Run(l, states, steps) && Next(l, states[|steps|], a, s1) && Next(l, s1, b, s2)
    ensures Run(l, states', steps') && states'[0] == states[0] && states'[|steps'|] == s2
  {
    hide Next;
    Extend(l, states, steps, a, s1);
    Extend(l, states + [s1], steps + [a], b, s2);
    states', steps' := states + [s1] + [s2], steps + [a] + [b];
  }

  lemma Start(l: Layout, s0: State) returns (states: seq<State>, steps: seq<Step>)
    requires Boot(l, s0) && |s0.threads| >= 3
    ensures Run(l, states, steps) && states[0] == s0 && Grown(l, states[|steps|], [])
  {
    assert Entries(s0.disk[l.start]) == [];
    var s1 := s0.(phase := EraseReplayed);
    var s2 := s1.(disk := s1.disk[l.start := HeaderBlock(s1.disk[l.start], [])], phase := Running);
    var s3 := s2.(outstanding := 1, threads := s2.threads[0 := Inside(0, NoWrite)]);
    var s4 := s3.(outstanding := 2, threads := s3.threads[1 := Inside(0, NoWrite)]);
    var s5 := s4.(outstanding := 3, threads := s4.threads[2 := Inside(0, NoWrite)]);
    assert Next(l, s0, ReadHeader, s1);
    assert Next(l, s1, EraseAfterReplay, s2);
    assert Next(l, s2, BeginOp(0), s3);
    assert Next(l, s3, BeginOp(1), s4);
    assert Next(l, s4, BeginOp(2), s5);
    states, steps := [s0, s1, s2, s3, s4, s5], [ReadHeader, EraseAfterReplay, BeginOp(0), BeginOp(1), BeginOp(2)];
  }

  ghost predicate Pool(l: Layout, xs: seq<int>) {
    Distinct(xs) && forall k | 0 <= k < |xs| :: l.Home(xs[k])
  }

  lemma PoolPrefix(l: Layout, xs: seq<int>, n: nat)
    requires Pool(l, xs) && n <= |xs|
    ensures Pool(l, xs[..n]) && forall k | n <= k < |xs| :: xs[k] !in xs[..n]
  {
    forall i, j | 0 <= i < n && 0 <= j < |xs| && i != j
      ensures xs[i] != xs[j]
    {
      assert Apart(xs, i, j);
    }
  }

  /** The next call in turn logs block x. */
  lemma LogOne(l: Layout, s: State, xs: seq<int>, x: int) returns (s1: State, s2: State)
    requires Grown(l, s, xs) && l.Valid() && l.Home(x) && x !in xs && |xs| < LOGSIZE && |xs| < l.size - 1
    ensures Next(l, s, CheckWrite(|xs| % 3, x), s1) && Next(l, s1, AppendWrite(|xs| % 3, s.disk[0]), s2)
    ensures Grown(l, s2, xs + [x])
  {
    var n, j := |xs|, |xs| % 3;
    s1 := s.(threads := s.threads[j := Inside(Share(n, j), Passed(x))]);
    s2 := s1.(head := s1.head + [x], pinned := s1.pinned[x := s.disk[0]], threads := s1.threads[j := Inside(Share(n, j) + 1, NoWrite)]);
  }

  lemma {:induction false} Grow(l: Layout, s0: State, xs: seq<int>) returns (states: seq<State>, steps: seq<Step>)
    requires Boot(l, s0) && |s0.threads| >= 3 && Pool(l, xs)
    requires |xs| <= LOGSIZE && |xs| <= l.size - 1
    ensures Run(l, states, steps) && states[0] == s0 && Grown(l, states[|steps|], xs)
    decreases |xs|
  {
    if xs == [] {
      states, steps := Start(l, s0);
    } else {
      var n := |xs| - 1;
      PoolPrefix(l, xs, n);
      assert l.Valid() && l.Home(xs[n]);
      assert xs[..n] + [xs[n]] == xs;
      hide Boot;
      hide Next;
      states, steps := Grow(l, s0, xs[..n]);
      var s := states[|steps|];
      var s1, s2 := LogOne(l, s, xs[..n], xs[n]);
      states, steps := ExtendTwice(l, states, steps, CheckWrite(n % 3, xs[n]), s1, AppendWrite(n % 3, s.disk[0]), s2);
    }
  }

  /** Two calls pass the test of log_write one after the other, and then both append. */
  lemma LogTwo(l: Layout, s: State, xs: seq<int>, x: int, y: int) returns (s1: State, s2: State, s3: State, s4: State)
    requires Grown(l, s, xs) && l.Valid() && l.Home(x) && l.Home(y) && x !in xs && y !in xs && x != y && |xs| + 1 < LOGSIZE && |xs| < l.size - 1
    ensures var i, j, d := |xs| % 3, (|xs| + 1) % 3, s.disk[0];
            && Next(l, s, CheckWrite(i, x), s1) && Next(l, s1, CheckWrite(j, y), s2)
            && Next(l, s2, AppendWrite(i, d), s3) && Next(l, s3, AppendWrite(j, d), s4) && s4.head == xs + [x, y]
  {
    var n, i, j, d := |xs|, |xs| % 3, (|xs| + 1) % 3, s.disk[0];
    s1 := s.(threads := s.threads[i := Inside(Share(n, i), Passed(x))]);
    s2 := s1.(threads := s1.threads[j := Inside(Share(n, j), Passed(y))]);
    s3 := s2.(head := s2.head + [x], pinned := s2.pinned[x := d], threads := s2.threads[i := Inside(Share(n, i) + 1, NoWrite)]);
    s4 := s3.(head := s3.head + [y], pinned := s3.pinned[y := d], threads := s3.threads[j := Inside(Share(n, j) + 1, NoWrite)]);
  }

  /** A log area of 2 to LOGSIZE blocks is outgrown: the header then lists l.size blocks, one more
      than the area can hold beside the header. */
  lemma Overrun(l: Layout, s0: State, xs: seq<int>) returns (states: seq<State>, steps: seq<Step>)
    requires Boot(l, s0) && |s0.threads| >= 3 && Pool(l, xs) && |xs| == l.size
    requires 2 <= l.size <= LOGSIZE
    ensures Run(l, states, steps) && states[0] == s0 && |states[|steps|].head| == l.size
  {
    var n := l.size - 2;
    PoolPrefix(l, xs, n);
    states, steps := Grow(l, s0, xs[..n]);
    var s := states[|steps|];
    var i, j, d := n % 3, (n + 1) % 3, s.disk[0];
    var x, y := xs[n], xs[n + 1];
    assert Apart(xs, n, n + 1) && l.Home(x) && l.Home(y) && l.Valid();
    hide Boot;
    hide Next;
    var s1, s2, s3, s4 := LogTwo(l, s, xs[..n], x, y);
    states, steps := ExtendTwice(l, states, steps, CheckWrite(i, x), s1, CheckWrite(j, y), s2);
    states, steps := ExtendTwice(l, states, steps, AppendWrite(i, d), s3, AppendWrite(j, d), s4);
  }

  ghost predicate NonePassed(s: State) {
    forall t | 0 <= t < |s.threads| :: s.threads[t].Outside? || s.threads[t].pending.NoWrite?
  }

  /** A log area that is only a header block never gets a block to log. */
  lemma {:induction false} HeaderOnly(l: Layout, states: seq<State>, steps: seq<Step>)
    requires Run(l, states, steps) && Boot(l, states[0]) && l.size == 1
    ensures NonePassed(states[|steps|]) && Fitting(l, states, steps)
    decreases |steps|
  {
    var n := |steps|;
    if n > 0 {
      HeaderOnly(l, states[..n], steps[..n - 1]);
      assert Next(l, states[n - 1], steps[n - 1], states[n]);
      forall k | 0 <= k < n
        ensures Fits(l, states[k], steps[k])
      {
        if k < n - 1 {
          assert Fits(l, states[..n][k], steps[..n - 1][k]);
        }
      }
    }
  }

  ghost predicate CanOverrun(l: Layout, s0: State) {
    exists states: seq<State>, steps: seq<Step> :: Run(l, states, steps) && states[0] == s0 && |states[|steps|].head| >= l.size
  }

  /** With three concurrent calls and enough blocks to write, some interleaving outgrows the log
      area exactly when the area has between 2 and LOGSIZE blocks. */
  lemma OverrunExactly(l: Layout, s0: State, xs: seq<int>)
    requires Boot(l, s0) && |s0.threads| >= 3 && Pool(l, xs) && |xs| >= LOGSIZE
    ensures CanOverrun(l, s0) <==> 2 <= l.size <= LOGSIZE
  {
    if 2 <= l.size <= LOGSIZE {
      PoolPrefix(l, xs, l.size);
      var states, steps := Overrun(l, s0, xs[..l.size]);
      assert Run(l, states, steps);
    } else {
      forall states: seq<State>, steps: seq<Step> | Run(l, states, steps) && states[0] == s0
        ensures |states[|steps|].head| < l.size
      {
        var a := Spec(s0.disk, s0.disk);
        BootInv(l, s0);
        if l.size == 1 {
          HeaderOnly(l, states, steps);
        } else {
          LargeLogFits(l, states, steps, a);
        }
        RunRefines(l, states, steps, a);
      }
    }
  }

  // ----- panics of calls that keep their reservations -----

  /** Some run from s0 ends with the panic of a log_write of a block that is, or is not, in the log. */
  ghost predicate CanPanic(l: Layout, s0: State, logged: bool) {
    exists states: seq<State>, steps: seq<Step> :: PanicRun(l, s0, states, steps, logged)
  }

  ghost predicate PanicRun(l: Layout, s0: State, states: seq<State>, steps: seq<Step>, logged: bool) {
    && Run(l, states, steps) && states[0] == s0 && |steps| > 0
    && states[|steps|].phase.Panicked? && steps[|steps| - 1].CheckWrite?
    && (steps[|steps| - 1].block in states[|steps| - 1].head <==> logged)
  }

  /** Three calls that log n blocks and fill the log or the log area; then log_write of y panics. */
  lemma FullPanics(l: Layout, s0: State, xs: seq<int>, y: int) returns (states: seq<State>, steps: seq<Step>)
    requires Boot(l, s0) && |s0.threads| >= 3 && Pool(l, xs) && |xs| <= LOGSIZE && |xs| <= l.size - 1 && l.Home(y)
    requires (|xs| == LOGSIZE && y in xs) || (|xs| == l.size - 1 && (y in xs || |xs| < LOGSIZE))
    ensures PanicRun(l, s0, states, steps, y in xs)
  {
    states, steps := Grow(l, s0, xs);
    var s, j := states[|steps|], |xs| % 3;
    assert Next(l, s, CheckWrite(j, y), s.(phase := Panicked));
    Extend(l, states, steps, CheckWrite(j, y), s.(phase := Panicked));
    states, steps := states + [s.(phase := Panicked)], steps + [CheckWrite(j, y)];
  }

  /** With three concurrent calls and enough blocks to write, a log_write that would append can panic
      exactly if the log area has at most LOGSIZE blocks. */
  lemma AppendingPanicExactly(l: Layout, s0: State, xs: seq<int>)
    requires Boot(l, s0) && |s0.threads| >= 3 && Pool(l, xs) && |xs| >= LOGSIZE
    ensures CanPanic(l, s0, false) <==> l.size <= LOGSIZE
  {
    if l.size <= LOGSIZE {
      PoolPrefix(l, xs, l.size - 1);
      var states, steps := FullPanics(l, s0, xs[..l.size - 1], xs[l.size - 1]);
    } else {
      forall states: seq<State>, steps: seq<Step>
        ensures !PanicRun(l, s0, states, steps, false)
      {
        if PanicRun(l, s0, states, steps, false) {
          GroupCommit(l, states, steps);
        }
      }
    }
  }

  /** A log_write of a block that is in the log already can panic, although it would add nothing,
      exactly if the log area has a block beside its header. */
  lemma AbsorbingPanicExactly(l: Layout, s0: State, xs: seq<int>)
    requires Boot(l, s0) && |s0.threads| >= 3 && Pool(l, xs) && |xs| >= LOGSIZE
    ensures CanPanic(l, s0, true) <==> 2 <= l.size
  {
    if 2 <= l.size {
      var n := if l.size <= LOGSIZE then l.size - 1 else LOGSIZE;
      PoolPrefix(l, xs, n);
      var states, steps := FullPanics(l, s0, xs[..n], xs[0]);
    } else {
      forall states: seq<State>, steps: seq<Step>
        ensures !PanicRun(l, s0, states, steps, true)
      {
        if PanicRun(l, s0, states, steps, true) {
          HeaderEmpty(l, states[..|steps|], steps[..|steps| - 1]);
        }
      }
    }
  }

  lemma HeaderEmpty(l: Layout, states: seq<State>, steps: seq<Step>)
    requires Run(l, states, steps) && Boot(l, states[0]) && l.size == 1
    ensures states[|steps|].head == []
  {
    var a := Spec(states[0].disk, states[0].disk);
    BootInv(l, states[0]);
    HeaderOnly(l, states, steps);
    RunRefines(l, states, steps, a);
  }
}
