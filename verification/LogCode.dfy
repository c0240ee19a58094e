/** log.c as code: the fields of struct log and the functions that update them.  Every function is
    shown to perform exactly the machine steps of its block writes and critical sections, so what
    LogTheorems proves about runs, and about crashes between any two steps, holds of this code. */
module LogCode {
  import opened LogMachine
  import opened LogTheorems
  import opened LogOverrun

  function Repeat(step: Step, n: nat): (r: seq<Step>) {
    seq(n, _ => step)
  }

  lemma RepeatNone(step: Step)
    ensures Repeat(step, 0) == []
  {
  }

  lemma RepeatSnoc(step: Step, n: nat)
    ensures Repeat(step, n) + [step] == Repeat(step, n + 1)
  {
  }

  /** The block writes of a commit that logs n blocks. */
  function CommitSteps(n: nat): (r: seq<Step>) {
    if n == 0 then [] else Repeat(CopyBlock, n) + [CommitHeader] + Repeat(InstallBlock, n) + [EraseHeader]
  }

  /** A run that starts in s, ends in s' and takes these steps. */
  ghost predicate Path(l: Layout, states: seq<State>, steps: seq<Step>, s: State, s': State) {
    Run(l, states, steps) && states[0] == s && states[|steps|] == s'
  }

  lemma JoinPaths(l: Layout, p: seq<State>, ps: seq<Step>, q: seq<State>, qs: seq<Step>, s: State, m: State, s': State)
    requires Path(l, p, ps, s, m) && Path(l, q, qs, m, s')
    ensures Path(l, p + q[1..], ps + qs, s, s')
  {
  }

  lemma AppendHasRoom(l: Layout, s: State, t: nat)
    requires Grouped(l, s) && s.phase == Running
    requires t < |s.threads| && s.threads[t].Inside? && s.threads[t].pending.Passed?
    ensures s.threads[t].pending.block !in s.head ==> |s.head| < LOGSIZE
  {
    CallsBounds(s.threads);
    assert Room(s.threads[t]) <= Rooms(s.threads);
  }

  lemma {:induction false} NoCommitKeepsDurable(a: Spec, states: seq<State>, steps: seq<Step>)
    requires |states| == |steps| + 1 && CommitHeader !in steps
    ensures SpecRun(a, states, steps).durable == a.durable
    decreases |steps|
  {
    var n := |steps|;
    if n > 0 {
      NoCommitKeepsDurable(a, states[..n], steps[..n - 1]);
      assert steps[n - 1] in steps;
    }
  }

  lemma NoAppendFits(l: Layout, states: seq<State>, steps: seq<Step>)
    requires |states| == |steps| + 1 && forall k | 0 <= k < |steps| :: !steps[k].AppendWrite?
    ensures Fitting(l, states, steps)
  {
  }

  /** The invariant says that the header can be logged. */
  lemma InvReady(l: Layout, s: State, a: Spec)
    requires Inv(l, s, a)
    ensures l.Valid() && |s.disk| == l.blocks && Loggable(l, s.head)
  {
  }

  /** What end_op's critical section leaves alone. */
  ghost predicate Left(s: State, s': State, t: nat) {
    && s'.disk == s.disk && s'.pinned == s.pinned && s'.head == s.head && t < |s.threads| && s'.threads == s.threads[t := Outside]
    && forall x | 0 <= x < |s.disk| :: View(s', x) == View(s, x)
  }

  lemma CommitPlain(head: seq<int>, t: nat)
    ensures forall step | step in [Step.EndOp(t)] + (CommitSteps(|head|) + [EndCommit]) :: !step.AppendWrite?
  {
  }

  class Log {
    const layout: Layout
    /** log.lh.block[LOGSIZE] */
    const block: array<int>
    var n: nat
    var outstanding: int
    var committing: bool
    /** The processes that sleep on &log. */
    var sleepers: set<nat>
    /** The device, one value per block. */
    var disk: seq<Block>
    /** The buffers that B_DIRTY keeps in memory. */
    var pinned: map<int, Block>
    ghost var phase: Phase
    ghost var threads: seq<Thread>

    constructor (layout: Layout, disk: seq<Block>, ghost threads: nat)
      requires layout.Valid() && |disk| == layout.blocks && disk[layout.start][0] == 0
      ensures Valid() && Boot(this.layout, Abs()) && this.layout == layout && this.disk == disk && sleepers == {}
      ensures fresh(block)
    {
      this.layout := layout;
      block := new int[LOGSIZE];
      n, outstanding, committing, sleepers := 0, 0, false, {};
      this.disk, pinned := disk, map[];
      phase := Down;
      this.threads := seq(threads, _ => Outside);
    }

    ghost predicate Valid()
      reads this
    {
      block.Length == LOGSIZE && n <= LOGSIZE
    }

    /** Nobody sleeps who could be admitted. */
    ghost predicate NoneForgotten()
      reads this
    {
      sleepers != {} ==> committing || n + (outstanding + 1) * MAXOPBLOCKS > LOGSIZE
    }

    ghost function Abs(): (s: State)
      reads this, block
      requires Valid()
    {
      State(disk, pinned, block[..n], outstanding, committing, phase, threads)
    }

    /** The header lists blocks that can be logged on this device. */
    ghost predicate Ready()
      reads this, block
    {
      Valid() && layout.Valid() && |disk| == layout.blocks && Loggable(layout, block[..n])
    }

    method Bread(x: int) returns (data: Block)
      requires Valid() && 0 <= x < |disk|
      ensures data == View(Abs(), x)
    {
      data := if x in pinned then pinned[x] else disk[x];
    }

    /** write_log */
    method WriteLog() returns (ghost states: seq<State>, ghost steps: seq<Step>)
      requires Ready() && phase == CommitNext(block[..n], 0)
      modifies this`disk, this`phase
      ensures Ready() && phase == CommitPoint
      ensures steps == Repeat(CopyBlock, n) && Path(layout, states, steps, old(Abs()), Abs())
    {
      var tail := 0;
      states, steps := [Abs()], [];
      while tail < n
        invariant 0 <= tail <= n && Ready() && phase == CommitNext(block[..n], tail)
        invariant steps == Repeat(CopyBlock, tail) && Path(layout, states, steps, old(Abs()), Abs())
      {
        ghost var m := Abs();
        assert layout.Home(m.head[tail]);
        var data := Bread(block[tail]);
        disk := disk[layout.start + tail + 1 := data];
        phase := CommitNext(block[..n], tail + 1);
        assert CopyBlockStep(layout, m, Abs());
        Extend(layout, states, steps, CopyBlock, Abs());
        states, steps := states + [Abs()], steps + [CopyBlock];
        RepeatSnoc(CopyBlock, tail);
        tail := tail + 1;
      }
    }

    /** write_head */
    method WriteHead()
      requires Valid() && layout.start < |disk|
      modifies this`disk
      ensures disk == old(disk)[layout.start := HeaderBlock(old(disk)[layout.start], block[..n])]
    {
      var hb: Block := disk[layout.start];
      hb := hb[0 := n];
      var i := 0;
      while i < n
        invariant 0 <= i <= n
        invariant hb == [n] + block[..i] + disk[layout.start][1 + i..]
      {
        hb := hb[1 + i := block[i]];
        i := i + 1;
      }
      disk := disk[layout.start := hb];
    }

    /** read_head */
    method ReadHead()
      requires Valid() && layout.start < |disk| && 0 <= disk[layout.start][0] <= LOGSIZE
      modifies this`n, block
      ensures Valid() && block[..n] == Entries(disk[layout.start])
    {
      var lh := disk[layout.start];
      n := lh[0];
      var i := 0;
      while i < n
        invariant 0 <= i <= n && n == lh[0]
        invariant block[..i] == lh[1..1 + i]
        modifies block
      {
        block[i] := lh[1 + i];
        i := i + 1;
      }
    }

    /** install_trans, called by commit after the header write and by recovery. */
    method InstallTrans(ghost recovering: bool) returns (ghost states: seq<State>, ghost steps: seq<Step>)
      requires Ready() && phase == if recovering then ReplayNext(block[..n], 0) else InstallNext(block[..n], 0)
      modifies this`disk, this`pinned, this`phase
      ensures Ready() && phase == if recovering then EraseReplayed else Erase
      ensures steps == Repeat(if recovering then ReplayBlock else InstallBlock, n)
      ensures Path(layout, states, steps, old(Abs()), Abs())
    {
      hide Next;
      hide Repeat;
      RepeatNone(if recovering then ReplayBlock else InstallBlock);
      var tail := 0;
      states, steps := [Abs()], [];
      ghost var step := if recovering then ReplayBlock else InstallBlock;
      while tail < n
        invariant 0 <= tail <= n && Ready()
        invariant phase == if recovering then ReplayNext(block[..n], tail) else InstallNext(block[..n], tail)
        invariant steps == Repeat(step, tail) && Path(layout, states, steps, old(Abs()), Abs())
      {
        InstallOne(tail, recovering);
        Extend(layout, states, steps, step, Abs());
        states, steps := states + [Abs()], steps + [step];
        RepeatSnoc(step, tail);
        tail := tail + 1;
      }
    }

    /** One turn of the loop of install_trans. */
    method InstallOne(tail: nat, ghost recovering: bool)
      requires Ready() && tail < n && phase == if recovering then ReplayNext(block[..n], tail) else InstallNext(block[..n], tail)
      modifies this`disk, this`pinned, this`phase
      ensures Ready() && phase == if recovering then ReplayNext(block[..n], tail + 1) else InstallNext(block[..n], tail + 1)
      ensures Next(layout, old(Abs()), if recovering then ReplayBlock else InstallBlock, Abs())
    {
      assert layout.Home(block[..n][tail]);
      var dst := block[tail];
      disk := disk[dst := disk[layout.start + tail + 1]];
      pinned := pinned - {dst};  // iderw clears B_DIRTY
      phase := if recovering then ReplayNext(block[..n], tail + 1) else InstallNext(block[..n], tail + 1);
    }

    /** The tail of commit and of recovery: clear log.lh.n and write the header. */
    method EraseLog(ghost recovering: bool)
      requires Ready() && phase == if recovering then EraseReplayed else Erase
      modifies this`disk, this`phase, this`n
      ensures Ready() && n == 0 && phase == if recovering then Running else Finish
      ensures if recovering then EraseAfterReplayStep(layout, old(Abs()), Abs())
              else EraseHeaderStep(layout, old(Abs()), Abs())
    {
      n := 0;
      WriteHead();
      phase := if recovering then Running else Finish;
      assert block[..n] == [];
    }

    /** commit */
    method Commit() returns (ghost states: seq<State>, ghost steps: seq<Step>)
      requires Ready() && phase == CommitStart(block[..n])
      modifies this`disk, this`pinned, this`phase, this`n
      ensures Ready() && n == 0 && phase == Finish
      ensures steps == CommitSteps(old(n)) && Path(layout, states, steps, old(Abs()), Abs())
    {
      states, steps := [Abs()], [];
      if n > 0 {
        ghost var s0 := Abs();
        states, steps := WriteLog();

        ghost var m := Abs();
        WriteHead();
        phase := InstallNext(block[..n], 0);
        assert CommitHeaderStep(layout, m, Abs());
        Extend(layout, states, steps, CommitHeader, Abs());
        states, steps := states + [Abs()], steps + [CommitHeader];

        m := Abs();
        ghost var ss, ts := InstallTrans(false);
        JoinPaths(layout, states, steps, ss, ts, s0, m, Abs());
        states, steps := states + ss[1..], steps + ts;

        EraseLog(false);
        Extend(layout, states, steps, EraseHeader, Abs());
        states, steps := states + [Abs()], steps + [EraseHeader];
      }
      assert block[..n] == [];
    }

    /** recover_from_log, from any disk with a readable header. */
    method RecoverFromLog() returns (ghost states: seq<State>, ghost steps: seq<Step>)
      requires Ready() && GoodHeader(layout, disk[layout.start]) && phase == Down
      modifies this`disk, this`pinned, this`phase, this`n, block
      ensures Ready() && n == 0 && phase == Running
      ensures steps == [ReadHeader] + Repeat(ReplayBlock, |Entries(old(disk)[layout.start])|) + [EraseAfterReplay]
      ensures Path(layout, states, steps, old(Abs()), Abs())
    {
      ghost var s0 := Abs();
      ReadHead();
      phase := ReplayNext(block[..n], 0);
      assert ReadHeaderStep(layout, s0, Abs());
      states, steps := [s0, Abs()], [ReadHeader];

      ghost var m := Abs();
      ghost var ss, ts := InstallTrans(true);
      JoinPaths(layout, states, steps, ss, ts, s0, m, Abs());
      states, steps := states + ss[1..], steps + ts;

      EraseLog(true);
      Extend(layout, states, steps, EraseAfterReplay, Abs());
      states, steps := states + [Abs()], steps + [EraseAfterReplay];
    }

    /** end_op's call of commit: afterwards the home blocks hold what the callers saw. */
    method CommitAll(ghost a: Spec) returns (ghost states: seq<State>, ghost steps: seq<Step>)
      requires Valid() && Inv(layout, Abs(), a) && phase == CommitStart(block[..n])
      modifies this`disk, this`pinned, this`phase, this`n
      ensures Ready() && n == 0 && phase == Finish
      ensures steps == CommitSteps(old(n)) && Path(layout, states, steps, old(Abs()), Abs())
      ensures Inv(layout, Abs(), SpecRun(a, states, steps))
      ensures forall x | layout.Home(x) :: disk[x] == View(old(Abs()), x)
    {
      ghost var s0 := Abs();
      states, steps := Commit();
      InternalFits(layout, states, steps);
      RunRefines(layout, states, steps, a);
      if s0.phase.Finish? {
        assert PinnedFrom(s0, 0);
      } else {
        assert CommitHeader == steps[|s0.head|];
        CrashAtomicity(layout, states, steps, a);
      }
    }

    /** initlog after a crash: the home blocks end up with the durable contents. */
    method InitLog(ghost a: Spec) returns (ghost states: seq<State>, ghost steps: seq<Step>)
      requires Valid() && Inv(layout, Abs(), a) && phase == Down
      modifies this`disk, this`pinned, this`phase, this`n, block
      ensures Ready() && n == 0 && phase == Running
      ensures Path(layout, states, steps, old(Abs()), Abs())
      ensures Inv(layout, Abs(), SpecRun(a, states, steps)) && SpecRun(a, states, steps).durable == a.durable
      ensures forall x | layout.Home(x) :: disk[x] == a.durable[x]
    {
      states, steps := RecoverFromLog();
      InternalFits(layout, states, steps);
      RunRefines(layout, states, steps, a);
      NoCommitKeepsDurable(a, states, steps);
      SettledDisk(layout, Abs(), SpecRun(a, states, steps));
    }

    /** One turn of begin_op's loop; false means that the caller goes to sleep. */
    method BeginOp(t: nat, ghost a: Spec) returns (admitted: bool)
      requires Valid() && Grouped(layout, Abs()) && Up(phase) && t < |threads| && threads[t].Outside? && NoneForgotten()
      modifies this`outstanding, this`threads, this`sleepers
      ensures NoneForgotten() && sleepers == if admitted then old(sleepers) else old(sleepers) + {t}
      ensures Valid() && Grouped(layout, Abs()) && (Inv(layout, old(Abs()), a) ==> Inv(layout, Abs(), a))
      ensures admitted <==> !committing && n + (old(outstanding) + 1) * MAXOPBLOCKS <= LOGSIZE
      ensures if admitted then Next(layout, old(Abs()), Step.BeginOp(t), Abs()) else Abs() == old(Abs())
    {
      ghost var m := Abs();
      if committing || n + (outstanding + 1) * MAXOPBLOCKS > LOGSIZE {
        sleepers := sleepers + {t};
        admitted := false;
      } else {
        outstanding := outstanding + 1;
        threads := threads[t := Inside(0, NoWrite)];
        admitted := true;
        StepGrouped(layout, m, Step.BeginOp(t), Abs());
      }
    }

    /** The critical section of end_op that decides whether to commit. */
    method EndOp(ghost t: nat, ghost a: Spec) returns (doCommit: bool)
      requires Valid() && Grouped(layout, Abs()) && phase != Panicked
      requires t < |threads| && threads[t].Inside? && threads[t].pending.NoWrite?
      modifies this`outstanding, this`committing, this`threads, this`phase, this`sleepers
      ensures NoneForgotten() && sleepers == if doCommit then old(sleepers) else {}
      ensures Valid() && Grouped(layout, Abs()) && (Inv(layout, old(Abs()), a) ==> Inv(layout, Abs(), a)) && !old(committing)
      ensures Next(layout, old(Abs()), Step.EndOp(t), Abs())
      ensures (doCommit <==> OnlyCall(old(Abs()), t)) && (doCommit <==> committing)
      ensures doCommit ==> phase == CommitStart(block[..n]) && forall u | 0 <= u < |threads| :: threads[u].Outside?
    {
      ghost var m := Abs();
      OnlyCallCount(layout, m, t);
      outstanding := outstanding - 1;
      if committing {
        assert false;  // the panic is not reached
      }
      threads := threads[t := Outside];
      if outstanding == 0 {
        doCommit := true;
        committing := true;
        phase := CommitStart(block[..n]);
      } else {
        sleepers := {};
        doCommit := false;
      }
      StepGrouped(layout, m, Step.EndOp(t), Abs());
    }

    /** The end of end_op, after commit. */
    method EndCommit()
      requires Valid() && phase == Finish
      modifies this`committing, this`phase, this`sleepers
      ensures Next(layout, old(Abs()), Step.EndCommit, Abs()) && sleepers == {} && !committing && phase == Running
    {
      committing := false;
      phase := Running;
      sleepers := {};
    }

    /** When no call is inside and no commit runs, nobody sleeps. */
    lemma NobodySleeps()
      requires Valid() && Grouped(layout, Abs()) && NoneForgotten() && phase == Running
      requires forall t | 0 <= t < |threads| :: threads[t].Outside?
      ensures sleepers == {}
    {
      CallsBounds(threads);
    }

    /** The rest of end_op for the last call. */
    method FinishLast(ghost a: Spec) returns (ghost states: seq<State>, ghost steps: seq<Step>)
      requires Valid() && Inv(layout, Abs(), a) && phase == CommitStart(block[..n])
      modifies this`disk, this`pinned, this`phase, this`n, this`committing, this`sleepers
      ensures Ready() && phase == Running && !committing && sleepers == {} && n == 0
      ensures steps == CommitSteps(old(n)) + [Step.EndCommit] && Path(layout, states, steps, old(Abs()), Abs())
      ensures forall x | layout.Home(x) :: disk[x] == View(old(Abs()), x)
    {
      hide Inv;
      hide SpecRun;
      hide CommitSteps;
      hide Next;
      states, steps := CommitAll(a);
      EndCommit();
      Extend(layout, states, steps, Step.EndCommit, Abs());
      states, steps := states + [Abs()], steps + [Step.EndCommit];
    }

    /** All of end_op: who leaves last commits, and afterwards calls can begin again on an empty log, with
        the home blocks as the callers saw them. */
    method LeaveOp(ghost t: nat, ghost a: Spec) returns (ghost states: seq<State>, ghost steps: seq<Step>)
      requires Valid() && Inv(layout, Abs(), a) && Grouped(layout, Abs()) && phase == Running
      requires t < |threads| && threads[t].Inside? && threads[t].pending.NoWrite?
      modifies this`disk, this`pinned, this`phase, this`n, this`outstanding, this`committing, this`threads, this`sleepers
      ensures Valid() && phase == Running && !committing && threads == old(threads)[t := Outside] && sleepers == {}
      ensures Path(layout, states, steps, old(Abs()), Abs()) && Inv(layout, Abs(), SpecRun(a, states, steps))
      ensures if OnlyCall(old(Abs()), t)
              then steps == [Step.EndOp(t)] + (CommitSteps(old(n)) + [Step.EndCommit]) && n == 0
                   && forall x | layout.Home(x) :: disk[x] == View(old(Abs()), x)
              else steps == [Step.EndOp(t)] && n == old(n) && disk == old(disk) && pinned == old(pinned)
    {
      ghost var s0 := Abs();
      InvReady(layout, s0, a);
      var doCommit := EndOp(t, a);
      ghost var s1 := Abs();
      assert Left(s0, s1, t);
      states, steps := [s0, s1], [Step.EndOp(t)];
      assert Path(layout, states, steps, s0, s1);
      hide Inv;
      hide Grouped;
      hide OnlyCall;
      hide SpecRun;
      hide CommitSteps;
      hide Next;
      if doCommit {
        ghost var ss, ts := FinishLast(a);
        JoinPaths(layout, states, steps, ss, ts, s0, s1, Abs());
        states, steps := states + ss[1..], steps + ts;
        CommitPlain(s0.head, t);
      }
      NoAppendFits(layout, states, steps);
      RunRefines(layout, states, steps, a);
    }

    /** log_write's panic tests.  If the log area is larger than LOGSIZE, only a call that logs a block
        again can meet one. */
    method CheckWrite(ghost t: nat, b: int, ghost a: Spec) returns (panicked: bool)
      requires Valid() && Grouped(layout, Abs()) && phase == Running && layout.Home(b)
      requires t < |threads| && threads[t].Inside? && threads[t].pending.NoWrite?
      requires b in block[..n] || threads[t].used < MAXOPBLOCKS
      modifies this`threads, this`phase
      ensures Valid() && Grouped(layout, Abs()) && (Inv(layout, old(Abs()), a) ==> Inv(layout, Abs(), a))
      ensures Next(layout, old(Abs()), Step.CheckWrite(t, b), Abs())
      ensures panicked <==> n >= LOGSIZE || n >= layout.size - 1
      ensures panicked && layout.size > LOGSIZE ==> b in block[..n]
    {
      ghost var m := Abs();
      CallsBounds(threads);
      panicked := n >= LOGSIZE || n >= layout.size - 1 || outstanding < 1;
      if panicked {
        phase := Panicked;
      } else {
        threads := threads[t := Inside(threads[t].used, Passed(b))];
      }
      assert Next(layout, m, Step.CheckWrite(t, b), Abs());
      StepGrouped(layout, m, Step.CheckWrite(t, b), Abs());
    }

    /** log_write's search: the slot of b, or n if b is not logged yet. */
    method FindSlot(b: int) returns (i: nat)
      requires Valid()
      ensures i <= n && (i < n ==> block[i] == b) && (i == n <==> b !in block[..n])
    {
      i := 0;
      while i < n && block[i] != b
        invariant 0 <= i <= n && b !in block[..i]
      {
        i := i + 1;
      }
    }

    /** log_write after its panic tests: search for the block, append it if it is new, pin it. */
    method LogWrite(ghost t: nat, b: int, data: Block, ghost a: Spec)
      requires Valid() && Grouped(layout, Abs()) && phase == Running && NoneForgotten()
      requires t < |threads| && threads[t].Inside? && threads[t].pending == Passed(b)
      modifies this`n, this`pinned, this`threads, block
      ensures NoneForgotten()
      ensures Valid() && Grouped(layout, Abs()) && Next(layout, old(Abs()), AppendWrite(t, data), Abs())
      ensures Inv(layout, old(Abs()), a) && (b in old(block[..n]) || old(n) < layout.size - 1) ==>
                Inv(layout, Abs(), SpecStep(a, old(Abs()), AppendWrite(t, data)))
      ensures 0 <= b < |disk| ==> View(Abs(), b) == data
    {
      hide Inv;
      hide Grouped;
      ghost var m := Abs();
      AppendHasRoom(layout, m, t);
      var i := FindSlot(b);
      block[i] := b;
      if i == n {
        n := n + 1;
      }
      assert block[..n] == Absorb(m.head, b);
      pinned := pinned[b := data];
      threads := threads[t := Inside(if b in m.head then threads[t].used else threads[t].used + 1, NoWrite)];
      StepGrouped(layout, m, AppendWrite(t, data), Abs());
      if Inv(layout, m, a) && Fits(layout, m, AppendWrite(t, data)) {
        StepRefines(layout, m, AppendWrite(t, data), Abs(), a);
      }
    }
  }
}
