/** What every run of the log machine keeps: the log refines an atomic commit. */
module LogTheorems {
  import opened LogMachine

  // ----- sums over threads -----

  lemma {:induction false} CallsUpdate(ts: seq<Thread>, t: nat, th: Thread)
    requires t < |ts|
    ensures Calls(ts[t := th]) == Calls(ts) - (if ts[t].Inside? then 1 else 0) + (if th.Inside? then 1 else 0)
    ensures Rooms(ts[t := th]) == Rooms(ts) - Room(ts[t]) + Room(th)
  {
    var n := |ts| - 1;
    if t == n {
      assert ts[t := th][..n] == ts[..n];
    } else {
      CallsUpdate(ts[..n], t, th);
      assert ts[t := th][..n] == ts[..n][t := th];
    }
  }

  lemma {:induction false} CallsBounds(ts: seq<Thread>)
    requires forall t | 0 <= t < |ts| && ts[t].Inside? :: ts[t].used <= MAXOPBLOCKS
    ensures 0 <= Rooms(ts) <= MAXOPBLOCKS * Calls(ts)
    ensures forall t | 0 <= t < |ts| :: Room(ts[t]) <= Rooms(ts)
    ensures Calls(ts) == 0 <==> forall t | 0 <= t < |ts| :: ts[t].Outside?
  {
    if ts != [] {
      var n := |ts| - 1;
      assert forall t | 0 <= t < n :: ts[..n][t] == ts[t];
      CallsBounds(ts[..n]);
    }
  }

  // ----- one step -----

  /** The steps of a commit, of a recovery, and a crash. */
  ghost predicate Internal(step: Step) {
    !step.BeginOp? && !step.CheckWrite? && !step.AppendWrite? && !step.EndOp?
  }

  lemma BeginKeeps(l: Layout, s: State, t: nat, s': State, a: Spec)
    requires Inv(l, s, a) && BeginOpStep(l, s, t, s')
    ensures Inv(l, s', a)
  {
    CallsUpdate(s.threads, t, Inside(0, NoWrite));
    CallsBounds(s.threads);
  }

  lemma CheckKeeps(l: Layout, s: State, t: nat, x: int, s': State, a: Spec)
    requires Inv(l, s, a) && CheckWriteStep(l, s, t, x, s')
    ensures Inv(l, s', a)
    ensures s'.phase.Panicked? <==> |s.head| >= LOGSIZE || |s.head| >= l.size - 1
  {
    CallsUpdate(s.threads, t, Inside(s.threads[t].used, Passed(x)));
    CallsBounds(s.threads);
  }

  /** The log area still has room for the block that this step appends. */
  ghost predicate Fits(l: Layout, s: State, step: Step) {
    step.AppendWrite? && step.t < |s.threads| && s.threads[step.t].Inside? && s.threads[step.t].pending.Passed? ==>
      s.threads[step.t].pending.block in s.head || |s.head| < l.size - 1
  }

  lemma AbsorbKeepsDistinct(head: seq<int>, x: int)
    requires Distinct(head)
    ensures Distinct(Absorb(head, x))
  {
    var head' := Absorb(head, x);
    forall i, j | 0 <= i < |head'| && 0 <= j < |head'| && i != j
      ensures Apart(head', i, j)
    {
      if i < |head| && j < |head| {
        assert Apart(head, i, j);
      }
    }
  }

  lemma AppendKeeps(l: Layout, s: State, t: nat, data: Block, s': State, a: Spec)
    requires Inv(l, s, a) && AppendWriteStep(s, t, data, s') && Fits(l, s, AppendWrite(t, data))
    ensures Inv(l, s', a.(current := a.current[s.threads[t].pending.block := data]))
  {
    var th := s.threads[t];
    var x := th.pending.block;
    CallsUpdate(s.threads, t, Inside(if x in s.head then th.used else th.used + 1, NoWrite));
    CallsBounds(s.threads);
    assert s'.head[0..] == s'.head && s.head[0..] == s.head;
    AbsorbKeepsDistinct(s.head, x);
  }

  lemma EndKeeps(l: Layout, s: State, t: nat, s': State, a: Spec)
    requires Inv(l, s, a) && EndOpStep(s, t, s')
    ensures Inv(l, s', a) && !s'.phase.Panicked?
  {
    CallsUpdate(s.threads, t, Outside);
    CallsBounds(s.threads);
    CallsBounds(s'.threads);
    assert s.head[0..] == s.head;
  }

  lemma CopyKeeps(l: Layout, s: State, s': State, a: Spec)
    requires Inv(l, s, a) && CopyBlockStep(l, s, s')
    ensures Inv(l, s', a)
  {
  }

  /** Writing the header over a filled log area makes the logged contents recoverable. */
  lemma HeaderWriteCommits(l: Layout, disk: seq<Block>, head: seq<int>, cur: seq<Block>)
    requires l.Valid() && |disk| == l.blocks == |cur| && Loggable(l, head)
    requires forall k | 0 <= k < |head| :: disk[l.start + 1 + k] == cur[head[k]]
    requires forall x {:trigger disk[x]} | l.Home(x) && x !in head :: disk[x] == cur[x]
    ensures var disk' := disk[l.start := HeaderBlock(disk[l.start], head)];
            && GoodHeader(l, disk'[l.start]) && Entries(disk'[l.start]) == head
            && Recovers(l, disk', cur)
  {
  }

  /** At the commit point the log area holds what readers see of the logged blocks. */
  lemma LogAreaHolds(l: Layout, s: State, a: Spec)
    requires DiskOk(l, s, a) && PhaseOk(l, s, a) && s.phase.CommitPoint?
    ensures forall k | 0 <= k < |s.head| :: s.disk[l.start + 1 + k] == a.current[s.head[k]]
    ensures forall x {:trigger s.disk[x]} | l.Home(x) && x !in s.head :: s.disk[x] == a.current[x]
  {
    assert s.head[0..] == s.head;
    forall k | 0 <= k < |s.head|
      ensures s.disk[l.start + 1 + k] == a.current[s.head[k]]
    {
      assert View(s, s.head[k]) == a.current[s.head[k]];
    }
    forall x {:trigger s.disk[x]} | l.Home(x) && x !in s.head
      ensures s.disk[x] == a.current[x]
    {
      assert View(s, x) == a.current[x];
    }
  }

  lemma CommitSees(l: Layout, s: State, s': State, a: Spec)
    requires DiskOk(l, s, a) && Sees(l, s, a) && CommitHeaderStep(l, s, s')
    ensures Sees(l, s', Spec(a.current, a.current))
  {
    forall x | l.Home(x)
      ensures View(s', x) == a.current[x]
    {
      assert View(s, x) == a.current[x];
    }
  }

  lemma CommitDiskOk(l: Layout, s: State, s': State, a: Spec)
    requires DiskOk(l, s, a) && PhaseOk(l, s, a) && CommitHeaderStep(l, s, s')
    ensures DiskOk(l, s', Spec(a.current, a.current)) && Entries(s'.disk[l.start]) == s.head
  {
    LogAreaHolds(l, s, a);
    HeaderWriteCommits(l, s.disk, s.head, a.current);
  }

  lemma CommitPinned(l: Layout, s: State, s': State, a: Spec)
    requires DiskOk(l, s, a) && PhaseOk(l, s, a) && CommitHeaderStep(l, s, s')
    ensures PinnedFrom(s', 0) && Sees(l, s, a) && Agree(l, a.current, a.current)
  {
  }

  lemma CommitKeeps(l: Layout, s: State, s': State, a: Spec)
    requires Inv(l, s, a) && CommitHeaderStep(l, s, s')
    ensures Inv(l, s', Spec(a.current, a.current))
  {
    var b := Spec(a.current, a.current);
    CommitDiskOk(l, s, s', a);
    CommitPinned(l, s, s', a);
    CommitSees(l, s, s', a);
    hide DiskOk;
    hide Sees;
    hide Copied;
    hide PinnedFrom;
    hide Agree;
    hide Replayed;
    hide HeaderBlock;
    assert Progress(s') == 0 && HeaderWritten(s'.phase) && Up(s'.phase);
    assert PhaseOk(l, s', b);
  }

  lemma ReplayProgress(l: Layout, disk: seq<Block>, head: seq<int>, i: nat, d: seq<Block>)
    requires |disk| == |d| == l.blocks && Loggable(l, head) && i < |head| && Replayed(l, disk, head, i, d)
    ensures Replayed(l, disk[head[i] := d[head[i]]], head, i + 1, d)
  {
  }

  /** Copying logged block i home changes nothing for a later recovery. */
  lemma CopyHomeDiskOk(l: Layout, s: State, i: nat, s': State, a: Spec)
    requires DiskOk(l, s, a) && Entries(s.disk[l.start]) == s.head && i < |s.head|
    requires s'.disk == s.disk[s.head[i] := s.disk[l.start + 1 + i]] && s'.head == s.head
    ensures DiskOk(l, s', a) && s'.disk[l.start] == s.disk[l.start] && s'.disk[s.head[i]] == a.durable[s.head[i]]
  {
  }

  lemma UnpinFirst(s: State, i: nat, s': State)
    requires i < |s.head| && Distinct(s.head) && PinnedFrom(s, i)
    requires s'.head == s.head && s'.pinned == s.pinned - {s.head[i]}
    ensures PinnedFrom(s', i + 1)
  {
    forall k | i < k < |s.head|
      ensures s.head[k] != s.head[i]
    {
      assert Apart(s.head, k, i);
    }
    assert s.head[i..] == [s.head[i]] + s.head[i + 1..];
    assert s.head[i] !in s.head[i + 1..];
  }

  /** Unpinning a block whose home copy is up to date changes nothing for readers. */
  lemma UnpinSees(l: Layout, s: State, y: int, s': State, a: Spec)
    requires |s.disk| == l.blocks == |a.current| && Sees(l, s, a) && l.Home(y)
    requires s'.disk == s.disk[y := a.current[y]] && s'.pinned == s.pinned - {y}
    ensures Sees(l, s', a)
  {
  }

  /** Block i of the header is home: the disk, the pinned blocks and what readers see. */
  lemma InstallParts(l: Layout, s: State, s': State, a: Spec)
    requires DiskOk(l, s, a) && PhaseOk(l, s, a) && InstallBlockStep(l, s, s')
    ensures s.phase.i < |s.head| && DiskOk(l, s', a) && s'.disk[l.start] == s.disk[l.start]
    ensures PinnedFrom(s', s.phase.i + 1) && Sees(l, s', a)
    ensures s.phase.Install? && s'.head == s.head && s'.committing == s.committing && s'.phase == InstallNext(s.head, s.phase.i + 1)
  {
    var i := s.phase.i;
    assert l.Home(s.head[i]);
    CopyHomeDiskOk(l, s, i, s', a);
    UnpinFirst(s, i, s');
    UnpinSees(l, s, s.head[i], s', a);
  }

  lemma InstallPhaseOk(l: Layout, s: State, s': State, a: Spec)
    requires DiskOk(l, s, a) && PhaseOk(l, s, a) && InstallBlockStep(l, s, s')
    ensures DiskOk(l, s', a) && PhaseOk(l, s', a)
  {
    InstallParts(l, s, s', a);
    hide InstallBlockStep;
    hide DiskOk;
    hide PinnedFrom;
    hide Sees;
    hide Agree;
    hide Copied;
    hide Replayed;
    assert Progress(s') == s.phase.i + 1 && HeaderWritten(s'.phase) && Up(s'.phase);
  }

  lemma InstallKeeps(l: Layout, s: State, s': State, a: Spec)
    requires Inv(l, s, a) && InstallBlockStep(l, s, s')
    ensures Inv(l, s', a)
  {
    InstallPhaseOk(l, s, s', a);
    assert ThreadsOk(l, s');
  }

  lemma EraseKeeps(l: Layout, s: State, s': State, a: Spec)
    requires Inv(l, s, a) && EraseHeaderStep(l, s, s')
    ensures Inv(l, s', a)
  {
    EraseDiskOk(l, s, s', a);
    EraseSees(l, s, s', a);
    assert Entries(s'.disk[l.start]) == [] && s'.pinned == s.pinned && s'.head == [];
    hide DiskOk;
    hide Sees;
    hide Agree;
    hide Copied;
    hide Replayed;
    hide Entries;
  }

  lemma EraseDiskOk(l: Layout, s: State, s': State, a: Spec)
    requires Inv(l, s, a) && EraseHeaderStep(l, s, s')
    ensures DiskOk(l, s', a) && Entries(s'.disk[l.start]) == []
  {
  }

  lemma EraseSees(l: Layout, s: State, s': State, a: Spec)
    requires Inv(l, s, a) && EraseHeaderStep(l, s, s') && DiskOk(l, s', a)
    ensures Sees(l, s', a)
  {
  }

  lemma CrashKeeps(l: Layout, s: State, s': State, a: Spec)
    requires Inv(l, s, a) && CrashStep(s, s')
    ensures Inv(l, s', Spec(a.durable, a.durable))
  {
  }

  lemma ReplayPhaseOk(l: Layout, s: State, s': State, a: Spec)
    requires DiskOk(l, s, a) && PhaseOk(l, s, a) && ReplayBlockStep(l, s, s')
    ensures DiskOk(l, s', a) && PhaseOk(l, s', a)
  {
    var i := s.phase.i;
    CopyHomeDiskOk(l, s, i, s', a);
    ReplayProgress(l, s.disk, s.head, i, a.durable);
    assert s'.disk == s.disk[s.head[i] := a.durable[s.head[i]]];
    assert s'.pinned == map[];
  }

  lemma ReplayKeeps(l: Layout, s: State, s': State, a: Spec)
    requires Inv(l, s, a) && ReplayBlockStep(l, s, s')
    ensures Inv(l, s', a)
  {
    ReplayPhaseOk(l, s, s', a);
    assert ThreadsOk(l, s');
  }

  lemma EraseAfterReplayKeeps(l: Layout, s: State, s': State, a: Spec)
    requires Inv(l, s, a) && EraseAfterReplayStep(l, s, s')
    ensures Inv(l, s', a)
  {
    HeaderRoundTrip(s.disk[l.start], []);
    forall x | l.Home(x)
      ensures s'.disk[x] == a.durable[x]
    {
      if x in s.head {
        var k :| 0 <= k < |s.head| && s.head[k] == x;
        assert s.disk[s.head[k]] == a.durable[s.head[k]];
      }
    }
    CallsBounds(s.threads);
  }

  lemma EndCommitKeeps(l: Layout, s: State, s': State, a: Spec)
    requires Inv(l, s, a) && s.phase.Finish? && s' == s.(committing := false, phase := Running)
    ensures Inv(l, s', a)
  {
    CallsBounds(s.threads);
  }

  lemma ReadHeaderKeeps(l: Layout, s: State, s': State, a: Spec)
    requires Inv(l, s, a) && ReadHeaderStep(l, s, s')
    ensures Inv(l, s', a)
  {
  }

  lemma ThreadStepRefines(l: Layout, s: State, step: Step, s': State, a: Spec)
    requires Inv(l, s, a) && Next(l, s, step, s') && Fits(l, s, step) && !Internal(step)
    ensures Inv(l, s', SpecStep(a, s, step))
  {
    match step
    case BeginOp(t) => BeginKeeps(l, s, t, s', a);
    case CheckWrite(t, x) => CheckKeeps(l, s, t, x, s', a);
    case AppendWrite(t, data) => AppendKeeps(l, s, t, data, s', a);
    case EndOp(t) => EndKeeps(l, s, t, s', a);
  }

  lemma InternalStepRefines(l: Layout, s: State, step: Step, s': State, a: Spec)
    requires Inv(l, s, a) && Next(l, s, step, s') && Internal(step)
    ensures Inv(l, s', SpecStep(a, s, step))
  {
    match step
    case CopyBlock => CopyKeeps(l, s, s', a);
    case CommitHeader => CommitKeeps(l, s, s', a);
    case InstallBlock => InstallKeeps(l, s, s', a);
    case EraseHeader => EraseKeeps(l, s, s', a);
    case EndCommit => EndCommitKeeps(l, s, s', a);
    case Crash => CrashKeeps(l, s, s', a);
    case ReadHeader => ReadHeaderKeeps(l, s, s', a);
    case ReplayBlock => ReplayKeeps(l, s, s', a);
    case EraseAfterReplay => EraseAfterReplayKeeps(l, s, s', a);
  }

  /** Every step acts on the disk and the buffers as it acts on the specification. */
  lemma StepRefines(l: Layout, s: State, step: Step, s': State, a: Spec)
    requires Inv(l, s, a) && Next(l, s, step, s') && Fits(l, s, step)
    ensures Inv(l, s', SpecStep(a, s, step))
  {
    if Internal(step) {
      InternalStepRefines(l, s, step, s', a);
    } else {
      ThreadStepRefines(l, s, step, s', a);
    }
  }

  // ----- whole runs -----

  ghost predicate Fitting(l: Layout, states: seq<State>, steps: seq<Step>)
    requires |states| == |steps| + 1
  {
    forall k | 0 <= k < |steps| :: Fits(l, states[k], steps[k])
  }

  lemma BootInv(l: Layout, s: State)
    requires Boot(l, s)
    ensures Inv(l, s, Spec(s.disk, s.disk))
  {
  }

  /** Whatever the calls, the interleaving, the crashes and the crashes during recovery, the disk
      and the buffers stay related to the specification that commits atomically. */
  lemma {:induction false} RunRefines(l: Layout, states: seq<State>, steps: seq<Step>, a: Spec)
    requires Run(l, states, steps) && Fitting(l, states, steps) && Inv(l, states[0], a)
    ensures Inv(l, states[|steps|], SpecRun(a, states, steps))
    decreases |steps|
  {
    var n := |steps|;
    if n > 0 {
      RunRefines(l, states[..n], steps[..n - 1], a);
      StepRefines(l, states[n - 1], steps[n - 1], states[n], SpecRun(a, states[..n], steps[..n - 1]));
    }
  }

  /** With more than LOGSIZE blocks in the log area no append runs over it. */
  lemma InvFits(l: Layout, s: State, step: Step, s': State, a: Spec)
    requires Inv(l, s, a) && Next(l, s, step, s') && l.size > LOGSIZE
    ensures Fits(l, s, step)
  {
    if step.AppendWrite? {
      CallsBounds(s.threads);
      assert Room(s.threads[step.t]) <= Rooms(s.threads);
    }
  }

  lemma {:induction false} LargeLogFits(l: Layout, states: seq<State>, steps: seq<Step>, a: Spec)
    requires Run(l, states, steps) && Inv(l, states[0], a) && l.size > LOGSIZE
    ensures Fitting(l, states, steps)
    decreases |steps|
  {
    var n := |steps|;
    if n > 0 {
      LargeLogFits(l, states[..n], steps[..n - 1], a);
      RunRefines(l, states[..n], steps[..n - 1], a);
      InvFits(l, states[n - 1], steps[n - 1], states[n], SpecRun(a, states[..n], steps[..n - 1]));
      forall k | 0 <= k < n
        ensures Fits(l, states[k], steps[k])
      {
        if k < n - 1 {
          assert Fits(l, states[..n][k], steps[..n - 1][k]);
        }
      }
    }
  }

  /** Whatever the size of the log area, appends fit if no call gets between the size test of a
      log_write and its append. */
  lemma SerialFits(l: Layout, states: seq<State>, steps: seq<Step>)
    requires Run(l, states, steps)
    requires forall k | 0 <= k < |steps| && steps[k].AppendWrite? ::
               k > 0 && steps[k - 1].CheckWrite? && steps[k - 1].t == steps[k].t
    ensures Fitting(l, states, steps)
  {
    forall k | 0 <= k < |steps|
      ensures Fits(l, states[k], steps[k])
    {
      if steps[k].AppendWrite? {
        assert Next(l, states[k - 1], steps[k - 1], states[k - 1 + 1]);
        assert Next(l, states[k], steps[k], states[k + 1]);
      }
    }
  }

  /** Once recovery or commit is over, the home blocks hold the durable contents. */
  lemma SettledDisk(l: Layout, s: State, a: Spec)
    requires Inv(l, s, a) && (s.phase.Running? || s.phase.Finish?)
    ensures forall x | l.Home(x) :: s.disk[x] == a.durable[x]
  {
  }

  ghost predicate Undecided(s: State) {
    s.phase.CopyLog? || s.phase.CommitPoint?
  }

  /** The specification state b, reached from a with or without the header write. */
  ghost predicate Decided(a: Spec, wrote: bool, s: State, b: Spec) {
    if wrote then b == Spec(a.current, a.current) && !Undecided(s)
    else b.durable == a.durable && (Undecided(s) ==> b.current == a.current)
  }

  lemma StepDecides(l: Layout, s: State, step: Step, s': State, a: Spec, wrote: bool, b: Spec)
    requires Next(l, s, step, s') && Internal(step) && Decided(a, wrote, s, b)
    ensures Decided(a, wrote || step.CommitHeader?, s', SpecStep(b, s, step))
  {
  }

  lemma {:induction false} CommitDecides(l: Layout, states: seq<State>, steps: seq<Step>, a: Spec)
    requires Run(l, states, steps) && Undecided(states[0])
    requires forall k | 0 <= k < |steps| :: Internal(steps[k])
    ensures Decided(a, CommitHeader in steps, states[|steps|], SpecRun(a, states, steps))
    decreases |steps|
  {
    var n := |steps|;
    if n > 0 {
      CommitDecides(l, states[..n], steps[..n - 1], a);
      assert steps == steps[..n - 1] + [steps[n - 1]];
      StepDecides(l, states[n - 1], steps[n - 1], states[n], a, CommitHeader in steps[..n - 1],
                  SpecRun(a, states[..n], steps[..n - 1]));
    }
  }

  lemma InternalFits(l: Layout, states: seq<State>, steps: seq<Step>)
    requires |states| == |steps| + 1 && forall k | 0 <= k < |steps| :: Internal(steps[k])
    ensures Fitting(l, states, steps)
  {
  }

  /** Crash atomicity.  From the start of a commit, through any number of crashes at any block
      write of commit or of recovery, once a recovery or the commit has completed the home blocks
      are all new if the header write reached the disk, and all old if it did not. */
  lemma CrashAtomicity(l: Layout, states: seq<State>, steps: seq<Step>, a: Spec)
    requires Run(l, states, steps) && Inv(l, states[0], a) && states[0].phase == CopyLog(0)
    requires forall k | 0 <= k < |steps| :: Internal(steps[k])
    requires states[|steps|].phase.Running? || states[|steps|].phase.Finish?
    ensures |states[|steps|].disk| == |states[0].disk| == l.blocks
    ensures CommitHeader in steps ==> forall x | l.Home(x) :: states[|steps|].disk[x] == View(states[0], x)
    ensures CommitHeader !in steps ==> forall x | l.Home(x) :: states[|steps|].disk[x] == states[0].disk[x]
  {
    CommitDecides(l, states, steps, a);
    InternalFits(l, states, steps);
    RunRefines(l, states, steps, a);
    SettledDisk(l, states[|steps|], SpecRun(a, states, steps));
    assert Entries(states[0].disk[l.start]) == [];
  }

  /** Every completed recovery leaves exactly the effects of the commits whose header was written. */
  lemma {:induction false} DurableAfterRecovery(l: Layout, states: seq<State>, steps: seq<Step>)
    requires Run(l, states, steps) && Boot(l, states[0]) && Fitting(l, states, steps)
    requires states[|steps|].phase.Running?
    ensures var b := SpecRun(Spec(states[0].disk, states[0].disk), states, steps);
            && |b.durable| == |b.current| == |states[|steps|].disk| == l.blocks
            && forall x | l.Home(x) ::
                 states[|steps|].disk[x] == b.durable[x] && View(states[|steps|], x) == b.current[x]
  {
    var a := Spec(states[0].disk, states[0].disk);
    BootInv(l, states[0]);
    RunRefines(l, states, steps, a);
    SettledDisk(l, states[|steps|], SpecRun(a, states, steps));
  }

  // ----- group commit, for a log area of any size -----

  /** What the critical sections of begin_op, log_write and end_op keep, whatever happens to the disk. */
  ghost predicate Grouped(l: Layout, s: State) {
    s.phase != Panicked ==>
      && s.committing == Committing(s.phase) && (s.phase.Finish? ==> s.head == []) && ThreadsOk(l, s)
      && (s.phase.Running? && s.outstanding == 0 ==> s.head == [])
  }

  /** No thread but t is between begin_op and end_op. */
  ghost predicate OnlyCall(s: State, t: nat) {
    forall u | 0 <= u < |s.threads| && u != t :: s.threads[u].Outside?
  }

  /** The count of calls tells whether a call is the only one. */
  lemma OnlyCallCount(l: Layout, s: State, t: nat)
    requires Grouped(l, s) && s.phase.Running? && t < |s.threads| && s.threads[t].Inside?
    ensures OnlyCall(s, t) <==> s.outstanding == 1
  {
    var ts := s.threads[t := Outside];
    CallsUpdate(s.threads, t, Outside);
    CallsBounds(ts);
    assert forall u | 0 <= u < |ts| && u != t :: ts[u] == s.threads[u];
    if s.outstanding == 1 {
      forall u | 0 <= u < |ts| && u != t
        ensures s.threads[u].Outside?
      {
        assert ts[u].Outside?;
      }
    }
  }

  lemma BeginOrCheckGrouped(l: Layout, s: State, step: Step, s': State)
    requires Grouped(l, s) && Next(l, s, step, s') && (step.BeginOp? || step.CheckWrite?)
    ensures Grouped(l, s')
  {
    CallsBounds(s.threads);
    CallsUpdate(s.threads, step.t, s'.threads[step.t]);
    assert s'.threads == s.threads[step.t := s'.threads[step.t]];
  }

  lemma AppendOrEndGrouped(l: Layout, s: State, step: Step, s': State)
    requires Grouped(l, s) && Next(l, s, step, s') && (step.AppendWrite? || step.EndOp?)
    ensures Grouped(l, s')
  {
    CallsUpdate(s.threads, step.t, s'.threads[step.t]);
    CallsBounds(s.threads);
    CallsBounds(s'.threads);
    assert s'.threads == s.threads[step.t := s'.threads[step.t]];
  }

  lemma StepGrouped(l: Layout, s: State, step: Step, s': State)
    requires Grouped(l, s) && Next(l, s, step, s')
    ensures Grouped(l, s')
  {
    if Internal(step) {
      CallsBounds(s'.threads);
    } else if step.BeginOp? || step.CheckWrite? {
      BeginOrCheckGrouped(l, s, step, s');
    } else {
      AppendOrEndGrouped(l, s, step, s');
    }
  }

  /** A panic is that of a log_write on a full log or log area, and in a log area of more than LOGSIZE
      blocks that of a log_write which would add nothing to a full log. */
  lemma PanicCause(l: Layout, s: State, step: Step, s': State)
    requires Grouped(l, s) && Next(l, s, step, s') && s'.phase.Panicked?
    ensures step.CheckWrite? && (|s.head| == LOGSIZE || |s.head| >= l.size - 1)
    ensures l.size > LOGSIZE ==> step.block in s.head && |s.head| == LOGSIZE
  {
    CallsBounds(s.threads);
    assert Room(s.threads[step.t]) <= Rooms(s.threads);
  }

  lemma {:induction false} RunGrouped(l: Layout, states: seq<State>, steps: seq<Step>)
    requires Run(l, states, steps) && Grouped(l, states[0])
    ensures Grouped(l, states[|steps|])
    decreases |steps|
  {
    var n := |steps|;
    if n > 0 {
      RunGrouped(l, states[..n], steps[..n - 1]);
      StepGrouped(l, states[n - 1], steps[n - 1], states[n]);
    }
  }

  /** Group commit, in every run and for every size of the log area: a commit runs only when no call is
      in progress, reservations cover what the calls may still add, end_op does not panic, and
      log_write panics only on a full log or log area. */
  lemma GroupCommit(l: Layout, states: seq<State>, steps: seq<Step>)
    requires Run(l, states, steps) && Boot(l, states[0])
    ensures var s := states[|steps|];
            && (s.committing && !s.phase.Panicked? ==>
                  s.outstanding == 0 && forall t | 0 <= t < |s.threads| :: s.threads[t].Outside?)
            && (s.phase.Running? ==> |s.head| + Rooms(s.threads) <= LOGSIZE && s.outstanding == Calls(s.threads))
    ensures |steps| > 0 && states[|steps|].phase.Panicked? ==>
              var s, step := states[|steps| - 1], steps[|steps| - 1];
              && step.CheckWrite? && (|s.head| == LOGSIZE || |s.head| >= l.size - 1)
              && (l.size > LOGSIZE ==> step.block in s.head && |s.head| == LOGSIZE)
  {
    RunGrouped(l, states, steps);
    var n := |steps|;
    if n > 0 && states[n].phase.Panicked? {
      RunGrouped(l, states[..n], steps[..n - 1]);
      PanicCause(l, states[n - 1], steps[n - 1], states[n]);
    }
  }

  /** In every run the call that leaves last starts the commit, with the first log block if there is
      anything to commit, and a call that leaves others behind does not. */
  lemma LastCallCommits(l: Layout, states: seq<State>, steps: seq<Step>)
    requires Run(l, states, steps) && Boot(l, states[0]) && |steps| > 0 && steps[|steps| - 1].EndOp?
    ensures var s, s', t := states[|steps| - 1], states[|steps|], steps[|steps| - 1].t;
            && t < |s.threads| && s.threads[t].Inside? && s'.threads == s.threads[t := Outside] && s'.head == s.head
            && (s'.committing <==> OnlyCall(s, t))
            && (OnlyCall(s, t) ==> s'.phase == if s.head != [] then CopyLog(0) else Finish)
            && (!OnlyCall(s, t) ==> s'.phase.Running?)
  {
    var n := |steps|;
    RunGrouped(l, states[..n], steps[..n - 1]);
    assert EndOpStep(states[n - 1], steps[n - 1].t, states[n]);
    OnlyCallCount(l, states[n - 1], steps[n - 1].t);
  }

  /** In every run, when calls can run and none does, nothing is left in the log; if all appends fitted, the
      home blocks hold the contents that callers see. */
  lemma QuietIsCommitted(l: Layout, states: seq<State>, steps: seq<Step>)
    requires Run(l, states, steps) && Boot(l, states[0])
    requires var s := states[|steps|]; s.phase.Running? && forall t | 0 <= t < |s.threads| :: s.threads[t].Outside?
    ensures states[|steps|].head == []
    ensures Fitting(l, states, steps) ==>
              var b := SpecRun(Spec(states[0].disk, states[0].disk), states, steps);
              && |b.current| == |states[|steps|].disk| == l.blocks
              && forall x | l.Home(x) :: states[|steps|].disk[x] == b.current[x]
  {
    var s := states[|steps|];
    RunGrouped(l, states, steps);
    CallsBounds(s.threads);
    if Fitting(l, states, steps) {
      var a := Spec(states[0].disk, states[0].disk);
      BootInv(l, states[0]);
      RunRefines(l, states, steps, a);
      NothingPinned(l, s, SpecRun(a, states, steps));
    }
  }

  lemma NothingPinned(l: Layout, s: State, a: Spec)
    requires Inv(l, s, a) && s.phase.Running? && s.head == []
    ensures |a.current| == |s.disk| == l.blocks && forall x | l.Home(x) :: s.disk[x] == a.current[x]
  {
    forall x | l.Home(x)
      ensures s.disk[x] == a.current[x]
    {
      assert View(s, x) == a.current[x];
    }
  }

  // ----- a commit in progress -----

  /** A step inside a commit, before its erasure. */
  ghost predicate BeforeErasure(step: Step) {
    !step.Crash? && !step.EraseHeader? && !step.EndCommit?
  }

  lemma StepFreezes(l: Layout, s: State, step: Step, s': State, a: Spec)
    requires Inv(l, s, a) && Next(l, s, step, s') && s.committing && s.phase != Panicked && BeforeErasure(step)
    ensures s'.head == s.head && s'.committing && s'.phase != Panicked && Fits(l, s, step)
    ensures SpecStep(a, s, step).current == a.current
  {
  }

  /** During a commit no call is in progress, and what a reader sees is the specification's contents. */
  lemma Frozen(l: Layout, s: State, a: Spec)
    requires Inv(l, s, a) && s.committing && s.phase != Panicked
    ensures |s.disk| == |a.current| == l.blocks && forall x | l.Home(x) :: View(s, x) == a.current[x]
    ensures forall t | 0 <= t < |s.threads| :: s.threads[t].Outside?
  {
  }

  /** From the start of a commit until its erasure the header in memory does not change, no call
      enters, nothing panics, and nobody sees a block change. */
  lemma {:induction false} CommitFreezes(l: Layout, states: seq<State>, steps: seq<Step>, a: Spec)
    requires Run(l, states, steps) && Inv(l, states[0], a) && states[0].committing && states[0].phase != Panicked
    requires forall k | 0 <= k < |steps| :: BeforeErasure(steps[k])
    ensures var s := states[|steps|];
            && s.head == states[0].head && s.committing && s.phase != Panicked
            && Inv(l, s, SpecRun(a, states, steps)) && SpecRun(a, states, steps).current == a.current
            && (forall t | 0 <= t < |s.threads| :: s.threads[t].Outside?)
            && |s.disk| == |states[0].disk| == l.blocks && forall x | l.Home(x) :: View(s, x) == View(states[0], x)
    decreases |steps|
  {
    hide Inv;
    hide Next;
    var n := |steps|;
    Frozen(l, states[0], a);
    if n > 0 {
      CommitFreezes(l, states[..n], steps[..n - 1], a);
      var b := SpecRun(a, states[..n], steps[..n - 1]);
      StepFreezes(l, states[n - 1], steps[n - 1], states[n], b);
      StepRefines(l, states[n - 1], steps[n - 1], states[n], b);
      Frozen(l, states[n], SpecRun(a, states, steps));
    }
  }
}
