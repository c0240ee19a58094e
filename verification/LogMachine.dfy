/** The redo log of log.c as a machine whose steps are the atomic actions of the code: the
    critical sections of begin_op, log_write and end_op, and each single block write of commit
    and of recovery.  A crash may happen between any two steps and keeps only the disk.

    The machine is related to a specification with two block maps: the contents that a crash
    would leave behind (durable) and the contents that callers see (current). */
module LogMachine {

  const MAXOPBLOCKS: nat := 10
  const LOGSIZE: nat := 30
  /** Words of one disk block: BSIZE / sizeof(int). */
  const WORDS: nat := 128

  type Block = b: seq<int> | |b| == WORDS witness seq(WORDS, _ => 0)

  /** log.start, log.size and the number of blocks of the device. */
  datatype Layout = Layout(start: nat, size: nat, blocks: nat) {
    predicate Valid() {
      1 <= size && start + size <= blocks
    }

    predicate Home(x: int) {
      0 <= x < blocks && !(start <= x < start + size)
    }
  }

  // ----- the header block -----

  /** The entries recorded in a header block. */
  function Entries(b: Block): (e: seq<int>)
    requires 0 <= b[0] < WORDS
  {
    b[1..1 + b[0]]
  }

  /** What write_head leaves in the header block: words after the last entry keep their value. */
  function HeaderBlock(prev: Block, head: seq<int>): (b: Block)
    requires |head| < WORDS
  {
    [|head|] + head + prev[1 + |head|..]
  }

  lemma HeaderRoundTrip(prev: Block, head: seq<int>)
    requires |head| < WORDS
    ensures HeaderBlock(prev, head)[0] == |head|
    ensures Entries(HeaderBlock(prev, head)) == head
  {
  }

  ghost predicate Apart(s: seq<int>, i: int, j: int)
    requires 0 <= i < |s| && 0 <= j < |s|
  {
    s[i] != s[j]
  }

  ghost predicate Distinct(s: seq<int>) {
    forall i, j {:trigger Apart(s, i, j)} | 0 <= i < |s| && 0 <= j < |s| && i != j :: Apart(s, i, j)
  }

  /** A list of blocks that a transaction may log. */
  ghost predicate Loggable(l: Layout, head: seq<int>) {
    && |head| <= LOGSIZE && |head| < l.size
    && Distinct(head)
    && forall k | 0 <= k < |head| :: l.Home(head[k])
  }

  ghost predicate GoodHeader(l: Layout, b: Block) {
    0 <= b[0] < WORDS && Loggable(l, Entries(b))
  }

  // ----- the machine -----

  datatype Thread =
    | Outside
    /** Between begin_op and end_op, with the blocks it added to the log so far, and the block of
        a log_write that has passed the panic tests but not yet taken log.lock. */
    | Inside(used: nat, pending: Pending)

  datatype Pending = NoWrite | Passed(block: int)

  datatype Phase =
    | Running
    | CopyLog(i: nat)     // write_log is about to write log block i
    | CommitPoint         // write_head is about to write the header
    | Install(i: nat)     // install_trans is about to write home block i
    | Erase               // write_head is about to clear the header
    | Finish              // commit returned, log.committing is still set
    | Down                // power lost, recovery not started
    | Replay(i: nat)      // recovery's install_trans is about to write home block i
    | EraseReplayed       // recovery is about to clear the header
    | Panicked

  datatype State = State(
    disk: seq<Block>,
    pinned: map<int, Block>,    // contents of the buffers kept in memory by B_DIRTY
    head: seq<int>,             // log.lh
    outstanding: int,
    committing: bool,
    phase: Phase,
    threads: seq<Thread>)

  datatype Step =
    | BeginOp(t: nat)
    | CheckWrite(t: nat, block: int)
    | AppendWrite(t: nat, data: Block)
    | EndOp(t: nat)
    | CopyBlock
    | CommitHeader
    | InstallBlock
    | EraseHeader
    | EndCommit
    | Crash
    | ReadHeader
    | ReplayBlock
    | EraseAfterReplay

  /** log_write's two size tests and its transaction test. */
  predicate WritePanics(l: Layout, s: State) {
    |s.head| >= LOGSIZE || |s.head| >= l.size - 1 || s.outstanding < 1
  }

  /** The contents that a bread of block x hands out. */
  function View(s: State, x: int): Block
    requires 0 <= x < |s.disk|
  {
    if x in s.pinned then s.pinned[x] else s.disk[x]
  }

  function Absorb(head: seq<int>, x: int): seq<int> {
    if x in head then head else head + [x]
  }

  /** A commit with an empty header writes nothing. */
  function CommitStart(head: seq<int>): Phase {
    if |head| > 0 then CopyLog(0) else Finish
  }

  function CommitNext(head: seq<int>, i: nat): Phase {
    if i < |head| then CopyLog(i) else CommitPoint
  }

  function InstallNext(head: seq<int>, i: nat): Phase {
    if i < |head| then Install(i) else Erase
  }

  function ReplayNext(head: seq<int>, i: nat): Phase {
    if i < |head| then Replay(i) else EraseReplayed
  }

  /** File system calls exist only after recovery has finished. */
  predicate Up(p: Phase) {
    !p.Down? && !p.Replay? && !p.EraseReplayed? && !p.Panicked?
  }

  ghost predicate BeginOpStep(l: Layout, s: State, t: nat, s': State) {
    && t < |s.threads| && s.threads[t].Outside?
    && Up(s.phase) && !s.committing
    && |s.head| + (s.outstanding + 1) * MAXOPBLOCKS <= LOGSIZE
    && s' == s.(outstanding := s.outstanding + 1, threads := s.threads[t := Inside(0, NoWrite)])
  }

  /** log_write up to its acquire of log.lock, by a call that adds at most MAXOPBLOCKS blocks. */
  ghost predicate CheckWriteStep(l: Layout, s: State, t: nat, x: int, s': State) {
    && t < |s.threads| && s.threads[t].Inside? && s.threads[t].pending.NoWrite?
    && s.phase != Panicked && l.Home(x)
    && (x in s.head || s.threads[t].used < MAXOPBLOCKS)
    && s' == if WritePanics(l, s) then s.(phase := Panicked)
             else s.(threads := s.threads[t := Inside(s.threads[t].used, Passed(x))])
  }

  /** The critical section of log_write. */
  ghost predicate AppendWriteStep(s: State, t: nat, data: Block, s': State) {
    && t < |s.threads| && s.threads[t].Inside? && s.threads[t].pending.Passed?
    && s.phase != Panicked
    && var x := s.threads[t].pending.block;
       var used := s.threads[t].used;
       s' == s.(head := Absorb(s.head, x), pinned := s.pinned[x := data],
                threads := s.threads[t := Inside(if x in s.head then used else used + 1, NoWrite)])
  }

  /** The first critical section of end_op. */
  ghost predicate EndOpStep(s: State, t: nat, s': State) {
    && t < |s.threads| && s.threads[t].Inside? && s.threads[t].pending.NoWrite?
    && s.phase != Panicked
    && s' == if s.committing then s.(outstanding := s.outstanding - 1, phase := Panicked)
             else if s.outstanding - 1 == 0 then
               s.(outstanding := 0, committing := true, phase := CommitStart(s.head),
                  threads := s.threads[t := Outside])
             else s.(outstanding := s.outstanding - 1, threads := s.threads[t := Outside])
  }

  /** Log block i and the home block it stands for exist on the device. */
  ghost predicate OnDevice(l: Layout, s: State, i: nat) {
    i < |s.head| && 0 <= s.head[i] < |s.disk| && l.start + 1 + i < |s.disk|
  }

  ghost predicate CopyBlockStep(l: Layout, s: State, s': State) {
    && s.phase.CopyLog? && OnDevice(l, s, s.phase.i)
    && s' == s.(disk := s.disk[l.start + 1 + s.phase.i := View(s, s.head[s.phase.i])],
                phase := CommitNext(s.head, s.phase.i + 1))
  }

  ghost predicate CommitHeaderStep(l: Layout, s: State, s': State) {
    && s.phase.CommitPoint? && l.start < |s.disk| && |s.head| < WORDS
    && s' == s.(disk := s.disk[l.start := HeaderBlock(s.disk[l.start], s.head)],
                phase := InstallNext(s.head, 0))
  }

  /** Writing the home block clears B_DIRTY, which unpins the buffer. */
  ghost predicate InstallBlockStep(l: Layout, s: State, s': State) {
    && s.phase.Install? && OnDevice(l, s, s.phase.i)
    && s' == s.(disk := s.disk[s.head[s.phase.i] := s.disk[l.start + 1 + s.phase.i]],
                pinned := s.pinned - {s.head[s.phase.i]},
                phase := InstallNext(s.head, s.phase.i + 1))
  }

  ghost predicate EraseHeaderStep(l: Layout, s: State, s': State) {
    && s.phase.Erase? && l.start < |s.disk|
    && s' == s.(disk := s.disk[l.start := HeaderBlock(s.disk[l.start], [])], head := [], phase := Finish)
  }

  ghost predicate CrashStep(s: State, s': State) {
    s' == State(s.disk, map[], [], 0, false, Down, seq(|s.threads|, _ => Outside))
  }

  ghost predicate ReadHeaderStep(l: Layout, s: State, s': State) {
    && s.phase.Down? && l.start < |s.disk| && 0 <= s.disk[l.start][0] < WORDS
    && var e := Entries(s.disk[l.start]);
       s' == s.(head := e, phase := ReplayNext(e, 0))
  }

  ghost predicate ReplayBlockStep(l: Layout, s: State, s': State) {
    && s.phase.Replay? && OnDevice(l, s, s.phase.i)
    && s' == s.(disk := s.disk[s.head[s.phase.i] := s.disk[l.start + 1 + s.phase.i]],
                pinned := s.pinned - {s.head[s.phase.i]},
                phase := ReplayNext(s.head, s.phase.i + 1))
  }

  ghost predicate EraseAfterReplayStep(l: Layout, s: State, s': State) {
    && s.phase.EraseReplayed? && l.start < |s.disk|
    && s' == s.(disk := s.disk[l.start := HeaderBlock(s.disk[l.start], [])], head := [], phase := Running)
  }

  ghost predicate Next(l: Layout, s: State, step: Step, s': State) {
    match step
    case BeginOp(t) => BeginOpStep(l, s, t, s')
    case CheckWrite(t, x) => CheckWriteStep(l, s, t, x, s')
    case AppendWrite(t, data) => AppendWriteStep(s, t, data, s')
    case EndOp(t) => EndOpStep(s, t, s')
    case CopyBlock => CopyBlockStep(l, s, s')
    case CommitHeader => CommitHeaderStep(l, s, s')
    case InstallBlock => InstallBlockStep(l, s, s')
    case EraseHeader => EraseHeaderStep(l, s, s')
    case EndCommit => s.phase.Finish? && s' == s.(committing := false, phase := Running)
    case Crash => CrashStep(s, s')
    case ReadHeader => ReadHeaderStep(l, s, s')
    case ReplayBlock => ReplayBlockStep(l, s, s')
    case EraseAfterReplay => EraseAfterReplayStep(l, s, s')
  }

  /** A machine just powered on, on a disk whose log is empty. */
  ghost predicate Boot(l: Layout, s: State) {
    && l.Valid() && |s.disk| == l.blocks && s.disk[l.start][0] == 0
    && s == State(s.disk, map[], [], 0, false, Down, seq(|s.threads|, _ => Outside))
  }

  /** A sequence of steps, with the states it goes through. */
  ghost predicate Run(l: Layout, states: seq<State>, steps: seq<Step>) {
    && |states| == |steps| + 1
    && forall k | 0 <= k < |steps| :: Next(l, states[k], steps[k], states[k + 1])
  }

  // ----- the specification -----

  /** durable: what recovery would restore.  current: what running calls see. */
  datatype Spec = Spec(durable: seq<Block>, current: seq<Block>)

  /** How each step acts on the specification.  Only three of them are visible: a logged write,
      the header write of a commit, and a crash. */
  function SpecStep(a: Spec, s: State, step: Step): Spec {
    match step
    case AppendWrite(t, data) =>
      if t < |s.threads| && s.threads[t].Inside? && s.threads[t].pending.Passed? &&
         0 <= s.threads[t].pending.block < |a.current|
      then a.(current := a.current[s.threads[t].pending.block := data]) else a
    case CommitHeader => a.(durable := a.current)
    case Crash => a.(current := a.durable)
    case _ => a
  }

  ghost function SpecRun(a: Spec, states: seq<State>, steps: seq<Step>): Spec
    requires |states| == |steps| + 1
  {
    if |steps| == 0 then a
    else SpecStep(SpecRun(a, states[..|steps|], steps[..|steps| - 1]), states[|steps| - 1], steps[|steps| - 1])
  }

  /** Recovery of this disk yields d on the home blocks. */
  ghost predicate Recovers(l: Layout, disk: seq<Block>, d: seq<Block>)
    requires l.Valid() && |disk| == l.blocks == |d|
    requires GoodHeader(l, disk[l.start])
  {
    var e := Entries(disk[l.start]);
    && (forall k | 0 <= k < |e| :: disk[l.start + 1 + k] == d[e[k]])
    && (forall x {:trigger disk[x]} {:trigger d[x]} | l.Home(x) && x !in e :: disk[x] == d[x])
  }

  // ----- the invariant -----

  function Room(t: Thread): int {
    if t.Inside? then MAXOPBLOCKS - t.used else 0
  }

  function Rooms(ts: seq<Thread>): int {
    if ts == [] then 0 else Rooms(ts[..|ts| - 1]) + Room(ts[|ts| - 1])
  }

  function Calls(ts: seq<Thread>): nat {
    if ts == [] then 0 else Calls(ts[..|ts| - 1]) + (if ts[|ts| - 1].Inside? then 1 else 0)
  }

  ghost predicate CallsOk(l: Layout, s: State) {
    && s.outstanding == Calls(s.threads)
    && |s.head| + Rooms(s.threads) <= LOGSIZE
    && forall t | 0 <= t < |s.threads| && s.threads[t].Inside? ::
         && s.threads[t].used <= MAXOPBLOCKS
         && (s.threads[t].pending.Passed? ==>
               && l.Home(s.threads[t].pending.block)
               && (s.threads[t].pending.block in s.head || s.threads[t].used < MAXOPBLOCKS))
  }

  /** Blocks head[i..] are pinned and nothing else is. */
  ghost predicate PinnedFrom(s: State, i: nat)
    requires i <= |s.head|
  {
    forall x {:trigger x in s.pinned} :: x in s.pinned <==> x in s.head[i..]
  }

  ghost predicate Copied(l: Layout, s: State, i: nat)
    requires i <= |s.head| && l.start + 1 + |s.head| <= |s.disk|
  {
    forall k | 0 <= k < i :: s.head[k] in s.pinned && s.disk[l.start + 1 + k] == s.pinned[s.head[k]]
  }

  ghost predicate Sees(l: Layout, s: State, a: Spec)
    requires |s.disk| == l.blocks == |a.current|
  {
    forall x {:trigger a.current[x]} {:trigger View(s, x)} | l.Home(x) :: View(s, x) == a.current[x]
  }

  ghost predicate Agree(l: Layout, d: seq<Block>, c: seq<Block>)
    requires |d| == |c| == l.blocks
  {
    forall x {:trigger d[x]} {:trigger c[x]} | l.Home(x) :: d[x] == c[x]
  }

  /** The first i logged blocks are home. */
  ghost predicate Replayed(l: Layout, disk: seq<Block>, head: seq<int>, i: nat, d: seq<Block>)
    requires i <= |head| && |disk| == |d| == l.blocks && Loggable(l, head)
  {
    forall k | 0 <= k < i :: disk[head[k]] == d[head[k]]
  }

  ghost predicate DiskOk(l: Layout, s: State, a: Spec) {
    && l.Valid() && |s.disk| == l.blocks == |a.durable| == |a.current|
    && GoodHeader(l, s.disk[l.start])
    && Recovers(l, s.disk, a.durable)
    && Loggable(l, s.head)
  }

  /** How far the block copying of this phase has got. */
  function Progress(s: State): (i: nat) {
    match s.phase
    case CopyLog(i) => i
    case Install(i) => i
    case Replay(i) => i
    case _ => |s.head|
  }

  predicate Committing(p: Phase) {
    p.CopyLog? || p.CommitPoint? || p.Install? || p.Erase? || p.Finish?
  }

  /** The header on disk lists the blocks of s.head. */
  predicate HeaderWritten(p: Phase) {
    p.Install? || p.Erase? || p.Replay? || p.EraseReplayed?
  }

  ghost predicate PhaseOk(l: Layout, s: State, a: Spec)
    requires DiskOk(l, s, a)
  {
    && s.committing == Committing(s.phase)
    && Progress(s) <= |s.head|
    && (s.phase.CopyLog? || s.phase.Install? || s.phase.Replay? ==> Progress(s) < |s.head|)
    && (s.phase.Finish? || s.phase.Down? ==> s.head == [])
    && (!s.phase.Down? ==> Entries(s.disk[l.start]) == if HeaderWritten(s.phase) then s.head else [])
    && (if Up(s.phase)
        then Sees(l, s, a) && PinnedFrom(s, if HeaderWritten(s.phase) then Progress(s) else 0)
        else s.pinned == map[])
    && (HeaderWritten(s.phase) || s.phase.Finish? || s.phase.Down? ==> Agree(l, a.durable, a.current))
    && (s.phase.CopyLog? || s.phase.CommitPoint? ==> Copied(l, s, Progress(s)))
    && (s.phase.Replay? || s.phase.EraseReplayed? ==> Replayed(l, s.disk, s.head, Progress(s), a.durable))
  }

  /** No call is in progress outside the running phase. */
  ghost predicate ThreadsOk(l: Layout, s: State) {
    if s.phase == Running then CallsOk(l, s)
    else s.outstanding == 0 && forall t | 0 <= t < |s.threads| :: s.threads[t].Outside?
  }

  ghost predicate Inv(l: Layout, s: State, a: Spec) {
    DiskOk(l, s, a) && (s.phase != Panicked ==> PhaseOk(l, s, a) && ThreadsOk(l, s))
  }
}
