/** Which CPU runs which process: the scheduler and the state changes of proc.c as interleaved steps of
    any number of CPUs under ptable.lock. */
module ProcTable {
  datatype Option<T> = None | Some(value: T)

  datatype ProcState = Unused | Embryo | Sleeping(chan: nat) | Runnable | Running | Zombie

  /** What a CPU is doing. */
  datatype Mode =
    | Loop               // scheduler, without the lock
    | Pick               // Priority_Scheduler with the lock, before extractMin
    | Chosen(p: nat)     // c->proc = p is done
    | Enter(p: nat)      // p is RUNNING and back from sched, or in forkret, with the lock
    | Free(p: nat)       // p runs without the lock
    | Locked(p: nat)     // p runs with the lock
    | Leave(p: nat)      // p has changed its state and calls sched
    | Back(p: nat)       // the scheduler is back from swtch
    | Requeue(p: nat)    // c->proc = 0 is done

  /** The lists that share one pool of links: the priority queue as a bag, which may hold a process twice, and
      processes that are not RUNNABLE; the running processes; and the number of free links. */
  datatype Links = Links(queue: multiset<nat>, holder: multiset<nat>, room: nat)

  datatype State = State(procs: seq<ProcState>, current: seq<Option<nat>>, mode: seq<Mode>, lock: Option<nat>, links: Links)

  datatype Step =
    | TakeLock(c: nat) | NothingToRun(c: nat) | Stale(c: nat, p: nat) | Choose(c: nat, p: nat) | SetRunning(c: nat) | Release(c: nat)
    | Allocate(c: nat, q: nat) | GiveUp(c: nat, q: nat) | Launch(c: nat, q: nat) | Reap(c: nat, q: nat)
    | Wakeup(c: nat, chan: nat) | Kill(c: nat, q: nat)
    | Yield(c: nat) | Sleep(c: nat, chan: nat) | Exit(c: nat) | Switch(c: nat) | ClearProc(c: nat) | Finish(c: nat)

  /** pq.put: nothing happens without a free link. */
  function Put(l: Links, p: nat): Links {
    if l.room > 0 then l.(queue := l.queue + multiset{p}, room := l.room - 1) else l
  }

  /** pq.extractMin, when it returns p. */
  function Extract(l: Links, p: nat): Links {
    l.(queue := l.queue - multiset{p}, room := l.room + 1)
  }

  /** rpholder.add */
  function Add(l: Links, p: nat): Links {
    if l.room > 0 then l.(holder := l.holder + multiset{p}, room := l.room - 1) else l
  }

  /** rpholder.remove */
  function Remove(l: Links, p: nat): Links {
    if p in l.holder then l.(holder := l.holder - multiset{p}, room := l.room + 1) else l
  }

  /** Those of the first n processes that sleep on chan, in the order of the table. */
  function Sleepers(procs: seq<ProcState>, chan: nat, n: nat): (ps: seq<nat>)
    requires n <= |procs|
    ensures |ps| <= n
  {
    if n == 0 then []
    else Sleepers(procs, chan, n - 1) + if procs[n - 1] == Sleeping(chan) then [n - 1] else []
  }

  /** As many of ps as there are links for go to the queue. */
  function PutAll(l: Links, ps: seq<nat>): Links {
    var k := if |ps| <= l.room then |ps| else l.room;
    l.(queue := l.queue + multiset(ps[..k]), room := l.room - k)
  }

  lemma PutAllNone(l: Links)
    ensures PutAll(l, []) == l
  {
  }

  lemma SleepersNone(procs: seq<ProcState>, chan: nat)
    ensures Sleepers(procs, chan, 0) == []
  {
  }

  lemma SleepersNext(procs: seq<ProcState>, chan: nat, n: nat)
    requires n < |procs|
    ensures Sleepers(procs, chan, n + 1) ==
            if procs[n] == Sleeping(chan) then Sleepers(procs, chan, n) + [n] else Sleepers(procs, chan, n)
  {
  }

  lemma PutAllOne(l: Links, ps: seq<nat>, p: nat)
    ensures Put(PutAll(l, ps), p) == PutAll(l, ps + [p])
  {
    if |ps| < l.room {
      assert (ps + [p])[..|ps| + 1] == ps + [p] && ps[..|ps|] == ps;
    } else {
      assert (ps + [p])[..l.room] == ps[..l.room];
    }
  }

  lemma {:induction false} SleepersGrow(procs: seq<ProcState>, chan: nat, m: nat, n: nat)
    requires m <= n <= |procs|
    ensures |Sleepers(procs, chan, m)| <= |Sleepers(procs, chan, n)|
  {
    if m < n {
      SleepersGrow(procs, chan, m, n - 1);
    }
  }

  /** The first k sleepers are those with fewer than k before them, each once. */
  lemma {:induction false} FirstSleepers(procs: seq<ProcState>, chan: nat, n: nat, k: nat, p: nat)
    requires n <= |procs| && k <= |Sleepers(procs, chan, n)|
    ensures multiset(Sleepers(procs, chan, n)[..k])[p] ==
            if p < n && procs[p] == Sleeping(chan) && |Sleepers(procs, chan, p)| < k then 1 else 0
  {
    if n > 0 {
      var ps, before := Sleepers(procs, chan, n), Sleepers(procs, chan, n - 1);
      if k <= |before| {
        assert ps[..k] == before[..k];
        FirstSleepers(procs, chan, n - 1, k, p);
      } else {
        assert ps[..k] == before[..|before|] + [n - 1];
        FirstSleepers(procs, chan, n - 1, |before|, p);
        if p < n - 1 && procs[p] == Sleeping(chan) {
          SleepersGrow(procs, chan, p + 1, n - 1);
        }
      }
    }
  }

  /** With room for all, the queue gains exactly the processes that slept on chan, each once; otherwise it gains
      the first of them in the order of the table, as many as there is room for. */
  ghost predicate Enqueued(procs: seq<ProcState>, chan: nat, queue: multiset<nat>, room: nat, queue': multiset<nat>) {
    forall p: nat :: queue'[p] == queue[p] +
      if p < |procs| && procs[p] == Sleeping(chan) && |Sleepers(procs, chan, p)| < room then 1 else 0
  }

  lemma SleepersQueued(procs: seq<ProcState>, chan: nat, l: Links)
    ensures var l' := PutAll(l, Sleepers(procs, chan, |procs|));
            Enqueued(procs, chan, l.queue, l.room, l'.queue) && |l'.queue| + l'.room == |l.queue| + l.room
  {
    var ps := Sleepers(procs, chan, |procs|);
    forall p: nat
      ensures PutAll(l, ps).queue[p] == l.queue[p] +
              if p < |procs| && procs[p] == Sleeping(chan) && |Sleepers(procs, chan, p)| < l.room then 1 else 0
    {
      FirstSleepers(procs, chan, |procs|, if |ps| <= l.room then |ps| else l.room, p);
      if p < |procs| && procs[p] == Sleeping(chan) {
        SleepersGrow(procs, chan, p + 1, |procs|);
      }
    }
  }

  /** wakeup1: all processes that sleep on chan become RUNNABLE, and are queued as long as there are links. */
  ghost predicate Woken(s: State, s': State, chan: nat) {
    && |s'.procs| == |s.procs|
    && (forall p | 0 <= p < |s.procs| :: s'.procs[p] == if s.procs[p] == Sleeping(chan) then Runnable else s.procs[p])
    && s'.links == PutAll(s.links, Sleepers(s.procs, chan, |s.procs|)) && s'.current == s.current && s'.mode == s.mode && s'.lock == s.lock
  }

  /** CPU c, in mode m, goes on to mode m' with these processes, current process and lock. */
  ghost predicate Goes(s: State, s': State, c: nat, m: Mode, m': Mode, procs: seq<ProcState>, current: Option<nat>, lock: Option<nat>) {
    && c < |s.mode| && c < |s.current| && s.mode[c] == m
    && s'.mode == s.mode[c := m'] && s'.procs == procs && s'.current == s.current[c := current] && s'.lock == lock
  }

  ghost predicate Shaped(s: State) {
    |s.mode| == |s.current|
  }

  ghost predicate Next(s: State, s': State, step: Step)
    requires Shaped(s)
  {
    step.c < |s.mode| &&
    var c := step.c;
    var m, cur := s.mode[c], s.current[c];
    match step
    case TakeLock(_) =>
      s.lock == None && s'.links == s.links &&
      (if m.Free? then Goes(s, s', c, m, Locked(m.p), s.procs, cur, Some(c)) else m == Loop && Goes(s, s', c, m, Pick, s.procs, cur, Some(c)))
    case NothingToRun(_) =>
      m == Pick && s.links.queue == multiset{} && s'.links == s.links && Goes(s, s', c, m, Loop, s.procs, cur, None)
    case Stale(_, p) =>
      && m == Pick && p in s.links.queue && p < |s.procs| && s.procs[p] != Runnable
      && s'.links == Extract(s.links, p) && Goes(s, s', c, m, Loop, s.procs, cur, None)
    case Choose(_, p) =>
      && m == Pick && p in s.links.queue && p < |s.procs| && s.procs[p] == Runnable
      && s'.links == Extract(s.links, p) && Goes(s, s', c, m, Chosen(p), s.procs, Some(p), s.lock)
    case SetRunning(_) =>
      && m.Chosen? && m.p < |s.procs| && s'.links == Add(s.links, m.p)
      && Goes(s, s', c, m, Enter(m.p), s.procs[m.p := Running], cur, s.lock)
    case Release(_) =>
      (m.Enter? || m.Locked?) && s'.links == s.links && Goes(s, s', c, m, Free(m.p), s.procs, cur, None)
    case Allocate(_, q) =>
      && m.Locked? && q < |s.procs| && s.procs[q] == Unused && s'.links == s.links
      && Goes(s, s', c, m, m, s.procs[q := Embryo], cur, s.lock)
    case GiveUp(_, q) =>  // allocproc or fork lacks memory; this one is without the lock
      && m.Free? && q < |s.procs| && s.procs[q] == Embryo && s'.links == s.links
      && Goes(s, s', c, m, m, s.procs[q := Unused], cur, s.lock)
    case Launch(_, q) =>
      && m.Locked? && q < |s.procs| && s.procs[q] == Embryo && s'.links == Put(s.links, q)
      && Goes(s, s', c, m, m, s.procs[q := Runnable], cur, s.lock)
    case Reap(_, q) =>
      && m.Locked? && q < |s.procs| && s.procs[q] == Zombie && s'.links == s.links
      && Goes(s, s', c, m, m, s.procs[q := Unused], cur, s.lock)
    case Wakeup(_, chan) =>  // by a process, or by an interrupt handler on an idle CPU that takes and releases the lock
      (m.Locked? || (m == Loop && s.lock == None)) && Woken(s, s', chan)
    case Kill(_, q) =>
      && m.Locked? && q < |s.procs| && s.procs[q].Sleeping? && s'.links == Put(s.links, q)
      && Goes(s, s', c, m, m, s.procs[q := Runnable], cur, s.lock)
    case Yield(_) =>
      && m.Locked? && m.p < |s.procs| && s'.links == Put(Remove(s.links, m.p), m.p)
      && Goes(s, s', c, m, Leave(m.p), s.procs[m.p := Runnable], cur, s.lock)
    case Sleep(_, chan) =>
      && m.Locked? && m.p < |s.procs| && s'.links == Remove(s.links, m.p)
      && Goes(s, s', c, m, Leave(m.p), s.procs[m.p := Sleeping(chan)], cur, s.lock)
    case Exit(_) =>
      && m.Locked? && m.p < |s.procs| && s'.links == s.links
      && Goes(s, s', c, m, Leave(m.p), s.procs[m.p := Zombie], cur, s.lock)
    case Switch(_) => m.Leave? && s'.links == s.links && Goes(s, s', c, m, Back(m.p), s.procs, cur, s.lock)
    case ClearProc(_) => m.Back? && s'.links == s.links && Goes(s, s', c, m, Requeue(m.p), s.procs, None, s.lock)
    case Finish(_) =>
      && m.Requeue? && m.p < |s.procs|
      && s'.links == (if s.procs[m.p] == Runnable then Put(Remove(s.links, m.p), m.p) else Remove(s.links, m.p))
      && Goes(s, s', c, m, Loop, s.procs, cur, None)
  }

  /** All CPUs are in scheduler; the processes and the queue are arbitrary, but nothing is RUNNING. */
  ghost predicate Start(s: State) {
    && Shaped(s) && s.lock == None
    && (forall c | 0 <= c < |s.mode| :: s.mode[c] == Loop && s.current[c] == None)
    && (forall p | 0 <= p < |s.procs| :: s.procs[p] != Running)
  }

  ghost predicate Path(states: seq<State>, steps: seq<Step>) {
    && |states| == |steps| + 1
    && (forall i | 0 <= i < |states| :: Shaped(states[i]))
    && forall i | 0 <= i < |steps| :: Next(states[i], states[i + 1], steps[i])
  }

  ghost predicate Run(states: seq<State>, steps: seq<Step>) {
    Path(states, steps) && Start(states[0])
  }

  lemma Longer(states: seq<State>, steps: seq<Step>, s: State, step: Step)
    requires Path(states, steps) && Shaped(states[|steps|]) && Shaped(s) && Next(states[|steps|], s, step)
    ensures Path(states + [s], steps + [step])
  {
  }

  // ----- the invariant -----

  predicate HasLock(m: Mode) {
    !m.Loop? && !m.Free?
  }

  /** What the mode of CPU c says about its current process. */
  ghost predicate CpuOk(s: State, c: nat)
    requires Shaped(s) && c < |s.mode|
  {
    && (HasLock(s.mode[c]) <==> s.lock == Some(c))
    && match s.mode[c]
       case Loop => s.current[c] == None
       case Pick => s.current[c] == None
       case Chosen(p) => p < |s.procs| && s.current[c] == Some(p) && s.procs[p] == Runnable
       case Enter(p) => p < |s.procs| && s.current[c] == Some(p) && s.procs[p] == Running
       case Free(p) => p < |s.procs| && s.current[c] == Some(p) && s.procs[p] == Running
       case Locked(p) => p < |s.procs| && s.current[c] == Some(p) && s.procs[p] == Running
       case Leave(p) => p < |s.procs| && s.current[c] == Some(p) && s.procs[p] != Running
       case Back(p) => p < |s.procs| && s.current[c] == Some(p) && s.procs[p] != Running
       case Requeue(p) => p < |s.procs| && s.current[c] == None && s.procs[p] != Running
  }

  /** Some CPU has p as its current process. */
  ghost predicate OnCpu(s: State, p: nat) {
    exists c | 0 <= c < |s.current| :: s.current[c] == Some(p)
  }

  ghost predicate Inv(s: State) {
    && Shaped(s)
    && (forall c {:trigger CpuOk(s, c)} | 0 <= c < |s.mode| :: CpuOk(s, c))
    && (forall b, c | 0 <= b < c < |s.current| && s.current[b].Some? :: s.current[b] != s.current[c])
    && (forall p {:trigger OnCpu(s, p)} | 0 <= p < |s.procs| && s.procs[p] == Running :: OnCpu(s, p))
  }

  lemma StartInv(s: State)
    requires Start(s)
    ensures Inv(s)
  {
  }

  /** A RUNNABLE process is no CPU's current process while a scheduler is choosing. */
  lemma RunnableIsNowhere(s: State, c: nat, p: nat, b: nat)
    requires Inv(s) && c < |s.mode| && s.mode[c] == Pick && p < |s.procs| && s.procs[p] == Runnable && b < |s.mode|
    ensures s.current[b] != Some(p)
  {
    assert CpuOk(s, c) && CpuOk(s, b);
  }

  /** The steps of scheduler and of the lock. */
  predicate Schedules(step: Step) {
    step.TakeLock? || step.NothingToRun? || step.Stale? || step.Choose? || step.SetRunning? || step.Release? || step.ClearProc? || step.Finish?
  }

  lemma OwnSchedules(s: State, s': State, step: Step)
    requires Inv(s) && Shaped(s') && Next(s, s', step) && Schedules(step)
    ensures |s'.mode| == |s.mode| && CpuOk(s', step.c)
  {
    assert CpuOk(s, step.c);
  }

  lemma OwnWorks(s: State, s': State, step: Step)
    requires Inv(s) && Shaped(s') && Next(s, s', step) && !Schedules(step)
    ensures |s'.mode| == |s.mode| && CpuOk(s', step.c)
  {
    assert CpuOk(s, step.c);
  }

  /** The CPU that takes the step. */
  lemma OwnKept(s: State, s': State, step: Step)
    requires Inv(s) && Shaped(s') && Next(s, s', step)
    ensures |s'.mode| == |s.mode| && CpuOk(s', step.c)
  {
    hide Next;
    if Schedules(step) {
      OwnSchedules(s, s', step);
    } else {
      OwnWorks(s, s', step);
    }
  }

  /** What a step leaves alone: the other CPUs, running processes of other CPUs, and, without the lock, all
      processes but those that are being made. */
  ghost predicate LeftAlone(s: State, s': State, c: nat, b: nat)
    requires Shaped(s) && Shaped(s') && b < |s.mode| && c < |s.mode|
  {
    && |s'.mode| == |s.mode| && |s'.procs| == |s.procs| && s'.mode[b] == s.mode[b] && s'.current[b] == s.current[b]
    && (forall p | 0 <= p < |s.procs| && s.procs[p] == Running && s.current[c] != Some(p) :: s'.procs[p] == Running)
    && (s.lock == Some(b) ==> s'.lock == s.lock && forall p | 0 <= p < |s.procs| ::
          s'.procs[p] == s.procs[p] || (s.procs[p] == Embryo && s'.procs[p] == Unused))
    && (s.lock != Some(b) ==> s'.lock != Some(b))
  }

  lemma FrameSchedules(s: State, s': State, step: Step, b: nat)
    requires Inv(s) && Shaped(s') && Next(s, s', step) && b < |s.mode| && b != step.c && Schedules(step)
    ensures LeftAlone(s, s', step.c, b)
  {
    assert CpuOk(s, step.c) && CpuOk(s, b);
  }

  lemma FrameWorks(s: State, s': State, step: Step, b: nat)
    requires Inv(s) && Shaped(s') && Next(s, s', step) && b < |s.mode| && b != step.c && !Schedules(step)
    ensures LeftAlone(s, s', step.c, b)
  {
    assert CpuOk(s, step.c) && CpuOk(s, b);
  }

  lemma StaysOk(s: State, s': State, c: nat, b: nat)
    requires Shaped(s) && Shaped(s') && b < |s.mode| && c < |s.mode| && LeftAlone(s, s', c, b) && CpuOk(s, b)
    requires s.current[b].Some? ==> s.current[b] != s.current[c]
    ensures |s'.mode| == |s.mode| && CpuOk(s', b)
  {
  }

  /** Another CPU: its current process is not the one that changes. */
  lemma OtherKept(s: State, s': State, step: Step, b: nat)
    requires Inv(s) && Shaped(s') && Next(s, s', step) && b < |s.mode| && b != step.c
    ensures |s'.mode| == |s.mode| && CpuOk(s', b)
  {
    if Schedules(step) {
      FrameSchedules(s, s', step, b);
    } else {
      FrameWorks(s, s', step, b);
    }
    hide Next;
    hide LeftAlone;
    assert CpuOk(s, b);
    assert s.current[b].Some? ==> s.current[b] != s.current[step.c] by {
      assert b < step.c || step.c < b;
    }
    StaysOk(s, s', step.c, b);
  }

  lemma StepKeeps(s: State, s': State, step: Step)
    requires Inv(s) && Shaped(s') && Next(s, s', step)
    ensures Inv(s')
  {
    OwnKept(s, s', step);
    forall b | 0 <= b < |s'.mode|
      ensures CpuOk(s', b)
    {
      if b != step.c {
        OtherKept(s, s', step, b);
      }
    }
    forall p | 0 <= p < |s'.procs| && s'.procs[p] == Running
      ensures OnCpu(s', p)
    {
      RunningKept(s, s', step, p);
    }
    CurrentKept(s, s', step);
  }

  /** Only the CPU that takes the step may change its current process: it chooses one, or has none. */
  lemma CurrentIs(s: State, s': State, step: Step)
    requires Inv(s) && Shaped(s') && Next(s, s', step)
    ensures step.c < |s.current| == |s'.current| && forall b | 0 <= b < |s.current| && b != step.c :: s'.current[b] == s.current[b]
    ensures s'.current[step.c] == if step.Choose? then Some(step.p) else if step.ClearProc? then None else s.current[step.c]
    ensures step.Choose? ==> s.mode[step.c] == Pick && step.p < |s.procs| && s.procs[step.p] == Runnable
  {
  }

  lemma CurrentKept(s: State, s': State, step: Step)
    requires Inv(s) && Shaped(s') && Next(s, s', step)
    ensures forall b, c | 0 <= b < c < |s'.current| && s'.current[b].Some? :: s'.current[b] != s'.current[c]
  {
    CurrentIs(s, s', step);
    hide Next;
    if step.Choose? {
      forall b | 0 <= b < |s.mode|
        ensures s.current[b] != Some(step.p)
      {
        RunnableIsNowhere(s, step.c, step.p, b);
      }
    }
  }

  /** A process that becomes RUNNING is the current one of the CPU that takes the step, and a RUNNING one
      stays so unless it is the one that leaves. */
  ghost predicate RunsHere(s: State, s': State, c: nat, p: nat)
    requires c < |s.current| && p < |s'.procs|
  {
    && |s'.procs| == |s.procs| && |s'.current| == |s.current|
    && (s.procs[p] != Running ==> s'.current[c] == Some(p))
    && (s.procs[p] == Running && s.current[c] == Some(p) ==> s'.current[c] == Some(p))
  }

  lemma SchedulesRunning(s: State, s': State, step: Step, p: nat)
    requires Shaped(s) && Next(s, s', step) && Schedules(step) && CpuOk(s, step.c) && p < |s'.procs| && s'.procs[p] == Running
    ensures RunsHere(s, s', step.c, p)
  {
  }

  lemma WorksRunning(s: State, s': State, step: Step, p: nat)
    requires Shaped(s) && Next(s, s', step) && !Schedules(step) && CpuOk(s, step.c) && p < |s'.procs| && s'.procs[p] == Running
    ensures RunsHere(s, s', step.c, p)
  {
  }

  lemma BecomesRunning(s: State, s': State, step: Step, p: nat)
    requires Inv(s) && Shaped(s') && Next(s, s', step) && p < |s'.procs| && s'.procs[p] == Running
    ensures step.c < |s.current| && RunsHere(s, s', step.c, p)
  {
    assert CpuOk(s, step.c);
    if Schedules(step) {
      SchedulesRunning(s, s', step, p);
    } else {
      WorksRunning(s, s', step, p);
    }
  }

  lemma RunningKept(s: State, s': State, step: Step, p: nat)
    requires Inv(s) && Shaped(s') && Next(s, s', step) && p < |s'.procs| && s'.procs[p] == Running
    ensures OnCpu(s', p)
  {
    BecomesRunning(s, s', step, p);
    CurrentIs(s, s', step);
    hide Next;
    if s.procs[p] == Running {
      assert OnCpu(s, p);
      var b :| 0 <= b < |s.current| && s.current[b] == Some(p);
      assert s'.current[b] == Some(p);
    } else {
      assert s'.current[step.c] == Some(p);
    }
  }

  // ----- all runs -----

  lemma {:induction false} RunInv(states: seq<State>, steps: seq<Step>, i: nat)
    requires Run(states, steps) && i < |states|
    ensures Inv(states[i])
  {
    if i == 0 {
      StartInv(states[0]);
    } else {
      RunInv(states, steps, i - 1);
      StepKeeps(states[i - 1], states[i], steps[i - 1]);
    }
  }

  /** Whenever ptable.lock is free, a process is RUNNING exactly if it is the current process of a CPU, and
      then of one CPU only. */
  lemma OneCpuPerProcess(states: seq<State>, steps: seq<Step>, i: nat, p: nat)
    requires Run(states, steps) && i < |states| && p < |states[i].procs| && states[i].lock == None
    ensures states[i].procs[p] == Running <==> OnCpu(states[i], p)
    ensures forall b, c | 0 <= b < |states[i].current| && 0 <= c < |states[i].current| ::
              states[i].current[b] == states[i].current[c] == Some(p) ==> b == c
  {
    RunInv(states, steps, i);
    var s := states[i];
    if c :| 0 <= c < |s.current| && s.current[c] == Some(p) {
      assert CpuOk(s, c);
    }
    if s.procs[p] == Running {
      assert OnCpu(s, p);
    }
  }

  /** Two of the four panics of sched are not reached: who calls it holds ptable.lock and is no longer
      RUNNING.  The other two tests, of ncli and of the interrupt flag, are about state that is not modelled. */
  lemma SchedHoldsLockAndLeft(states: seq<State>, steps: seq<Step>, i: nat, c: nat)
    requires Run(states, steps) && i < |states| && c < |states[i].mode| && states[i].mode[c].Leave?
    ensures states[i].mode[c].p < |states[i].procs| && states[i].procs[states[i].mode[c].p] != Running && states[i].lock == Some(c)
  {
    RunInv(states, steps, i);
    assert CpuOk(states[i], c);
  }
}
