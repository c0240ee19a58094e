/** Whether every RUNNABLE process waits in the priority queue, on all runs of the process table machine. */
module ProcQueue {
  import opened ProcTable

  // ----- links are conserved -----

  ghost function Total(l: Links): nat {
    |l.queue| + |l.holder| + l.room
  }

  lemma Conserved(l: Links, p: nat)
    ensures Total(Put(l, p)) == Total(Add(l, p)) == Total(Remove(l, p)) == Total(l)
    ensures p in l.queue ==> Total(Extract(l, p)) == Total(l)
  {
  }

  lemma AllConserved(l: Links, ps: seq<nat>)
    ensures Total(PutAll(l, ps)) == Total(l)
  {
  }

  lemma StepConserves(s: State, s': State, step: Step)
    requires Shaped(s) && Next(s, s', step)
    ensures Total(s'.links) == Total(s.links)
  {
    var l, m := s.links, s.mode[step.c];
    if step.Stale? || step.Choose? {
      Conserved(l, step.p);
    } else if step.Launch? || step.Kill? {
      Conserved(l, step.q);
    } else if step.Wakeup? {
      AllConserved(l, Sleepers(s.procs, step.chan, |s.procs|));
    } else if step.SetRunning? || step.Yield? || step.Sleep? || step.Finish? {
      Conserved(l, m.p);
      Conserved(Remove(l, m.p), m.p);
    }
    hide Total;
    hide Put;
    hide Add;
    hide Remove;
    hide Extract;
    hide PutAll;
  }

  // ----- the running processes -----

  /** CPU c has put p on the list of running processes and not yet taken it off. */
  predicate Held(s: State, c: nat, p: nat)
    requires c < |s.mode|
  {
    var m := s.mode[c];
    || ((m.Enter? || m.Free? || m.Locked?) && m.p == p)
    || ((m.Leave? || m.Back? || m.Requeue?) && m.p == p && p < |s.procs| && s.procs[p] == Zombie)
  }

  ghost predicate HeldBySome(s: State, p: nat) {
    exists c | 0 <= c < |s.mode| :: Held(s, c, p)
  }

  ghost predicate HolderOk(s: State) {
    forall p: nat :: s.links.holder[p] == if HeldBySome(s, p) then 1 else 0
  }

  /** A link is free for the process that is about to run, and a process that yields is queued before it leaves. */
  ghost predicate CpuLinks(s: State, c: nat)
    requires c < |s.mode|
  {
    match s.mode[c]
    case Chosen(p) => s.links.room > 0
    case Leave(p) => p < |s.procs| && (s.procs[p] == Runnable ==> p in s.links.queue)
    case Back(p) => p < |s.procs| && (s.procs[p] == Runnable ==> p in s.links.queue)
    case Requeue(p) => p < |s.procs| && (s.procs[p] == Runnable ==> p in s.links.queue)
    case _ => true
  }

  ghost predicate LinksOk(s: State) {
    && Inv(s) && HolderOk(s)
    && forall c {:trigger CpuLinks(s, c)} | 0 <= c < |s.mode| :: CpuLinks(s, c)
  }

  // ----- RUNNABLE processes -----

  /** p is RUNNABLE, but no scheduler will ever find it. */
  ghost predicate Lost(s: State, p: nat) {
    && p < |s.procs| && s.procs[p] == Runnable && p !in s.links.queue
    && forall c | 0 <= c < |s.mode| :: s.mode[c] != Chosen(p)
  }

  ghost predicate Queued(s: State) {
    forall p: nat :: !Lost(s, p)
  }

  /** p becomes RUNNABLE by the step and is not in the queue yet, and there is no link for it. */
  ghost predicate Drops(s: State, step: Step, p: nat) {
    && p < |s.procs| && p !in s.links.queue
    && match step
       case Launch(_, q) => p == q && s.links.room == 0
       case Kill(_, q) => p == q && s.links.room == 0
       case Wakeup(_, chan) => s.procs[p] == Sleeping(chan) && |Sleepers(s.procs, chan, p)| >= s.links.room
       case _ => false
  }

  // ----- every step -----

  lemma StartLinks(s: State)
    requires Start(s) && s.links.holder == multiset{}
    ensures LinksOk(s)
  {
    StartInv(s);
  }

  /** Who is held is RUNNING, or a zombie on its way out. */
  lemma HeldIs(s: State, c: nat, p: nat)
    requires Inv(s) && c < |s.mode| && Held(s, c, p)
    ensures p < |s.procs| && (s.procs[p] == Running || (s.procs[p] == Zombie && s.lock == Some(c)))
    ensures s.procs[p] == Running ==> s.current[c] == Some(p)
  {
    assert CpuOk(s, c);
  }

  lemma HeldOnce(s: State, b: nat, c: nat, p: nat)
    requires Inv(s) && b < |s.mode| && c < |s.mode| && Held(s, b, p) && Held(s, c, p)
    ensures b == c
  {
    HeldIs(s, b, p);
    HeldIs(s, c, p);
  }

  lemma HeldElsewhere(s: State, s': State, step: Step, b: nat, p: nat)
    requires Inv(s) && Shaped(s') && Next(s, s', step) && b < |s.mode| && b != step.c
    ensures |s'.mode| == |s.mode| && (Held(s', b, p) <==> Held(s, b, p))
  {
    if Schedules(step) {
      FrameSchedules(s, s', step, b);
    } else {
      FrameWorks(s, s', step, b);
    }
    hide Next;
    assert CpuOk(s, b);
  }

  /** The list of running processes follows the CPU that takes the step. */
  ghost predicate Follows(s: State, s': State, c: nat, p: nat)
    requires c < |s.mode| && c < |s'.mode|
  {
    && s'.links.holder[p] + (if Held(s, c, p) then 1 else 0) == s.links.holder[p] + (if Held(s', c, p) then 1 else 0)
    && (Held(s', c, p) && !Held(s, c, p) ==> p < |s.procs| && s.procs[p] == Runnable)
  }

  lemma OwnHeldRuns(s: State, s': State, step: Step, p: nat)
    requires Shaped(s) && Next(s, s', step) && step.SetRunning? && CpuOk(s, step.c) && CpuLinks(s, step.c)
    ensures |s'.mode| == |s.mode| && Follows(s, s', step.c, p)
  {
  }

  lemma OwnHeldEnds(s: State, s': State, step: Step, p: nat)
    requires Shaped(s) && Next(s, s', step) && step.Finish? && CpuOk(s, step.c)
    requires s.mode[step.c].p == p ==> s.links.holder[p] == if s.procs[p] == Zombie then 1 else 0
    ensures |s'.mode| == |s.mode| && Follows(s, s', step.c, p)
  {
  }

  lemma OwnHeldSame(s: State, s': State, step: Step, p: nat)
    requires Shaped(s) && Next(s, s', step) && Schedules(step) && !step.SetRunning? && !step.Finish? && CpuOk(s, step.c)
    ensures |s'.mode| == |s.mode| && Follows(s, s', step.c, p)
  {
    assert s'.links.holder == s.links.holder && s'.procs == s.procs;
  }

  lemma OwnHeldWorks(s: State, s': State, step: Step, p: nat)
    requires Shaped(s) && Shaped(s') && Next(s, s', step) && !Schedules(step) && CpuOk(s, step.c)
    requires Held(s, step.c, p) ==> s.links.holder[p] == 1
    ensures |s'.mode| == |s.mode| && Follows(s, s', step.c, p)
  {
    assert step.Yield? || step.Sleep? || s'.links.holder == s.links.holder;
    assert step.Wakeup? ==> s'.mode == s.mode;
  }

  lemma OwnHeld(s: State, s': State, step: Step, p: nat)
    requires LinksOk(s) && Shaped(s') && Next(s, s', step)
    ensures |s'.mode| == |s.mode| && Follows(s, s', step.c, p)
  {
    var c := step.c;
    assert Held(s, c, p) ==> HeldBySome(s, p);
    assert CpuOk(s, c) && CpuLinks(s, c);
    if step.SetRunning? {
      OwnHeldRuns(s, s', step, p);
    } else if step.Finish? {
      if s.mode[c].p == p && s.procs[p] != Zombie {
        NotHeld(s, p);
      }
      OwnHeldEnds(s, s', step, p);
    } else if Schedules(step) {
      OwnHeldSame(s, s', step, p);
    } else {
      OwnHeldWorks(s, s', step, p);
    }
  }

  lemma NotHeld(s: State, p: nat)
    requires Inv(s) && p < |s.procs| && s.procs[p] != Running && s.procs[p] != Zombie
    ensures !HeldBySome(s, p)
  {
    if c :| 0 <= c < |s.mode| && Held(s, c, p) {
      HeldIs(s, c, p);
    }
  }

  lemma HolderKept(s: State, s': State, step: Step)
    requires LinksOk(s) && Shaped(s') && Next(s, s', step)
    ensures HolderOk(s')
  {
    forall p: nat
      ensures s'.links.holder[p] == if HeldBySome(s', p) then 1 else 0
    {
      HeldKept(s, s', step, p);
    }
  }

  lemma HeldKept(s: State, s': State, step: Step, p: nat)
    requires LinksOk(s) && Shaped(s') && Next(s, s', step)
    ensures s'.links.holder[p] == if HeldBySome(s', p) then 1 else 0
  {
    OwnHeld(s, s', step, p);
    var c := step.c;
    forall b | 0 <= b < |s.mode| && b != c
      ensures Held(s', b, p) <==> Held(s, b, p)
      ensures Held(s, c, p) ==> !Held(s, b, p)
    {
      HeldElsewhere(s, s', step, b, p);
      if Held(s, c, p) && Held(s, b, p) {
        HeldOnce(s, b, c, p);
      }
    }
    hide Next;
    hide Held;
    if Held(s', c, p) && !Held(s, c, p) {
      NotHeld(s, p);
    } else if b :| 0 <= b < |s.mode| && b != c && Held(s, b, p) {
      assert HeldBySome(s, p) && HeldBySome(s', p);
    }
    assert Held(s, c, p) ==> HeldBySome(s, p);
    assert Held(s', c, p) ==> HeldBySome(s', p);
  }

  /** The CPUs that have chosen p: one more by Choose, one less by SetRunning. */
  lemma ChosenBy(s: State, s': State, step: Step, p: nat)
    requires LinksOk(s) && Shaped(s') && Next(s, s', step)
    ensures |s'.mode| == |s.mode| && forall b | 0 <= b < |s.mode| && b != step.c :: s'.mode[b] == s.mode[b]
    ensures s'.mode[step.c] == Chosen(p) <==> step == Choose(step.c, p)
    ensures s.mode[step.c] == Chosen(p) && s'.mode[step.c] != Chosen(p) ==> p < |s'.procs| && s'.procs[p] == Running
  {
    assert CpuOk(s, step.c);
  }

  /** While another CPU has the lock, the lists do not change, and no process becomes RUNNABLE. */
  lemma LinksElsewhere(s: State, s': State, step: Step, b: nat)
    requires LinksOk(s) && Shaped(s') && Next(s, s', step) && b < |s.mode| && b != step.c && s.lock == Some(b)
    ensures s'.links == s.links && |s'.mode| == |s.mode| && s'.mode[b] == s.mode[b] && |s'.procs| == |s.procs|
    ensures forall p | 0 <= p < |s.procs| && s.procs[p] != Runnable :: s'.procs[p] != Runnable
  {
    assert CpuOk(s, step.c);
  }

  lemma OwnLinksKept(s: State, s': State, step: Step)
    requires LinksOk(s) && Shaped(s') && Next(s, s', step)
    ensures |s'.mode| == |s.mode| && CpuLinks(s', step.c)
  {
    var c := step.c;
    assert CpuOk(s, c) && CpuLinks(s, c);
    if step.Yield? {
      assert Held(s, c, s.mode[c].p);
      assert HeldBySome(s, s.mode[c].p);
    }
  }

  lemma CpuLinksKept(s: State, s': State, step: Step, b: nat)
    requires LinksOk(s) && Shaped(s') && Next(s, s', step) && b < |s'.mode|
    ensures CpuLinks(s', b)
  {
    OwnLinksKept(s, s', step);
    if b != step.c {
      assert CpuOk(s, b) && CpuLinks(s, b);
      if s.lock == Some(b) {
        LinksElsewhere(s, s', step, b);
      } else {
        ChosenBy(s, s', step, 0);
      }
    }
    hide Next;
  }

  lemma LinksKept(s: State, s': State, step: Step)
    requires LinksOk(s) && Shaped(s') && Next(s, s', step)
    ensures LinksOk(s')
  {
    StepKeeps(s, s', step);
    HolderKept(s, s', step);
    forall b | 0 <= b < |s'.mode|
      ensures CpuLinks(s', b)
    {
      CpuLinksKept(s, s', step, b);
    }
  }

  /** Only a RUNNABLE process is chosen. */
  lemma ChosenIsRunnable(s: State, p: nat)
    requires Inv(s) && p < |s.procs| && s.procs[p] != Runnable
    ensures forall c | 0 <= c < |s.mode| :: s.mode[c] != Chosen(p)
  {
    forall c | 0 <= c < |s.mode|
      ensures s.mode[c] != Chosen(p)
    {
      assert CpuOk(s, c);
    }
  }

  /** What a step means for the place of p in the queue. */
  ghost predicate Placed(s: State, s': State, step: Step, p: nat)
    requires p < |s.procs| && step.c < |s.mode|
  {
    && |s'.procs| == |s.procs|
    && (p in s.links.queue && p !in s'.links.queue ==> step == Choose(step.c, p) || step == Stale(step.c, p))
    && (p !in s.links.queue && p in s'.links.queue ==> s.procs[p] != Runnable && s'.procs[p] == Runnable)
    && (s.procs[p] == Runnable && s'.procs[p] != Runnable ==> s.mode[step.c] == Chosen(p))
    && (s.procs[p] != Runnable && s'.procs[p] == Runnable && p !in s.links.queue ==> (p !in s'.links.queue <==> Drops(s, step, p)))
    && (Drops(s, step, p) ==> s.procs[p] != Runnable && s'.procs[p] == Runnable)
  }

  lemma PlacedByScheduler(s: State, s': State, step: Step, p: nat)
    requires Shaped(s) && Next(s, s', step) && p < |s.procs| && CpuOk(s, step.c) && Schedules(step) && !step.Finish?
    ensures Placed(s, s', step, p)
  {
    assert step.SetRunning? || s'.procs == s.procs;
    assert step.Choose? || step.Stale? || s'.links.queue == s.links.queue;
  }

  lemma PlacedByFinish(s: State, s': State, step: Step, p: nat)
    requires Shaped(s) && Next(s, s', step) && p < |s.procs| && CpuLinks(s, step.c) && step.Finish?
    ensures Placed(s, s', step, p)
  {
  }

  lemma WokenFacts(s: State, s': State, chan: nat, p: nat)
    requires Woken(s, s', chan)
    ensures |s'.procs| == |s.procs| && (p < |s.procs| ==> s'.procs[p] == if s.procs[p] == Sleeping(chan) then Runnable else s.procs[p])
    ensures s'.links.queue[p] == s.links.queue[p] +
            if p < |s.procs| && s.procs[p] == Sleeping(chan) && |Sleepers(s.procs, chan, p)| < s.links.room then 1 else 0
  {
    SleepersQueued(s.procs, chan, s.links);
    hide PutAll;
    hide Sleepers;
  }

  lemma PlacedByWakeup(s: State, s': State, step: Step, p: nat)
    requires step.Wakeup? && step.c < |s.mode| && Woken(s, s', step.chan) && p < |s.procs|
    ensures Placed(s, s', step, p)
  {
    WokenFacts(s, s', step.chan, p);
    hide Woken;
    hide Sleepers;
  }

  lemma PlacedByPut(s: State, s': State, step: Step, p: nat)
    requires Shaped(s) && Next(s, s', step) && p < |s.procs| && CpuOk(s, step.c)
    requires step.Launch? || step.Kill? || (step.Yield? && s.mode[step.c].p in s.links.holder)
    ensures Placed(s, s', step, p)
  {
  }

  lemma PlacedByOther(s: State, s': State, step: Step, p: nat)
    requires Shaped(s) && Next(s, s', step) && p < |s.procs| && CpuOk(s, step.c)
    requires !Schedules(step) && !step.Wakeup? && !step.Launch? && !step.Kill? && !step.Yield?
    ensures Placed(s, s', step, p)
  {
    assert s'.links.queue == s.links.queue;
  }

  lemma QueueBy(s: State, s': State, step: Step, p: nat)
    requires LinksOk(s) && Shaped(s') && Next(s, s', step) && p < |s.procs|
    ensures Placed(s, s', step, p)
  {
    var c := step.c;
    assert CpuOk(s, c) && CpuLinks(s, c);
    if step.Finish? {
      PlacedByFinish(s, s', step, p);
    } else if Schedules(step) {
      PlacedByScheduler(s, s', step, p);
    } else if step.Wakeup? {
      PlacedByWakeup(s, s', step, p);
    } else if step.Launch? || step.Kill? || step.Yield? {
      if step.Yield? {
        assert Held(s, c, s.mode[c].p);
        assert HeldBySome(s, s.mode[c].p);
      }
      PlacedByPut(s, s', step, p);
    } else {
      PlacedByOther(s, s', step, p);
    }
  }

  /** A process is lost by a step exactly if the step drops it, and it stays lost. */
  lemma LostBy(s: State, s': State, step: Step, p: nat)
    requires LinksOk(s) && Shaped(s') && Next(s, s', step)
    ensures Lost(s', p) <==> Lost(s, p) || Drops(s, step, p)
  {
    LinksKept(s, s', step);
    ChosenBy(s, s', step, p);
    if p < |s.procs| {
      QueueBy(s, s', step, p);
      if s.procs[p] != Runnable {
        ChosenIsRunnable(s, p);
      }
    }
    assert step == Choose(step.c, p) ==> p in s.links.queue;
    hide Next;
    hide Drops;
  }

  // ----- all runs -----

  /** A run from the time when all CPUs enter scheduler: nothing runs yet. */
  ghost predicate Boots(states: seq<State>, steps: seq<Step>) {
    Run(states, steps) && states[0].links.holder == multiset{}
  }

  lemma {:induction false} RunLinks(states: seq<State>, steps: seq<Step>, i: nat)
    requires Boots(states, steps) && i < |states|
    ensures LinksOk(states[i]) && Total(states[i].links) == Total(states[0].links) && |states[i].procs| == |states[0].procs|
  {
    if i == 0 {
      StartLinks(states[0]);
    } else {
      RunLinks(states, steps, i - 1);
      LinksKept(states[i - 1], states[i], steps[i - 1]);
      StepConserves(states[i - 1], states[i], steps[i - 1]);
    }
  }

  /** Whenever the lock is free, the list of running processes holds exactly those that are RUNNING, each once. */
  lemma HolderIsRunning(states: seq<State>, steps: seq<Step>, i: nat, p: nat)
    requires Boots(states, steps) && i < |states| && states[i].lock == None && p < |states[i].procs|
    ensures states[i].links.holder[p] == if states[i].procs[p] == Running then 1 else 0
  {
    var s := states[i];
    RunLinks(states, steps, i);
    if c :| 0 <= c < |s.mode| && Held(s, c, p) {
      HeldIs(s, c, p);
    } else if s.procs[p] == Running {
      assert OnCpu(s, p);
      var c :| 0 <= c < |s.current| && s.current[c] == Some(p);
      assert CpuOk(s, c) && Held(s, c, p);
    }
  }

  lemma LostNext(states: seq<State>, steps: seq<Step>, i: nat, p: nat)
    requires Boots(states, steps) && i < |steps| == |states| - 1
    ensures Lost(states[i + 1], p) <==> Lost(states[i], p) || Drops(states[i], steps[i], p)
  {
    RunLinks(states, steps, i);
    LostBy(states[i], states[i + 1], steps[i], p);
  }

  /** A process is lost exactly if it was at the start, or if some step before dropped it: it never comes back. */
  lemma {:induction false} LostExactly(states: seq<State>, steps: seq<Step>, i: nat, p: nat)
    requires Boots(states, steps) && i < |states| == |steps| + 1
    ensures Lost(states[i], p) <==> Lost(states[0], p) || exists j | 0 <= j < i :: Drops(states[j], steps[j], p)
  {
    hide Boots;
    hide Lost;
    hide Drops;
    if i > 0 {
      LostExactly(states, steps, i - 1, p);
      LostNext(states, steps, i - 1, p);
    }
  }

  /** Whenever the lock is free, a RUNNABLE process is in the queue exactly if no step dropped it. */
  lemma RunnableIsQueued(states: seq<State>, steps: seq<Step>, i: nat, p: nat)
    requires Boots(states, steps) && i < |states| && states[i].lock == None && p < |states[i].procs| && states[i].procs[p] == Runnable
    requires !Lost(states[0], p)
    ensures p in states[i].links.queue <==> forall j | 0 <= j < i :: !Drops(states[j], steps[j], p)
  {
    RunLinks(states, steps, i);
    LostExactly(states, steps, i, p);
    forall c | 0 <= c < |states[i].mode|
      ensures states[i].mode[c] != Chosen(p)
    {
      assert CpuOk(states[i], c);
    }
  }

  /** yield's put always finds a link, the one that the list of running processes has just given back. */
  lemma YieldQueues(states: seq<State>, steps: seq<Step>, i: nat, c: nat, p: nat)
    requires Boots(states, steps) && i < |steps| && steps[i] == Yield(c) && c < |states[i].mode| && states[i].mode[c] == Locked(p)
    ensures states[i + 1].links.queue == states[i].links.queue + multiset{p}
  {
    RunLinks(states, steps, i);
    assert Held(states[i], c, p);
    assert HeldBySome(states[i], p);
  }

  /** The put of the scheduler that follows finds the process in the queue already, and queues it again. */
  lemma QueuedTwice(states: seq<State>, steps: seq<Step>, i: nat, c: nat, p: nat)
    requires Boots(states, steps) && i < |steps| && steps[i] == Finish(c) && c < |states[i].mode| && states[i].mode[c] == Requeue(p)
    requires p < |states[i].procs| && states[i].procs[p] == Runnable
    ensures p in states[i].links.queue
    ensures states[i + 1].links.queue == states[i].links.queue + if states[i].links.room > 0 then multiset{p} else multiset{}
  {
    RunLinks(states, steps, i);
    assert CpuLinks(states[i], c);
    NotHeld(states[i], p);
  }

  // ----- without yield there are links enough -----

  ghost predicate Waiting(s: State, p: nat) {
    p < |s.procs| && s.procs[p] == Runnable && forall c | 0 <= c < |s.mode| :: s.mode[c] != Chosen(p)
  }

  /** No process is in the queue twice, none that does not wait, and none comes back RUNNABLE to the scheduler. */
  ghost predicate Tidy(s: State) {
    && LinksOk(s)
    && (forall p: nat :: s.links.queue[p] <= if Waiting(s, p) then 1 else 0)
    && (forall c | 0 <= c < |s.mode| && (s.mode[c].Leave? || s.mode[c].Back? || s.mode[c].Requeue?) ::
          s.mode[c].p < |s.procs| && s.procs[s.mode[c].p] != Runnable)
  }

  /** The count of p in the queue goes up by at most one, and only if p becomes RUNNABLE. */
  ghost predicate Counted(s: State, s': State, step: Step, p: nat) {
    && |s'.procs| == |s.procs|
    && s'.links.queue[p] <= s.links.queue[p] + (if p < |s.procs| && s.procs[p] != Runnable && s'.procs[p] == Runnable then 1 else 0)
    && (step == Choose(step.c, p) ==> s'.links.queue[p] + 1 == s.links.queue[p])
  }

  lemma CountByOther(s: State, s': State, step: Step, p: nat)
    requires Shaped(s) && Next(s, s', step) && !step.Yield? && !step.Wakeup?
    requires step.Finish? && s.mode[step.c].Requeue? && s.mode[step.c].p < |s.procs| ==> s.procs[s.mode[step.c].p] != Runnable
    ensures Counted(s, s', step, p)
  {
  }

  lemma CountBy(s: State, s': State, step: Step, p: nat)
    requires Tidy(s) && Shaped(s') && Next(s, s', step) && !step.Yield?
    ensures Counted(s, s', step, p)
  {
    if step.Wakeup? {
      WokenFacts(s, s', step.chan, p);
      hide Woken;
      hide Sleepers;
    } else {
      CountByOther(s, s', step, p);
    }
  }

  lemma LeaverBy(s: State, s': State, step: Step, c: nat)
    requires Tidy(s) && Shaped(s') && Next(s, s', step) && !step.Yield? && c < |s'.mode|
    requires s'.mode[c].Leave? || s'.mode[c].Back? || s'.mode[c].Requeue?
    ensures s'.mode[c].p < |s'.procs| && s'.procs[s'.mode[c].p] != Runnable
  {
    assert CpuOk(s, step.c);
    if c != step.c {
      ChosenBy(s, s', step, 0);
      assert CpuOk(s, c);
      LinksElsewhere(s, s', step, c);
    }
  }

  lemma TidyAt(s: State, s': State, step: Step, p: nat)
    requires Tidy(s) && Shaped(s') && Next(s, s', step) && !step.Yield?
    ensures s'.links.queue[p] <= if Waiting(s', p) then 1 else 0
  {
    CountBy(s, s', step, p);
    ChosenBy(s, s', step, p);
    if p < |s.procs| {
      QueueBy(s, s', step, p);
      if s.procs[p] != Runnable {
        ChosenIsRunnable(s, p);
      }
    }
    assert step == Choose(step.c, p) ==> p in s.links.queue;
    assert s.links.queue[p] <= if Waiting(s, p) then 1 else 0;
    hide Next;
    hide LinksOk;
    hide Drops;
  }

  lemma TidyKept(s: State, s': State, step: Step)
    requires Tidy(s) && Shaped(s') && Next(s, s', step) && !step.Yield?
    ensures Tidy(s')
  {
    LinksKept(s, s', step);
    forall p: nat
      ensures s'.links.queue[p] <= if Waiting(s', p) then 1 else 0
    {
      TidyAt(s, s', step, p);
    }
    forall c | 0 <= c < |s'.mode| && (s'.mode[c].Leave? || s'.mode[c].Back? || s'.mode[c].Requeue?)
      ensures s'.mode[c].p < |s'.procs| && s'.procs[s'.mode[c].p] != Runnable
    {
      LeaverBy(s, s', step, c);
    }
  }

  /** A bag of numbers below n without repetitions has at most n of them. */
  lemma {:induction false} AtMost(m: multiset<nat>, n: nat)
    requires forall x: nat :: m[x] <= if x < n then 1 else 0
    ensures |m| <= n
  {
    if n == 0 {
      assert m == multiset{};
    } else {
      AtMost(m[n - 1 := 0], n - 1);
      assert m == m[n - 1 := 0] + if n - 1 in m then multiset{n - 1} else multiset{};
    }
  }

  /** A process is in the queue, or is running, or is neither. */
  lemma OneList(s: State, x: nat)
    requires Tidy(s)
    ensures s.links.queue[x] + s.links.holder[x] <= 1
    ensures s.links.queue[x] + s.links.holder[x] == 1 ==> x < |s.procs| && (s.procs[x] == Runnable || s.procs[x] == Running || s.procs[x] == Zombie)
  {
    if c :| 0 <= c < |s.mode| && Held(s, c, x) {
      HeldIs(s, c, x);
    }
  }

  /** p and the sleepers before it, if p is not RUNNABLE, RUNNING or a zombie, are on no list. */
  lemma ListedOnce(s: State, chan: nat, p: nat, n: nat)
    requires Tidy(s) && p < |s.procs| && n <= p && s.procs[p] != Runnable && s.procs[p] != Running && s.procs[p] != Zombie
    ensures |s.links.queue| + |s.links.holder| + |Sleepers(s.procs, chan, n)| + 1 <= |s.procs|
  {
    var ps := Sleepers(s.procs, chan, n);
    var m := s.links.queue + s.links.holder + multiset(ps) + multiset{p};
    forall x: nat
      ensures m[x] <= if x < |s.procs| then 1 else 0
    {
      FirstSleepers(s.procs, chan, n, |ps|, x);
      assert ps[..|ps|] == ps;
      OneList(s, x);
    }
    AtMost(m, |s.procs|);
  }

  /** A process that becomes RUNNABLE finds a link, since every other process has at most one. */
  lemma NeverDrops(s: State, s': State, step: Step, p: nat)
    requires Tidy(s) && Shaped(s') && Next(s, s', step) && Total(s.links) >= |s.procs|
    ensures !Drops(s, step, p)
  {
    if Drops(s, step, p) {
      ChangesState(s, s', step, p);
      hide Next;
      if step.Wakeup? {
        ListedOnce(s, step.chan, p, p);
      } else {
        ListedOnce(s, 0, p, 0);
      }
    }
  }

  lemma ChangesState(s: State, s': State, step: Step, p: nat)
    requires Shaped(s) && Next(s, s', step) && Drops(s, step, p)
    ensures s.procs[p] == Embryo || s.procs[p].Sleeping?
  {
  }

  /** With a link for every process, and without yield, no process is ever lost. */
  lemma {:induction false} EnoughWithoutYield(states: seq<State>, steps: seq<Step>, i: nat)
    requires Boots(states, steps) && i < |states| && Total(states[0].links) >= |states[0].procs|
    requires forall p: nat :: states[0].links.queue[p] <= if p < |states[0].procs| && states[0].procs[p] == Runnable then 1 else 0
    requires forall j | 0 <= j < |steps| :: !steps[j].Yield?
    ensures Tidy(states[i]) && forall p: nat :: i < |steps| ==> !Drops(states[i], steps[i], p)
  {
    RunLinks(states, steps, i);
    if i > 0 {
      EnoughWithoutYield(states, steps, i - 1);
      TidyKept(states[i - 1], states[i], steps[i - 1]);
    }
    if i < |steps| {
      forall p: nat
        ensures !Drops(states[i], steps[i], p)
      {
        NeverDrops(states[i], states[i + 1], steps[i], p);
      }
    }
  }

  // ----- with yield there are not -----

  ghost function Zeros(k: nat): multiset<nat> {
    multiset{}[0 := k]
  }

  /** n processes and one CPU in mode m: process 0 in state p0, process 1 sleeping, the others unused. */
  ghost function Two(n: nat, p0: ProcState, current: Option<nat>, m: Mode, lock: Option<nat>, l: Links): (s: State)
    requires n >= 2
    ensures |s.procs| == n && s.procs[0] == p0 && s.procs[1] == Sleeping(1) && Shaped(s)
  {
    State([p0, Sleeping(1)] + seq(n - 2, _ => Unused), [current], [m], lock, l)
  }

  /** Process 0 waits in the queue k times, and r links are free. */
  ghost function Idle(n: nat, k: nat, r: nat): (s: State)
    requires n >= 2
    ensures Shaped(s)
  {
    Two(n, Runnable, None, Loop, None, Links(Zeros(k), multiset{}, r))
  }

  /** Process 0 is chosen and runs. */
  lemma Runs(n: nat, q: multiset<nat>, r: nat)
    requires n >= 2
    ensures var l := Links(q, multiset{}, r + 1);
            Next(Two(n, Runnable, Some(0), Chosen(0), Some(0), l), Two(n, Running, Some(0), Enter(0), Some(0), Links(q, multiset{0}, r)), SetRunning(0))
  {
    assert multiset{} + multiset{0} == multiset{0};
    assert [Runnable, Sleeping(1)] + seq(n - 2, _ => Unused) == [Runnable] + ([Sleeping(1)] + seq(n - 2, _ => Unused));
  }

  /** Process 0 yields: it leaves the list of running processes and is queued. */
  lemma Yields(n: nat, q: multiset<nat>, r: nat)
    requires n >= 2
    ensures var l := Links(q, multiset{0}, r);
            Next(Two(n, Running, Some(0), Locked(0), Some(0), l), Two(n, Runnable, Some(0), Leave(0), Some(0), Links(q + multiset{0}, multiset{}, r)), Yield(0))
  {
    assert multiset{0} - multiset{0} == multiset{};
  }

  /** Process 0 is chosen, by a scheduler that finds nothing else in the queue. */
  lemma Chooses(n: nat, k: nat, r: nat)
    requires n >= 2 && k > 0
    ensures var pick := Two(n, Runnable, None, Pick, Some(0), Links(Zeros(k), multiset{}, r));
            && Next(Idle(n, k, r), pick, TakeLock(0))
            && Next(pick, Two(n, Runnable, Some(0), Chosen(0), Some(0), Links(Zeros(k - 1), multiset{}, r + 1)), Choose(0, 0))
  {
    assert Zeros(k) - multiset{0} == Zeros(k - 1);
  }

  lemma Relocks(n: nat, l: Links)
    requires n >= 2
    ensures Next(Two(n, Running, Some(0), Enter(0), Some(0), l), Two(n, Running, Some(0), Free(0), None, l), Release(0))
    ensures Next(Two(n, Running, Some(0), Free(0), None, l), Two(n, Running, Some(0), Locked(0), Some(0), l), TakeLock(0))
  {
  }

  /** The scheduler queues process 0 again. */
  lemma Returns(n: nat, k: nat, r: nat)
    requires n >= 2 && r > 0
    ensures Next(Two(n, Runnable, None, Requeue(0), Some(0), Links(Zeros(k), multiset{}, r)), Idle(n, k + 1, r - 1), Finish(0))
  {
    assert Zeros(k + 1) == Zeros(k) + multiset{0};
  }

  lemma Switches(n: nat, l: Links)
    requires n >= 2
    ensures Next(Two(n, Runnable, Some(0), Leave(0), Some(0), l), Two(n, Runnable, Some(0), Back(0), Some(0), l), Switch(0))
    ensures Next(Two(n, Runnable, Some(0), Back(0), Some(0), l), Two(n, Runnable, None, Requeue(0), Some(0), l), ClearProc(0))
  {
  }

  lemma Joined(states: seq<State>, steps: seq<Step>, states': seq<State>, steps': seq<Step>)
    requires Path(states, steps) && Path(states', steps') && states'[0] == states[|steps|]
    ensures Path(states + states'[1..], steps + steps') && (states + states'[1..])[|steps + steps'|] == states'[|steps'|]
  {
    hide Next;
    var all, n := states + states'[1..], |steps|;
    forall i | 0 <= i < |steps + steps'|
      ensures Next(all[i], all[i + 1], (steps + steps')[i])
    {
      if i < n {
        assert all[i] == states[i] && all[i + 1] == states[i + 1];
      } else {
        assert all[i] == states'[i - n] && all[i + 1] == states'[i - n + 1];
      }
    }
  }

  lemma ToUser(n: nat, k: nat, r: nat) returns (states: seq<State>, steps: seq<Step>)
    requires n >= 2 && k > 0
    ensures Path(states, steps) && states[0] == Idle(n, k, r)
    ensures states[|steps|] == Two(n, Running, Some(0), Locked(0), Some(0), Links(Zeros(k - 1), multiset{0}, r))
  {
    var q := Zeros(k - 1);
    var run := Links(q, multiset{0}, r);
    Chooses(n, k, r);
    Runs(n, q, r);
    Relocks(n, run);
    hide Next;
    hide Zeros;
    hide Two;
    hide Idle;
    states := [Idle(n, k, r),
               Two(n, Runnable, None, Pick, Some(0), Links(Zeros(k), multiset{}, r)),
               Two(n, Runnable, Some(0), Chosen(0), Some(0), Links(q, multiset{}, r + 1)),
               Two(n, Running, Some(0), Enter(0), Some(0), run),
               Two(n, Running, Some(0), Free(0), None, run),
               Two(n, Running, Some(0), Locked(0), Some(0), run)];
    steps := [TakeLock(0), Choose(0, 0), SetRunning(0), Release(0), TakeLock(0)];
  }

  lemma ToScheduler(n: nat, k: nat, r: nat) returns (states: seq<State>, steps: seq<Step>)
    requires n >= 2 && k > 0 && r > 0
    ensures Path(states, steps) && states[0] == Two(n, Running, Some(0), Locked(0), Some(0), Links(Zeros(k - 1), multiset{0}, r))
    ensures states[|steps|] == Idle(n, k + 1, r - 1)
  {
    var q := Zeros(k - 1);
    assert q + multiset{0} == Zeros(k);
    var l := Links(Zeros(k), multiset{}, r);
    Yields(n, q, r);
    Switches(n, l);
    Returns(n, k, r);
    hide Next;
    hide Zeros;
    hide Two;
    hide Idle;
    states := [Two(n, Running, Some(0), Locked(0), Some(0), Links(q, multiset{0}, r)),
               Two(n, Runnable, Some(0), Leave(0), Some(0), l),
               Two(n, Runnable, Some(0), Back(0), Some(0), l),
               Two(n, Runnable, None, Requeue(0), Some(0), l),
               Idle(n, k + 1, r - 1)];
    steps := [Yield(0), Switch(0), ClearProc(0), Finish(0)];
  }

  /** One turn of process 0, which yields: it is in the queue once more, and one link less is free. */
  lemma Turn(n: nat, k: nat, r: nat) returns (states: seq<State>, steps: seq<Step>)
    requires n >= 2 && k > 0 && r > 0
    ensures Path(states, steps) && states[0] == Idle(n, k, r) && states[|steps|] == Idle(n, k + 1, r - 1)
  {
    var more, last := ToScheduler(n, k, r);
    states, steps := ToUser(n, k, r);
    Joined(states, steps, more, last);
    states, steps := states + more[1..], steps + last;
  }

  /** However many links there are, process 0 can fill them by yielding, and process 1 is woken without one. */
  lemma {:induction false} Fills(n: nat, k: nat, r: nat) returns (states: seq<State>, steps: seq<Step>)
    requires n >= 2 && k > 0
    ensures Path(states, steps) && states[0] == Idle(n, k, r) && states[|steps|].lock == None && Lost(states[|steps|], 1)
    decreases r
  {
    if r == 0 {
      var s := Idle(n, k, 0);
      var s' := s.(procs := s.procs[1 := Runnable]);
      var ps := Sleepers(s.procs, 1, n);
      assert ps[..0] == [];
      assert Next(s, s', Wakeup(0, 1));
      states, steps := [s, s'], [Wakeup(0, 1)];
    } else {
      states, steps := Turn(n, k, r);
      var more, last := Fills(n, k + 1, r - 1);
      Joined(states, steps, more, last);
      states, steps := states + more[1..], steps + last;
    }
  }

  /** There is a run, of the kernel as it starts with any number of links, after which a RUNNABLE process is in
      no queue; LostExactly says that it stays so. */
  lemma ProcessForgotten(n: nat, r: nat) returns (states: seq<State>, steps: seq<Step>)
    requires n >= 2
    ensures Boots(states, steps) && Queued(states[0]) && Total(states[0].links) == r + 1 && |states[0].procs| == n
    ensures states[|steps|].lock == None && Lost(states[|steps|], 1)
  {
    states, steps := Fills(n, 1, r);
    assert Zeros(1) == multiset{0};
    forall p: nat
      ensures !Lost(states[0], p)
    {
    }
  }
}
