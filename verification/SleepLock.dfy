/** The sleep lock of sleeplock.c over sleep and wakeup of proc.c, as interleaved steps of any number of
    processes. */
module SleepLock {
  /** Where a process stands.  Every step from one place to the next is atomic in the original: it takes or
      gives back a spin lock, or it runs under one that no other process can hold. */
  datatype Place =
    | Idle                // outside, without the sleep lock
    | Acquire             // acquiresleep: before acquire(&lk->lk)
    | Test                // at the while condition
    | SleepLockP          // in sleep: before acquire(&ptable.lock)
    | SleepUnlock         // in sleep: before release(lk)
    | SleepSet            // in sleep: before state = SLEEPING and sched
    | Asleep              // SLEEPING on the lock
    | Woken               // RUNNABLE again, not yet run
    | Tidy                // back from sched, with ptable.lock
    | Reacquire           // in sleep: before acquire(lk)
    | Taken               // locked and pid are set, before release(&lk->lk)
    | Hold                // outside, with the sleep lock
    | RelAcquire          // releasesleep: before acquire(&lk->lk)
    | RelClear            // before locked = 0 and pid = 0
    | RelLockP            // in wakeup: before acquire(&ptable.lock)
    | RelScan(i: nat)     // in wakeup1: before process i
    | RelUnlock           // before release(&lk->lk)
    | CheckAcquire(own: bool)  // holdingsleep, called with or without the sleep lock
    | CheckRead(own: bool)

  /** The owner of a spin lock; Sched is the scheduler of the CPU that a sleeping process has left. */
  datatype Owner = Nobody | By(p: nat) | Sched

  datatype State = State(locked: bool, pid: nat, inner: Owner, ptable: Owner, at: seq<Place>)

  /** The process ids: one for each process, all different and not 0. */
  ghost predicate Distinct(pids: seq<nat>) {
    (forall p | 0 <= p < |pids| :: pids[p] != 0) && forall p, q | 0 <= p < q < |pids| :: pids[p] != pids[q]
  }

  datatype Step =
    | Call(p: nat) | LockInner(p: nat) | TestLocked(p: nat) | LockTable(p: nat) | UnlockInner(p: nat)
    | GoToSleep(p: nat) | SchedUnlock | Kill(p: nat) | Resume(p: nat) | TidyUp(p: nat) | Finish(p: nat)
    | CallRelease(p: nat) | Clear(p: nat) | Scan(p: nat) | ScanDone(p: nat)
    | CallCheck(p: nat) | Check(p: nat, r: bool)

  /** p moves to another place and takes, keeps or gives back the spin locks. */
  ghost predicate Moves(s: State, s': State, p: nat, to: Place, inner: Owner, ptable: Owner)
    requires p < |s.at|
  {
    s' == s.(at := s.at[p := to], inner := inner, ptable := ptable)
  }

  /** Where acquire(&lk->lk) leads; the same place if the process is not about to call it. */
  function WithInner(a: Place): Place {
    match a
    case Acquire => Test
    case Reacquire => Test
    case RelAcquire => RelClear
    case CheckAcquire(own) => CheckRead(own)
    case _ => a
  }

  ghost predicate Next(pids: seq<nat>, s: State, s': State, step: Step)
    requires |pids| == |s.at|
  {
    match step
    case Call(p) => p < |s.at| && s.at[p] == Idle && Moves(s, s', p, Acquire, s.inner, s.ptable)
    case LockInner(p) => p < |s.at| && s.inner == Nobody && WithInner(s.at[p]) != s.at[p] && Moves(s, s', p, WithInner(s.at[p]), By(p), s.ptable)
    case TestLocked(p) =>
      && p < |s.at| && s.at[p] == Test
      && if s.locked then Moves(s, s', p, SleepLockP, s.inner, s.ptable)
         else s' == s.(locked := true, pid := pids[p], at := s.at[p := Taken])
    case Finish(p) =>
      && p < |s.at|
      && if s.at[p] == Taken then Moves(s, s', p, Hold, Nobody, s.ptable)
         else s.at[p] == RelUnlock && Moves(s, s', p, Idle, Nobody, s.ptable)
    case LockTable(p) =>
      && p < |s.at| && s.ptable == Nobody
      && if s.at[p] == SleepLockP then Moves(s, s', p, SleepUnlock, s.inner, By(p))
         else s.at[p] == RelLockP && Moves(s, s', p, RelScan(0), s.inner, By(p))
    case UnlockInner(p) => p < |s.at| && s.at[p] == SleepUnlock && Moves(s, s', p, SleepSet, Nobody, s.ptable)
    case GoToSleep(p) => p < |s.at| && s.at[p] == SleepSet && Moves(s, s', p, Asleep, s.inner, Sched)
    case SchedUnlock => s.ptable == Sched && s' == s.(ptable := Nobody)
    case Kill(p) => p < |s.at| && s.ptable == Nobody && s.at[p] == Asleep && Moves(s, s', p, Woken, s.inner, s.ptable)
    case Resume(p) => p < |s.at| && s.ptable == Nobody && s.at[p] == Woken && Moves(s, s', p, Tidy, s.inner, By(p))
    case TidyUp(p) => p < |s.at| && s.at[p] == Tidy && Moves(s, s', p, Reacquire, s.inner, Nobody)
    case CallRelease(p) => p < |s.at| && s.at[p] == Hold && Moves(s, s', p, RelAcquire, s.inner, s.ptable)
    case Clear(p) => p < |s.at| && s.at[p] == RelClear && s' == s.(locked := false, pid := 0, at := s.at[p := RelLockP])
    case Scan(p) =>
      && p < |s.at| && s.at[p].RelScan? && s.at[p].i < |s.at|
      && var i := s.at[p].i;
         var woken := if s.at[i] == Asleep then s.at[i := Woken] else s.at;
         s' == s.(at := woken[p := RelScan(i + 1)])
    case ScanDone(p) => p < |s.at| && s.at[p] == RelScan(|s.at|) && Moves(s, s', p, RelUnlock, s.inner, Nobody)
    case CallCheck(p) =>
      && p < |s.at| && (s.at[p] == Idle || s.at[p] == Hold)
      && Moves(s, s', p, CheckAcquire(s.at[p] == Hold), s.inner, s.ptable)
    case Check(p, r) =>
      && p < |s.at| && s.at[p].CheckRead? && r == (s.locked && s.pid == pids[p])
      && Moves(s, s', p, if s.at[p].own then Hold else Idle, Nobody, s.ptable)
  }

  ghost predicate Start(s: State) {
    !s.locked && s.pid == 0 && s.inner == Nobody && s.ptable == Nobody && forall p | 0 <= p < |s.at| :: s.at[p] == Idle
  }

  ghost predicate Run(pids: seq<nat>, states: seq<State>, steps: seq<Step>) {
    && |states| == |steps| + 1 && Start(states[0])
    && (forall i | 0 <= i < |states| :: |states[i].at| == |pids|)
    && forall i | 0 <= i < |steps| :: Next(pids, states[i], states[i + 1], steps[i])
  }

  // ----- the invariant -----

  /** The process holds the sleep lock. */
  predicate Owns(a: Place) {
    match a
    case Taken => true
    case Hold => true
    case RelAcquire => true
    case RelClear => true
    case CheckAcquire(own) => own
    case CheckRead(own) => own
    case _ => false
  }

  /** The process holds lk->lk. */
  predicate HasInner(a: Place) {
    match a
    case Test => true
    case SleepLockP => true
    case SleepUnlock => true
    case Taken => true
    case RelClear => true
    case RelLockP => true
    case RelScan(i) => true
    case RelUnlock => true
    case CheckRead(own) => true
    case _ => false
  }

  /** The process holds ptable.lock. */
  predicate HasTable(a: Place) {
    a == SleepUnlock || a == SleepSet || a == Tidy || a.RelScan?
  }

  /** The process has found the lock taken and sleeps, or goes on to sleep. */
  predicate Sleeps(a: Place) {
    a == SleepLockP || a == SleepUnlock || a == SleepSet || a == Asleep
  }

  /** Some releasing process has yet to wake process p. */
  ghost predicate WakeComes(s: State, p: nat) {
    exists r | 0 <= r < |s.at| :: s.at[r] == RelLockP || (s.at[r].RelScan? && s.at[r].i <= p)
  }

  ghost predicate PlaceOk(pids: seq<nat>, s: State, p: nat)
    requires p < |s.at| == |pids|
  {
    && (HasInner(s.at[p]) <==> s.inner == By(p))
    && (HasTable(s.at[p]) <==> s.ptable == By(p))
    && (Owns(s.at[p]) <==> s.locked && s.pid == pids[p])
    && (Sleeps(s.at[p]) ==> s.locked || WakeComes(s, p))
    && (s.at[p].RelScan? ==> s.at[p].i <= |s.at|)
  }

  ghost predicate Inv(pids: seq<nat>, s: State) {
    && |s.at| == |pids| && s.inner != Sched
    && (s.inner.By? ==> s.inner.p < |pids|) && (s.ptable.By? ==> s.ptable.p < |pids|)
    && (s.locked ==> exists p | 0 <= p < |pids| :: s.pid == pids[p])
    && forall p {:trigger PlaceOk(pids, s, p)} | 0 <= p < |s.at| :: PlaceOk(pids, s, p)
  }

  lemma StartInv(pids: seq<nat>, s: State)
    requires Distinct(pids) && |s.at| == |pids| && Start(s)
    ensures Inv(pids, s)
  {
  }

  /** Steps that change neither locked nor the places of releasing processes leave the promised wakeups. */
  lemma WakeKept(s: State, s': State, p: nat)
    requires WakeComes(s, p) && |s'.at| == |s.at|
    requires forall r | 0 <= r < |s.at| && (s.at[r] == RelLockP || (s.at[r].RelScan? && s.at[r].i <= p)) ::
               s'.at[r] == RelLockP || (s'.at[r].RelScan? && s'.at[r].i <= p)
    ensures WakeComes(s', p)
  {
  }

  lemma StepKeeps(pids: seq<nat>, s: State, s': State, step: Step)
    requires Distinct(pids) && Inv(pids, s) && |s'.at| == |s.at| && Next(pids, s, s', step)
    ensures Inv(pids, s')
  {
    HolderKept(pids, s, s', step);
    hide Next;
    forall q | 0 <= q < |s'.at|
      ensures PlaceOk(pids, s', q)
    {
      PlaceKept(pids, s, s', step, q);
    }
  }

  lemma HolderKept(pids: seq<nat>, s: State, s': State, step: Step)
    requires Inv(pids, s) && |s'.at| == |s.at| && Next(pids, s, s', step)
    ensures s'.inner != Sched && (s'.inner.By? ==> s'.inner.p < |pids|) && (s'.ptable.By? ==> s'.ptable.p < |pids|)
    ensures s'.locked ==> exists p | 0 <= p < |pids| :: s'.pid == pids[p]
  {
  }

  lemma PlaceKept(pids: seq<nat>, s: State, s': State, step: Step, q: nat)
    requires Distinct(pids) && Inv(pids, s) && |s'.at| == |s.at| && Next(pids, s, s', step) && q < |s'.at|
    ensures PlaceOk(pids, s', q)
  {
    hide Next;
    InnerKept(pids, s, s', step, q);
    TableKept(pids, s, s', step, q);
    OwnerKept(pids, s, s', step, q);
    if Sleeps(s'.at[q]) && !s'.locked {
      WakeStays(pids, s, s', step, q);
    }
  }

  lemma InnerOwn(pids: seq<nat>, s: State, s': State, step: Step, q: nat)
    requires Distinct(pids) && Inv(pids, s) && |s'.at| == |s.at| && Next(pids, s, s', step) && q < |s'.at|
    requires !step.SchedUnlock? && q == step.p
    ensures HasInner(s'.at[q]) <==> s'.inner == By(q)
  {
    assert PlaceOk(pids, s, q);
    hide WakeComes;
    hide Owns;
    hide HasTable;
  }

  lemma InnerOther(pids: seq<nat>, s: State, s': State, step: Step, q: nat)
    requires Distinct(pids) && Inv(pids, s) && |s'.at| == |s.at| && Next(pids, s, s', step) && q < |s'.at|
    requires !step.SchedUnlock? ==> q != step.p
    ensures HasInner(s'.at[q]) <==> s'.inner == By(q)
  {
    assert PlaceOk(pids, s, q) && (!step.SchedUnlock? ==> PlaceOk(pids, s, step.p));
    hide WakeComes;
    hide Owns;
    hide HasTable;
  }

  lemma InnerKept(pids: seq<nat>, s: State, s': State, step: Step, q: nat)
    requires Distinct(pids) && Inv(pids, s) && |s'.at| == |s.at| && Next(pids, s, s', step) && q < |s'.at|
    ensures HasInner(s'.at[q]) <==> s'.inner == By(q)
  {
    hide Next;
    hide Inv;
    if !step.SchedUnlock? && q == step.p {
      InnerOwn(pids, s, s', step, q);
    } else {
      InnerOther(pids, s, s', step, q);
    }
  }

  lemma TableOwn(pids: seq<nat>, s: State, s': State, step: Step, q: nat)
    requires Distinct(pids) && Inv(pids, s) && |s'.at| == |s.at| && Next(pids, s, s', step) && q < |s'.at|
    requires !step.SchedUnlock? && q == step.p
    ensures HasTable(s'.at[q]) <==> s'.ptable == By(q)
    ensures s'.at[q].RelScan? ==> s'.at[q].i <= |s'.at|
  {
    assert PlaceOk(pids, s, q);
    hide WakeComes;
    hide Owns;
    hide HasInner;
  }

  lemma TableOther(pids: seq<nat>, s: State, s': State, step: Step, q: nat)
    requires Distinct(pids) && Inv(pids, s) && |s'.at| == |s.at| && Next(pids, s, s', step) && q < |s'.at|
    requires !step.SchedUnlock? ==> q != step.p
    ensures HasTable(s'.at[q]) <==> s'.ptable == By(q)
    ensures s'.at[q].RelScan? ==> s'.at[q].i <= |s'.at|
  {
    assert PlaceOk(pids, s, q) && (!step.SchedUnlock? ==> PlaceOk(pids, s, step.p));
    hide WakeComes;
    hide Owns;
    hide HasInner;
  }

  lemma TableKept(pids: seq<nat>, s: State, s': State, step: Step, q: nat)
    requires Distinct(pids) && Inv(pids, s) && |s'.at| == |s.at| && Next(pids, s, s', step) && q < |s'.at|
    ensures HasTable(s'.at[q]) <==> s'.ptable == By(q)
    ensures s'.at[q].RelScan? ==> s'.at[q].i <= |s'.at|
  {
    hide Next;
    hide Inv;
    if !step.SchedUnlock? && q == step.p {
      TableOwn(pids, s, s', step, q);
    } else {
      TableOther(pids, s, s', step, q);
    }
  }

  /** Steps other than these two do not change who holds the sleep lock. */
  lemma OwnerSame(pids: seq<nat>, s: State, s': State, step: Step, q: nat)
    requires |pids| == |s.at| == |s'.at| && Next(pids, s, s', step) && q < |s'.at| && !step.Clear? && !step.TestLocked?
    ensures s'.locked == s.locked && s'.pid == s.pid && Owns(s'.at[q]) == Owns(s.at[q])
  {
  }

  lemma OwnerKept(pids: seq<nat>, s: State, s': State, step: Step, q: nat)
    requires Distinct(pids) && Inv(pids, s) && |s'.at| == |s.at| && Next(pids, s, s', step) && q < |s'.at|
    ensures Owns(s'.at[q]) <==> s'.locked && s'.pid == pids[q]
  {
    assert PlaceOk(pids, s, q);
    if step.Clear? || step.TestLocked? {
      assert PlaceOk(pids, s, step.p);
    } else {
      OwnerSame(pids, s, s', step, q);
    }
  }

  /** A process that is to wake q is still to wake it, as long as q sleeps. */
  lemma WakerStays(pids: seq<nat>, s: State, s': State, step: Step, q: nat, w: nat)
    requires Distinct(pids) && Inv(pids, s) && |s'.at| == |s.at| && Next(pids, s, s', step) && q < |s'.at| && w < |s.at|
    requires Sleeps(s.at[q]) && Sleeps(s'.at[q]) && (s.at[w] == RelLockP || (s.at[w].RelScan? && s.at[w].i <= q))
    requires !(step.LockTable? && s.at[step.p] == RelLockP)
    ensures s'.at[w] == RelLockP || (s'.at[w].RelScan? && s'.at[w].i <= q)
  {
    hide WakeComes;
    hide Owns;
    assert PlaceOk(pids, s, q) && PlaceOk(pids, s, w);
  }

  lemma StillSleeps(pids: seq<nat>, s: State, s': State, step: Step, q: nat)
    requires Distinct(pids) && Inv(pids, s) && |s'.at| == |s.at| && Next(pids, s, s', step) && q < |s'.at|
    requires Sleeps(s'.at[q]) && !s'.locked && !step.Clear?
    ensures Sleeps(s.at[q]) && !s.locked
  {
    hide WakeComes;
    hide Owns;
  }

  lemma WakeStays(pids: seq<nat>, s: State, s': State, step: Step, q: nat)
    requires Distinct(pids) && Inv(pids, s) && |s'.at| == |s.at| && Next(pids, s, s', step) && q < |s'.at|
    requires Sleeps(s'.at[q]) && !s'.locked
    ensures WakeComes(s', q)
  {
    assert PlaceOk(pids, s, q);
    if step.Clear? {
      assert s'.at[step.p] == RelLockP;
    } else if step.LockTable? && s.at[step.p] == RelLockP {
      assert s'.at[step.p] == RelScan(0);
    } else {
      StillSleeps(pids, s, s', step, q);
      hide Next;
      forall w | 0 <= w < |s.at| && (s.at[w] == RelLockP || (s.at[w].RelScan? && s.at[w].i <= q))
        ensures s'.at[w] == RelLockP || (s'.at[w].RelScan? && s'.at[w].i <= q)
      {
        WakerStays(pids, s, s', step, q, w);
      }
      WakeKept(s, s', q);
    }
  }

  // ----- all runs -----

  lemma {:induction false} RunInv(pids: seq<nat>, states: seq<State>, steps: seq<Step>, i: nat)
    requires Distinct(pids) && Run(pids, states, steps) && i < |states|
    ensures Inv(pids, states[i])
  {
    if i == 0 {
      StartInv(pids, states[0]);
    } else {
      RunInv(pids, states, steps, i - 1);
      StepKeeps(pids, states[i - 1], states[i], steps[i - 1]);
    }
  }

  /** At most one process holds the sleep lock, at every moment of every run. */
  lemma MutualExclusion(pids: seq<nat>, states: seq<State>, steps: seq<Step>, i: nat, p: nat, q: nat)
    requires Distinct(pids) && Run(pids, states, steps) && i < |states| && p < |pids| && q < |pids|
    requires Owns(states[i].at[p]) && Owns(states[i].at[q])
    ensures p == q
  {
    RunInv(pids, states, steps, i);
    assert PlaceOk(pids, states[i], p) && PlaceOk(pids, states[i], q);
  }

  /** No wakeup is lost: when lk->lk is free and locked is 0, no process sleeps on the lock or is about to. */
  lemma NoLostWakeup(pids: seq<nat>, states: seq<State>, steps: seq<Step>, i: nat, p: nat)
    requires Distinct(pids) && Run(pids, states, steps) && i < |states| && p < |pids|
    requires states[i].inner == Nobody && !states[i].locked
    ensures !Sleeps(states[i].at[p])
  {
    RunInv(pids, states, steps, i);
    var s := states[i];
    assert PlaceOk(pids, s, p);
    forall r | 0 <= r < |pids|
      ensures !HasInner(s.at[r])
    {
      assert PlaceOk(pids, s, r);
    }
  }

  /** holdingsleep returns true exactly to the process that holds the lock. */
  lemma HoldingIsExact(pids: seq<nat>, states: seq<State>, steps: seq<Step>, i: nat, p: nat, r: bool)
    requires Distinct(pids) && Run(pids, states, steps) && i < |steps| && p < |pids| && steps[i] == Check(p, r)
    ensures r <==> Owns(states[i].at[p])
  {
    RunInv(pids, states, steps, i);
    assert Next(pids, states[i], states[i + 1], steps[i]);
    assert PlaceOk(pids, states[i], p);
  }

  /** The process that finds the lock free has it, and nobody had it before; one that finds it taken goes to sleep. */
  lemma TakesIfFree(pids: seq<nat>, states: seq<State>, steps: seq<Step>, i: nat, p: nat)
    requires Distinct(pids) && Run(pids, states, steps) && i < |steps| && p < |pids| && steps[i] == TestLocked(p)
    ensures Owns(states[i + 1].at[p]) <==> forall q | 0 <= q < |pids| :: !Owns(states[i].at[q])
    ensures Owns(states[i + 1].at[p]) ==> states[i + 1].locked && states[i + 1].pid == pids[p]
    ensures !Owns(states[i + 1].at[p]) ==> Sleeps(states[i + 1].at[p])
  {
    RunInv(pids, states, steps, i);
    RunInv(pids, states, steps, i + 1);
    var s := states[i];
    assert Next(pids, s, states[i + 1], steps[i]) && PlaceOk(pids, states[i + 1], p);
    if s.locked {
      var q :| 0 <= q < |pids| && s.pid == pids[q];
      assert PlaceOk(pids, s, q);
    } else {
      forall q | 0 <= q < |pids|
        ensures !Owns(s.at[q])
      {
        assert PlaceOk(pids, s, q);
      }
    }
  }

  // ----- progress -----

  /** The steps inside acquiresleep, releasesleep, holdingsleep, sleep and wakeup, which their callers wait for. */
  predicate Works(step: Step) {
    !step.Call? && !step.CallRelease? && !step.CallCheck? && !step.Kill?
  }

  ghost predicate CanWork(pids: seq<nat>, s: State)
    requires |pids| == |s.at|
  {
    exists step, s' :: Works(step) && Next(pids, s, s', step)
  }

  lemma TableMoves(pids: seq<nat>, s: State)
    requires Inv(pids, s) && s.ptable != Nobody
    ensures CanWork(pids, s)
  {
    if s.ptable == Sched {
      assert Next(pids, s, s.(ptable := Nobody), SchedUnlock);
    } else {
      var p := s.ptable.p;
      assert PlaceOk(pids, s, p);
      match s.at[p]
      case SleepUnlock => assert Next(pids, s, s.(at := s.at[p := SleepSet], inner := Nobody), UnlockInner(p));
      case SleepSet => assert Next(pids, s, s.(at := s.at[p := Asleep], ptable := Sched), GoToSleep(p));
      case Tidy => assert Next(pids, s, s.(at := s.at[p := Reacquire], ptable := Nobody), TidyUp(p));
      case RelScan(i) =>
        if i < |s.at| {
          var woken := if s.at[i] == Asleep then s.at[i := Woken] else s.at;
          assert Next(pids, s, s.(at := woken[p := RelScan(i + 1)]), Scan(p));
        } else {
          assert Next(pids, s, s.(at := s.at[p := RelUnlock], ptable := Nobody), ScanDone(p));
        }
    }
  }

  lemma InnerMoves(pids: seq<nat>, s: State)
    requires Inv(pids, s) && s.ptable == Nobody && s.inner != Nobody
    ensures CanWork(pids, s)
  {
    var p := s.inner.p;
    assert PlaceOk(pids, s, p);
    match s.at[p]
    case Test =>
      var s' := if s.locked then s.(at := s.at[p := SleepLockP]) else s.(locked := true, pid := pids[p], at := s.at[p := Taken]);
      assert Next(pids, s, s', TestLocked(p));
    case SleepLockP => assert Next(pids, s, s.(at := s.at[p := SleepUnlock], ptable := By(p)), LockTable(p));
    case Taken => assert Next(pids, s, s.(at := s.at[p := Hold], inner := Nobody), Finish(p));
    case RelClear => assert Next(pids, s, s.(locked := false, pid := 0, at := s.at[p := RelLockP]), Clear(p));
    case RelLockP => assert Next(pids, s, s.(at := s.at[p := RelScan(0)], ptable := By(p)), LockTable(p));
    case RelUnlock => assert Next(pids, s, s.(at := s.at[p := Idle], inner := Nobody), Finish(p));
    case CheckRead(own) =>
      assert Next(pids, s, s.(at := s.at[p := if own then Hold else Idle], inner := Nobody), Check(p, s.locked && s.pid == pids[p]));
  }

  lemma OutsideMoves(pids: seq<nat>, s: State, p: nat)
    requires Inv(pids, s) && s.ptable == Nobody == s.inner && p < |s.at| && !CanWork(pids, s)
    ensures s.at[p] == Idle || s.at[p] == Hold || s.at[p] == Asleep
  {
    assert PlaceOk(pids, s, p);
    if s.at[p] == Woken {
      assert Next(pids, s, s.(at := s.at[p := Tidy], ptable := By(p)), Resume(p));
    } else if WithInner(s.at[p]) != s.at[p] {
      assert Next(pids, s, s.(at := s.at[p := WithInner(s.at[p])], inner := By(p)), LockInner(p));
    }
  }

  /** No deadlock: unless some step of the lock's own code can be taken, every process is outside or asleep, and
      while one is asleep another holds the lock and need only release it. */
  lemma NoDeadlock(pids: seq<nat>, states: seq<State>, steps: seq<Step>, i: nat, p: nat)
    requires Distinct(pids) && Run(pids, states, steps) && i < |states| && p < |pids| && !CanWork(pids, states[i])
    ensures states[i].at[p] == Idle || states[i].at[p] == Hold || states[i].at[p] == Asleep
    ensures states[i].at[p] == Asleep ==> exists q | 0 <= q < |pids| :: states[i].at[q] == Hold
  {
    var s := states[i];
    RunInv(pids, states, steps, i);
    if s.ptable != Nobody {
      TableMoves(pids, s);
    } else if s.inner != Nobody {
      InnerMoves(pids, s);
    } else {
      OutsideMoves(pids, s, p);
      if s.at[p] == Asleep {
        if !s.locked {
          NoLostWakeup(pids, states, steps, i, p);
        }
        var q :| 0 <= q < |pids| && s.pid == pids[q];
        assert PlaceOk(pids, s, q);
        OutsideMoves(pids, s, q);
      }
    }
  }
}
