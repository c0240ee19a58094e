/** The critical sections of proc.c as code: each takes one step of the process table machine. */
module ProcCode {
  import opened ProcTable

  class Kernel {
    /** ptable.proc[NPROC]: state and chan, pid, killed, parent (an index, or none). */
    const state: array<ProcState>
    const pid: array<int>
    const killed: array<bool>
    const parent: array<Option<nat>>
    /** The address of ptable.proc[0], counted in processes. */
    const table: nat
    /** cpus[NCPU].proc */
    const cpu: array<Option<nat>>
    var lock: Option<nat>
    var nextpid: int
    /** The priority queue as a bag, the running processes, and the number of free links. */
    var queue: multiset<nat>
    var holder: multiset<nat>
    var room: nat
    ghost var mode: seq<Mode>

    ghost predicate Valid()
      reads this
    {
      pid.Length == killed.Length == parent.Length == state.Length && |mode| == cpu.Length && parent != cpu
    }

    ghost function Store(): Links
      reads this
    {
      Links(queue, holder, room)
    }

    ghost function Abs(): State
      reads this, state, cpu
    {
      State(state[..], cpu[..], mode, lock, Store())
    }

    /** An empty table, with every CPU in scheduler. */
    constructor (nproc: nat, ncpu: nat, room: nat, table: nat)
      ensures Valid() && Start(Abs()) && Inv(Abs()) && Store() == Links(multiset{}, multiset{}, room)
      ensures state.Length == nproc && cpu.Length == ncpu && this.table == table && forall p | 0 <= p < nproc :: state[p] == Unused
      ensures fresh(state) && fresh(pid) && fresh(killed) && fresh(parent) && fresh(cpu)
    {
      state, pid, killed := new ProcState[nproc](_ => Unused), new int[nproc](_ => 0), new bool[nproc](_ => false);
      parent, cpu := new Option<nat>[nproc](_ => None), new Option<nat>[ncpu](_ => None);
      lock, nextpid, queue, holder, this.room, this.table := None, 1, multiset{}, multiset{}, room, table;
      mode := seq(ncpu, _ => Loop);
      new;
      StartInv(Abs());
    }

    /** pq.put; its result is ignored. */
    method Put(p: nat)
      modifies this`queue, this`room
      ensures Store() == ProcTable.Put(old(Store()), p)
      ensures queue == (if old(room) > 0 then old(queue) + multiset{p} else old(queue)) && room == if old(room) > 0 then old(room) - 1 else 0
    {
      if room > 0 {
        queue, room := queue + multiset{p}, room - 1;
      }
    }

    /** rpholder.add; its result is ignored. */
    method Add(p: nat)
      modifies this`holder, this`room
      ensures Store() == ProcTable.Add(old(Store()), p)
      ensures holder == (if old(room) > 0 then old(holder) + multiset{p} else old(holder)) && room == if old(room) > 0 then old(room) - 1 else 0
    {
      if room > 0 {
        holder, room := holder + multiset{p}, room - 1;
      }
    }

    /** rpholder.remove; its result is ignored. */
    method Remove(p: nat)
      modifies this`holder, this`room
      ensures Store() == ProcTable.Remove(old(Store()), p)
      ensures holder == old(holder) - multiset{p} && room == old(room) + if p in old(holder) then 1 else 0
    {
      if p in holder {
        holder, room := holder - multiset{p}, room + 1;
      }
    }

    /** wakeup1, for a process with the lock, or for an interrupt handler on an idle CPU, whose acquire and
        release of the lock are part of the step. */
    method Wakeup1(chan: nat, ghost c: nat)
      requires Valid() && Inv(Abs()) && c < |mode| && (mode[c].Locked? || (mode[c] == Loop && lock == None))
      modifies state, this`queue, this`room
      ensures Valid() && Inv(Abs()) && Next(old(Abs()), Abs(), Wakeup(c, chan))
      ensures forall q | 0 <= q < state.Length :: state[q] == if old(state[q]) == Sleeping(chan) then Runnable else old(state[q])
      ensures Enqueued(old(state[..]), chan, old(queue), old(room), queue)
    {
      ghost var s := Abs();
      hide Inv;
      hide Next;
      hide PutAll;
      hide ProcTable.Put;
      hide Enqueued;
      PutAllNone(s.links);
      SleepersNone(s.procs, chan);
      hide Sleepers;
      var p := 0;
      while p < state.Length
        invariant 0 <= p <= state.Length && Valid() && Store() == PutAll(s.links, Sleepers(s.procs, chan, p))
        invariant forall q | 0 <= q < state.Length :: state[q] == if q < p && s.procs[q] == Sleeping(chan) then Runnable else s.procs[q]
      {
        SleepersNext(s.procs, chan, p);
        if state[p] == Sleeping(chan) {
          state[p] := Runnable;
          PutAllOne(s.links, Sleepers(s.procs, chan, p), p);
          Put(p);
        }
        p := p + 1;
      }
      SleepersQueued(s.procs, chan, s.links);
      assert Woken(s, Abs(), chan);
      hide Woken;
      WokenStep(s, Abs(), c, chan);
      StepKeeps(s, Abs(), Wakeup(c, chan));
    }

    /** kill between its acquire and release; -1 if no process has the pid. */
    method KillProc(id: int, ghost c: nat) returns (r: int, ghost q: nat)
      requires Valid() && Inv(Abs()) && c < |mode| && mode[c].Locked?
      modifies state, killed, this`queue, this`room
      ensures Valid() && Inv(Abs())
      ensures r == -1 <==> forall i | 0 <= i < state.Length :: pid[i] != id
      ensures r == -1 ==> killed[..] == old(killed[..])
      ensures r != -1 ==> r == 0 && q < state.Length && pid[q] == id && forall i | 0 <= i < q :: pid[i] != id
      ensures r == 0 ==> killed[..] == old(killed[..])[q := true]
      ensures if r == 0 && old(state[..])[q].Sleeping? then Next(old(Abs()), Abs(), Kill(c, q)) else Abs() == old(Abs())
      ensures queue == if r == 0 && old(state[..])[q].Sleeping? && old(room) > 0 then old(queue) + multiset{q} else old(queue)
    {
      hide Inv;
      ghost var s := Abs();
      var p := 0;
      q := 0;
      while p < state.Length
        invariant 0 <= p <= state.Length && Valid() && Abs() == s && killed[..] == old(killed[..])
        invariant forall i | 0 <= i < p :: pid[i] != id
      {
        if pid[p] == id {
          killed[p] := true;
          if state[p].Sleeping? {
            state[p] := Runnable;
            Put(p);
            assert Abs().procs == s.procs[p := Runnable] && s.mode[c := s.mode[c]] == s.mode;
            assert s.current[c := s.current[c]] == s.current;
            StepKeeps(s, Abs(), Kill(c, p));
          }
          return 0, p;
        }
        p := p + 1;
      }
      r := -1;
    }

    /** allocproc's critical section: the first UNUSED slot becomes EMBRYO. */
    method AllocProc(ghost c: nat) returns (r: Option<nat>)
      requires Valid() && Inv(Abs()) && c < |mode| && mode[c].Locked?
      modifies state, pid, this`nextpid
      ensures Valid() && Inv(Abs())
      ensures r == None <==> forall i | 0 <= i < state.Length :: old(state[..])[i] != Unused
      ensures r == None ==> Abs() == old(Abs()) && pid[..] == old(pid[..])
      ensures r.Some? ==> Next(old(Abs()), Abs(), Allocate(c, r.value))
      ensures r.Some? ==> r.value < state.Length && forall i | 0 <= i < r.value :: old(state[..])[i] != Unused
      ensures r.Some? ==> pid[..] == old(pid[..])[r.value := old(nextpid)] && nextpid == old(nextpid) + 1
    {
      hide Inv;
      ghost var s := Abs();
      var p := 0;
      while p < state.Length
        invariant 0 <= p <= state.Length && Valid() && Abs() == s && pid[..] == old(pid[..]) && nextpid == old(nextpid)
        invariant forall i | 0 <= i < p :: state[i] != Unused
      {
        if state[p] == Unused {
          state[p] := Embryo;
          pid[p], nextpid := nextpid, nextpid + 1;
          assert Abs().procs == s.procs[p := Embryo] && s.mode[c := s.mode[c]] == s.mode && s.current[c := s.current[c]] == s.current;
          StepKeeps(s, Abs(), Allocate(c, p));
          return Some(p);
        }
        p := p + 1;
      }
      r := None;
    }

    /** The end of fork: the child becomes RUNNABLE and is queued. */
    method Launches(c: nat, q: nat)
      requires Valid() && Inv(Abs()) && c < |mode| && mode[c].Locked? && q < state.Length && state[q] == Embryo
      modifies state, this`queue, this`room
      ensures Valid() && Inv(Abs()) && Next(old(Abs()), Abs(), Launch(c, q)) && state[..] == old(state[..])[q := Runnable]
      ensures queue == if old(room) > 0 then old(queue) + multiset{q} else old(queue)
    {
      hide Inv;
      hide Next;
      ghost var s := Abs();
      state[q] := Runnable;
      Put(q);
      assert Abs() == s.(procs := s.procs[q := Runnable], links := ProcTable.Put(s.links, q));
      LaunchStep(s, c, q);
      StepKeeps(s, Abs(), Launch(c, q));
    }

    /** wait's scan: reaps the first child that is a zombie, and says whether there are children at all. */
    method Scan(parentOf: nat, ghost c: nat) returns (found: Option<nat>, id: int, havekids: bool)
      requires Valid() && Inv(Abs()) && c < |mode| && mode[c].Locked?
      modifies state, pid, parent, killed
      ensures Valid() && Inv(Abs())
      ensures found.Some? ==> Next(old(Abs()), Abs(), Reap(c, found.value)) && found.value < state.Length
      ensures found.Some? ==> old(parent[..])[found.value] == Some(parentOf) && id == old(pid[..])[found.value]
      ensures found.Some? ==> old(state[..])[found.value] == Zombie
                              && forall i | 0 <= i < found.value && old(parent[..])[i] == Some(parentOf) :: old(state[..])[i] != Zombie
      ensures found.Some? ==> state[..] == old(state[..])[found.value := Unused]
      ensures found == None ==> Abs() == old(Abs()) && parent[..] == old(parent[..]) && pid[..] == old(pid[..]) && killed[..] == old(killed[..])
      ensures found.Some? ==> parent[..] == old(parent[..])[found.value := None] && pid[..] == old(pid[..])[found.value := 0]
      ensures found.Some? ==> killed[..] == old(killed[..])[found.value := false]
      ensures found == None ==> forall i | 0 <= i < state.Length && parent[i] == Some(parentOf) :: state[i] != Zombie
      ensures found == None ==> (havekids <==> exists i | 0 <= i < state.Length :: parent[i] == Some(parentOf))
    {
      hide Inv;
      ghost var s := Abs();
      havekids := false;
      var p := 0;
      while p < state.Length
        invariant 0 <= p <= state.Length && Valid() && Abs() == s
        invariant parent[..] == old(parent[..]) && pid[..] == old(pid[..]) && killed[..] == old(killed[..])
        invariant forall i | 0 <= i < p && parent[i] == Some(parentOf) :: state[i] != Zombie
        invariant havekids <==> exists i | 0 <= i < p :: parent[i] == Some(parentOf)
      {
        if parent[p] == Some(parentOf) {
          havekids := true;
          if state[p] == Zombie {
            id := pid[p];
            pid[p] := 0;
            parent[p] := None;
            killed[p] := false;
            state[p] := Unused;
            assert Abs().procs == s.procs[p := Unused] && s.mode[c := s.mode[c]] == s.mode && s.current[c := s.current[c]] == s.current;
            StepKeeps(s, Abs(), Reap(c, p));
            return Some(p), id, true;
          }
        }
        p := p + 1;
      }
      found, id := None, -1;
    }

    /** Priority_Scheduler with p from extractMin, up to swtch: p runs if it is RUNNABLE, and is dropped
        otherwise. */
    method Dispatch(c: nat, p: nat) returns (ghost between: State)
      requires Valid() && Inv(Abs()) && c < |mode| && mode[c] == Pick && p in queue && p < state.Length
      modifies state, cpu, this`queue, this`holder, this`room, this`lock, this`mode
      ensures Valid() && Inv(Abs())
      ensures if old(state[..])[p] == Runnable
              then Next(old(Abs()), between, Choose(c, p)) && Shaped(between) && Next(between, Abs(), SetRunning(c))
              else Next(old(Abs()), Abs(), Stale(c, p))
      ensures queue == old(queue) - multiset{p}
      ensures old(state[..])[p] == Runnable ==> holder == old(holder) + multiset{p} && room == old(room)
      ensures old(state[..])[p] != Runnable ==> holder == old(holder) && room == old(room) + 1
    {
      hide Inv;
      hide Next;
      ghost var s := Abs();
      between := s;
      queue, room := queue - multiset{p}, room + 1;
      assert Abs() == s.(links := Extract(s.links, p));
      if state[p] == Runnable {
        MakeCurrent(c, p, s);
        between := Abs();
        StartRunning(c, p);
      } else {
        DropEntry(c, p, s);
      }
    }

    method MakeCurrent(c: nat, p: nat, ghost s: State)
      requires Valid() && Inv(s) && c < |mode| && mode[c] == Pick && p in s.links.queue && p < state.Length && state[p] == Runnable
      requires Abs() == s.(links := Extract(s.links, p))
      modifies cpu, this`mode
      ensures Valid() && Inv(Abs()) && Next(s, Abs(), Choose(c, p)) && mode[c] == Chosen(p)
    {
      hide Inv;
      hide Next;
      cpu[c] := Some(p);
      mode := mode[c := Chosen(p)];
      assert Abs() == Chose(s, c, p);
      ChooseStep(s, c, p);
      StepKeeps(s, Abs(), Choose(c, p));
    }

    method DropEntry(c: nat, p: nat, ghost s: State)
      requires Valid() && Inv(s) && c < |mode| && mode[c] == Pick && p in s.links.queue && p < state.Length && state[p] != Runnable
      requires Abs() == s.(links := Extract(s.links, p))
      modifies this`lock, this`mode
      ensures Valid() && Inv(Abs()) && Next(s, Abs(), Stale(c, p))
    {
      hide Inv;
      hide Next;
      lock := None;
      mode := mode[c := Loop];
      assert Abs() == Dropped(s, c, p);
      StaleStep(s, c, p);
      StepKeeps(s, Abs(), Stale(c, p));
    }

    method StartRunning(c: nat, p: nat)
      requires Valid() && Inv(Abs()) && c < |mode| && mode[c] == Chosen(p) && p < state.Length
      modifies state, this`holder, this`room, this`mode
      ensures Valid() && Inv(Abs()) && Next(old(Abs()), Abs(), SetRunning(c)) && Store() == ProcTable.Add(old(Store()), p)
    {
      hide Inv;
      hide Next;
      ghost var s := Abs();
      state[p] := Running;
      Add(p);
      mode := mode[c := Enter(p)];
      assert Abs() == Started(s, c, p);
      RunningStep(s, c, p);
      StepKeeps(s, Abs(), SetRunning(c));
    }

    /** Priority_Scheduler after swtch: the CPU has no process any more, and p is queued again if it is
        RUNNABLE. */
    method Retire(c: nat, p: nat) returns (ghost between: State)
      requires Valid() && Inv(Abs()) && c < |mode| && mode[c] == Back(p) && p < state.Length
      modifies cpu, this`queue, this`holder, this`room, this`lock, this`mode
      ensures Valid() && Inv(Abs())
      ensures Next(old(Abs()), between, ClearProc(c)) && Shaped(between) && Next(between, Abs(), Finish(c))
      ensures holder == old(holder) - multiset{p}
      ensures queue == if state[p] == Runnable && (old(room) > 0 || p in old(holder)) then old(queue) + multiset{p} else old(queue)
    {
      hide Inv;
      hide Next;
      ghost var s := Abs();
      cpu[c] := None;
      mode := mode[c := Requeue(p)];
      between := Abs();
      assert between == Cleared(s, c, p);
      ClearStep(s, c, p);
      StepKeeps(s, between, ClearProc(c));
      Finishes(c, p);
    }

    method Finishes(c: nat, p: nat)
      requires Valid() && Inv(Abs()) && c < |mode| && mode[c] == Requeue(p) && p < state.Length
      modifies this`queue, this`holder, this`room, this`lock, this`mode
      ensures Valid() && Inv(Abs()) && Next(old(Abs()), Abs(), Finish(c)) && holder == old(holder) - multiset{p}
      ensures queue == if state[p] == Runnable && (old(room) > 0 || p in old(holder)) then old(queue) + multiset{p} else old(queue)
    {
      hide Inv;
      hide Next;
      ghost var s := Abs();
      Remove(p);
      if state[p] == Runnable {
        Put(p);
      }
      lock := None;
      mode := mode[c := Loop];
      assert Abs() == Finished(s, c, p);
      FinishStep(s, c, p);
      StepKeeps(s, Abs(), Finish(c));
    }

    /** The state change of yield, sleep and exit before sched. */
    method Leaves(c: nat, p: nat, to: ProcState, ghost step: Step)
      requires Valid() && Inv(Abs()) && c < |mode| && mode[c] == Locked(p) && p < state.Length
      requires match to
               case Runnable => step == Yield(c)
               case Sleeping(chan) => step == Step.Sleep(c, chan)
               case Zombie => step == Exit(c)
               case _ => false
      modifies state, this`queue, this`holder, this`room, this`mode
      ensures Valid() && Inv(Abs()) && Next(old(Abs()), Abs(), step) && state[..] == old(state[..])[p := to]
      ensures holder == if to == Zombie then old(holder) else old(holder) - multiset{p}
      ensures queue == if to == Runnable && (old(room) > 0 || p in old(holder)) then old(queue) + multiset{p} else old(queue)
    {
      hide Inv;
      hide Next;
      ghost var s := Abs();
      state[p] := to;
      if to != Zombie {
        Remove(p);
      }
      if to == Runnable {
        Put(p);
      }
      mode := mode[c := Leave(p)];
      assert Abs() == Left(s, c, p, to);
      LeaveStep(s, c, p, to, step);
      StepKeeps(s, Abs(), step);
    }

    /** The channel that wait sleeps on: the address of the process, 0 for none. */
    function Channel(p: Option<nat>): nat
    {
      if p == None then 0 else table + p.value
    }

    /** exit's loop: the children of p go to init, which is woken if one of them is a zombie. */
    method PassChildren(c: nat, p: nat, init: nat, ghost run: seq<State>, ghost taken: seq<Step>)
      returns (ghost states: seq<State>, ghost steps: seq<Step>)
      requires Valid() && Inv(Abs()) && c < |mode| && mode[c].Locked?
      requires |run| == |taken| + 1 && Path(run, taken) && run[|taken|] == Abs() && forall i | 0 <= i < |taken| :: taken[i].Wakeup?
      modifies state, parent, this`queue, this`room
      ensures Valid() && Inv(Abs()) && |states| == |steps| + 1 && Path(states, steps) && states[0] == run[0] && states[|steps|] == Abs()
      ensures forall i | 0 <= i < |steps| :: steps[i].Wakeup?
      ensures forall q | 0 <= q < state.Length :: parent[q] == if old(parent[q]) == Some(p) then Some(init) else old(parent[q])
      ensures var woken := ZombieChild(old(state[..]), old(parent[..]), p, state.Length);
              forall q | 0 <= q < state.Length :: state[q] == if woken && old(state[q]) == Sleeping(Channel(Some(init))) then Runnable else old(state[q])
    {
      hide Inv;
      hide Next;
      hide Path;
      hide Enqueued;
      hide Kernel.Store;
      states, steps := run, taken;
      ghost var procs, ps := state[..], parent[..];
      ghost var woken := false;
      var q := 0;
      while q < state.Length
        invariant 0 <= q <= state.Length && Valid() && Inv(Abs())
        invariant |states| == |steps| + 1 && Path(states, steps) && states[0] == run[0] && states[|steps|] == Abs()
        invariant forall i | 0 <= i < |steps| :: steps[i].Wakeup?
        invariant forall i | 0 <= i < state.Length :: parent[i] == if i < q && ps[i] == Some(p) then Some(init) else ps[i]
        invariant woken == ZombieChild(procs, ps, p, q)
        invariant forall i | 0 <= i < state.Length :: state[i] == if woken && procs[i] == Sleeping(Channel(Some(init))) then Runnable else procs[i]
      {
        if parent[q] == Some(p) {
          parent[q] := Some(init);
          if state[q] == Zombie {
            Wakeup1(Channel(Some(init)), c);
            woken := true;
            Longer(states, steps, Abs(), Wakeup(c, Channel(Some(init))));
            states, steps := states + [Abs()], steps + [Wakeup(c, Channel(Some(init)))];
          }
        }
        q := q + 1;
      }
    }

    /** exit from its acquire of the lock to sched: the parent is woken, the children go to init, and the
        process is a zombie. */
    method ExitProc(c: nat, p: nat, init: nat) returns (ghost states: seq<State>, ghost steps: seq<Step>)
      requires Valid() && Inv(Abs()) && c < |mode| && mode[c] == Locked(p) && p < state.Length
      modifies state, parent, this`queue, this`holder, this`room, this`mode
      ensures Valid() && Inv(Abs()) && Path(states, steps) && states[0] == old(Abs()) && states[|steps|] == Abs()
      ensures |steps| > 0 && steps[|steps| - 1] == Exit(c) && forall i | 0 <= i < |steps| - 1 :: steps[i].Wakeup?
      ensures forall q | 0 <= q < state.Length :: parent[q] == if old(parent[q]) == Some(p) then Some(init) else old(parent[q])
      ensures forall q | 0 <= q < state.Length && q != p ::
                state[q] == if old(state[q]) == Sleeping(Channel(old(parent[p]))) ||
                               (old(state[q]) == Sleeping(Channel(Some(init))) && ZombieChild(old(state[..]), old(parent[..]), p, state.Length))
                            then Runnable else old(state[q])
      ensures state[p] == Zombie
    {
      hide Inv;
      hide Next;
      hide Enqueued;
      hide Kernel.Store;
      ghost var s, ps := Abs(), parent[..];
      Wakeup1(Channel(parent[p]), c);
      states, steps := [s, Abs()], [Wakeup(c, Channel(ps[p]))];
      assert Path(states, steps);
      hide Path;
      assert ZombieChild(s.procs, ps, p, state.Length) == ZombieChild(state[..], ps, p, state.Length);
      hide ZombieChild;
      states, steps := PassChildren(c, p, init, states, steps);
      Leaves(c, p, Zombie, Exit(c));
      Longer(states, steps, Abs(), Exit(c));
      states, steps := states + [Abs()], steps + [Exit(c)];
    }
  }

  // ----- the states after single steps -----

  lemma LaunchStep(s: State, c: nat, q: nat)
    requires Shaped(s) && c < |s.mode| && s.mode[c].Locked? && q < |s.procs| && s.procs[q] == Embryo
    ensures Next(s, s.(procs := s.procs[q := Runnable], links := ProcTable.Put(s.links, q)), Launch(c, q))
  {
    assert s.mode[c := s.mode[c]] == s.mode && s.current[c := s.current[c]] == s.current;
  }

  ghost function Chose(s: State, c: nat, p: nat): State
    requires c < |s.mode| && c < |s.current|
  {
    s.(current := s.current[c := Some(p)], mode := s.mode[c := Chosen(p)], links := Extract(s.links, p))
  }

  lemma ChooseStep(s: State, c: nat, p: nat)
    requires Shaped(s) && c < |s.mode| && s.mode[c] == Pick && p in s.links.queue && p < |s.procs| && s.procs[p] == Runnable
    ensures Next(s, Chose(s, c, p), Choose(c, p)) && Shaped(Chose(s, c, p))
  {
  }

  ghost function Dropped(s: State, c: nat, p: nat): State
    requires c < |s.mode|
  {
    s.(lock := None, mode := s.mode[c := Loop], links := Extract(s.links, p))
  }

  lemma StaleStep(s: State, c: nat, p: nat)
    requires Shaped(s) && c < |s.mode| && s.mode[c] == Pick && p in s.links.queue && p < |s.procs| && s.procs[p] != Runnable
    ensures Next(s, Dropped(s, c, p), Stale(c, p)) && Shaped(Dropped(s, c, p))
  {
    assert s.current[c := s.current[c]] == s.current;
  }

  ghost function Started(s: State, c: nat, p: nat): State
    requires c < |s.mode| && p < |s.procs|
  {
    s.(procs := s.procs[p := Running], mode := s.mode[c := Enter(p)], links := ProcTable.Add(s.links, p))
  }

  lemma RunningStep(s: State, c: nat, p: nat)
    requires Shaped(s) && c < |s.mode| && s.mode[c] == Chosen(p) && p < |s.procs|
    ensures Next(s, Started(s, c, p), SetRunning(c)) && Shaped(Started(s, c, p))
  {
    assert s.current[c := s.current[c]] == s.current;
  }

  ghost function Cleared(s: State, c: nat, p: nat): State
    requires c < |s.mode| && c < |s.current|
  {
    s.(current := s.current[c := None], mode := s.mode[c := Requeue(p)])
  }

  lemma ClearStep(s: State, c: nat, p: nat)
    requires Shaped(s) && c < |s.mode| && s.mode[c] == Back(p)
    ensures Next(s, Cleared(s, c, p), ClearProc(c)) && Shaped(Cleared(s, c, p))
  {
  }

  ghost function Finished(s: State, c: nat, p: nat): State
    requires c < |s.mode| && p < |s.procs|
  {
    var l := ProcTable.Remove(s.links, p);
    s.(lock := None, mode := s.mode[c := Loop], links := if s.procs[p] == Runnable then ProcTable.Put(l, p) else l)
  }

  lemma FinishStep(s: State, c: nat, p: nat)
    requires Shaped(s) && c < |s.mode| && s.mode[c] == Requeue(p) && p < |s.procs|
    ensures Next(s, Finished(s, c, p), Finish(c)) && Shaped(Finished(s, c, p))
  {
    assert s.current[c := s.current[c]] == s.current;
  }

  ghost function Left(s: State, c: nat, p: nat, to: ProcState): State
    requires c < |s.mode| && p < |s.procs|
  {
    var l := if to == Zombie then s.links else ProcTable.Remove(s.links, p);
    s.(procs := s.procs[p := to], mode := s.mode[c := Leave(p)], links := if to == Runnable then ProcTable.Put(l, p) else l)
  }

  lemma LeaveStep(s: State, c: nat, p: nat, to: ProcState, step: Step)
    requires Shaped(s) && c < |s.mode| && s.mode[c] == Locked(p) && p < |s.procs|
    requires match to
             case Runnable => step == Yield(c)
             case Sleeping(chan) => step == Step.Sleep(c, chan)
             case Zombie => step == Exit(c)
             case _ => false
    ensures Next(s, Left(s, c, p, to), step) && Shaped(Left(s, c, p, to))
  {
    assert s.current[c := s.current[c]] == s.current;
  }

  lemma WokenStep(s: State, s': State, c: nat, chan: nat)
    requires Shaped(s) && c < |s.mode| && (s.mode[c].Locked? || (s.mode[c] == Loop && s.lock == None)) && Woken(s, s', chan)
    ensures Next(s, s', Wakeup(c, chan))
  {
  }

  /** One of the first n processes is a zombie and a child of p. */
  ghost predicate ZombieChild(procs: seq<ProcState>, parent: seq<Option<nat>>, p: nat, n: nat)
    requires n <= |procs| == |parent|
  {
    exists q | 0 <= q < n :: parent[q] == Some(p) && procs[q] == Zombie
  }
}
