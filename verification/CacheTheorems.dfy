/** What every run of the buffer cache keeps: it behaves like one plain map of blocks. */
module CacheTheorems {
  import opened CacheMachine

  lemma {:induction false} RefsUpdate(ks: seq<Caller>, c: nat, k: Caller, b: nat)
    requires c < |ks|
    ensures Refs(ks[c := k], b) == Refs(ks, b) - Refers(ks[c], b) + Refers(k, b)
  {
    var n := |ks| - 1;
    if c == n {
      assert ks[c := k][..n] == ks[..n];
    } else {
      RefsUpdate(ks[..n], c, k, b);
      assert ks[c := k][..n] == ks[..n][c := k];
    }
  }

  lemma {:induction false} RefsPositive(ks: seq<Caller>, c: nat, b: nat)
    requires c < |ks| && Refers(ks[c], b) == 1
    ensures Refs(ks, b) > 0
  {
    if c < |ks| - 1 {
      RefsPositive(ks[..|ks| - 1], c, b);
    }
  }

  /** Only caller c and buffer b, which is the only buffer c refers to, may differ. */
  ghost predicate Local(s: State, s': State, c: nat, b: nat) {
    && c < |s.callers| == |s'.callers| && b < |s.bufs| == |s'.bufs|
    && (forall i | 0 <= i < |s.bufs| && i != b :: s'.bufs[i] == s.bufs[i])
    && (forall d | 0 <= d < |s.callers| && d != c :: s'.callers[d] == s.callers[d])
    && (s.callers[c].Idle? || s.callers[c].b == b)
    && (s'.callers[c].Idle? || s'.callers[c].b == b)
  }

  /** The buffer keeps its block, or nobody refers to it and the new block is not cached. */
  ghost predicate KeepsBlock(s: State, s': State, b: nat)
    requires b < |s.bufs| == |s'.bufs|
  {
    s'.bufs[b].id == s.bufs[b].id || (s.bufs[b].refcnt == 0 && !Cached(s.bufs, s'.bufs[b].id))
  }

  lemma LocalUnique(s: State, s': State, c: nat, b: nat)
    requires Unique(s.bufs) && Local(s, s', c, b) && KeepsBlock(s, s', b)
    ensures Unique(s'.bufs)
  {
  }

  lemma {:induction false} LocalRefs(s: State, s': State, c: nat, b: nat, i: nat)
    requires Local(s, s', c, b) && i != b
    ensures Refs(s'.callers, i) == Refs(s.callers, i)
  {
    RefsUpdate(s.callers, c, s'.callers[c], i);
    assert s'.callers == s.callers[c := s'.callers[c]];
  }

  lemma {:induction false} LocalRefsHere(s: State, s': State, c: nat, b: nat)
    requires Local(s, s', c, b)
    ensures Refs(s'.callers, b) == Refs(s.callers, b) - Refers(s.callers[c], b) + Refers(s'.callers[c], b)
  {
    RefsUpdate(s.callers, c, s'.callers[c], b);
    assert s'.callers == s.callers[c := s'.callers[c]];
  }

  lemma LocalBuf(s: State, s': State, m: map<Id, Data>, m': map<Id, Data>, c: nat, b: nat, i: nat)
    requires Inv(s, m) && Local(s, s', c, b) && i < |s.bufs| && i != b
    requires s.bufs[i].id != UNUSED_ID ==>
               At(s'.disk, s.bufs[i].id) == At(s.disk, s.bufs[i].id) && At(m', s.bufs[i].id) == At(m, s.bufs[i].id)
    ensures BufOk(s', m', i)
  {
    LocalRefs(s, s', c, b, i);
    assert BufOk(s, m, i);
  }

  lemma LocalCaller(s: State, s': State, m: map<Id, Data>, c: nat, b: nat, d: nat)
    requires Inv(s, m) && Local(s, s', c, b) && KeepsBlock(s, s', b) && d < |s.callers| && d != c
    requires s'.bufs[b].holder == s.bufs[b].holder || s.bufs[b].holder == Nobody || s.bufs[b].holder == Client(c)
    requires s.bufs[b].valid ==> s'.bufs[b].valid || s.bufs[b].refcnt == 0
    ensures CallerOk(s', d)
  {
    assert CallerOk(s, d) && BufOk(s, m, b);
    if !s.callers[d].Idle? && s.callers[d].b == b {
      RefsPositive(s.callers, d, b);
    }
  }

  /** The invariant after a local change, from what the step has to show about b and c alone. */
  lemma LocalKeeps(s: State, s': State, m: map<Id, Data>, m': map<Id, Data>, c: nat, b: nat)
    requires Inv(s, m) && Local(s, s', c, b) && KeepsBlock(s, s', b)
    requires forall id: Id | id != s.bufs[b].id :: At(s'.disk, id) == At(s.disk, id) && At(m', id) == At(m, id)
    requires s'.bufs[b].holder == s.bufs[b].holder || s.bufs[b].holder == Nobody || s.bufs[b].holder == Client(c)
    requires s.bufs[b].valid ==> s'.bufs[b].valid || s.bufs[b].refcnt == 0
    requires CallerOk(s', c) && BufOk(s', m', b)
    requires s'.bufs[b].id != s.bufs[b].id && s.bufs[b].id != UNUSED_ID ==>
               At(s'.disk, s.bufs[b].id) == At(m', s.bufs[b].id)
    ensures Inv(s', m')
  {
    LocalUnique(s, s', c, b);
    forall d | 0 <= d < |s'.callers|
      ensures CallerOk(s', d)
    {
      if d != c {
        LocalCaller(s, s', m, c, b, d);
      }
    }
    forall i | 0 <= i < |s'.bufs|
      ensures BufOk(s', m', i)
    {
      if i != b {
        LocalBuf(s, s', m, m', c, b, i);
      }
    }
    forall id: Id | id != UNUSED_ID && !Cached(s'.bufs, id)
      ensures At(s'.disk, id) == At(m', id)
    {
      if id != s.bufs[b].id {
        forall i | 0 <= i < |s.bufs|
          ensures s.bufs[i].id != id
        {
          if i != b {
            assert s'.bufs[i].id != id;
          }
        }
      } else {
        assert s'.bufs[b].id != id;
      }
    }
  }

  lemma HitKeeps(s: State, c: nat, id: Id, b: nat, s': State, m: map<Id, Data>)
    requires Inv(s, m) && HitStep(s, c, id, b, s')
    ensures Inv(s', m)
  {
    LocalRefsHere(s, s', c, b);
    assert BufOk(s, m, b);
    LocalKeeps(s, s', m, m, c, b);
  }

  lemma RecycleKeeps(s: State, c: nat, id: Id, b: nat, s': State, m: map<Id, Data>)
    requires Inv(s, m) && RecycleStep(s, c, id, b, s')
    ensures Inv(s', m)
  {
    LocalRefsHere(s, s', c, b);
    assert BufOk(s, m, b);
    if s.bufs[b].holder.Client? {
      RefsPositive(s.callers, s.bufs[b].holder.c, b);
    }
    LocalKeeps(s, s', m, m, c, b);
  }

  lemma LockKeeps(s: State, c: nat, s': State, m: map<Id, Data>)
    requires Inv(s, m) && LockStep(s, c, s')
    ensures Inv(s', m)
  {
    var b := s.callers[c].b;
    LocalRefsHere(s, s', c, b);
    assert BufOk(s, m, b) && CallerOk(s, c);
    LocalKeeps(s, s', m, m, c, b);
  }

  lemma FillKeeps(s: State, c: nat, s': State, m: map<Id, Data>)
    requires Inv(s, m) && FillStep(s, c, s')
    ensures Inv(s', m)
  {
    var b := s.callers[c].b;
    LocalRefsHere(s, s', c, b);
    assert BufOk(s, m, b) && CallerOk(s, c);
    LocalKeeps(s, s', m, m, c, b);
  }

  lemma ModifyKeeps(s: State, c: nat, data: Data, s': State, m: map<Id, Data>)
    requires Inv(s, m) && ModifyStep(s, c, data, s')
    ensures Inv(s', m[s.callers[c].id := data])
  {
    var b := s.callers[c].b;
    LocalRefsHere(s, s', c, b);
    assert BufOk(s, m, b) && CallerOk(s, c);
    LocalKeeps(s, s', m, m[s.callers[c].id := data], c, b);
  }

  lemma LogWriteKeeps(s: State, c: nat, s': State, m: map<Id, Data>)
    requires Inv(s, m) && LogWriteStep(s, c, s')
    ensures Inv(s', m)
  {
    var b := s.callers[c].b;
    LocalRefsHere(s, s', c, b);
    assert BufOk(s, m, b) && CallerOk(s, c);
    LocalKeeps(s, s', m, m, c, b);
  }

  lemma WriteThroughKeeps(s: State, c: nat, s': State, m: map<Id, Data>)
    requires Inv(s, m) && WriteThroughStep(s, c, s')
    ensures Inv(s', m)
  {
    var b := s.callers[c].b;
    LocalRefsHere(s, s', c, b);
    assert BufOk(s, m, b) && CallerOk(s, c);
    LocalKeeps(s, s', m, m, c, b);
  }

  lemma UnlockKeeps(s: State, c: nat, s': State, m: map<Id, Data>)
    requires Inv(s, m) && UnlockStep(s, c, s')
    ensures Inv(s', m)
  {
    var b := s.callers[c].b;
    LocalRefsHere(s, s', c, b);
    assert BufOk(s, m, b) && CallerOk(s, c);
    LocalKeeps(s, s', m, m, c, b);
  }

  lemma UnrefKeeps(s: State, c: nat, s': State, m: map<Id, Data>)
    requires Inv(s, m) && UnrefStep(s, c, s')
    ensures Inv(s', m)
  {
    var b := s.callers[c].b;
    LocalRefsHere(s, s', c, b);
    assert BufOk(s, m, b) && CallerOk(s, c);
    LocalKeeps(s, s', m, m, c, b);
  }

  lemma StepRefines(s: State, step: Step, s': State, m: map<Id, Data>)
    requires Inv(s, m) && Next(s, step, s')
    ensures Inv(s', SpecStep(m, s, step))
  {
    match step
    case Hit(c, id, b) => HitKeeps(s, c, id, b, s', m);
    case Recycle(c, id, b) => RecycleKeeps(s, c, id, b, s', m);
    case Lock(c) => LockKeeps(s, c, s', m);
    case Fill(c) => FillKeeps(s, c, s', m);
    case Modify(c, data) => ModifyKeeps(s, c, data, s', m);
    case LogWrite(c) => LogWriteKeeps(s, c, s', m);
    case WriteThrough(c) => WriteThroughKeeps(s, c, s', m);
    case Unlock(c) => UnlockKeeps(s, c, s', m);
    case Unref(c) => UnrefKeeps(s, c, s', m);
  }

  // ----- whole runs -----

  lemma {:induction false} NoRefs(ks: seq<Caller>, b: nat)
    requires forall c | 0 <= c < |ks| :: ks[c].Idle?
    ensures Refs(ks, b) == 0
  {
    if ks != [] {
      NoRefs(ks[..|ks| - 1], b);
    }
  }

  lemma InitInv(s: State)
    requires Init(s)
    ensures Inv(s, s.disk)
  {
    forall b | 0 <= b < |s.bufs|
      ensures BufOk(s, s.disk, b)
    {
      NoRefs(s.callers, b);
    }
  }

  lemma {:induction false} RunRefines(states: seq<State>, steps: seq<Step>, m: map<Id, Data>)
    requires Run(states, steps) && Inv(states[0], m)
    ensures Inv(states[|steps|], SpecRun(m, states, steps))
    decreases |steps|
  {
    var n := |steps|;
    if n > 0 {
      RunRefines(states[..n], steps[..n - 1], m);
      StepRefines(states[n - 1], steps[n - 1], states[n], SpecRun(m, states[..n], steps[..n - 1]));
    }
  }

  /** In every run, whoever holds a buffer after bread holds the block it asked for, alone, in the
      only buffer of that block, with the contents a plain map of blocks would give. */
  lemma {:induction false} BreadReturnsBlock(states: seq<State>, steps: seq<Step>, c: nat)
    requires Run(states, steps) && Init(states[0])
    requires c < |states[|steps|].callers| && states[|steps|].callers[c].Using?
    ensures var s := states[|steps|];
            var k := s.callers[c];
            && k.b < |s.bufs| && s.bufs[k.b].id == k.id && s.bufs[k.b].valid
            && (forall d | 0 <= d < |s.callers| && d != c && HoldsLock(s.callers[d]) :: s.callers[d].b != k.b)
            && (k.id != UNUSED_ID ==>
                  && s.bufs[k.b].data == At(SpecRun(states[0].disk, states, steps), k.id)
                  && forall i | 0 <= i < |s.bufs| && i != k.b :: s.bufs[i].id != k.id)
  {
    InitInv(states[0]);
    RunRefines(states, steps, states[0].disk);
    var s := states[|steps|];
    assert CallerOk(s, c);
    assert BufOk(s, SpecRun(states[0].disk, states, steps), s.callers[c].b);
    forall d | 0 <= d < |s.callers| && d != c && HoldsLock(s.callers[d])
      ensures s.callers[d].b != s.callers[c].b
    {
      assert CallerOk(s, d);
    }
  }

  /** A caller still waiting for the sleep lock is waiting for the block it asked for. */
  lemma WaitersKeepTheirBlock(states: seq<State>, steps: seq<Step>, c: nat)
    requires Run(states, steps) && Init(states[0])
    requires c < |states[|steps|].callers| && states[|steps|].callers[c].Waiting?
    ensures var s := states[|steps|];
            s.callers[c].b < |s.bufs| && s.bufs[s.callers[c].b].id == s.callers[c].id && s.bufs[s.callers[c].b].refcnt > 0
  {
    InitInv(states[0]);
    RunRefines(states, steps, states[0].disk);
    var s := states[|steps|];
    assert CallerOk(s, c);
    assert BufOk(s, SpecRun(states[0].disk, states, steps), s.callers[c].b);
    RefsPositive(s.callers, c, s.callers[c].b);
  }

  /** This step is a bwrite of buffer b. */
  ghost predicate WritesBuf(s: State, step: Step, b: nat) {
    step.WriteThrough? && step.c < |s.callers| && s.callers[step.c].Using? && s.callers[step.c].b == b
  }

  ghost predicate Pinned(s: State, b: nat, id: Id) {
    b < |s.bufs| && s.bufs[b].dirty && s.bufs[b].id == id
  }

  lemma PinnedStep(s: State, step: Step, s': State, m: map<Id, Data>, b: nat, id: Id)
    requires Inv(s, m) && Next(s, step, s') && Pinned(s, b, id) && id != UNUSED_ID && !WritesBuf(s, step, b)
    ensures Pinned(s', b, id) && At(s'.disk, id) == At(s.disk, id)
  {
  }

  /** A block changed by log_write is neither recycled nor written home until its buffer is
      written by bwrite. */
  lemma {:induction false} PinnedUntilWritten(states: seq<State>, steps: seq<Step>, m: map<Id, Data>, b: nat, id: Id)
    requires Run(states, steps) && Inv(states[0], m) && Pinned(states[0], b, id) && id != UNUSED_ID
    requires forall k | 0 <= k < |steps| :: !WritesBuf(states[k], steps[k], b)
    ensures Pinned(states[|steps|], b, id) && At(states[|steps|].disk, id) == At(states[0].disk, id)
    decreases |steps|
  {
    var n := |steps|;
    if n > 0 {
      assert forall k | 0 <= k < n - 1 :: !WritesBuf(states[..n][k], steps[..n - 1][k], b);
      PinnedUntilWritten(states[..n], steps[..n - 1], m, b, id);
      RunRefines(states[..n], steps[..n - 1], m);
      PinnedStep(states[n - 1], steps[n - 1], states[n], SpecRun(m, states[..n], steps[..n - 1]), b, id);
    }
  }
}
