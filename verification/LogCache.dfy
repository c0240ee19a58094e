/** The log on top of the buffer cache: log.c reaches the disk and its pinned blocks only through bread,
    log_write, bwrite and brelse.  A state is one of each machine; a step is one step of the cache, one
    step of the log that touches no buffer, or a step that both take together.  No other code calls bwrite. */
module LogCache {
  import L = LogMachine
  import LT = LogTheorems
  import C = CacheMachine
  import CT = CacheTheorems

  /** ROOTDEV */
  const DEV: nat := 1

  function BlockId(x: nat): C.Id {
    C.Id(DEV, x)
  }

  datatype State = State(log: L.State, cache: C.State)

  datatype Step =
    | Buffer(bufStep: C.Step)                       // bread and brelse by anyone, and changes to a locked buffer
    | Call(logStep: L.Step)                         // begin_op, the tests of log_write, end_op, reading the header
    | LogWrite(c: nat, t: nat)                      // log_write of the buffer that caller c has locked
    | CopyToLog(c: nat, from: nat)                  // bwrite of a log block, filled from a home block
    | CopyHome(c: nat, from: nat, logStep: L.Step)  // bwrite of a home block, filled from a log block
    | WriteHead(c: nat, logStep: L.Step)            // bwrite of the header
    | Crash

  /** Caller c is done with bread of block x. */
  ghost predicate Uses(s: C.State, c: nat, x: int) {
    x >= 0 && c < |s.callers| && s.callers[c].Using? && s.callers[c].id == BlockId(x) && s.callers[c].b < |s.bufs|
  }

  function Held(s: C.State, c: nat): C.Data
    requires c < |s.callers| && s.callers[c].Using? && s.callers[c].b < |s.bufs|
  {
    s.bufs[s.callers[c].b].data
  }

  /** memmove from the buffer of caller from to that of caller c has been done. */
  ghost predicate CopiedFrom(s: C.State, c: nat, x: int, from: nat, y: int) {
    Uses(s, c, x) && Uses(s, from, y) && !s.callers[from].modified && Held(s, c) == Held(s, from)
  }

  ghost predicate Next(l: L.Layout, s: State, step: Step, s': State) {
    match step
    case Buffer(cs) =>
      && !cs.LogWrite? && !cs.WriteThrough? && (cs.Modify? ==> |cs.data| == L.WORDS)
      && C.Next(s.cache, cs, s'.cache) && s'.log == s.log
    case Call(ls) =>
      && (ls.BeginOp? || ls.CheckWrite? || ls.EndOp? || ls.EndCommit? || ls.ReadHeader?)
      && L.Next(l, s.log, ls, s'.log) && s'.cache == s.cache
    case LogWrite(c, t) =>
      && t < |s.log.threads| && s.log.threads[t].Inside? && s.log.threads[t].pending.Passed?
      && Uses(s.cache, c, s.log.threads[t].pending.block) && |Held(s.cache, c)| == L.WORDS
      && C.Next(s.cache, C.LogWrite(c), s'.cache) && L.Next(l, s.log, L.AppendWrite(t, Held(s.cache, c)), s'.log)
    case CopyToLog(c, from) =>
      && s.log.phase.CopyLog? && s.log.phase.i < |s.log.head|
      && CopiedFrom(s.cache, c, l.start + 1 + s.log.phase.i, from, s.log.head[s.log.phase.i])
      && C.Next(s.cache, C.WriteThrough(c), s'.cache) && L.Next(l, s.log, L.CopyBlock, s'.log)
    case CopyHome(c, from, ls) =>
      && (ls.InstallBlock? || ls.ReplayBlock?) && (s.log.phase.Install? || s.log.phase.Replay?) && s.log.phase.i < |s.log.head|
      && CopiedFrom(s.cache, c, s.log.head[s.log.phase.i], from, l.start + 1 + s.log.phase.i)
      && C.Next(s.cache, C.WriteThrough(c), s'.cache) && L.Next(l, s.log, ls, s'.log)
    case WriteHead(c, ls) =>
      && (ls.CommitHeader? || ls.EraseHeader? || ls.EraseAfterReplay?)
      && Uses(s.cache, c, l.start) && l.start < |s.log.disk| && |s.log.head| < L.WORDS
      && Held(s.cache, c) == L.HeaderBlock(s.log.disk[l.start], if ls.CommitHeader? then s.log.head else [])
      && C.Next(s.cache, C.WriteThrough(c), s'.cache) && L.Next(l, s.log, ls, s'.log)
    case Crash =>
      L.Next(l, s.log, L.Crash, s'.log) && C.Init(s'.cache) && s'.cache.disk == s.cache.disk
  }

  /** The step of the log that is part of this step. */
  function LogStep(s: State, step: Step): (r: seq<L.Step>) {
    match step
    case Buffer(_) => []
    case Call(ls) => [ls]
    case LogWrite(c, t) =>
      if c < |s.cache.callers| && s.cache.callers[c].Using? && s.cache.callers[c].b < |s.cache.bufs| && |Held(s.cache, c)| == L.WORDS
      then [L.AppendWrite(t, Held(s.cache, c))] else []
    case CopyToLog(_, _) => [L.CopyBlock]
    case CopyHome(_, _, ls) => [ls]
    case WriteHead(_, ls) => [ls]
    case Crash => [L.Crash]
  }

  function LogSpec(a: L.Spec, s: State, step: Step): L.Spec {
    var r := LogStep(s, step);
    if r == [] then a else L.SpecStep(a, s.log, r[0])
  }

  function CacheSpec(m: map<C.Id, C.Data>, s: State, step: Step): map<C.Id, C.Data> {
    match step
    case Buffer(cs) => C.SpecStep(m, s.cache, cs)
    case Crash => s.cache.disk
    case _ => m
  }

  ghost predicate Fits(l: L.Layout, s: State, step: Step) {
    var r := LogStep(s, step);
    r != [] ==> LT.Fits(l, s.log, r[0])
  }

  // ----- how the two states belong together -----

  /** Somebody has changed the block in its buffer and has not called log_write or bwrite yet. */
  ghost predicate Changing(s: C.State, id: C.Id) {
    exists c | 0 <= c < |s.callers| :: s.callers[c].Using? && s.callers[c].id == id && s.callers[c].modified
  }

  ghost predicate Dirty(s: C.State, id: C.Id) {
    exists b | 0 <= b < |s.bufs| :: s.bufs[b].id == id && s.bufs[b].dirty
  }

  ghost predicate DiskAt(l: L.Layout, s: State, x: int)
    requires 0 <= x < |s.log.disk|
  {
    C.At(s.cache.disk, BlockId(x)) == s.log.disk[x]
  }

  /** What bread of block x returns is what the log takes it to return. */
  ghost predicate SeenAt(s: State, m: map<C.Id, C.Data>, x: int)
    requires 0 <= x < |s.log.disk|
  {
    Changing(s.cache, BlockId(x)) || C.At(m, BlockId(x)) == L.View(s.log, x)
  }

  /** The blocks that the log takes to be pinned are those with B_DIRTY. */
  ghost predicate PinnedAt(s: State, x: int)
    requires 0 <= x
  {
    x in s.log.pinned <==> Dirty(s.cache, BlockId(x))
  }

  ghost predicate Linked(l: L.Layout, s: State, m: map<C.Id, C.Data>) {
    && |s.log.disk| == l.blocks
    && (forall x {:trigger DiskAt(l, s, x)} | 0 <= x < l.blocks :: DiskAt(l, s, x))
    && (forall x {:trigger SeenAt(s, m, x)} | 0 <= x < l.blocks :: SeenAt(s, m, x))
    && (forall x {:trigger PinnedAt(s, x)} | 0 <= x :: PinnedAt(s, x))
    && (forall x | x in s.log.pinned :: l.Home(x))
  }

  ghost predicate Inv(l: L.Layout, s: State, a: L.Spec, m: map<C.Id, C.Data>) {
    L.Inv(l, s.log, a) && C.Inv(s.cache, m) && Linked(l, s, m)
  }

  // ----- what a step of the cache does to a block -----

  /** Two callers do not use the same block. */
  lemma OneUser(s: C.State, m: map<C.Id, C.Data>, c: nat, d: nat)
    requires C.Inv(s, m) && c < |s.callers| && d < |s.callers| && s.callers[c].Using? && s.callers[d].Using?
    requires s.callers[c].id == s.callers[d].id != C.UNUSED_ID
    ensures c == d
  {
    assert C.CallerOk(s, c) && C.CallerOk(s, d);
  }

  /** Who uses a block that is not changing has its contents. */
  lemma UserSees(s: C.State, m: map<C.Id, C.Data>, c: nat)
    requires C.Inv(s, m) && c < |s.callers| && s.callers[c].Using? && s.callers[c].id != C.UNUSED_ID
    ensures s.callers[c].b < |s.bufs| && Held(s, c) == C.At(m, s.callers[c].id) && s.bufs[s.callers[c].b].id == s.callers[c].id
    ensures Changing(s, s.callers[c].id) <==> s.callers[c].modified
  {
    assert C.CallerOk(s, c) && C.BufOk(s, m, s.callers[c].b);
    if Changing(s, s.callers[c].id) {
      var d :| 0 <= d < |s.callers| && s.callers[d].Using? && s.callers[d].id == s.callers[c].id && s.callers[d].modified;
      OneUser(s, m, c, d);
    }
  }

  /** bread and brelse change neither what is pinned nor what is being changed. */
  lemma QuietStep(s: C.State, step: C.Step, s': C.State, m: map<C.Id, C.Data>, id: C.Id)
    requires C.Inv(s, m) && C.Next(s, step, s') && !step.LogWrite? && !step.WriteThrough? && !step.Modify?
    ensures s'.disk == s.disk && (Dirty(s', id) <==> Dirty(s, id)) && (Changing(s', id) <==> Changing(s, id))
  {
    if Dirty(s, id) {
      var b :| 0 <= b < |s.bufs| && s.bufs[b].id == id && s.bufs[b].dirty;
      assert s'.bufs[b].id == id && s'.bufs[b].dirty;
    }
    if Changing(s, id) {
      var c :| 0 <= c < |s.callers| && s.callers[c].Using? && s.callers[c].id == id && s.callers[c].modified;
      assert s'.callers[c] == s.callers[c];
    }
  }

  lemma ModifyBlock(s: C.State, c: nat, data: C.Data, s': C.State, m: map<C.Id, C.Data>, id: C.Id)
    requires C.Inv(s, m) && C.ModifyStep(s, c, data, s')
    ensures s'.disk == s.disk && (Dirty(s', id) <==> Dirty(s, id))
    ensures Changing(s', id) <==> Changing(s, id) || s.callers[c].id == id
  {
    assert s'.callers[c].Using? && s'.callers[c].modified && s'.callers[c].id == s.callers[c].id;
    if Dirty(s, id) {
      var b :| 0 <= b < |s.bufs| && s.bufs[b].id == id && s.bufs[b].dirty;
      assert s'.bufs[b].id == id && s'.bufs[b].dirty;
    }
    if Changing(s, id) {
      var d :| 0 <= d < |s.callers| && s.callers[d].Using? && s.callers[d].id == id && s.callers[d].modified;
      assert s'.callers[d].Using? && s'.callers[d].id == id && s'.callers[d].modified;
    }
  }

  /** log_write and bwrite of the block of caller c end its change. */
  lemma DoneBlock(s: C.State, c: nat, step: C.Step, s': C.State, m: map<C.Id, C.Data>, id: C.Id)
    requires C.Inv(s, m) && C.Next(s, step, s') && (step == C.LogWrite(c) || step == C.WriteThrough(c)) && s.callers[c].id != C.UNUSED_ID
    ensures Changing(s', id) <==> Changing(s, id) && id != s.callers[c].id
    ensures Dirty(s', id) <==> if id == s.callers[c].id then step.LogWrite? else Dirty(s, id)
  {
    UserSees(s, m, c);
    var k := s.callers[c].b;
    if Dirty(s, id) && id != s.callers[c].id {
      var b :| 0 <= b < |s.bufs| && s.bufs[b].id == id && s.bufs[b].dirty;
      assert s'.bufs[b] == s.bufs[b];
    }
    if step.LogWrite? {
      assert s'.bufs[k].id == s.callers[c].id && s'.bufs[k].dirty;
    }
    forall d | 0 <= d < |s'.callers| && s'.callers[d].Using? && s'.callers[d].id == s.callers[c].id
      ensures d == c
    {
      OneUser(s, m, c, d);
    }
    if Changing(s, id) && id != s.callers[c].id {
      var d :| 0 <= d < |s.callers| && s.callers[d].Using? && s.callers[d].id == id && s.callers[d].modified;
      assert s'.callers[d] == s.callers[d];
    }
  }

  // ----- every step keeps the states together -----

  lemma BufferLinked(l: L.Layout, s: State, cs: C.Step, s': State, a: L.Spec, m: map<C.Id, C.Data>)
    requires Inv(l, s, a, m) && Next(l, s, Buffer(cs), s')
    ensures Linked(l, s', C.SpecStep(m, s.cache, cs))
  {
    var m' := C.SpecStep(m, s.cache, cs);
    forall x: nat
      ensures s'.cache.disk == s.cache.disk && PinnedAt(s', x) && (x < l.blocks ==> SeenAt(s', m', x) && DiskAt(l, s', x))
    {
      assert PinnedAt(s, x) && (x < l.blocks ==> SeenAt(s, m, x) && DiskAt(l, s, x));
      if cs.Modify? {
        ModifyBlock(s.cache, cs.c, cs.data, s'.cache, m, BlockId(x));
      } else {
        QuietStep(s.cache, cs, s'.cache, m, BlockId(x));
      }
    }
  }

  lemma CallLinked(l: L.Layout, s: State, ls: L.Step, s': State, a: L.Spec, m: map<C.Id, C.Data>)
    requires Inv(l, s, a, m) && Next(l, s, Call(ls), s')
    ensures Linked(l, s', m)
  {
    forall x: nat
      ensures PinnedAt(s', x) && (x < l.blocks ==> SeenAt(s', m, x) && DiskAt(l, s', x))
    {
      assert PinnedAt(s, x) && (x < l.blocks ==> SeenAt(s, m, x) && DiskAt(l, s, x));
    }
  }

  lemma LogWriteLinked(l: L.Layout, s: State, c: nat, t: nat, s': State, a: L.Spec, m: map<C.Id, C.Data>)
    requires Inv(l, s, a, m) && Next(l, s, LogWrite(c, t), s')
    ensures Linked(l, s', m)
  {
    var y := s.log.threads[t].pending.block;
    UserSees(s.cache, m, c);
    forall x: nat
      ensures PinnedAt(s', x) && (x < l.blocks ==> SeenAt(s', m, x) && DiskAt(l, s', x))
    {
      assert PinnedAt(s, x) && (x < l.blocks ==> SeenAt(s, m, x) && DiskAt(l, s, x));
      DoneBlock(s.cache, c, C.LogWrite(c), s'.cache, m, BlockId(x));
    }
    assert l.Home(y);
  }

  /** A bwrite of block y, together with the step of the log that writes it. */
  lemma WriteLinked(l: L.Layout, s: State, c: nat, y: nat, s': State, a: L.Spec, m: map<C.Id, C.Data>)
    requires Inv(l, s, a, m) && Uses(s.cache, c, y) && y < l.blocks && C.Next(s.cache, C.WriteThrough(c), s'.cache)
    requires |Held(s.cache, c)| == L.WORDS && s'.log.disk == s.log.disk[y := Held(s.cache, c)] && s'.log.pinned == s.log.pinned - {y}
    ensures Linked(l, s', m)
  {
    UserSees(s.cache, m, c);
    forall x: nat
      ensures PinnedAt(s', x) && (x < l.blocks ==> SeenAt(s', m, x) && DiskAt(l, s', x))
    {
      assert PinnedAt(s, x) && (x < l.blocks ==> SeenAt(s, m, x) && DiskAt(l, s, x));
      DoneBlock(s.cache, c, C.WriteThrough(c), s'.cache, m, BlockId(x));
    }
  }

  /** What a caller that only reads block y holds is what the log takes the block to be. */
  lemma ReaderSees(l: L.Layout, s: State, c: nat, y: int, a: L.Spec, m: map<C.Id, C.Data>)
    requires Inv(l, s, a, m) && Uses(s.cache, c, y) && !s.cache.callers[c].modified && y < l.blocks
    ensures Held(s.cache, c) == L.View(s.log, y)
  {
    UserSees(s.cache, m, c);
    assert SeenAt(s, m, y);
  }

  /** What a step of commit or recovery that copies entry i of the header writes. */
  lemma CopyFacts(l: L.Layout, s: L.State, step: L.Step, s': L.State, a: L.Spec)
    requires L.Inv(l, s, a) && L.Next(l, s, step, s') && (step.CopyBlock? || step.InstallBlock? || step.ReplayBlock?)
    ensures (s.phase.CopyLog? || s.phase.Install? || s.phase.Replay?) && s.phase.i < |s.head|
    ensures var x, y := s.head[s.phase.i], l.start + 1 + s.phase.i;
            && |s.disk| == l.blocks && l.Home(x) && 0 <= y < l.blocks && !l.Home(y)
            && (step.CopyBlock? ==> s'.disk == s.disk[y := L.View(s, x)] && s'.pinned == s.pinned)
            && (!step.CopyBlock? ==> s'.disk == s.disk[x := s.disk[y]] && s'.pinned == s.pinned - {x})
  {
    hide L.ThreadsOk;
    hide L.Recovers;
    hide L.PinnedFrom;
    hide L.Copied;
    hide L.Replayed;
    hide L.Sees;
    hide L.Agree;
    hide L.Distinct;
    hide L.GoodHeader;
    hide L.Entries;
    assert l.Home(s.head[s.phase.i]);
  }

  /** Only home blocks are pinned. */
  lemma NotPinned(l: L.Layout, s: State, m: map<C.Id, C.Data>, y: int)
    requires Linked(l, s, m) && !l.Home(y)
    ensures y !in s.log.pinned
  {
  }

  /** Block y is written from the buffer of block x, which nobody changes. */
  lemma BlockCopied(l: L.Layout, s: State, c: nat, y: nat, from: nat, x: nat, s': State, a: L.Spec, m: map<C.Id, C.Data>)
    requires Inv(l, s, a, m) && CopiedFrom(s.cache, c, y, from, x) && x < l.blocks == |s.log.disk| && y < l.blocks
    requires C.Next(s.cache, C.WriteThrough(c), s'.cache)
    requires s'.log.disk == s.log.disk[y := L.View(s.log, x)] && s'.log.pinned == s.log.pinned - {y}
    ensures Linked(l, s', m)
  {
    hide L.Inv;
    hide C.Inv;
    hide C.Next;
    hide Linked;
    ReaderSees(l, s, from, x, a, m);
    WriteLinked(l, s, c, y, s', a, m);
  }

  lemma CopyToLogLinked(l: L.Layout, s: State, c: nat, from: nat, s': State, a: L.Spec, m: map<C.Id, C.Data>)
    requires Inv(l, s, a, m) && Next(l, s, CopyToLog(c, from), s')
    ensures Linked(l, s', m)
  {
    hide L.Inv;
    hide L.Next;
    hide C.Inv;
    hide C.Next;
    hide Linked;
    hide CopiedFrom;
    CopyFacts(l, s.log, L.CopyBlock, s'.log, a);
    var x, y := s.log.head[s.log.phase.i], l.start + 1 + s.log.phase.i;
    NotPinned(l, s, m, y);
    BlockCopied(l, s, c, y, from, x, s', a, m);
  }

  lemma CopyHomeLinked(l: L.Layout, s: State, c: nat, from: nat, ls: L.Step, s': State, a: L.Spec, m: map<C.Id, C.Data>)
    requires Inv(l, s, a, m) && Next(l, s, CopyHome(c, from, ls), s')
    ensures Linked(l, s', m)
  {
    hide L.Inv;
    hide L.Next;
    hide C.Inv;
    hide C.Next;
    hide Linked;
    hide CopiedFrom;
    CopyFacts(l, s.log, ls, s'.log, a);
    var x, y := s.log.head[s.log.phase.i], l.start + 1 + s.log.phase.i;
    NotPinned(l, s, m, y);
    BlockCopied(l, s, c, x, from, y, s', a, m);
  }

  lemma HeadFacts(l: L.Layout, s: L.State, step: L.Step, s': L.State, a: L.Spec)
    requires L.Inv(l, s, a) && L.Next(l, s, step, s') && (step.CommitHeader? || step.EraseHeader? || step.EraseAfterReplay?)
    ensures |s.disk| == l.blocks && l.start < l.blocks && !l.Home(l.start) && |s.head| < L.WORDS && s'.pinned == s.pinned
    ensures s'.disk == s.disk[l.start := L.HeaderBlock(s.disk[l.start], if step.CommitHeader? then s.head else [])]
  {
  }

  lemma WriteHeadLinked(l: L.Layout, s: State, c: nat, ls: L.Step, s': State, a: L.Spec, m: map<C.Id, C.Data>)
    requires Inv(l, s, a, m) && Next(l, s, WriteHead(c, ls), s')
    ensures Linked(l, s', m)
  {
    HeadFacts(l, s.log, ls, s'.log, a);
    hide L.Inv;
    hide L.Next;
    hide C.Inv;
    hide C.Next;
    hide Linked;
    NotPinned(l, s, m, l.start);
    WriteLinked(l, s, c, l.start, s', a, m);
  }

  lemma CrashLinked(l: L.Layout, s: State, s': State, a: L.Spec, m: map<C.Id, C.Data>)
    requires Inv(l, s, a, m) && Next(l, s, Crash, s')
    ensures Linked(l, s', s.cache.disk)
  {
    forall x: nat
      ensures PinnedAt(s', x) && (x < l.blocks ==> SeenAt(s', s.cache.disk, x) && DiskAt(l, s', x))
    {
      assert x < l.blocks ==> DiskAt(l, s, x);
    }
  }

  /** The two machines refine their specifications together, and what the log assumes of the buffers holds:
      bread returns its View, and exactly its pinned blocks are dirty. */
  lemma StepKeeps(l: L.Layout, s: State, step: Step, s': State, a: L.Spec, m: map<C.Id, C.Data>)
    requires Inv(l, s, a, m) && Next(l, s, step, s') && Fits(l, s, step)
    ensures Inv(l, s', LogSpec(a, s, step), CacheSpec(m, s, step))
  {
    match step
    case Buffer(cs) =>
      CT.StepRefines(s.cache, cs, s'.cache, m);
      BufferLinked(l, s, cs, s', a, m);
    case Call(ls) =>
      LT.StepRefines(l, s.log, ls, s'.log, a);
      CallLinked(l, s, ls, s', a, m);
    case LogWrite(c, t) =>
      CT.StepRefines(s.cache, C.LogWrite(c), s'.cache, m);
      LT.StepRefines(l, s.log, L.AppendWrite(t, Held(s.cache, c)), s'.log, a);
      LogWriteLinked(l, s, c, t, s', a, m);
    case CopyToLog(c, from) =>
      CT.StepRefines(s.cache, C.WriteThrough(c), s'.cache, m);
      LT.StepRefines(l, s.log, L.CopyBlock, s'.log, a);
      CopyToLogLinked(l, s, c, from, s', a, m);
    case CopyHome(c, from, ls) =>
      CT.StepRefines(s.cache, C.WriteThrough(c), s'.cache, m);
      LT.StepRefines(l, s.log, ls, s'.log, a);
      CopyHomeLinked(l, s, c, from, ls, s', a, m);
    case WriteHead(c, ls) =>
      CT.StepRefines(s.cache, C.WriteThrough(c), s'.cache, m);
      LT.StepRefines(l, s.log, ls, s'.log, a);
      WriteHeadLinked(l, s, c, ls, s', a, m);
    case Crash =>
      LT.StepRefines(l, s.log, L.Crash, s'.log, a);
      CT.InitInv(s'.cache);
      CrashLinked(l, s, s', a, m);
  }

  // ----- whole runs -----

  ghost predicate Run(l: L.Layout, states: seq<State>, steps: seq<Step>) {
    && |states| == |steps| + 1
    && forall k | 0 <= k < |steps| :: Next(l, states[k], steps[k], states[k + 1]) && Fits(l, states[k], steps[k])
  }

  /** Power on: an empty log on the disk that both machines have, and a cache after binit. */
  ghost predicate Boot(l: L.Layout, s: State) {
    L.Boot(l, s.log) && C.Init(s.cache) && forall x {:trigger DiskAt(l, s, x)} | 0 <= x < l.blocks :: DiskAt(l, s, x)
  }

  ghost function SpecRun(a: L.Spec, m: map<C.Id, C.Data>, states: seq<State>, steps: seq<Step>): (L.Spec, map<C.Id, C.Data>)
    requires |states| == |steps| + 1
  {
    if |steps| == 0 then (a, m)
    else
      var n := |steps| - 1;
      var r := SpecRun(a, m, states[..|steps|], steps[..n]);
      (LogSpec(r.0, states[n], steps[n]), CacheSpec(r.1, states[n], steps[n]))
  }

  lemma BootInv(l: L.Layout, s: State)
    requires Boot(l, s)
    ensures Inv(l, s, L.Spec(s.log.disk, s.log.disk), s.cache.disk)
  {
    LT.BootInv(l, s.log);
    CT.InitInv(s.cache);
    forall x: nat
      ensures PinnedAt(s, x) && (x < l.blocks ==> SeenAt(s, s.cache.disk, x))
    {
      assert x < l.blocks ==> DiskAt(l, s, x);
    }
  }

  lemma {:induction false} RunKeeps(l: L.Layout, states: seq<State>, steps: seq<Step>, a: L.Spec, m: map<C.Id, C.Data>)
    requires Run(l, states, steps) && Inv(l, states[0], a, m)
    ensures var r := SpecRun(a, m, states, steps); Inv(l, states[|steps|], r.0, r.1)
    decreases |steps|
  {
    hide Inv;
    hide Next;
    hide Fits;
    var n := |steps|;
    if n > 0 {
      RunKeeps(l, states[..n], steps[..n - 1], a, m);
      var r := SpecRun(a, m, states[..n], steps[..n - 1]);
      assert Next(l, states[n - 1], steps[n - 1], states[n]);
      StepKeeps(l, states[n - 1], steps[n - 1], states[n], r.0, r.1);
    }
  }

  /** In every run from power on, with crashes anywhere, who reads block x gets what the log machine says a
      reader sees, and while calls can run this is the current contents of its specification. */
  lemma {:induction false} BreadSeesLog(l: L.Layout, states: seq<State>, steps: seq<Step>, c: nat, x: int)
    requires Run(l, states, steps) && Boot(l, states[0]) && 0 <= x < l.blocks
    requires Uses(states[|steps|].cache, c, x) && !states[|steps|].cache.callers[c].modified
    ensures var s := states[|steps|];
            var a := SpecRun(L.Spec(states[0].log.disk, states[0].log.disk), states[0].cache.disk, states, steps).0;
            && |s.log.disk| == |a.current| == l.blocks && Held(s.cache, c) == L.View(s.log, x)
            && (L.Up(s.log.phase) && l.Home(x) ==> Held(s.cache, c) == a.current[x])
  {
    BootInv(l, states[0]);
    var a0, m0 := L.Spec(states[0].log.disk, states[0].log.disk), states[0].cache.disk;
    RunKeeps(l, states, steps, a0, m0);
    var r := SpecRun(a0, m0, states, steps);
    ReaderSees(l, states[|steps|], c, x, r.0, r.1);
  }

  // ----- a logged block stays where it is until the commit -----

  /** Block x is in the log and the header of its commit is not written. */
  ghost predicate Uncommitted(s: L.State, x: int) {
    x in s.head && (s.phase.Running? || s.phase.CopyLog? || s.phase.CommitPoint? || s.phase.Panicked?)
  }

  ghost predicate Commits(step: Step) {
    step.Crash? || (step.WriteHead? && step.logStep.CommitHeader?)
  }

  /** No step of the log but a commit's header write or a crash moves an uncommitted block. */
  lemma UncommittedStep(l: L.Layout, s: L.State, step: L.Step, s': L.State, a: L.Spec, x: int)
    requires L.Inv(l, s, a) && L.Next(l, s, step, s') && !step.CommitHeader? && !step.Crash? && Uncommitted(s, x)
    ensures l.Home(x) && x < |s.disk| && Uncommitted(s', x) && x < |s'.disk| && s'.disk[x] == s.disk[x]
    ensures !step.InstallBlock? && !step.ReplayBlock? && !step.EraseHeader? && !step.EraseAfterReplay?
  {
  }

  lemma StaysStep(l: L.Layout, s: State, step: Step, s': State, a: L.Spec, m: map<C.Id, C.Data>, b: nat, x: int)
    requires Inv(l, s, a, m) && Next(l, s, step, s') && !Commits(step) && Uncommitted(s.log, x)
    requires 0 <= x < |s.log.disk| && CT.Pinned(s.cache, b, BlockId(x))
    ensures Uncommitted(s'.log, x) && x < |s'.log.disk| && CT.Pinned(s'.cache, b, BlockId(x)) && s'.log.disk[x] == s.log.disk[x]
  {
    hide L.Inv;
    hide L.Next;
    hide C.Inv;
    hide C.Next;
    var r := LogStep(s, step);
    if r != [] {
      UncommittedStep(l, s.log, r[0], s'.log, a, x);
    }
    match step
    case Buffer(cs) => CT.PinnedStep(s.cache, cs, s'.cache, m, b, BlockId(x));
    case Call(_) =>
    case LogWrite(c, _) => CT.PinnedStep(s.cache, C.LogWrite(c), s'.cache, m, b, BlockId(x));
    case CopyToLog(c, _) =>
      UserSees(s.cache, m, c);
      CopyFacts(l, s.log, L.CopyBlock, s'.log, a);
      CT.PinnedStep(s.cache, C.WriteThrough(c), s'.cache, m, b, BlockId(x));
    case _ =>
  }

  /** Block x is still in the log, dirty in buffer b, and its home block is that of s0. */
  ghost predicate Stays(l: L.Layout, s0: State, s: State, b: nat, x: int) {
    && x >= 0 && Uncommitted(s.log, x) && CT.Pinned(s.cache, b, BlockId(x))
    && 0 <= x < |s.log.disk| == |s0.log.disk| == l.blocks && s.log.disk[x] == s0.log.disk[x]
  }

  lemma StaysNext(l: L.Layout, s0: State, s: State, step: Step, s': State, a: L.Spec, m: map<C.Id, C.Data>, b: nat, x: int)
    requires Inv(l, s, a, m) && Next(l, s, step, s') && Fits(l, s, step) && !Commits(step) && Stays(l, s0, s, b, x)
    ensures Stays(l, s0, s', b, x)
  {
    StaysStep(l, s, step, s', a, m, b, x);
    StepKeeps(l, s, step, s', a, m);
  }

  /** In every run a block that is in the log has a dirty buffer; until the header of its commit is written
      that buffer is not recycled and the block is not written home. */
  lemma {:induction false} LoggedBlockStays(l: L.Layout, states: seq<State>, steps: seq<Step>, a: L.Spec, m: map<C.Id, C.Data>, x: int)
    returns (b: nat)
    requires Run(l, states, steps) && Inv(l, states[0], a, m) && Uncommitted(states[0].log, x) && !states[0].log.phase.Panicked?
    requires forall k | 0 <= k < |steps| :: !Commits(steps[k])
    ensures forall k | 0 <= k < |states| :: Stays(l, states[0], states[k], b, x)
    decreases |steps|
  {
    hide Inv;
    hide Next;
    hide Fits;
    hide Commits;
    hide Uncommitted;
    var n := |steps|;
    if n == 0 {
      b := FirstPinned(l, states[0], a, m, x);
    } else {
      b := LoggedBlockStays(l, states[..n], steps[..n - 1], a, m, x);
      assert Stays(l, states[0], states[..n][n - 1], b, x);
      RunKeeps(l, states[..n], steps[..n - 1], a, m);
      var r := SpecRun(a, m, states[..n], steps[..n - 1]);
      assert Next(l, states[n - 1], steps[n - 1], states[n]);
      StaysNext(l, states[0], states[n - 1], steps[n - 1], states[n], r.0, r.1, b, x);
      forall k | 0 <= k < |states|
        ensures Stays(l, states[0], states[k], b, x)
      {
        assert k < n ==> states[..n][k] == states[k];
      }
    }
  }

  lemma FirstPinned(l: L.Layout, s: State, a: L.Spec, m: map<C.Id, C.Data>, x: int) returns (b: nat)
    requires Inv(l, s, a, m) && Uncommitted(s.log, x) && !s.log.phase.Panicked?
    ensures 0 <= x < |s.log.disk| == l.blocks && CT.Pinned(s.cache, b, BlockId(x))
  {
    assert l.Home(x) && s.log.head[0..] == s.log.head;
    assert x in s.log.pinned && PinnedAt(s, x);
    b :| 0 <= b < |s.cache.bufs| && s.cache.bufs[b].id == BlockId(x) && s.cache.bufs[b].dirty;
  }
}
