/** The buffer cache of bio.c as a machine over any number of callers.  One step is one critical
    section under bcache.lock, one acquisition or release of a buffer's sleep lock, or one transfer
    between a locked buffer and the disk.  bget drops bcache.lock before it takes the buffer's
    sleep lock, so other callers may run in between. */
module CacheMachine {

  type Data = seq<int>

  datatype Id = Id(dev: nat, block: nat)

  /** Before its first use every buffer carries this identity. */
  const UNUSED_ID: Id := Id(0, 0)

  datatype Holder = Nobody | Client(c: nat)

  datatype Buf = Buf(id: Id, valid: bool, dirty: bool, refcnt: int, holder: Holder, data: Data)

  datatype Caller =
    | Idle
    | Waiting(b: nat, id: Id)                 // bget left bcache.lock, the sleep lock is not held yet
    | Locked(b: nat, id: Id)                  // bget returned, bread has not looked at B_VALID yet
    | Using(b: nat, id: Id, modified: bool)   // bread returned
    | Leaving(b: nat)                         // brelse gave up the sleep lock, refcnt still counts it

  datatype State = State(bufs: seq<Buf>, disk: map<Id, Data>, callers: seq<Caller>)

  datatype Step =
    | Hit(c: nat, id: Id, b: nat)
    | Recycle(c: nat, id: Id, b: nat)
    | Lock(c: nat)
    | Fill(c: nat)
    | Modify(c: nat, data: Data)
    | LogWrite(c: nat)
    | WriteThrough(c: nat)
    | Unlock(c: nat)
    | Unref(c: nat)

  /** Contents of a block of a device; blocks never written read as the empty value. */
  function At(m: map<Id, Data>, id: Id): Data {
    if id in m then m[id] else []
  }

  // ----- the steps -----

  /** bget's first loop finds the block. */
  ghost predicate HitStep(s: State, c: nat, id: Id, b: nat, s': State) {
    && c < |s.callers| && s.callers[c].Idle?
    && b < |s.bufs| && s.bufs[b].id == id
    && s' == s.(bufs := s.bufs[b := s.bufs[b].(refcnt := s.bufs[b].refcnt + 1)],
                callers := s.callers[c := Waiting(b, id)])
  }

  ghost predicate Cached(bufs: seq<Buf>, id: Id) {
    exists b | 0 <= b < |bufs| :: bufs[b].id == id
  }

  /** bget's second loop takes over a buffer that nobody references and that is not pinned. */
  ghost predicate RecycleStep(s: State, c: nat, id: Id, b: nat, s': State) {
    && c < |s.callers| && s.callers[c].Idle?
    && !Cached(s.bufs, id)
    && b < |s.bufs| && s.bufs[b].refcnt == 0 && !s.bufs[b].dirty
    && s' == s.(bufs := s.bufs[b := s.bufs[b].(id := id, valid := false, dirty := false, refcnt := 1)],
                callers := s.callers[c := Waiting(b, id)])
  }

  ghost predicate LockStep(s: State, c: nat, s': State) {
    && c < |s.callers| && s.callers[c].Waiting? && s.callers[c].b < |s.bufs|
    && var b := s.callers[c].b;
    && s.bufs[b].holder.Nobody?
    && s' == s.(bufs := s.bufs[b := s.bufs[b].(holder := Client(c))],
                callers := s.callers[c := Locked(b, s.callers[c].id)])
  }

  /** The rest of bread: iderw reads the block of the buffer's current identity if needed. */
  ghost predicate FillStep(s: State, c: nat, s': State) {
    && c < |s.callers| && s.callers[c].Locked? && s.callers[c].b < |s.bufs|
    && var b := s.callers[c].b;
    s' == s.(bufs := s.bufs[b := if s.bufs[b].valid then s.bufs[b]
                                 else s.bufs[b].(valid := true, data := At(s.disk, s.bufs[b].id))],
             callers := s.callers[c := Using(b, s.callers[c].id, false)])
  }

  ghost predicate ModifyStep(s: State, c: nat, data: Data, s': State) {
    && c < |s.callers| && s.callers[c].Using? && s.callers[c].b < |s.bufs|
    && var b := s.callers[c].b;
    s' == s.(bufs := s.bufs[b := s.bufs[b].(data := data)],
             callers := s.callers[c := s.callers[c].(modified := true)])
  }

  /** log_write pins the buffer with B_DIRTY. */
  ghost predicate LogWriteStep(s: State, c: nat, s': State) {
    && c < |s.callers| && s.callers[c].Using? && s.callers[c].b < |s.bufs|
    && var b := s.callers[c].b;
    s' == s.(bufs := s.bufs[b := s.bufs[b].(dirty := true)],
             callers := s.callers[c := s.callers[c].(modified := false)])
  }

  /** bwrite: iderw writes the block of the buffer's current identity and clears B_DIRTY. */
  ghost predicate WriteThroughStep(s: State, c: nat, s': State) {
    && c < |s.callers| && s.callers[c].Using? && s.callers[c].b < |s.bufs|
    && var b := s.callers[c].b;
    s' == s.(bufs := s.bufs[b := s.bufs[b].(valid := true, dirty := false)],
             disk := s.disk[s.bufs[b].id := s.bufs[b].data],
             callers := s.callers[c := s.callers[c].(modified := false)])
  }

  /** A caller that changed the data called log_write or bwrite before brelse. */
  ghost predicate UnlockStep(s: State, c: nat, s': State) {
    && c < |s.callers| && s.callers[c].Using? && !s.callers[c].modified && s.callers[c].b < |s.bufs|
    && var b := s.callers[c].b;
    s' == s.(bufs := s.bufs[b := s.bufs[b].(holder := Nobody)],
             callers := s.callers[c := Leaving(b)])
  }

  ghost predicate UnrefStep(s: State, c: nat, s': State) {
    && c < |s.callers| && s.callers[c].Leaving? && s.callers[c].b < |s.bufs|
    && var b := s.callers[c].b;
    s' == s.(bufs := s.bufs[b := s.bufs[b].(refcnt := s.bufs[b].refcnt - 1)],
             callers := s.callers[c := Idle])
  }

  ghost predicate Next(s: State, step: Step, s': State) {
    match step
    case Hit(c, id, b) => HitStep(s, c, id, b, s')
    case Recycle(c, id, b) => RecycleStep(s, c, id, b, s')
    case Lock(c) => LockStep(s, c, s')
    case Fill(c) => FillStep(s, c, s')
    case Modify(c, data) => ModifyStep(s, c, data, s')
    case LogWrite(c) => LogWriteStep(s, c, s')
    case WriteThrough(c) => WriteThroughStep(s, c, s')
    case Unlock(c) => UnlockStep(s, c, s')
    case Unref(c) => UnrefStep(s, c, s')
  }

  ghost predicate Run(states: seq<State>, steps: seq<Step>) {
    && |states| == |steps| + 1
    && forall k | 0 <= k < |steps| :: Next(states[k], steps[k], states[k + 1])
  }

  /** The cache after binit: no buffer holds a block, nobody uses the cache. */
  ghost predicate Init(s: State) {
    && (forall b | 0 <= b < |s.bufs| :: s.bufs[b] == Buf(UNUSED_ID, false, false, 0, Nobody, s.bufs[b].data))
    && (forall c | 0 <= c < |s.callers| :: s.callers[c].Idle?)
  }

  // ----- the specification: a plain map from blocks to contents -----

  function SpecStep(m: map<Id, Data>, s: State, step: Step): map<Id, Data> {
    if step.Modify? && step.c < |s.callers| && s.callers[step.c].Using?
    then m[s.callers[step.c].id := step.data] else m
  }

  ghost function SpecRun(m: map<Id, Data>, states: seq<State>, steps: seq<Step>): map<Id, Data>
    requires |states| == |steps| + 1
  {
    if |steps| == 0 then m
    else SpecStep(SpecRun(m, states[..|steps|], steps[..|steps| - 1]), states[|steps| - 1], steps[|steps| - 1])
  }

  // ----- the invariant -----

  function Refers(k: Caller, b: nat): nat {
    if !k.Idle? && k.b == b then 1 else 0
  }

  function Refs(callers: seq<Caller>, b: nat): nat {
    if callers == [] then 0 else Refs(callers[..|callers| - 1], b) + Refers(callers[|callers| - 1], b)
  }

  predicate HoldsLock(k: Caller) {
    k.Locked? || k.Using?
  }

  /** Callers and buffers agree on who references and who locks what. */
  ghost predicate CallerOk(s: State, c: nat)
    requires c < |s.callers|
  {
    var k := s.callers[c];
    k.Idle? || (
      && k.b < |s.bufs|
      && (!k.Leaving? ==> s.bufs[k.b].id == k.id)
      && (HoldsLock(k) ==> s.bufs[k.b].holder == Client(c))
      && (k.Using? ==> s.bufs[k.b].valid))
  }

  /** The buffer's contents may be ahead of the disk. */
  ghost predicate Ahead(s: State, b: nat)
    requires b < |s.bufs|
  {
    s.bufs[b].dirty || BeingModified(s, b)
  }

  ghost predicate BeingModified(s: State, b: nat)
    requires b < |s.bufs|
  {
    var h := s.bufs[b].holder;
    h.Client? && h.c < |s.callers| && s.callers[h.c].Using? && s.callers[h.c].b == b && s.callers[h.c].modified
  }

  ghost predicate BufOk(s: State, m: map<Id, Data>, b: nat)
    requires b < |s.bufs|
  {
    var buf := s.bufs[b];
    && buf.refcnt == Refs(s.callers, b)
    && (buf.holder.Client? ==>
          buf.holder.c < |s.callers| && HoldsLock(s.callers[buf.holder.c]) && s.callers[buf.holder.c].b == b)
    && (buf.dirty ==> buf.valid)
    && (buf.id != UNUSED_ID && buf.valid ==> buf.data == At(m, buf.id))
    && (buf.id != UNUSED_ID && !Ahead(s, b) ==> At(s.disk, buf.id) == At(m, buf.id))
  }

  /** No two buffers hold the same block. */
  ghost predicate Unique(bufs: seq<Buf>) {
    forall i, j | 0 <= i < |bufs| && 0 <= j < |bufs| && bufs[i].id == bufs[j].id && bufs[i].id != UNUSED_ID :: i == j
  }

  ghost predicate Inv(s: State, m: map<Id, Data>) {
    && Unique(s.bufs)
    && (forall c | 0 <= c < |s.callers| :: CallerOk(s, c))
    && (forall b | 0 <= b < |s.bufs| :: BufOk(s, m, b))
    && (forall id: Id :: id != UNUSED_ID && !Cached(s.bufs, id) ==> At(s.disk, id) == At(m, id))
  }
}
