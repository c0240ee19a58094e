/** The pipe of pipe.c: a ring of bytes with counters that wrap. */
module Pipe {
  const PIPESIZE: nat := 512
  const UINT: nat := 0x1_0000_0000

  type Byte = x: int | 0 <= x < 256
  type Data = s: seq<Byte> | |s| == PIPESIZE witness seq(PIPESIZE, i => 0)

  datatype Ring = Ring(data: Data, nread: nat, nwrite: nat)

  /** nwrite - nread in uint */
  function Used(r: Ring): nat
    requires r.nread < UINT && r.nwrite < UINT
  {
    if r.nwrite >= r.nread then r.nwrite - r.nread else r.nwrite + UINT - r.nread
  }

  ghost predicate RingOk(r: Ring) {
    r.nread < UINT && r.nwrite < UINT && Used(r) <= PIPESIZE
  }

  /** Where byte number k of the pipe lies in data; the counters wrap at a multiple of PIPESIZE. */
  function Slot(k: nat): nat {
    k % 512
  }

  /** The bytes that are written and not yet read. */
  function Buffered(r: Ring): (b: seq<Byte>)
    requires RingOk(r)
  {
    seq(Used(r), k requires 0 <= k => r.data[Slot(r.nread + k)])
  }

  /** p->data[p->nwrite++ % PIPESIZE] = b */
  function Written(r: Ring, b: Byte): Ring {
    Ring(r.data[Slot(r.nwrite) := b], r.nread, (r.nwrite + 1) % UINT)
  }

  /** p->nread++ */
  function Advanced(r: Ring): Ring {
    r.(nread := (r.nread + 1) % UINT)
  }

  /** The tests of pipewrite and piperead, in uint. */
  predicate Full(r: Ring) {
    r.nwrite == (r.nread + PIPESIZE) % UINT
  }

  predicate Empty(r: Ring) {
    r.nread == r.nwrite
  }

  /** Full and Empty mean what they say, also after the counters have wrapped. */
  lemma TestsAreExact(r: Ring)
    requires RingOk(r)
    ensures (Full(r) <==> |Buffered(r)| == PIPESIZE) && (Empty(r) <==> Buffered(r) == [])
  {
  }

  lemma SlotsApart(nread: nat, k: nat, used: nat)
    requires k < used < PIPESIZE
    ensures Slot(nread + k) != Slot(nread + used)
  {
  }

  /** Slots count on across the wrap. */
  lemma SlotAcross(nread: nat, nwrite: nat, used: nat)
    requires nread + used == nwrite || nread + used == nwrite + UINT
    ensures Slot(nread + used) == Slot(nwrite)
  {
  }

  lemma WriteAppends(r: Ring, b: Byte)
    requires RingOk(r) && !Full(r)
    ensures RingOk(Written(r, b)) && Buffered(Written(r, b)) == Buffered(r) + [b]
  {
    var r', n := Written(r, b), Used(r);
    TestsAreExact(r);
    assert Used(r') == n + 1;
    SlotAcross(r.nread, r.nwrite, n);
    forall k | 0 <= k < n + 1
      ensures Buffered(r')[k] == (Buffered(r) + [b])[k]
    {
      if k < n {
        SlotsApart(r.nread, k, n);
      }
    }
  }

  lemma ReadDrops(r: Ring)
    requires RingOk(r) && !Empty(r)
    ensures RingOk(Advanced(r)) && Buffered(r) == [r.data[Slot(r.nread)]] + Buffered(Advanced(r))
  {
    var r' := Advanced(r);
    assert Used(r') == Used(r) - 1;
    forall k | 0 <= k < Used(r')
      ensures Buffered(r')[k] == Buffered(r)[k + 1]
    {
      SlotFollows(r.nread, k);
    }
  }

  lemma SlotFollows(nread: nat, k: nat)
    requires nread < UINT
    ensures Slot((nread + 1) % UINT + k) == Slot(nread + (k + 1))
  {
  }

  // ----- any interleaving of calls -----

  /** A call of pipewrite that has written its first i bytes. */
  datatype Writer = Writer(addr: seq<Byte>, i: nat)

  /** history: the bytes in the order in which they were written, each with the number of its call.
      output: the bytes in the order in which they were read. */
  datatype State = State(ring: Ring, writers: seq<Writer>, history: seq<(nat, Byte)>, output: seq<Byte>)

  /** One byte at a time, so that a call may sleep and others may run between any two bytes. */
  datatype Step = Call(addr: seq<Byte>) | WriteByte(w: nat) | ReadByte

  ghost predicate Next(s: State, s': State, step: Step) {
    match step
    case Call(addr) => s' == s.(writers := s.writers + [Writer(addr, 0)])
    case WriteByte(w) =>
      && w < |s.writers| && s.writers[w].i < |s.writers[w].addr| && !Full(s.ring)
      && var b := s.writers[w].addr[s.writers[w].i];
         s' == State(Written(s.ring, b), s.writers[w := s.writers[w].(i := s.writers[w].i + 1)], s.history + [(w, b)], s.output)
    case ReadByte => !Empty(s.ring) && s' == s.(ring := Advanced(s.ring), output := s.output + [s.ring.data[Slot(s.ring.nread)]])
  }

  ghost predicate Start(s: State) {
    RingOk(s.ring) && Empty(s.ring) && s.writers == [] && s.history == [] && s.output == []
  }

  ghost predicate Run(states: seq<State>, steps: seq<Step>) {
    && |states| == |steps| + 1 && Start(states[0])
    && forall i | 0 <= i < |steps| :: Next(states[i], states[i + 1], steps[i])
  }

  function Bytes(h: seq<(nat, Byte)>): seq<Byte> {
    seq(|h|, i requires 0 <= i < |h| => h[i].1)
  }

  /** The bytes of call w, in the order of the history. */
  function Of(h: seq<(nat, Byte)>, w: nat): seq<Byte> {
    if h == [] then [] else Of(h[..|h| - 1], w) + if h[|h| - 1].0 == w then [h[|h| - 1].1] else []
  }

  ghost predicate WriterOk(s: State, w: nat)
    requires w < |s.writers|
  {
    s.writers[w].i <= |s.writers[w].addr| && Of(s.history, w) == s.writers[w].addr[..s.writers[w].i]
  }

  ghost predicate Inv(s: State) {
    && RingOk(s.ring) && Bytes(s.history) == s.output + Buffered(s.ring)
    && (forall w {:trigger WriterOk(s, w)} | 0 <= w < |s.writers| :: WriterOk(s, w))
    && (forall i | 0 <= i < |s.history| :: s.history[i].0 < |s.writers|)
  }

  lemma {:induction false} OfNone(h: seq<(nat, Byte)>, w: nat)
    requires forall i | 0 <= i < |h| :: h[i].0 < w
    ensures Of(h, w) == []
  {
    if h != [] {
      OfNone(h[..|h| - 1], w);
    }
  }

  lemma {:induction false} OfMore(h: seq<(nat, Byte)>, w: nat, b: Byte, x: nat)
    ensures Of(h + [(w, b)], x) == if x == w then Of(h, x) + [b] else Of(h, x)
    ensures Bytes(h + [(w, b)]) == Bytes(h) + [b]
  {
  }

  lemma CallKeeps(s: State, s': State, addr: seq<Byte>)
    requires Inv(s) && Next(s, s', Call(addr))
    ensures Inv(s')
  {
    OfNone(s.history, |s.writers|);
    forall w | 0 <= w < |s'.writers|
      ensures WriterOk(s', w)
    {
      assert w < |s.writers| ==> WriterOk(s, w);
    }
  }

  lemma WriteKeeps(s: State, s': State, w: nat)
    requires Inv(s) && Next(s, s', WriteByte(w))
    ensures Inv(s')
  {
    var b := s.writers[w].addr[s.writers[w].i];
    WriteAppends(s.ring, b);
    hide Buffered;
    assert s.output + (Buffered(s.ring) + [b]) == (s.output + Buffered(s.ring)) + [b];
    forall x | 0 <= x < |s'.writers|
      ensures WriterOk(s', x) && Bytes(s'.history) == Bytes(s.history) + [b]
    {
      OfMore(s.history, w, b, x);
      assert WriterOk(s, x);
    }
    assert WriterOk(s', w);
  }

  lemma ReadKeeps(s: State, s': State)
    requires Inv(s) && Next(s, s', ReadByte)
    ensures Inv(s')
  {
    ReadDrops(s.ring);
    hide Buffered;
    var b := s.ring.data[Slot(s.ring.nread)];
    assert s.output + ([b] + Buffered(s'.ring)) == (s.output + [b]) + Buffered(s'.ring);
    forall w | 0 <= w < |s'.writers|
      ensures WriterOk(s', w)
    {
      assert WriterOk(s, w);
    }
  }

  lemma StepKeeps(s: State, s': State, step: Step)
    requires Inv(s) && Next(s, s', step)
    ensures Inv(s')
  {
    match step
    case Call(addr) => CallKeeps(s, s', addr);
    case WriteByte(w) => WriteKeeps(s, s', w);
    case ReadByte => ReadKeeps(s, s');
  }

  lemma {:induction false} RunInv(states: seq<State>, steps: seq<Step>, i: nat)
    requires Run(states, steps) && i < |states|
    ensures Inv(states[i])
  {
    if i > 0 {
      RunInv(states, steps, i - 1);
      StepKeeps(states[i - 1], states[i], steps[i - 1]);
    }
  }

  /** In every interleaving the bytes read and then the bytes buffered are the bytes written, at most
      PIPESIZE are buffered, and the bytes of one call are in the order of its buffer. */
  lemma {:induction false} PipeOrder(states: seq<State>, steps: seq<Step>, i: nat, w: nat)
    requires Run(states, steps) && i < |states|
    ensures var s := states[i];
            && RingOk(s.ring) && Bytes(s.history) == s.output + Buffered(s.ring) && |Buffered(s.ring)| <= PIPESIZE
            && (w < |s.writers| ==> s.writers[w].i <= |s.writers[w].addr| && Of(s.history, w) == s.writers[w].addr[..s.writers[w].i])
  {
    RunInv(states, steps, i);
    assert w < |states[i].writers| ==> WriterOk(states[i], w);
  }

  // ----- the code -----

  /** How a stretch of pipewrite or piperead under p->lock ends: the call returns, or sleeps. */
  datatype Outcome = Return(value: int) | Sleep

  class PipeObject {
    const data: array<Byte>
    var nread: nat
    var nwrite: nat
    var readopen: bool
    var writeopen: bool
    /** The processes that sleep on &p->nread and on &p->nwrite. */
    var readers: set<nat>
    var writers: set<nat>
    /** Everything written and everything read so far. */
    ghost var input: seq<Byte>
    ghost var output: seq<Byte>

    ghost function View(): Ring
      requires data.Length == PIPESIZE
      reads this, data
    {
      Ring(data[..], nread, nwrite)
    }

    /** The bytes read and then the bytes buffered are the bytes written, in order. */
    ghost predicate Contents()
      reads this, data
      ensures Contents() ==> data.Length == PIPESIZE
    {
      data.Length == PIPESIZE && RingOk(View()) && input == output + Buffered(View())
    }

    /** A writer sleeps only while the pipe is full and can still be read. */
    ghost predicate Valid()
      reads this, data
      ensures Valid() ==> data.Length == PIPESIZE
    {
      Contents() && (writers != {} ==> Full(View()) && readopen)
    }

    /** A reader sleeps only while the pipe is empty and can still be written. */
    ghost predicate ReadersOk()
      reads this
    {
      readers != {} ==> nread == nwrite && writeopen
    }

    /** pipealloc */
    constructor ()
      ensures Valid() && ReadersOk() && input == output == [] && readopen && writeopen && readers == writers == {} && fresh(data)
    {
      data := new Byte[PIPESIZE](i => 0);
      nread, nwrite, readopen, writeopen := 0, 0, true, true;
      readers, writers := {}, {};
      input, output := [], [];
    }

    /** pipeclose; freed says that the pipe is given back. */
    method Pipeclose(writable: bool) returns (freed: bool)
      requires Valid() && ReadersOk()
      modifies this`readopen, this`writeopen, this`readers, this`writers
      ensures Valid() && ReadersOk()
      ensures readopen == (old(readopen) && writable) && writeopen == (old(writeopen) && !writable)
      ensures readers == (if writable then {} else old(readers)) && writers == if writable then old(writers) else {}
      ensures freed <==> !readopen && !writeopen
      ensures freed ==> readers == {} && writers == {}
    {
      if writable {
        writeopen := false;
        readers := {};
      } else {
        readopen := false;
        writers := {};
      }
      freed := !readopen && !writeopen;
    }

    /** pipewrite of addr from byte i on, until it returns or sleeps; killed is what myproc()->killed says. */
    method Pipewrite(me: nat, addr: seq<Byte>, i: nat, killed: bool) returns (r: Outcome, i': nat)
      requires Valid() && i <= |addr|
      modifies data, this`nwrite, this`input, this`readers, this`writers
      ensures Valid() && i <= i' <= |addr| && input == old(input) + addr[i..i']
      ensures r == Sleep ==> i' < |addr| && Full(View()) && readopen && !killed
      ensures r.Return? ==> if i' == |addr| then r.value == |addr| else r.value == -1 && Full(View()) && (!readopen || killed)
      ensures writers == if r == Sleep then old(writers) + {me} else old(writers)
      ensures readers == if r == Return(-1) then old(readers) else {}
      ensures old(ReadersOk()) ==> (ReadersOk() <==> !(old(readers) != {} && (!readopen || killed) && |addr| - i > PIPESIZE))
    {
      TestsAreExact(View());
      hide Buffered;
      i' := i;
      while i' < |addr|
        invariant Contents() && i <= i' <= |addr| && input == old(input) + addr[i..i'] && readers == old(readers) && writers == old(writers)
        invariant nread == old(nread) && (old(Full(View())) ==> i' == i && View() == old(View()))
      {
        if nwrite == (nread + PIPESIZE) % UINT {
          TestsAreExact(View());
          if !readopen || killed {
            return Return(-1), i';
          }
          readers := {};
          writers := writers + {me};
          return Sleep, i';
        }
        PutByte(addr[i']);
        i' := i' + 1;
      }
      readers := {};
      r := Return(|addr|);
    }

    /** p->data[p->nwrite++ % PIPESIZE] = b */
    method PutByte(b: Byte)
      requires Contents() && !Full(View())
      modifies data, this`nwrite, this`input
      ensures Contents() && View() == Written(old(View()), b) && input == old(input) + [b]
    {
      ghost var r := View();
      WriteAppends(r, b);
      hide Buffered;
      data[Slot(nwrite)] := b;
      nwrite := (nwrite + 1) % UINT;
      assert View() == Written(r, b);
      input := input + [b];
    }

    /** piperead of n bytes, until it returns or sleeps. */
    method Piperead(me: nat, n: int, killed: bool) returns (r: Outcome, got: seq<Byte>)
      requires Valid()
      modifies this`nread, this`output, this`readers, this`writers
      ensures Valid() && output == old(output) + got
      ensures r == Sleep <==> old(Empty(View())) && writeopen && !killed
      ensures r == Return(-1) <==> old(Empty(View())) && writeopen && killed
      ensures r == Sleep || r == Return(-1) ==> got == []
      ensures r.Return? && r.value != -1 ==> r.value == |got| && (|got| == n || n < 0 || Empty(View()))
      ensures |got| <= if n < 0 then 0 else n
      ensures readers == if r == Sleep then old(readers) + {me} else old(readers)
      ensures writers == if r == Sleep || r == Return(-1) then old(writers) else {}
      ensures old(ReadersOk()) ==> ReadersOk()
    {
      hide Buffered;
      got := [];
      if nread == nwrite && writeopen {
        if killed {
          return Return(-1), [];
        }
        readers := readers + {me};
        return Sleep, [];
      }
      var i := 0;
      while i < n
        invariant Contents() && i == |got| && readers == old(readers) && writers == old(writers)
        invariant (i <= n || (n < 0 && i == 0)) && output == old(output) + got
      {
        if nread == nwrite {
          break;
        }
        ReadDrops(View());
        got := got + [data[Slot(nread)]];
        output := output + [data[Slot(nread)]];
        nread := (nread + 1) % UINT;
        i := i + 1;
      }
      writers := {};
      r := Return(i);
    }
  }

  /** Process 0 sleeps on an empty pipe; process 1, which has been killed, writes more than the pipe holds, and
      returns without a wakeup.  The reader still sleeps, and the pipe is full. */
  method ReaderNotWoken() returns (p: PipeObject)
    ensures p.Valid() && !p.ReadersOk() && p.readers == {0} && p.writeopen && |Buffered(p.View())| == PIPESIZE
  {
    p := new PipeObject();
    var r, got := p.Piperead(0, 1, false);
    var i;
    r, i := p.Pipewrite(1, seq(PIPESIZE + 1, _ => 0), 0, true);
    TestsAreExact(p.View());
  }
}
