/** The transmit ring access by access: net_tx writes the metadata and the payload of a slot before it moves its
    pointer (driver/src/board.c), and the card's thread tests for work and reads the metadata and then the
    payload (driver/qemu-device/fejkon.c).  A call of net_tx and a pass of the thread interleave at any of these.
 */
module TxSplit {
  import opened DmaRing
  import opened TxRing

  // ----- State -----

  // How far net_tx is with a frame
  datatype Writing = Nothing | MetaWritten(frame: Frame) | DataWritten(frame: Frame)

  // How far the card is with a slot; `written` is how many frames had their metadata written when it read its own.
  datatype Reading = NotReading | Looked | MetaRead(ctrl: nat, written: nat)

  // How many frames had their metadata and their payload written when the card read those of a frame
  datatype Then = Then(metas: nat, payloads: nat)

  datatype Split = Split(base: TxRing.State, writing: Writing, reading: Reading, thens: seq<Then>)

  function Start(hostStart: nat, dma: nat, mem: Memory): Split
  {
    Split(TxRing.Init(hostStart, dma, mem), Nothing, NotReading, [])
  }

  // Every frame net_tx has begun to write
  function Begun(s: Split): seq<Frame>
  {
    if s.writing.Nothing? then s.base.queued else s.base.queued + [s.writing.frame]
  }

  // How many of their payloads are in memory
  function Payloads(s: Split): nat
  {
    |s.base.queued| + if s.writing.DataWritten? then 1 else 0
  }

  // ----- Steps -----

  datatype Access = WriteMeta(frame: Frame) | WriteData | MovePointer(more: bool) | Look | ReadMeta | ReadData | Pass

  function SlotToWrite(s: TxRing.State): nat
  {
    s.hostDma + HostOffset(s)
  }

  // The pointer goes to the next slot, and to the card unless more frames follow.
  function Queue(s: TxRing.State, f: Frame, more: bool): TxRing.State
  {
    var queued := s.(hostWrite := HostIncr(s.hostStart, s.hostEnd, s.hostWrite), queued := s.queued + [f]);
    if more then queued
    else queued.(buf := s.buf.(write := (s.hostDma + HostOffset(queued)) % ADDRESS_LIMIT), rung := |queued.queued|)
  }

  // The full test comes with the first access; it never fires.
  function Step(s: Split, a: Access): Split
  {
    var b := s.base;
    match a
    case WriteMeta(f) =>
      if s.writing.Nothing? && !LooksFull(b) then
        s.(writing := MetaWritten(f),
           base := b.(mem := b.mem[SlotToWrite(b) := Slot(DriverSlot(f).ctrl, Load(b.mem, SlotToWrite(b)).token)]))
      else s
    case WriteData =>
      if s.writing.MetaWritten? then
        s.(writing := DataWritten(s.writing.frame),
           base := b.(mem := b.mem[SlotToWrite(b) := Slot(Load(b.mem, SlotToWrite(b)).ctrl, s.writing.frame.token)]))
      else s
    case MovePointer(more) =>
      if s.writing.DataWritten? then s.(writing := Nothing, base := Queue(b, s.writing.frame, more)) else s
    case Look =>
      if s.reading.NotReading? && !b.fetching && b.buf.read != b.buf.write then s.(reading := Looked) else s
    case ReadMeta =>
      if s.reading.Looked? then s.(reading := MetaRead(Load(b.mem, b.buf.read).ctrl, |Begun(s)|)) else s
    case ReadData =>
      if s.reading.MetaRead? then
        var frame := Decode(Slot(s.reading.ctrl, Load(b.mem, b.buf.read).token));
        s.(reading := NotReading, thens := s.thens + [Then(s.reading.written, Payloads(s))],
           base := b.(fetching := true, sent := b.sent + [Sent(frame, |b.queued|)]))
      else s
    case Pass =>
      if b.fetching then
        s.(base := b.(fetching := false, buf := b.buf.(read := DmaIncr(b.buf, b.buf.read, FRAME_SIZE))))
      else s
  }

  function Run(s: Split, accesses: seq<Access>): Split
    decreases |accesses|
  {
    if accesses == [] then s else Step(Run(s, accesses[..|accesses| - 1]), accesses[|accesses| - 1])
  }

  // ----- One access after the other is a step of the ring -----

  // A call of net_tx that nothing interrupts
  lemma CallIsXmit(s: Split, f: Frame, more: bool)
    requires s.writing.Nothing? && !LooksFull(s.base)
    ensures Step(Step(Step(s, WriteMeta(f)), WriteData), MovePointer(more)) ==
            s.(base := TxRing.Step(s.base, Xmit(f, more)))
  {
    hide DriverSlot, HostIncr, Load;
    var a := SlotToWrite(s.base);
    var m1 := s.base.mem[a := Slot(DriverSlot(f).ctrl, Load(s.base.mem, a).token)];
    assert DriverSlot(f).token == f.token by { TokenKept(f); }
    assert Load(m1, a).ctrl == DriverSlot(f).ctrl by { LoadStored(s.base.mem, a, m1[a]); }
    assert m1[a := DriverSlot(f)] == s.base.mem[a := DriverSlot(f)];
  }

  lemma TokenKept(f: Frame)
    ensures DriverSlot(f).token == f.token
  {
  }

  lemma LoadStored(mem: Memory, a: nat, slot: Slot)
    ensures Load(mem[a := slot], a) == slot
  {
  }

  // The card's reads that nothing interrupts
  lemma ReadsAreFetch(s: Split)
    requires s.reading.NotReading?
    ensures Step(Step(Step(s, Look), ReadMeta), ReadData).base == TxRing.Step(s.base, Fetch)
    ensures Step(s, Pass).base == TxRing.Step(s.base, Advance)
  {
    hide Decode, DmaIncr;
  }

  // ----- Invariants of every run -----

  // The card is with frame |sent|.
  ghost predicate CardKnows(s: Split)
  {
    match s.reading
    case NotReading => true
    case Looked => |s.base.sent| < s.base.rung && !s.base.fetching
    case MetaRead(ctrl, written) =>
      && |s.base.sent| < s.base.rung && !s.base.fetching
      && |s.base.sent| < written <= |Begun(s)|
      && ctrl == DriverSlot(Begun(s)[Latest(|s.base.sent|, written)]).ctrl
  }

  predicate MetaStored(s: Split, i: nat)
    requires i < |Begun(s)|
  {
    Load(s.base.mem, SlotAddress(s.base.hostDma, i)).ctrl == DriverSlot(Begun(s)[i]).ctrl
  }

  predicate DataStored(s: Split, i: nat)
    requires i < |Begun(s)|
  {
    Load(s.base.mem, SlotAddress(s.base.hostDma, i)).token == Begun(s)[i].token
  }

  // The last 128 metadata words and the last 128 payloads written are in the ring.
  ghost predicate RingHolds(s: Split)
  {
    && (forall i :: 0 <= i < |Begun(s)| && |Begun(s)| - SLOTS <= i ==> MetaStored(s, i))
    && (forall i :: 0 <= i < Payloads(s) && Payloads(s) - SLOTS <= i ==> DataStored(s, i))
  }

  // Frame i went out with the metadata and with the payload its slot held when the card read them.
  ghost predicate SentAt(s: Split, i: nat)
    requires i < |s.base.sent| == |s.thens|
  {
    var t := s.thens[i];
    && i < t.metas <= |Begun(s)| && i < t.payloads <= Payloads(s)
    && s.base.sent[i].frame == Carried(Begun(s)[Latest(i, t.metas)].(token := Begun(s)[Latest(i, t.payloads)].token))
  }

  ghost predicate Held(s: Split)
  {
    && Pointers(s.base) && CardKnows(s) && RingHolds(s)
    && |s.thens| == |s.base.sent|
    && forall i :: 0 <= i < |s.thens| ==> SentAt(s, i)
  }

  lemma SlotIs(s: Split)
    requires Pointers(s.base)
    ensures SlotToWrite(s.base) == SlotAddress(s.base.hostDma, |s.base.queued|)
  {
    SlotOffset(s.base.hostStart, s.base.hostDma, |s.base.queued|);
    hide SlotAddress;
  }

  // What was begun stays begun.
  lemma SentStays(s: Split, t: Split)
    requires Held(s) && Begun(s) <= Begun(t) && Payloads(s) <= Payloads(t)
    requires t.thens == s.thens && t.base.sent == s.base.sent
    ensures forall i :: 0 <= i < |t.thens| ==> SentAt(t, i)
  {
    assert Payloads(s) <= |Begun(s)| && Payloads(t) <= |Begun(t)|;
    hide Pointers, CardKnows, RingHolds, Carried, Begun, Payloads;
    forall i | 0 <= i < |t.thens|
      ensures SentAt(t, i)
    {
      assert SentAt(s, i);
      var n := s.thens[i];
      assert Begun(t)[Latest(i, n.metas)] == Begun(s)[Latest(i, n.metas)];
      assert Begun(t)[Latest(i, n.payloads)] == Begun(s)[Latest(i, n.payloads)];
    }
  }

  lemma ReadStays(s: Split, t: Split)
    requires Held(s) && Begun(s) <= Begun(t)
    requires t.reading == s.reading && t.base.sent == s.base.sent && t.base.fetching == s.base.fetching
    requires s.base.rung <= t.base.rung
    ensures CardKnows(t)
  {
    hide Pointers, RingHolds, DriverSlot, SentAt;
  }

  lemma {:induction false} WriteMetaKeeps(s: Split, f: Frame)
    requires Held(s)
    ensures Held(Step(s, WriteMeta(f)))
  {
    var t := Step(s, WriteMeta(f));
    if t != s {
      var n, dma := |s.base.queued|, s.base.hostDma;
      SlotIs(s);
      SentStays(s, t);
      ReadStays(s, t);
      hide DriverSlot, SlotAddress, CardKnows, SentAt, Carried;
      forall i | 0 <= i < |Begun(t)| && |Begun(t)| - SLOTS <= i
        ensures MetaStored(t, i)
      {
        if i < n {
          SlotsDiffer(dma, i, n);
          assert MetaStored(s, i);
        }
      }
      forall i | 0 <= i < Payloads(t) && Payloads(t) - SLOTS <= i
        ensures DataStored(t, i)
      {
        assert DataStored(s, i);
      }
    }
  }

  lemma {:induction false} WriteDataKeeps(s: Split)
    requires Held(s)
    ensures Held(Step(s, WriteData))
  {
    var t := Step(s, WriteData);
    if t != s {
      var n, dma := |s.base.queued|, s.base.hostDma;
      SlotIs(s);
      SentStays(s, t);
      ReadStays(s, t);
      hide DriverSlot, SlotAddress, CardKnows, SentAt, Carried;
      forall i | 0 <= i < |Begun(t)| && |Begun(t)| - SLOTS <= i
        ensures MetaStored(t, i)
      {
        assert MetaStored(s, i);
      }
      forall i | 0 <= i < Payloads(t) && Payloads(t) - SLOTS <= i
        ensures DataStored(t, i)
      {
        if i < n {
          SlotsDiffer(dma, i, n);
          assert DataStored(s, i);
        }
      }
    }
  }

  // Steps that leave the memory and what was begun alone
  lemma RingStays(s: Split, t: Split)
    requires RingHolds(s) && t.base.mem == s.base.mem && t.base.hostDma == s.base.hostDma
    requires Begun(t) == Begun(s) && Payloads(t) == Payloads(s)
    ensures RingHolds(t)
  {
    hide DriverSlot, SlotAddress, Load;
    assert forall i :: 0 <= i < |Begun(s)| ==> (MetaStored(t, i) <==> MetaStored(s, i));
    assert forall i :: 0 <= i < |Begun(s)| ==> (DataStored(t, i) <==> DataStored(s, i));
  }

  lemma {:induction false} MovePointerKeeps(s: Split, more: bool)
    requires Held(s)
    ensures Held(Step(s, MovePointer(more)))
  {
    var t := Step(s, MovePointer(more));
    if t != s {
      PointersMove(s.base, s.writing.frame, more);
      assert Begun(t) == Begun(s) && Payloads(t) == Payloads(s);
      hide Pointers, Queue;
      RingStays(s, t);
      SentStays(s, t);
      ReadStays(s, t);
      hide CardKnows, RingHolds, SentAt;
    }
  }

  lemma PointersMove(b: TxRing.State, f: Frame, more: bool)
    requires Pointers(b)
    ensures var t := Queue(b, f, more);
            && Pointers(t) && t.queued == b.queued + [f] && t.sent == b.sent && t.fetching == b.fetching
            && t.rung >= b.rung && t.mem == b.mem && t.hostDma == b.hostDma
  {
    hide SlotAddress, HostIncr;
    HostIncrAdvances(b.hostStart, |b.queued|);
    SlotOffset(b.hostStart, b.hostDma, |b.queued| + 1);
  }

  // A slot that frame i uses holds what the latest frame that uses it left there.
  lemma SameSlotAddress(dma: nat, i: nat, n: nat)
    requires i < n
    ensures SlotAddress(dma, i) == SlotAddress(dma, Latest(i, n))
  {
  }

  lemma CardStepKeeps(s: Split, a: Access)
    requires Held(s) && (a.Look? || a.ReadMeta? || a.Pass?)
    ensures Held(Step(s, a))
  {
    var t := Step(s, a);
    hide DriverSlot, Carried, Load;
    RingStays(s, t);
    SentStays(s, t);
    match a
    case Look =>
      hide RingHolds, SentAt, DmaIncr;
    case ReadMeta =>
      if s.reading.Looked? {
        var i, n := |s.base.sent|, |Begun(s)|;
        SameSlotAddress(s.base.hostDma, i, n);
        assert MetaStored(s, Latest(i, n));
      }
      hide RingHolds, SentAt, SlotAddress;
    case Pass =>
      DmaIncrAdvances(s.base.buf, Done(s.base));
      hide RingHolds, SentAt, SlotAddress, DmaIncr;
  }

  lemma DecodesTorn(f: Frame, token: int)
    ensures Decode(Slot(DriverSlot(f).ctrl, token)) == Carried(f.(token := token))
  {
    DriverSlotDecodes(f.(token := token));
  }

  lemma {:induction false} ReadDataKeeps(s: Split)
    requires Held(s)
    ensures Held(Step(s, ReadData))
  {
    var t := Step(s, ReadData);
    if t != s {
      var i, d := |s.base.sent|, Payloads(s);
      var j := Latest(i, s.reading.written);
      SameSlotAddress(s.base.hostDma, i, d);
      assert DataStored(s, Latest(i, d));
      DecodesTorn(Begun(s)[j], Begun(s)[Latest(i, d)].token);
      hide DriverSlot, Decode, Carried, Load;
      RingStays(s, t);
      assert Pointers(t.base);
      hide RingHolds, SlotAddress, Pointers;
      forall k | 0 <= k < |t.thens|
        ensures SentAt(t, k)
      {
        assert k < i ==> SentAt(s, k);
      }
    }
  }

  lemma StepKeeps(s: Split, a: Access)
    requires Held(s)
    ensures Held(Step(s, a))
  {
    hide Held, Step;
    match a
    case WriteMeta(f) => WriteMetaKeeps(s, f);
    case WriteData => WriteDataKeeps(s);
    case MovePointer(more) => MovePointerKeeps(s, more);
    case ReadData => ReadDataKeeps(s);
    case _ => CardStepKeeps(s, a);
  }

  lemma {:induction false} RunKeeps(s: Split, accesses: seq<Access>)
    requires Held(s)
    ensures Held(Run(s, accesses))
    decreases |accesses|
  {
    hide Held, Step;
    if accesses != [] {
      RunKeeps(s, accesses[..|accesses| - 1]);
      StepKeeps(Run(s, accesses[..|accesses| - 1]), accesses[|accesses| - 1]);
    }
  }

  // In every interleaving of the accesses, the i-th frame the card sends has the port and the length of the last
  // frame whose metadata was in its slot when the card read them, and the payload of the last frame whose payload
  // was.  It is the i-th frame queued, whole, if at both times at most 128 frames from the i-th on had
  // been written that far.
  lemma SentPieceByPiece(hostStart: nat, dma: nat, mem: Memory, accesses: seq<Access>, i: nat)
    requires dma + RING_BYTES < ADDRESS_LIMIT
    requires i < |Run(Start(hostStart, dma, mem), accesses).base.sent|
    ensures var s := Run(Start(hostStart, dma, mem), accesses);
            && |s.thens| == |s.base.sent| && i < |s.base.queued|
            && var t, all, frame := s.thens[i], Begun(s), s.base.sent[i].frame;
               && i < t.metas <= |all| && i < t.payloads <= |all|
               && frame == Carried(all[Latest(i, t.metas)].(token := all[Latest(i, t.payloads)].token))
               && (Latest(i, t.metas) == i <==> t.metas - i <= 128)
               && (Latest(i, t.payloads) == i <==> t.payloads - i <= 128)
               && (t.metas - i <= 128 && t.payloads - i <= 128 ==> frame == Carried(s.base.queued[i]))
  {
    var start := Start(hostStart, dma, mem);
    assert Held(start);
    hide Held, Run;
    RunKeeps(start, accesses);
    hide *;
    Means(Run(start, accesses), i);
  }

  lemma Means(s: Split, i: nat)
    requires Held(s) && i < |s.base.sent|
    ensures |s.thens| == |s.base.sent| && i < |s.base.queued|
    ensures var t, all, frame := s.thens[i], Begun(s), s.base.sent[i].frame;
            && i < t.metas <= |all| && i < t.payloads <= |all|
            && frame == Carried(all[Latest(i, t.metas)].(token := all[Latest(i, t.payloads)].token))
            && (Latest(i, t.metas) == i <==> t.metas - i <= SLOTS)
            && (Latest(i, t.payloads) == i <==> t.payloads - i <= SLOTS)
            && (t.metas - i <= SLOTS && t.payloads - i <= SLOTS ==> frame == Carried(s.base.queued[i]))
  {
    assert SentAt(s, i);
    hide CardKnows, RingHolds, Carried, Held;
  }

  // ----- A torn frame -----

  // The accesses of a call of net_tx
  function Call(f: Frame, more: bool): seq<Access>
  {
    [WriteMeta(f), WriteData, MovePointer(more)]
  }

  function Calls(fs: seq<Frame>): seq<Access>
  {
    if fs == [] then [] else Calls(fs[..|fs| - 1]) + Call(fs[|fs| - 1], false)
  }

  lemma {:induction false} RunAdds(s: Split, xs: seq<Access>, ys: seq<Access>)
    ensures Run(s, xs + ys) == Run(Run(s, xs), ys)
    decreases |ys|
  {
    hide Step;
    if ys == [] {
      assert xs + ys == xs;
    } else {
      RunAdds(s, xs, ys[..|ys| - 1]);
      assert (xs + ys)[..|xs + ys| - 1] == xs + ys[..|ys| - 1];
    }
  }

  lemma {:induction false} RunThree(s: Split, a: Access, b: Access, c: Access)
    ensures Run(s, [a, b, c]) == Step(Step(Step(s, a), b), c)
  {
    hide Step;
    assert [a, b, c][..2] == [a, b];
    RunTwo(s, a, b);
  }

  lemma CallQueues(s: Split, f: Frame)
    requires Consistent(s.base) && s.writing.Nothing?
    ensures var t := Run(s, Call(f, false));
            t == s.(base := TxRing.Step(s.base, Xmit(f, false))) && Consistent(t.base)
            && t.base.queued == s.base.queued + [f] && t.base.rung == |t.base.queued| && t.base.sent == s.base.sent
            && t.base.fetching == s.base.fetching && t.base.hostDma == s.base.hostDma
  {
    FullTestNeverFires(s.base);
    RunThree(s, WriteMeta(f), WriteData, MovePointer(false));
    CallIsXmit(s, f, false);
    XmitKeepsConsistent(s.base, f, false);
    hide Consistent, Run, HostIncr, DriverSlot;
  }

  lemma {:induction false} CallsQueue(s: Split, fs: seq<Frame>)
    requires Consistent(s.base) && s.writing.Nothing? && s.reading.NotReading? && s.base.sent == []
    requires s.base.queued == [] && !s.base.fetching && s.base.rung == 0
    ensures var t := Run(s, Calls(fs));
            Consistent(t.base) && t == s.(base := t.base) && t.base.queued == fs && t.base.rung == |fs|
            && t.base.sent == [] && !t.base.fetching && t.base.hostDma == s.base.hostDma
    decreases |fs|
  {
    hide Consistent;
    if fs != [] {
      CallsQueue(s, fs[..|fs| - 1]);
      RunAdds(s, Calls(fs[..|fs| - 1]), Call(fs[|fs| - 1], false));
      CallQueues(Run(s, Calls(fs[..|fs| - 1])), fs[|fs| - 1]);
      assert fs[..|fs| - 1] + [fs[|fs| - 1]] == fs;
    }
  }

  // The card finds work and reads the metadata of the first frame.
  lemma LooksAtFirst(s: Split)
    requires Consistent(s.base) && s.writing.Nothing? && s.reading.NotReading? && s.base.sent == []
    requires !s.base.fetching && |s.base.queued| == s.base.rung == SLOTS - 1
    ensures Step(Step(s, Look), ReadMeta) ==
            s.(reading := MetaRead(DriverSlot(s.base.queued[0]).ctrl, SLOTS - 1))
  {
    hide DriverSlot, SentFromSlots, Load;
    WorkIs(s.base);
    assert Stored(s.base, 0);
    hide SlotAddress, HoldsLatest;
  }

  // Two frames later the slot holds the payload of the second.
  lemma ReadsLast(s: Split, f: Frame)
    requires Consistent(s.base) && s.writing.Nothing? && s.base.sent == [] && !s.base.fetching
    requires s.reading.MetaRead? && s.reading.ctrl == DriverSlot(f).ctrl && |s.base.queued| == SLOTS + 1
    ensures var t, last := Step(s, ReadData), s.base.queued[SLOTS];
            && t.base.queued == s.base.queued && |t.base.sent| == 1
            && t.base.sent[0].frame == Carried(f.(token := last.token))
  {
    assert Stored(s.base, SLOTS);
    assert SlotAddress(s.base.hostDma, 0) == SlotAddress(s.base.hostDma, SLOTS);
    DecodesTorn(f, s.base.queued[SLOTS].token);
    TokenKept(s.base.queued[SLOTS]);
    hide DriverSlot, Decode, Carried, Load, SentFromSlots, HoldsLatest, SlotAddress;
  }

  // The card reads the metadata of the first of 127 frames; two more are queued; then it reads the payload.  It
  // sends the port and the length of the first frame with the payload of the last.
  lemma {:induction false} TornFrame(hostStart: nat, dma: nat, mem: Memory, fs: seq<Frame>, g: Frame, h: Frame)
    requires dma + RING_BYTES < ADDRESS_LIMIT && |fs| == SLOTS - 1
    ensures var accesses := Calls(fs) + [Look, ReadMeta] + Call(g, false) + Call(h, false) + [ReadData];
            var s := Run(Start(hostStart, dma, mem), accesses);
            && s.base.queued == fs + [g, h] && |s.base.sent| == 1
            && s.base.sent[0].frame == Carried(fs[0].(token := h.token))
  {
    var start := Start(hostStart, dma, mem);
    assert Consistent(start.base) && start.writing.Nothing?;
    hide Step, Consistent, Call, Calls, Carried, DriverSlot;
    var s1 := Run(start, Calls(fs));
    CallsQueue(start, fs);
    LooksAtFirst(s1);
    var s2 := Step(Step(s1, Look), ReadMeta);
    var s3 := Run(s2, Call(g, false));
    CallQueues(s2, g);
    var s4 := Run(s3, Call(h, false));
    CallQueues(s3, h);
    assert fs + [g] + [h] == fs + [g, h];
    ReadsLast(s4, fs[0]);
    hide Run;
    RunAdds(start, Calls(fs), [Look, ReadMeta]);
    RunTwo(s1, Look, ReadMeta);
    RunAdds(start, Calls(fs) + [Look, ReadMeta], Call(g, false));
    RunAdds(start, Calls(fs) + [Look, ReadMeta] + Call(g, false), Call(h, false));
    RunAdds(start, Calls(fs) + [Look, ReadMeta] + Call(g, false) + Call(h, false), [ReadData]);
    RunOne(s4, ReadData);
  }

  lemma {:induction false} RunOne(s: Split, a: Access)
    ensures Run(s, [a]) == Step(s, a)
  {
    hide Step;
    assert [a][..0] == [] && Run(s, []) == s;
  }

  lemma {:induction false} RunTwo(s: Split, a: Access, b: Access)
    ensures Run(s, [a, b]) == Step(Step(s, a), b)
  {
    hide Step;
    assert [a, b][..1] == [a];
    RunOne(s, a);
  }
}
