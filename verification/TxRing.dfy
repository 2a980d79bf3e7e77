/** The transmit ring between the driver's net_tx and the card's transmit thread
    (driver/src/board.c and driver/qemu-device/fejkon.c).
 */
module TxRing {
  import opened DmaRing

  // ----- State -----

  // A frame the card passed on, and how many frames the driver had queued when the card read it.
  datatype Sent = Sent(frame: Frame, queuedThen: nat)

  datatype State = State(
    // the card
    buf: DmaBuf, fetching: bool,
    // shared memory
    mem: Memory,
    // the driver
    hostStart: nat, hostDma: nat, hostWrite: nat, hostEnd: nat, cached: int, dropped: nat,
    // history: frames queued, how many of them were announced, frames sent
    queued: seq<Frame>, rung: nat, sent: seq<Sent>)

  // After setup_buffers
  function Init(hostStart: nat, dma: nat, mem: Memory): State
  {
    State(DmaBuf(dma, dma + RING_BYTES, dma, dma), false, mem,
          hostStart, dma, hostStart, hostStart + RING_BYTES, hostStart, 0,
          [], 0, [])
  }

  // ----- Steps -----

  // Xmit is one call of net_tx; the card's thread reads a slot and then moves its pointer.
  datatype Event = Xmit(frame: Frame, more: bool) | Fetch | Advance

  // What the card answers at the register the driver takes for the read pointer
  const UNKNOWN_REGISTER: int := 0

  predicate LooksFull(s: State)
  {
    s.hostWrite + FRAME_SIZE == s.cached
  }

  function HostOffset(s: State): nat
  {
    if s.hostWrite >= s.hostStart then s.hostWrite - s.hostStart else 0
  }

  function DoXmit(s: State, f: Frame, more: bool): State
  {
    var readPointer := s.hostStart + (UNKNOWN_REGISTER - s.hostDma);
    if LooksFull(s) && readPointer == s.cached then s.(dropped := s.dropped + 1)
    else
      var queued := s.(
        cached := if LooksFull(s) then readPointer else s.cached,
        mem := s.mem[s.hostDma + HostOffset(s) := DriverSlot(f)],
        hostWrite := HostIncr(s.hostStart, s.hostEnd, s.hostWrite),
        queued := s.queued + [f]);
      if more then queued
      else queued.(buf := s.buf.(write := (s.hostDma + HostOffset(queued)) % ADDRESS_LIMIT),
                   rung := |queued.queued|)
  }

  function Step(s: State, e: Event): State
  {
    match e
    case Xmit(f, more) => DoXmit(s, f, more)
    case Fetch =>
      if !s.fetching && s.buf.read != s.buf.write then
        s.(fetching := true, sent := s.sent + [Sent(Decode(Load(s.mem, s.buf.read)), |s.queued|)])
      else s
    case Advance =>
      if s.fetching then
        s.(fetching := false, buf := s.buf.(read := DmaIncr(s.buf, s.buf.read, FRAME_SIZE)))
      else s
  }

  function Run(s: State, es: seq<Event>): State
    decreases |es|
  {
    if es == [] then s else Step(Run(s, es[..|es| - 1]), es[|es| - 1])
  }

  // ----- Invariants of every run -----

  // The frame as its metadata carries it
  function Carried(f: Frame): Frame
  {
    Frame(f.port % 4, f.length / 4 % 1024 * 4, f.token)
  }

  // Frames the card is done with
  function Done(s: State): nat
  {
    if s.fetching && |s.sent| > 0 then |s.sent| - 1 else |s.sent|
  }

  ghost predicate Pointers(s: State)
  {
    && s.buf.start == s.hostDma && s.buf.end == s.hostDma + RING_BYTES < ADDRESS_LIMIT
    && s.hostEnd == s.hostStart + RING_BYTES
    && (s.fetching ==> |s.sent| > 0)
    && |s.sent| <= s.rung <= |s.queued|
    && s.hostWrite == SlotAddress(s.hostStart, |s.queued|)
    && s.buf.write == SlotAddress(s.hostDma, s.rung)
    && s.buf.read == SlotAddress(s.hostDma, Done(s))
    && s.cached == s.hostStart
    && s.dropped == 0
  }

  predicate Stored(s: State, i: nat)
    requires i < |s.queued|
  {
    Load(s.mem, SlotAddress(s.hostDma, i)) == DriverSlot(s.queued[i])
  }

  // The ring holds the last 128 frames queued, read by the card or not.
  ghost predicate HoldsLatest(s: State)
  {
    forall i :: 0 <= i < |s.queued| && |s.queued| - SLOTS <= i ==> Stored(s, i)
  }

  // Of n frames queued, the last that went to the slot of frame i
  function Latest(i: nat, n: nat): (j: nat)
    requires i < n
    ensures i <= j < n && n - SLOTS <= j && j % SLOTS == i % SLOTS
    ensures j == i <==> n - i <= SLOTS
    decreases n - i
  {
    if n - i <= SLOTS then i else Latest(i + SLOTS, n)
  }

  // The card sent what the slot held when it read it.
  ghost predicate SentFromSlots(s: State)
  {
    forall i :: 0 <= i < |s.sent| ==>
      i < s.sent[i].queuedThen <= |s.queued| &&
      s.sent[i].frame == Carried(s.queued[Latest(i, s.sent[i].queuedThen)])
  }

  ghost predicate Consistent(s: State)
  {
    Pointers(s) && HoldsLatest(s) && SentFromSlots(s)
  }

  // The driver's full test compares an address above the start of the ring with the start.
  lemma FullTestNeverFires(s: State)
    requires Pointers(s)
    ensures !LooksFull(s)
  {
  }

  lemma {:induction false} XmitKeepsConsistent(s: State, f: Frame, more: bool)
    requires Consistent(s)
    ensures Consistent(DoXmit(s, f, more))
    ensures DoXmit(s, f, more).queued == s.queued + [f]
  {
    hide DriverSlot, SlotAddress, HostIncr;
    var n := |s.queued|;
    var s' := DoXmit(s, f, more);
    SlotOffset(s.hostStart, s.hostDma, n);
    SlotOffset(s.hostStart, s.hostDma, n + 1);
    FullTestNeverFires(s);
    HostIncrAdvances(s.hostStart, n);
    forall i | 0 <= i < n + 1 && n + 1 - SLOTS <= i
      ensures Stored(s', i)
    {
      if i < n {
        SlotsDiffer(s.hostDma, i, n);
        assert Stored(s, i);
      }
    }
  }

  lemma {:induction false} FetchKeepsConsistent(s: State)
    requires Consistent(s)
    ensures Consistent(Step(s, Fetch))
  {
    hide DriverSlot, Decode;
    var s' := Step(s, Fetch);
    if s'.fetching && !s.fetching {
      var i, n := |s.sent|, |s.queued|;
      var j := Latest(i, n);
      assert Stored(s, j);
      DriverSlotDecodes(s.queued[j]);
      assert SlotAddress(s.hostDma, i) == SlotAddress(s.hostDma, j);
    }
    assert forall i :: 0 <= i < |s.queued| ==> (Stored(s', i) <==> Stored(s, i));
  }

  lemma StepKeepsConsistent(s: State, e: Event)
    requires Consistent(s)
    ensures Consistent(Step(s, e))
  {
    hide DriverSlot, Decode, SlotAddress, DmaIncr, HostIncr;
    match e
    case Xmit(f, more) => XmitKeepsConsistent(s, f, more);
    case Fetch => FetchKeepsConsistent(s);
    case Advance =>
      DmaIncrAdvances(s.buf, Done(s));
      assert forall i :: 0 <= i < |s.queued| ==> (Stored(Step(s, e), i) <==> Stored(s, i));
  }

  lemma {:induction false} RunKeepsConsistent(s: State, es: seq<Event>)
    requires Consistent(s)
    ensures Consistent(Run(s, es))
    decreases |es|
  {
    hide Consistent, Step;
    if es != [] {
      RunKeepsConsistent(s, es[..|es| - 1]);
      StepKeepsConsistent(Run(s, es[..|es| - 1]), es[|es| - 1]);
    }
  }

  lemma InitIsConsistent(hostStart: nat, dma: nat, mem: Memory)
    requires dma + RING_BYTES < ADDRESS_LIMIT
    ensures Consistent(Init(hostStart, dma, mem))
  {
  }

  // ----- What the card sends -----

  // In every run, however the announcements are batched, the i-th frame the card sends is the
  // i-th the driver queued, with its port and its length in words, if and only if at most 128
  // frames from the i-th on had been queued when the card read the slot; otherwise it is the
  // frame that overwrote it.
  lemma SentInOrder(hostStart: nat, dma: nat, mem: Memory, es: seq<Event>, i: nat)
    requires dma + RING_BYTES < ADDRESS_LIMIT
    requires i < |Run(Init(hostStart, dma, mem), es).sent|
    ensures var s := Run(Init(hostStart, dma, mem), es);
            var n := s.sent[i].queuedThen;
            && i < n <= |s.queued|
            && s.sent[i].frame == Carried(s.queued[Latest(i, n)])
            && (n - i <= 128 ==> s.sent[i].frame == Carried(s.queued[i]))
            && (n - i > 128 ==> Latest(i, n) >= i + 128)
  {
    RunKeepsConsistent(Init(hostStart, dma, mem), es);
    hide Run;
    var n := Run(Init(hostStart, dma, mem), es).sent[i].queuedThen;
    if n - i > SLOTS {
      SameRemainder(i, Latest(i, n));
    }
  }

  lemma SameRemainder(i: nat, j: nat)
    requires i < j && i % SLOTS == j % SLOTS
    ensures j >= i + SLOTS
  {
  }

  // The card finds work exactly when the announced frames it has not read are no multiple of a
  // full ring; the full test of the driver never fires, so nothing keeps them below that.
  lemma CardSeesWork(hostStart: nat, dma: nat, mem: Memory, es: seq<Event>)
    requires dma + RING_BYTES < ADDRESS_LIMIT
    ensures var s := Run(Init(hostStart, dma, mem), es);
            && !LooksFull(s) && s.dropped == 0
            && Done(s) <= s.rung
            && (s.buf.read != s.buf.write <==> (s.rung - Done(s)) % 128 != 0)
  {
    hide *;
    InitIsConsistent(hostStart, dma, mem);
    RunKeepsConsistent(Init(hostStart, dma, mem), es);
    WorkIs(Run(Init(hostStart, dma, mem), es));
  }

  lemma WorkIs(s: State)
    requires Consistent(s)
    ensures !LooksFull(s) && s.dropped == 0 && Done(s) <= s.rung
    ensures s.buf.read != s.buf.write <==> (s.rung - Done(s)) % 128 != 0
  {
    FullTestNeverFires(s);
    SameSlot(s.hostDma, Done(s), s.rung);
    hide LooksFull, SlotAddress, HoldsLatest, SentFromSlots;
  }

  lemma SameSlot(start: nat, i: nat, j: nat)
    requires i <= j
    ensures SlotAddress(start, i) == SlotAddress(start, j) <==> (j - i) % SLOTS == 0
  {
  }

  function Batch(fs: seq<Frame>): seq<Event>
  {
    if fs == [] then [] else Batch(fs[..|fs| - 1]) + [Xmit(fs[|fs| - 1], false)]
  }

  lemma {:induction false} BatchQueues(s: State, fs: seq<Frame>)
    requires Consistent(s) && s.sent == [] && s.rung == |s.queued|
    ensures var s' := Run(s, Batch(fs));
            Consistent(s') && s'.queued == s.queued + fs && s'.rung == |s'.queued| && s'.sent == []
    decreases |fs|
  {
    hide Consistent, LooksFull;
    if fs != [] {
      var front, last := Batch(fs[..|fs| - 1]), Xmit(fs[|fs| - 1], false);
      BatchQueues(s, fs[..|fs| - 1]);
      assert (front + [last])[..|front|] == front;
      XmitKeepsConsistent(Run(s, front), last.frame, false);
      assert fs[..|fs| - 1] + [fs[|fs| - 1]] == fs;
    }
  }

  // A full ring of announced frames looks empty: the card reads none of them.
  lemma FullRingLooksEmpty(hostStart: nat, dma: nat, mem: Memory, fs: seq<Frame>)
    requires dma + RING_BYTES < ADDRESS_LIMIT && |fs| == 128
    ensures var s := Run(Init(hostStart, dma, mem), Batch(fs));
            s.queued == fs && s.rung == 128 && Step(s, Fetch) == s && s.sent == []
  {
    BatchQueues(Init(hostStart, dma, mem), fs);
    hide Run;
    var s := Run(Init(hostStart, dma, mem), Batch(fs));
    SameSlot(s.hostDma, 0, SLOTS);
  }

  // One frame more than a full ring: the first frame the card sends is the last one queued.
  lemma OverfullRingSendsLast(hostStart: nat, dma: nat, mem: Memory, fs: seq<Frame>)
    requires dma + RING_BYTES < ADDRESS_LIMIT && |fs| == 129
    ensures var s := Run(Init(hostStart, dma, mem), Batch(fs) + [Fetch]);
            s.queued == fs && |s.sent| == 1 && s.sent[0] == Sent(Carried(fs[128]), 129)
  {
    BatchQueues(Init(hostStart, dma, mem), fs);
    var es := Batch(fs) + [Fetch];
    assert es[..|es| - 1] == Batch(fs);
    var s := Run(Init(hostStart, dma, mem), Batch(fs));
    assert Run(Init(hostStart, dma, mem), es) == Step(s, Fetch);
    hide Run;
    SameSlot(s.hostDma, 0, SLOTS + 1);
    FetchKeepsConsistent(s);
    assert Latest(0, SLOTS + 1) == SLOTS;
    hide Consistent, Decode, Carried;
    var t := Step(s, Fetch);
    assert |t.sent| == 1;
    assert SentFromSlots(t);
  }

  // ----- What is queued, announced and sent -----

  // The frames that a run queues, and how many of them it announces: all that are queued at the last call that says
  // that no more are to come
  function FramesOf(es: seq<Event>): seq<Frame>
  {
    if es == [] then []
    else
      var front, last := FramesOf(es[..|es| - 1]), es[|es| - 1];
      if last.Xmit? then front + [last.frame] else front
  }

  function AnnouncedBy(es: seq<Event>): nat
  {
    if es == [] then 0
    else
      var last := es[|es| - 1];
      if last.Xmit? && !last.more then |FramesOf(es)| else AnnouncedBy(es[..|es| - 1])
  }

  lemma {:induction false} QueuedAndAnnounced(hostStart: nat, dma: nat, mem: Memory, es: seq<Event>)
    requires dma + RING_BYTES < ADDRESS_LIMIT
    ensures var s := Run(Init(hostStart, dma, mem), es);
            s.queued == FramesOf(es) && s.rung == AnnouncedBy(es)
  {
    hide DriverSlot, HostIncr, DmaIncr, Decode;
    if es != [] {
      var front := es[..|es| - 1];
      QueuedAndAnnounced(hostStart, dma, mem, front);
      RunKeepsConsistent(Init(hostStart, dma, mem), front);
      FullTestNeverFires(Run(Init(hostStart, dma, mem), front));
    }
  }

  // k passes of the card's thread
  function Fetches(k: nat): seq<Event>
  {
    if k == 0 then [] else Fetches(k - 1) + [Fetch, Advance]
  }

  lemma {:induction false} PassSends(s: State)
    requires Consistent(s) && !s.fetching && |s.sent| < s.rung < |s.sent| + 128
    ensures var t := Step(Step(s, Fetch), Advance);
            && Consistent(t) && !t.fetching && |t.sent| == |s.sent| + 1 && t.rung == s.rung && t.queued == s.queued
  {
    WorkIs(s);
    StepKeepsConsistent(s, Fetch);
    StepKeepsConsistent(Step(s, Fetch), Advance);
    hide Consistent, LooksFull, Decode, DmaIncr;
  }

  // With fewer than a full ring announced, every pass of the card's thread sends a frame until all that were
  // announced have been sent.
  lemma {:induction false} AnnouncedAreSent(s: State, k: nat)
    requires Consistent(s) && !s.fetching && |s.sent| + k <= s.rung < |s.sent| + 128
    ensures var t := Run(s, Fetches(k));
            && Consistent(t) && !t.fetching && |t.sent| == |s.sent| + k && t.rung == s.rung && t.queued == s.queued
  {
    hide Consistent, Step;
    if k > 0 {
      AnnouncedAreSent(s, k - 1);
      var es := Fetches(k);
      assert es[..|es| - 1] == Fetches(k - 1) + [Fetch] && es[..|es| - 1][..|es| - 2] == Fetches(k - 1);
      PassSends(Run(s, Fetches(k - 1)));
    }
  }
}
