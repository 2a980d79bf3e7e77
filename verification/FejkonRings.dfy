/** The card model (driver/qemu-device/fejkon.c) and the driver (driver/src/board.c) as objects
    that share memory, proved against the ring specifications.
 */
module FejkonRings {
  import opened DmaRing
  import RxRing
  import TxRing

  // ----- The card -----

  const RX_START: nat := 0x8A0
  const RX_END: nat := 0x8A4
  const RX_READ: nat := 0x8A8
  const RX_WRITE: nat := 0x8AC
  const TX_START: nat := 0x8C0
  const TX_END: nat := 0x8C4
  const TX_READ_BY_DRIVER: nat := 0x8C8
  const TX_WRITE: nat := 0x8CC

  class Card {
    var rxBuf: DmaBuf
    var txBuf: DmaBuf
    var rxBufIrqEnabled: bool
    // an undelivered receive interrupt, and the overflow interrupts raised
    var msiRx: bool
    var overflows: nat
    // the two allocations of the driver, by bus address
    var rxMem: Memory
    var txMem: Memory

    ghost var accepted: seq<Frame>
    ghost var told: nat
    ghost var taken: nat
    ghost var fetching: bool
    ghost var sent: seq<TxRing.Sent>

    constructor ()
      ensures rxBuf == txBuf == DmaBuf(0, 0, 0, 0) && !rxBufIrqEnabled && !msiRx && overflows == 0
      ensures accepted == [] && told == 0 && taken == 0 && !fetching && sent == []
    {
      rxBuf, txBuf := DmaBuf(0, 0, 0, 0), DmaBuf(0, 0, 0, 0);
      rxBufIrqEnabled, msiRx, overflows := false, false, 0;
      rxMem, txMem := map[], map[];
      accepted, told, taken, fetching, sent := [], 0, 0, false, [];
    }

    function Read(address: nat): nat
      reads this
    {
      if address == RX_WRITE then rxBuf.write
      else if address == TX_WRITE then txBuf.read
      else 0
    }

    // The ring registers; the value is truncated to 32 bits.
    method Bar0Write(address: nat, val: nat)
      modifies this`rxBuf, this`txBuf, this`rxBufIrqEnabled, this`told
      ensures var v := val % 0x1_0000_0000;
              && rxBuf == (if address == 0x8A0 then DmaBuf(v, v, v, v)
                           else if address == 0x8A4 then old(rxBuf).(end := v)
                           else if address == 0x8A8 then old(rxBuf).(read := v)
                           else old(rxBuf))
              && txBuf == (if address == 0x8C0 then DmaBuf(v, v, v, v)
                           else if address == 0x8C4 then old(txBuf).(end := v)
                           else if address == 0x8CC then old(txBuf).(write := v)
                           else old(txBuf))
              && rxBufIrqEnabled == (old(rxBufIrqEnabled) || address == 0x8A8)
              && told == (if address == 0x8A8 then taken else old(told))
    {
      var v := val % ADDRESS_LIMIT;
      if address == RX_START {
        rxBuf := rxBuf.(start := v, read := v, write := v, end := v);
      } else if address == RX_END {
        rxBuf := rxBuf.(end := v);
      } else if address == RX_READ {
        rxBuf := rxBuf.(read := v);
        rxBufIrqEnabled := true;
        told := taken;
      } else if address == TX_START {
        txBuf := txBuf.(start := v, read := v, write := v, end := v);
      } else if address == TX_END {
        txBuf := txBuf.(end := v);
      } else if address == TX_WRITE {
        txBuf := txBuf.(write := v);
      }
    }

    // The slot is written first; on a full ring the pointer stays and the slot is written again.
    method RxPkt(f: Frame)
      modifies this`rxBuf, this`rxMem, this`overflows, this`accepted
      ensures rxMem == old(rxMem)[old(rxBuf).write := CardSlot(f)]
      ensures var write := DmaIncr(old(rxBuf), old(rxBuf).write, FRAME_SIZE);
              if write == old(rxBuf).read
              then rxBuf == old(rxBuf) && accepted == old(accepted) && overflows == old(overflows) + 1
              else rxBuf == old(rxBuf).(write := write) && accepted == old(accepted) + [f] &&
                   overflows == old(overflows)
    {
      rxMem := rxMem[rxBuf.write := CardSlot(f)];
      var newWrite := DmaIncr(rxBuf, rxBuf.write, FRAME_SIZE);
      if newWrite == rxBuf.read {
        overflows := overflows + 1;
      } else {
        rxBuf := rxBuf.(write := newWrite);
        accepted := accepted + [f];
      }
    }

    // One pass of the interrupt thread
    method RxIrqThread()
      modifies this`msiRx, this`rxBufIrqEnabled
      ensures var raise := rxBuf.read != rxBuf.write && old(rxBufIrqEnabled);
              msiRx == (old(msiRx) || raise) && rxBufIrqEnabled == (old(rxBufIrqEnabled) && !raise)
    {
      if rxBuf.read != rxBuf.write && rxBufIrqEnabled {
        msiRx := true;
        rxBufIrqEnabled := false;
      }
    }

    // One pass of the transmit thread: the frame read from the slot comes back as a received one.
    method TxThread(ghost queued: nat) returns (frames: seq<Frame>)
      requires !fetching
      modifies this`txBuf, this`sent, this`rxBuf, this`rxMem, this`overflows, this`accepted
      ensures frames == if old(txBuf).read == old(txBuf).write then []
                        else [Decode(Load(txMem, old(txBuf).read))]
      ensures frames == [] ==>
                txBuf == old(txBuf) && sent == old(sent) && rxBuf == old(rxBuf) && rxMem == old(rxMem) &&
                overflows == old(overflows) && accepted == old(accepted)
      ensures frames != [] ==>
                && txBuf == old(txBuf).(read := DmaIncr(old(txBuf), old(txBuf).read, FRAME_SIZE))
                && sent == old(sent) + [TxRing.Sent(frames[0], queued)]
                && rxMem == old(rxMem)[old(rxBuf).write := CardSlot(frames[0])]
                && var write := DmaIncr(old(rxBuf), old(rxBuf).write, FRAME_SIZE);
                   if write == old(rxBuf).read
                   then rxBuf == old(rxBuf) && accepted == old(accepted) && overflows == old(overflows) + 1
                   else rxBuf == old(rxBuf).(write := write) && accepted == old(accepted) + [frames[0]] &&
                        overflows == old(overflows)
    {
      if txBuf.read == txBuf.write {
        frames := [];
        return;
      }
      var frame := Decode(Load(txMem, txBuf.read));
      sent := sent + [TxRing.Sent(frame, queued)];
      RxPkt(frame);
      txBuf := txBuf.(read := DmaIncr(txBuf, txBuf.read, FRAME_SIZE));
      frames := [frame];
    }
  }

  // ----- The driver -----

  // Of the frames poll took, those it passed to the stack
  function Passed(taken: seq<RxRing.Taken>): seq<Frame>
  {
    if taken == [] then []
    else
      var last := taken[|taken| - 1];
      Passed(taken[..|taken| - 1]) + (if last.passed then [last.frame] else [])
  }

  lemma PassedAppend(taken: seq<RxRing.Taken>, t: RxRing.Taken)
    ensures Passed(taken + [t]) == Passed(taken) + (if t.passed then [t.frame] else [])
  {
    assert (taken + [t])[..|taken|] == taken;
  }

  // A frame as poll reads it: its length in whole words
  function AsRead(f: Frame): Frame
  {
    Frame(f.port, f.length / 4 * 4, f.token)
  }

  // What the stack gets of n frames from the given one on: those for an interface that is up and of 36 bytes at least
  function Delivered(frames: seq<Frame>, first: nat, n: nat, up: nat -> bool): seq<Frame>
    requires first + n <= |frames|
  {
    if n == 0 then []
    else
      var f := frames[first + n - 1];
      Delivered(frames, first, n - 1, up) + (if up(n - 1) && f.length / 4 * 4 >= 36 then [AsRead(f)] else [])
  }

  lemma NoneDelivered(frames: seq<Frame>, first: nat, up: nat -> bool)
    ensures first <= |frames| ==> Delivered(frames, first, 0, up) == []
  {
  }

  // Frames that arrive later change nothing for those before.
  lemma {:induction false} DeliveredStays(frames: seq<Frame>, more: seq<Frame>, first: nat, n: nat, up: nat -> bool)
    requires first + n <= |frames| && frames <= more
    ensures Delivered(more, first, n, up) == Delivered(frames, first, n, up)
    decreases n
  {
    hide AsRead;
    if n > 0 {
      DeliveredStays(frames, more, first, n - 1, up);
    }
  }

  function Receives(fs: seq<Frame>): seq<RxRing.Event>
  {
    seq(|fs|, i requires 0 <= i < |fs| => RxRing.Receive(fs[i]))
  }

  lemma ReceiveStep(s: RxRing.State, f: Frame)
    ensures RxRing.Step(s, RxRing.Receive(f)) == RxRing.DoReceive(s, f)
  {
  }

  lemma TakeStep(s: RxRing.State, up: bool, skb: bool)
    requires RxRing.More(s)
    ensures RxRing.Step(s, RxRing.Take(up, skb)) == RxRing.DoTake(s, up, skb)
  {
  }

  lemma PublishStep(s: RxRing.State)
    requires s.poll.Looping? && !RxRing.More(s)
    ensures RxRing.Step(s, RxRing.Publish) == RxRing.DoPublish(s)
  {
  }

  lemma CompleteStep(s: RxRing.State)
    requires s.poll.Published?
    ensures RxRing.Step(s, RxRing.Complete) ==
              s.(poll := RxRing.Returned(s.poll.work, s.poll.budget),
                 napi := if s.poll.work < s.poll.budget then RxRing.CompleteNapi(s.napi) else s.napi)
  {
  }

  lemma NextWrite(s: TxRing.State)
    requires TxRing.Pointers(s)
    ensures HostIncr(s.hostStart, s.hostEnd, s.hostWrite) >= s.hostStart
  {
    SlotOffset(s.hostStart, s.hostDma, |s.queued| + 1);
    HostIncrAdvances(s.hostStart, |s.queued|);
    hide HostIncr, SlotAddress;
  }

  // Queuing a frame fills the next slot and announces all frames queued, unless more are to come.
  lemma XmitFacts(s: TxRing.State, f: Frame, more: bool)
    requires TxRing.Consistent(s)
    ensures TxRing.Pointers(s) && s.hostWrite + 4096 != s.cached
    ensures var q := s.(mem := s.mem[s.hostDma + TxRing.HostOffset(s) := DriverSlot(f)],
                        hostWrite := HostIncr(s.hostStart, s.hostEnd, s.hostWrite), queued := s.queued + [f]);
            q.hostWrite >= s.hostStart &&
            TxRing.Step(s, TxRing.Xmit(f, more)) ==
            if more then q
            else q.(buf := s.buf.(write := (s.hostDma + TxRing.HostOffset(q)) % ADDRESS_LIMIT), rung := |q.queued|)
    ensures TxRing.Consistent(TxRing.Step(s, TxRing.Xmit(f, more)))
  {
    XmitStep(s, f, more);
    TxRing.FullTestNeverFires(s);
    TxRing.XmitKeepsConsistent(s, f, more);
    NextWrite(s);
    hide TxRing.HoldsLatest, TxRing.SentFromSlots, TxRing.Pointers, HostIncr, TxRing.HostOffset, DriverSlot,
         TxRing.Step;
  }

  lemma XmitStep(s: TxRing.State, f: Frame, more: bool)
    ensures TxRing.Step(s, TxRing.Xmit(f, more)) == TxRing.DoXmit(s, f, more)
  {
  }

  class Driver {
    const card: Card
    var rxBufStart: nat
    var rxBufStartDma: nat
    var rxBufRead: nat
    var rxBufEnd: nat
    var txBufStart: nat
    var txBufStartDma: nat
    var txBufWrite: nat
    var txBufReadCached: int
    var txBufEnd: nat
    var txDropped: nat
    var rxDropped: nat
    // what was passed up the network stack
    var received: seq<Frame>
    // the kernel's state of the poll
    var napi: RxRing.Napi

    ghost var phase: RxRing.Poll
    ghost var taken: seq<RxRing.Taken>
    ghost var queued: seq<Frame>
    ghost var rung: nat

    ghost function RxView(): RxRing.State
      reads this, card
    {
      RxRing.State(card.rxBuf, card.rxBufIrqEnabled, card.msiRx, card.overflows, card.rxMem,
                   rxBufStart, rxBufStartDma, rxBufRead, rxBufEnd, napi, phase,
                   card.accepted, card.told, taken)
    }

    ghost function TxView(): TxRing.State
      reads this, card
    {
      TxRing.State(card.txBuf, card.fetching, card.txMem,
                   txBufStart, txBufStartDma, txBufWrite, txBufEnd, txBufReadCached, txDropped,
                   queued, rung, card.sent)
    }

    // The history the card keeps of the host agrees with the host.
    ghost predicate Agrees()
      reads this, card
    {
      card.taken == |taken| && received == Passed(taken) && !card.fetching
    }

    ghost predicate Valid()
      reads this, card
    {
      Agrees() && RxRing.Consistent(RxView()) && TxRing.Consistent(TxView())
    }

    // The driver of a card nobody has configured
    constructor (card: Card)
      requires card.accepted == [] && card.told == 0 && card.taken == 0 && !card.fetching && card.sent == []
      requires !card.msiRx && card.overflows == 0
      ensures this.card == card && unchanged(card) && Unused()
    {
      this.card := card;
      rxBufStart, rxBufStartDma, rxBufRead, rxBufEnd := 0, 0, 0, 0;
      txBufStart, txBufStartDma, txBufWrite, txBufReadCached, txBufEnd := 0, 0, 0, 0, 0;
      txDropped, rxDropped, received := 0, 0, [];
      napi := RxRing.Napi(false, false, false);
      phase, taken, queued, rung := RxRing.Idle, [], [], 0;
    }

    // Nothing has been received or sent, and no poll is scheduled.
    ghost predicate Unused()
      reads this, card
    {
      && card.accepted == [] && card.told == 0 && card.taken == 0 && !card.fetching && card.sent == []
      && !card.msiRx && card.overflows == 0
      && napi == RxRing.Napi(false, false, false) && phase == RxRing.Idle
      && taken == [] && queued == [] && rung == 0 && received == [] && txDropped == 0
    }

    // rx, tx and their bus addresses are what the allocator returned.
    method SetupBuffers(rx: nat, rxDma: nat, tx: nat, txDma: nat) returns (ok: bool)
      requires Unused()
      modifies this, card`rxBuf, card`txBuf, card`rxBufIrqEnabled, card`told
      ensures ok <==> rxDma < ADDRESS_LIMIT && txDma < ADDRESS_LIMIT
      ensures !ok ==> card.rxBuf == old(card.rxBuf) && card.txBuf == old(card.txBuf)
      ensures ok && rxDma + RING_BYTES < ADDRESS_LIMIT ==> RxView() == RxRing.Init(rx, rxDma, card.rxMem)
      ensures ok && txDma + RING_BYTES < ADDRESS_LIMIT ==> TxView() == TxRing.Init(tx, txDma, card.txMem)
      ensures Unused()
    {
      PointAt(rx, tx);
      if rxDma >= ADDRESS_LIMIT || txDma >= ADDRESS_LIMIT {
        return false;
      }
      ConfigureCard(rxDma, txDma);
      rxBufStartDma := rxDma;
      txBufStartDma := txDma;
      ok := true;
    }

    method PointAt(rx: nat, tx: nat)
      modifies this`rxBufStart, this`rxBufRead, this`rxBufEnd
      modifies this`txBufStart, this`txBufWrite, this`txBufReadCached, this`txBufEnd
      ensures rxBufStart == rxBufRead == rx && rxBufEnd == rx + RING_BYTES
      ensures txBufStart == txBufWrite == txBufReadCached == tx && txBufEnd == tx + RING_BYTES
    {
      rxBufStart := rx;
      rxBufRead := rx;
      rxBufEnd := rx + RING_BYTES;
      txBufStart := tx;
      txBufWrite := tx;
      txBufReadCached := tx;
      txBufEnd := tx + RING_BYTES;
    }

    // The register writes of the set-up; the last one arms the receive interrupt.
    method ConfigureCard(rxDma: nat, txDma: nat)
      requires rxDma < ADDRESS_LIMIT && txDma < ADDRESS_LIMIT && card.taken == 0
      modifies card`rxBuf, card`txBuf, card`rxBufIrqEnabled, card`told
      ensures card.rxBuf == DmaBuf(rxDma, (rxDma + RING_BYTES) % ADDRESS_LIMIT, rxDma, rxDma)
      ensures card.txBuf == DmaBuf(txDma, (txDma + RING_BYTES) % ADDRESS_LIMIT, txDma, txDma)
      ensures card.rxBufIrqEnabled && card.told == 0
    {
      card.Bar0Write(RX_START, rxDma);
      assert card.rxBuf == DmaBuf(rxDma, rxDma, rxDma, rxDma);
      card.Bar0Write(RX_END, rxDma + RING_BYTES);
      card.Bar0Write(TX_START, txDma);
      assert card.txBuf == DmaBuf(txDma, txDma, txDma, txDma);
      card.Bar0Write(TX_END, txDma + RING_BYTES);
      card.Bar0Write(RX_READ, rxDma);
    }

    method RxIrq()
      modifies this`napi
      ensures napi == RxRing.Schedule(old(napi))
    {
      if napi.sched {
        napi := napi.(missed := true);
      } else {
        napi := napi.(sched := true, listed := true);
      }
    }

    method NapiComplete()
      modifies this`napi
      ensures napi == RxRing.CompleteNapi(old(napi))
    {
      if napi.missed {
        napi := napi.(missed := false, listed := true);
      } else {
        napi := napi.(sched := false);
      }
    }

    // The card receives frames while the driver is between two of its accesses.
    method CardReceives(fs: seq<Frame>)
      requires Valid() && forall i :: 0 <= i < |fs| ==> Fits(fs[i])
      modifies card`rxBuf, card`rxMem, card`overflows, card`accepted
      ensures RxView() == RxRing.Run(old(RxView()), Receives(fs))
      ensures Valid() && TxView() == old(TxView()) && old(card.accepted) <= card.accepted
    {
      hide RxRing.Consistent, TxRing.Consistent, CardSlot, DmaIncr, Passed, RxRing.Step;
      ghost var start := RxView();
      for n := 0 to |fs|
        invariant RxView() == RxRing.Run(start, Receives(fs[..n]))
        invariant Valid() && TxView() == old(TxView()) && old(card.accepted) <= card.accepted
        modifies card`rxBuf, card`rxMem, card`overflows, card`accepted
      {
        ghost var before := RxView();
        card.RxPkt(fs[n]);
        assert RxView() == RxRing.DoReceive(before, fs[n]);
        RxRing.ReceiveKeepsUnread(before, fs[n]);
        assert Receives(fs[..n + 1])[..n] == Receives(fs[..n]);
        assert Receives(fs[..n + 1])[n] == RxRing.Receive(fs[n]);
        ReceiveStep(before, fs[n]);
      }
      assert fs[..|fs|] == fs;
    }

    // poll reads the card's write pointer once.
    method ReadWritePointer(budget: nat) returns (rxBufWrite: nat)
      requires Valid() && phase == RxRing.Entered(budget)
      modifies this`phase
      ensures Valid() && TxView() == old(TxView()) && taken == old(taken) && |taken| <= |card.accepted|
      ensures RxView() == RxRing.Step(old(RxView()), RxRing.ReadPointer)
      ensures phase.Looping? && phase.limit == rxBufWrite && phase.work == 0 && phase.budget == budget
      ensures rxBufWrite == rxBufStart + (card.rxBuf.write - rxBufStartDma)
    {
      hide TxRing.Consistent, CardSlot, Passed;
      RxRing.StepKeepsConsistent(RxView(), RxRing.ReadPointer);
      SlotOffset(rxBufStartDma, rxBufStart, |card.accepted|);
      var writePtr := card.Read(RX_WRITE) - rxBufStartDma;
      rxBufWrite := rxBufStart + writePtr;
      phase := RxRing.Looping(rxBufWrite, |card.accepted|, 0, budget);
    }

    // The end of an iteration: one slot further, with wrap-around.
    method AdvanceRead(frame: Frame, passed: bool)
      requires phase.Looping? && received == Passed(taken) + (if passed then [frame] else [])
      requires !card.fetching
      modifies this`rxBufRead, this`phase, this`taken, card`taken
      ensures Agrees() && TxView() == old(TxView())
      ensures RxView() == old(RxView()).(
                hostRead := HostIncr(rxBufStart, rxBufEnd, old(rxBufRead)),
                poll := RxRing.Looping(old(phase).limit, old(phase).seen, old(phase).work + 1, old(phase).budget),
                taken := old(taken) + [RxRing.Taken(frame, passed)])
    {
      hide Passed;
      rxBufRead := rxBufRead + 4096;
      if rxBufRead == rxBufEnd {
        rxBufRead := rxBufStart;
      }
      phase := RxRing.Looping(phase.limit, phase.seen, phase.work + 1, phase.budget);
      PassedAppend(taken, RxRing.Taken(frame, passed));
      taken := taken + [RxRing.Taken(frame, passed)];
      card.taken := |taken|;
    }

    // The body of poll's loop; it fails when it cannot allocate a buffer.
    method TakeFrame(up: bool, skb: bool) returns (ok: bool)
      requires Valid() && RxRing.More(RxView())
      modifies this, card`taken
      ensures Valid() && TxView() == old(TxView())
      ensures RxView() == RxRing.Step(old(RxView()), RxRing.Take(up, skb))
      ensures ok <==> !RxRing.AllocationFails(old(RxView()), RxRing.Take(up, skb))
      ensures |old(taken)| < |card.accepted|
      ensures var f := card.accepted[|old(taken)|];
              var passed := up && f.length / 4 * 4 >= 36;
              && (ok <==> !passed || skb)
              && received == old(received) + (if passed && ok then [AsRead(f)] else [])
              && rxDropped == old(rxDropped) + (if passed && ok then 0 else 1)
      ensures ok ==> |taken| == |old(taken)| + 1 && old(taken) <= taken
      ensures ok ==> phase == RxRing.Looping(old(phase).limit, old(phase).seen, old(phase).work + 1, old(phase).budget)
      ensures !ok ==> taken == old(taken) && phase == RxRing.Returned(old(phase).work, old(phase).budget)
    {
      hide TxRing.Consistent, RxRing.Consistent, RxRing.NextSlot, CardSlot, Decode, Load, Passed, DmaIncr;
      ghost var before := RxView();
      RxRing.StepKeepsConsistent(before, RxRing.Take(up, skb));
      RxRing.MoreIs(before);
      RxRing.NextFrameIs(before);
      RxRing.NextSlotIs(before);
      var meta := Load(card.rxMem, rxBufStartDma + (rxBufRead - rxBufStart));
      var frame := Decode(meta);
      assert meta == RxRing.NextSlot(before);
      TakeStep(before, up, skb);
      hide RxRing.Step;
      if !up {
        rxDropped := rxDropped + 1;
      } else if frame.length < 36 {
        rxDropped := rxDropped + 1;
      } else {
        if !skb {
          rxDropped := rxDropped + 1;
          phase := RxRing.Returned(phase.work, phase.budget);
          return false;
        }
        received := received + [frame];
      }
      AdvanceRead(frame, up && frame.length >= 36);
      ok := true;
    }

    // The end of a call of poll
    method EndPoll(ghost start: RxRing.State, ghost trace: seq<RxRing.Event>, workDone: nat, budget: nat)
      returns (ghost trace': seq<RxRing.Event>)
      requires Valid() && phase.Looping? && phase.work == workDone && phase.budget == budget
      requires !RxRing.More(RxView()) && RxView() == RxRing.Run(start, trace) && RxRing.LegalEvents(trace)
      modifies this`phase, this`napi, card`rxBuf, card`txBuf, card`rxBufIrqEnabled, card`told
      ensures Valid() && TxView() == old(TxView()) && taken == old(taken)
      ensures RxView() == RxRing.Run(start, trace') && RxRing.LegalEvents(trace')
      ensures phase == RxRing.Returned(workDone, budget)
    {
      hide Valid, RxRing.Step, RxRing.More, RxRing.LegalEvents;
      PublishReadPointer();
      Extend(start, trace, RxRing.Publish);
      CompletePoll(workDone, budget);
      Extend(start, trace + [RxRing.Publish], RxRing.Complete);
      trace' := trace + [RxRing.Publish] + [RxRing.Complete];
    }

    // One call of poll.  Before its n-th loop test the card receives arrivals(n); up(n) and skb(n)
    // say whether the interface is up and a buffer is to be had in the n-th iteration.  The trace
    // is the run of steps that took place.
    method Poll(budget: nat, arrivals: nat -> seq<Frame>, up: nat -> bool, skb: nat -> bool)
      returns (workDone: nat, ghost trace: seq<RxRing.Event>)
      requires Valid() && phase == RxRing.Entered(budget)
      requires forall n: nat, i :: 0 <= i < |arrivals(n)| ==> Fits(arrivals(n)[i])
      modifies this, card
      ensures Valid() && TxView() == old(TxView())
      ensures RxView() == RxRing.Run(old(RxView()), trace) && RxRing.LegalEvents(trace)
      ensures phase == RxRing.Returned(workDone, budget) && workDone <= budget
      ensures |taken| == |old(taken)| + workDone && old(taken) <= taken
      ensures |old(taken)| + workDone <= |card.accepted|
      ensures received == old(received) + Delivered(card.accepted, |old(taken)|, workDone, up)
    {
      hide Valid, RxRing.Step, Decode, Load, Delivered;
      ghost var start := RxView();
      NoneDelivered(card.accepted, |taken|, up);
      workDone := 0;
      assert RxRing.LegalEvents([]);
      hide RxRing.LegalEvents;
      var rxBufWrite := ReadWritePointer(budget);
      Extend(start, [], RxRing.ReadPointer);
      trace := [] + [RxRing.ReadPointer];
      var n := 0;
      while rxBufWrite != rxBufRead
        invariant Valid() && TxView() == old(TxView()) && RxRing.LegalEvents(trace)
        invariant RxView() == RxRing.Run(start, trace)
        invariant phase.Looping? && phase.limit == rxBufWrite && phase.work == workDone <= budget == phase.budget
        invariant |taken| == |old(taken)| + workDone && old(taken) <= taken && n == workDone
        invariant |old(taken)| + workDone <= |card.accepted|
        invariant received == old(received) + Delivered(card.accepted, |old(taken)|, workDone, up)
        decreases budget - workDone
      {
        ghost var accepted := card.accepted;
        trace := Interfere(start, trace, arrivals(n));
        DeliveredStays(accepted, card.accepted, |old(taken)|, workDone, up);
        if workDone >= budget {
          break;
        }
        var ok;
        ok, trace := Iterate(start, trace, |old(taken)|, old(received), n, up, skb(n));
        if !ok {
          return;
        }
        workDone := workDone + 1;
        n := n + 1;
      }
      trace := EndPoll(start, trace, workDone, budget);
    }

    // The n-th iteration of poll's loop, with a frame to take
    method Iterate(ghost start: RxRing.State, ghost trace: seq<RxRing.Event>, ghost first: nat,
                   ghost before: seq<Frame>, n: nat, up: nat -> bool, skb: bool)
      returns (ok: bool, ghost trace': seq<RxRing.Event>)
      requires Valid() && RxRing.More(RxView()) && |taken| == first + n <= |card.accepted|
      requires RxView() == RxRing.Run(start, trace) && RxRing.LegalEvents(trace)
      requires received == before + Delivered(card.accepted, first, n, up)
      modifies this, card`taken
      ensures Valid() && TxView() == old(TxView())
      ensures RxView() == RxRing.Run(start, trace') && RxRing.LegalEvents(trace')
      ensures ok ==>
                && |taken| == |old(taken)| + 1 <= |card.accepted| && old(taken) <= taken
                && received == before + Delivered(card.accepted, first, n + 1, up)
                && phase == RxRing.Looping(old(phase).limit, old(phase).seen, old(phase).work + 1, old(phase).budget)
      ensures !ok ==>
                && taken == old(taken) && phase == RxRing.Returned(old(phase).work, old(phase).budget)
                && received == old(received)
    {
      hide Valid, RxRing.More, RxRing.Step, RxRing.LegalEvents, AsRead;
      ghost var event := RxRing.Take(up(n), skb);
      Extend(start, trace, event);
      trace' := trace + [event];
      ok := TakeFrame(up(n), skb);
    }

    // The card's arrivals as steps of the run
    method Interfere(ghost start: RxRing.State, ghost trace: seq<RxRing.Event>, fs: seq<Frame>)
      returns (ghost trace': seq<RxRing.Event>)
      requires Valid() && forall i :: 0 <= i < |fs| ==> Fits(fs[i])
      requires RxView() == RxRing.Run(start, trace) && RxRing.LegalEvents(trace)
      modifies card`rxBuf, card`rxMem, card`overflows, card`accepted
      ensures Valid() && TxView() == old(TxView()) && old(card.accepted) <= card.accepted
      ensures RxView() == RxRing.Run(start, trace') && RxRing.LegalEvents(trace')
    {
      CardReceives(fs);
      trace' := trace + Receives(fs);
      RxRing.RunAdds(start, trace, Receives(fs));
    }

    // The read pointer goes to the card, which arms its interrupt.
    method PublishReadPointer()
      requires Valid() && phase.Looping? && !RxRing.More(RxView())
      modifies this`phase, card`rxBuf, card`txBuf, card`rxBufIrqEnabled, card`told
      ensures Valid() && TxView() == old(TxView()) && taken == old(taken)
      ensures RxView() == RxRing.Step(old(RxView()), RxRing.Publish)
      ensures phase == RxRing.Published(old(phase).work, old(phase).budget)
    {
      hide TxRing.Consistent, CardSlot, Decode, Load, DmaIncr, HostIncr, Passed;
      ghost var before := RxView();
      RxRing.StepKeepsConsistent(before, RxRing.Publish);
      SlotOffset(rxBufStart, rxBufStartDma, |taken|);
      PublishStep(before);
      hide RxRing.Step, RxRing.Consistent;
      card.Bar0Write(RX_READ, rxBufStartDma + (rxBufRead - rxBufStart));
      phase := RxRing.Published(phase.work, phase.budget);
    }

    // poll completes if it has budget left.
    method CompletePoll(workDone: nat, budget: nat)
      requires Valid() && phase == RxRing.Published(workDone, budget)
      modifies this`phase, this`napi
      ensures Valid() && TxView() == old(TxView()) && taken == old(taken)
      ensures RxView() == RxRing.Step(old(RxView()), RxRing.Complete)
      ensures phase == RxRing.Returned(workDone, budget)
    {
      hide TxRing.Consistent, CardSlot, Decode, Load, DmaIncr, HostIncr, Passed;
      RxRing.StepKeepsConsistent(RxView(), RxRing.Complete);
      CompleteStep(RxView());
      hide RxRing.Step, RxRing.Consistent;
      if workDone < budget {
        NapiComplete();
      }
      phase := RxRing.Returned(workDone, budget);
    }

    // Store a frame in the next slot and move on, with wrap-around.
    method StoreFrame(frame: Frame)
      requires TxRing.Pointers(TxView())
      modifies this`txBufWrite, this`queued, card`txMem
      ensures RxView() == old(RxView()) && (old(Agrees()) ==> Agrees())
      ensures TxView() == old(TxView()).(
                mem := old(card.txMem)[txBufStartDma + TxRing.HostOffset(old(TxView())) := DriverSlot(frame)],
                hostWrite := HostIncr(txBufStart, txBufEnd, old(txBufWrite)),
                queued := old(queued) + [frame])
    {
      hide DriverSlot, Passed;
      SlotOffset(txBufStart, txBufStartDma, |queued|);
      card.txMem := card.txMem[txBufStartDma + (txBufWrite - txBufStart) := DriverSlot(frame)];
      txBufWrite := txBufWrite + 4096;
      if txBufWrite == txBufEnd {
        txBufWrite := txBufStart;
      }
      queued := queued + [frame];
    }

    // Announce everything queued so far.
    method RingDoorbell()
      requires txBufWrite >= txBufStart
      modifies this`rung, card`rxBuf, card`txBuf, card`rxBufIrqEnabled, card`told
      ensures RxView() == old(RxView()) && (old(Agrees()) ==> Agrees())
      ensures TxView() == old(TxView()).(
                buf := old(card.txBuf).(write := (txBufStartDma + TxRing.HostOffset(old(TxView()))) % ADDRESS_LIMIT),
                rung := |queued|)
    {
      hide Passed;
      card.Bar0Write(TX_WRITE, txBufStartDma + (txBufWrite - txBufStart));
      rung := |queued|;
    }

    // The ring looks full and the card has read nothing since: the frame is dropped.
    method DropWhenFull() returns (full: bool)
      modifies this`txBufReadCached, this`txDropped
      ensures full <==>
              && old(txBufWrite) + 4096 == old(txBufReadCached)
              && txBufStart + (0 - txBufStartDma) == old(txBufReadCached)
      ensures txDropped == old(txDropped) + if full then 1 else 0
      ensures txBufReadCached ==
              if old(txBufWrite) + 4096 == old(txBufReadCached) then
                txBufStart + (0 - txBufStartDma)
              else old(txBufReadCached)
    {
      full := false;
      if txBufWrite + 4096 == txBufReadCached {
        var readPtr := card.Read(TX_READ_BY_DRIVER) - txBufStartDma;
        var txBufRead := txBufStart + readPtr;
        if txBufRead == txBufReadCached {
          txDropped := txDropped + 1;
          return true;
        }
        txBufReadCached := txBufRead;
      }
    }

    method NetTx(port: nat, length: nat, token: int, xmitMore: bool)
      requires Valid()
      modifies this, card`txMem, card`txBuf, card`rxBuf, card`rxBufIrqEnabled, card`told
      ensures Valid() && RxView() == old(RxView())
      ensures TxView() == TxRing.Step(old(TxView()), TxRing.Xmit(Frame(port, length, token), xmitMore))
      ensures queued == old(queued) + [Frame(port, length, token)] && txDropped == old(txDropped)
    {
      hide RxRing.Consistent, DriverSlot, Passed;
      ghost var before := TxView();
      var frame := Frame(port, length, token);
      XmitFacts(before, frame, xmitMore);
      hide TxRing.Consistent, TxRing.Pointers, TxRing.Step, HostIncr, TxRing.HostOffset;
      var full := DropWhenFull();
      if !full {
        StoreFrame(frame);
        if !xmitMore {
          RingDoorbell();
        }
      }
    }
  }

  lemma Extend(start: RxRing.State, trace: seq<RxRing.Event>, e: RxRing.Event)
    ensures RxRing.Run(start, trace + [e]) == RxRing.Step(RxRing.Run(start, trace), e)
    ensures RxRing.LegalEvents(trace) && (e.Receive? ==> Fits(e.frame)) ==> RxRing.LegalEvents(trace + [e])
  {
    hide RxRing.Step;
    assert (trace + [e])[..|trace + [e]| - 1] == trace;
  }

  // ----- The passes of the card's threads are steps of both rings -----

  method IrqThreadPass(d: Driver)
    requires d.Valid()
    modifies d.card
    ensures d.Valid() && d.TxView() == old(d.TxView())
    ensures d.RxView() == RxRing.Step(old(d.RxView()), RxRing.IrqThread)
  {
    ghost var before := d.RxView();
    d.card.RxIrqThread();
    RxRing.StepKeepsConsistent(before, RxRing.IrqThread);
  }

  method DeliverMsi(d: Driver)
    requires d.Valid()
    modifies d`napi, d.card`msiRx
    ensures d.Valid() && d.TxView() == old(d.TxView())
    ensures d.RxView() == RxRing.Step(old(d.RxView()), RxRing.Msi)
  {
    ghost var before := d.RxView();
    if d.card.msiRx {
      d.card.msiRx := false;
      d.RxIrq();
    }
    RxRing.StepKeepsConsistent(before, RxRing.Msi);
  }

  // A frame the transmit thread reads is received again: the card loops it back.
  method TxThreadPass(d: Driver)
    requires d.Valid()
    modifies d.card
    ensures d.Valid()
    ensures d.TxView() == TxRing.Step(TxRing.Step(old(d.TxView()), TxRing.Fetch), TxRing.Advance)
    ensures d.RxView() ==
              if |d.card.sent| == |old(d.card.sent)| then old(d.RxView())
              else RxRing.Step(old(d.RxView()), RxRing.Receive(d.card.sent[|d.card.sent| - 1].frame))
  {
    hide CardSlot, RxRing.Consistent, TxRing.Consistent, Decode, Load, DmaIncr, Passed;
    ghost var tx, rx := d.TxView(), d.RxView();
    var frames := d.card.TxThread(|d.queued|);
    if frames != [] {
      TxRing.StepKeepsConsistent(tx, TxRing.Fetch);
      TxRing.StepKeepsConsistent(TxRing.Step(tx, TxRing.Fetch), TxRing.Advance);
      DecodedFits(Load(d.card.txMem, tx.buf.read));
      RxRing.ReceiveKeepsUnread(rx, frames[0]);
      ReceiveStep(rx, frames[0]);
    }
  }
}
