/** The receive ring between the card and the driver's poll, with its interrupt
    (driver/qemu-device/fejkon.c and driver/src/board.c).

    One step is one critical section of the card, one interrupt, one iteration of poll or one
    register access of poll.  Every interleaving of steps is a run.
 */
module RxRing {
  import opened DmaRing

  // ----- State -----

  // What the kernel knows of the poll: scheduled, scheduled again meanwhile, on the poll list.
  datatype Napi = Napi(sched: bool, missed: bool, listed: bool)

  // Where the poll function is.  `limit` is the write pointer it read and `seen` the number of
  // frames accepted at that moment.
  datatype Poll =
    | Idle
    | Entered(budget: nat)
    | Looping(limit: nat, seen: nat, work: nat, budget: nat)
    | Published(work: nat, budget: nat)
    | Returned(work: nat, budget: nat)

  // A frame poll has taken off the ring, and whether it was passed up the stack.
  datatype Taken = Taken(frame: Frame, passed: bool)

  datatype State = State(
    // the card
    buf: DmaBuf, armed: bool, msi: bool, overflows: nat,
    // shared memory
    mem: Memory,
    // the driver and the kernel
    hostStart: nat, hostDma: nat, hostRead: nat, hostEnd: nat, napi: Napi, poll: Poll,
    // history: frames the card accepted, how many of them it was told are read, frames taken
    accepted: seq<Frame>, told: nat, taken: seq<Taken>)

  // After setup_buffers
  function Init(hostStart: nat, dma: nat, mem: Memory): State
  {
    State(DmaBuf(dma, dma + RING_BYTES, dma, dma), true, false, 0, mem,
          hostStart, dma, hostStart, hostStart + RING_BYTES, Napi(false, false, false), Idle,
          [], 0, [])
  }

  // ----- Steps -----

  datatype Event =
    | Receive(frame: Frame)
    | IrqThread
    | Msi
    | Dispatch(budget: nat)
    | ReadPointer
    | Take(up: bool, skb: bool)
    | Publish
    | Complete
    | Retire

  // The card writes the slot before it tests for a full ring.
  function DoReceive(s: State, f: Frame): State
  {
    var mem := s.mem[s.buf.write := CardSlot(f)];
    var write := DmaIncr(s.buf, s.buf.write, FRAME_SIZE);
    if write == s.buf.read then s.(mem := mem, overflows := s.overflows + 1)
    else s.(mem := mem, buf := s.buf.(write := write), accepted := s.accepted + [f])
  }

  // The interrupt is one-shot: raising it disarms it.
  function DoIrqThread(s: State): State
  {
    if s.buf.read != s.buf.write && s.armed then s.(armed := false, msi := true) else s
  }

  // A schedule request while a poll is scheduled is remembered, not queued.
  function Schedule(n: Napi): Napi
  {
    if n.sched then n.(missed := true) else n.(sched := true, listed := true)
  }

  // Completion schedules again when a request was missed.
  function CompleteNapi(n: Napi): Napi
  {
    if n.missed then n.(missed := false, listed := true) else n.(sched := false)
  }

  // An iteration of poll has a frame to take.
  predicate More(s: State)
  {
    s.poll.Looping? && s.poll.limit != s.hostRead && s.poll.work < s.poll.budget
  }

  function NextSlot(s: State): Slot
  {
    Load(s.mem, s.hostDma + (if s.hostRead >= s.hostStart then s.hostRead - s.hostStart else 0))
  }

  const MIN_LENGTH: nat := 36

  // The iteration needs a buffer and cannot get one.
  predicate AllocationFails(s: State, e: Event)
  {
    e.Take? && More(s) && e.up && Decode(NextSlot(s)).length >= MIN_LENGTH && !e.skb
  }

  function DoTake(s: State, up: bool, skb: bool): State
    requires More(s)
  {
    var frame := Decode(NextSlot(s));
    if AllocationFails(s, Take(up, skb)) then s.(poll := Returned(s.poll.work, s.poll.budget))
    else s.(taken := s.taken + [Taken(frame, up && frame.length >= MIN_LENGTH)],
            poll := Looping(s.poll.limit, s.poll.seen, s.poll.work + 1, s.poll.budget),
            hostRead := HostIncr(s.hostStart, s.hostEnd, s.hostRead))
  }

  // A write of the read pointer also arms the interrupt.
  function DoPublish(s: State): State
    requires s.poll.Looping?
  {
    var offset := if s.hostRead >= s.hostStart then s.hostRead - s.hostStart else 0;
    s.(buf := s.buf.(read := (s.hostDma + offset) % ADDRESS_LIMIT), armed := true,
       told := |s.taken|, poll := Published(s.poll.work, s.poll.budget))
  }

  // Steps that are not enabled do nothing.
  function Step(s: State, e: Event): State
  {
    match e
    case Receive(f) => DoReceive(s, f)
    case IrqThread => DoIrqThread(s)
    case Msi => if s.msi then s.(msi := false, napi := Schedule(s.napi)) else s
    case Dispatch(budget) =>
      if s.poll.Idle? && s.napi.listed then s.(napi := s.napi.(listed := false), poll := Entered(budget)) else s
    case ReadPointer =>
      if s.poll.Entered? then
        var offset := if s.buf.write >= s.hostDma then s.buf.write - s.hostDma else 0;
        s.(poll := Looping(s.hostStart + offset, |s.accepted|, 0, s.poll.budget))
      else s
    case Take(up, skb) => if More(s) then DoTake(s, up, skb) else s
    case Publish => if s.poll.Looping? && !More(s) then DoPublish(s) else s
    case Complete =>
      if s.poll.Published? then
        s.(poll := Returned(s.poll.work, s.poll.budget),
           napi := if s.poll.work < s.poll.budget then CompleteNapi(s.napi) else s.napi)
      else s
    case Retire =>
      if s.poll.Returned? then
        s.(poll := Idle, napi := if s.poll.work < s.poll.budget then s.napi else s.napi.(listed := true))
      else s
  }

  function Run(s: State, es: seq<Event>): State
    decreases |es|
  {
    if es == [] then s else Step(Run(s, es[..|es| - 1]), es[|es| - 1])
  }

  // ----- Every accepted frame is taken once, in order -----

  ghost predicate Pointers(s: State)
  {
    && s.buf.start == s.hostDma && s.buf.end == s.hostDma + RING_BYTES < ADDRESS_LIMIT
    && s.hostEnd == s.hostStart + RING_BYTES
    && s.told <= |s.taken| <= |s.accepted| < s.told + SLOTS
    && s.buf.write == SlotAddress(s.hostDma, |s.accepted|)
    && s.buf.read == SlotAddress(s.hostDma, s.told)
    && s.hostRead == SlotAddress(s.hostStart, |s.taken|)
    && (s.poll.Looping? ==>
          |s.taken| <= s.poll.seen <= |s.accepted| && s.poll.limit == SlotAddress(s.hostStart, s.poll.seen)
          && s.poll.work <= s.poll.budget)
  }

  // The slot of the i-th frame holds it.
  predicate Stored(s: State, i: nat)
    requires i < |s.accepted|
  {
    Load(s.mem, SlotAddress(s.hostDma, i)) == CardSlot(s.accepted[i])
  }

  // Every slot the card may not reuse still holds its frame.
  ghost predicate Intact(s: State)
  {
    && (forall i :: 0 <= i < |s.accepted| ==> Fits(s.accepted[i]))
    && (forall i :: s.told <= i < |s.accepted| ==> Stored(s, i))
  }

  // Frame i was the i-th taken.
  ghost predicate InOrder(s: State)
  {
    && |s.taken| <= |s.accepted|
    && forall i :: 0 <= i < |s.taken| ==>
         s.taken[i].frame == Rounded(s.accepted[i])
         && (s.taken[i].passed ==> s.accepted[i].length >= MIN_LENGTH)
  }

  ghost predicate Consistent(s: State)
  {
    Pointers(s) && Intact(s) && InOrder(s)
  }

  ghost predicate LegalEvents(es: seq<Event>)
  {
    forall i :: 0 <= i < |es| ==> es[i].Receive? ==> Fits(es[i].frame)
  }

  // The card accepts a frame exactly when it has fewer than 127 unread frames; in either case it
  // leaves every unread slot as it was.
  lemma {:induction false} ReceiveKeepsUnread(s: State, f: Frame)
    requires Consistent(s) && Fits(f)
    ensures Consistent(DoReceive(s, f))
    ensures DoReceive(s, f).accepted ==
              if |s.accepted| - s.told < 127 then s.accepted + [f] else s.accepted
    ensures DoReceive(s, f).overflows ==
              if |s.accepted| - s.told < 127 then s.overflows else s.overflows + 1
    ensures Load(DoReceive(s, f).mem, SlotAddress(s.hostDma, |s.accepted|)) == CardSlot(f)
    ensures forall i :: s.told <= i < |s.accepted| ==>
              Load(DoReceive(s, f).mem, SlotAddress(s.hostDma, i)) == Load(s.mem, SlotAddress(s.hostDma, i))
  {
    hide CardSlot, SlotAddress, DmaIncr;
    var n := |s.accepted|;
    var s' := DoReceive(s, f);
    DmaIncrAdvances(s.buf, n);
    WrapAround(s.hostDma, s.told, n + 1);
    forall i | s.told <= i < n
      ensures Load(s'.mem, SlotAddress(s.hostDma, i)) == Load(s.mem, SlotAddress(s.hostDma, i))
    {
      SlotsDiffer(s.hostDma, i, n);
    }
    forall i | s.told <= i < |s'.accepted|
      ensures Stored(s', i)
    {
      assert i < n ==> Stored(s, i);
    }
  }

  // A full ring apart, two frames share a slot.
  lemma WrapAround(start: nat, i: nat, j: nat)
    requires i < j <= i + SLOTS
    ensures SlotAddress(start, i) == SlotAddress(start, j) <==> j == i + SLOTS
  {
  }

  // A step that touches neither the memory nor the accepted frames keeps the slots intact.
  lemma SlotsUntouched(s: State, s': State)
    requires Intact(s) && s'.mem == s.mem && s'.hostDma == s.hostDma && s'.accepted == s.accepted
    requires s.told <= s'.told
    ensures Intact(s')
  {
    hide CardSlot, SlotAddress;
    assert forall i :: 0 <= i < |s.accepted| ==> (Stored(s', i) <==> Stored(s, i));
  }

  lemma {:induction false} TakeIsNext(s: State, up: bool, skb: bool)
    requires Consistent(s) && More(s)
    ensures Consistent(DoTake(s, up, skb))
    ensures !AllocationFails(s, Take(up, skb)) ==>
              |s.taken| < |s.accepted| && |DoTake(s, up, skb).taken| == |s.taken| + 1
  {
    hide CardSlot, SlotAddress, Decode;
    var n := |s.taken|;
    SlotOffset(s.hostStart, s.hostDma, n);
    assert n < s.poll.seen;
    assert Stored(s, n);
    CardSlotDecodes(s.accepted[n]);
    HostIncrAdvances(s.hostStart, n);
    SlotsUntouched(s, DoTake(s, up, skb));
  }

  lemma {:induction false} StepKeepsConsistent(s: State, e: Event)
    requires Consistent(s) && (e.Receive? ==> Fits(e.frame))
    ensures Consistent(Step(s, e))
  {
    hide CardSlot, SlotAddress, Decode, HostIncr;
    match e
    case Receive(f) => ReceiveKeepsUnread(s, f);
    case Take(up, skb) => if More(s) { TakeIsNext(s, up, skb); }
    case _ =>
      SlotOffset(s.hostDma, s.hostStart, |s.accepted|);
      SlotOffset(s.hostStart, s.hostDma, |s.taken|);
      SlotsUntouched(s, Step(s, e));
  }

  lemma {:induction false} RunKeepsConsistent(s: State, es: seq<Event>)
    requires Consistent(s) && LegalEvents(es)
    ensures Consistent(Run(s, es))
    decreases |es|
  {
    hide Consistent, Step;
    if es != [] {
      RunKeepsConsistent(s, es[..|es| - 1]);
      StepKeepsConsistent(Run(s, es[..|es| - 1]), es[|es| - 1]);
    }
  }

  // In every run, for every interleaving: the frames poll took are the frames the card accepted,
  // in order and each once.
  lemma {:induction false} TakenInOrder(hostStart: nat, dma: nat, mem: Memory, es: seq<Event>)
    requires dma + RING_BYTES < ADDRESS_LIMIT && LegalEvents(es)
    ensures InOrder(Run(Init(hostStart, dma, mem), es))
  {
    RunKeepsConsistent(Init(hostStart, dma, mem), es);
  }

  // No slot between the two read pointers and the write pointer has been overwritten.
  lemma {:induction false} UnreadIntact(hostStart: nat, dma: nat, mem: Memory, es: seq<Event>)
    requires dma + RING_BYTES < ADDRESS_LIMIT && LegalEvents(es)
    ensures Intact(Run(Init(hostStart, dma, mem), es))
  {
    RunKeepsConsistent(Init(hostStart, dma, mem), es);
  }

  // ----- What is passed to the stack -----

  // Where the loop is: a frame is left, and budget for it.
  lemma MoreIs(s: State)
    requires Consistent(s) && s.poll.Looping?
    ensures |s.taken| <= s.poll.seen <= |s.accepted| && s.poll.work <= s.poll.budget
    ensures More(s) <==> |s.taken| < s.poll.seen && s.poll.work < s.poll.budget
  {
    hide SlotAddress, Intact, InOrder;
    if |s.taken| < s.poll.seen {
      WrapAround(s.hostStart, |s.taken|, s.poll.seen);
    }
  }

  lemma NextSlotIs(s: State)
    requires Consistent(s)
    ensures s.hostRead >= s.hostStart && NextSlot(s) == Load(s.mem, s.hostDma + (s.hostRead - s.hostStart))
  {
    SlotOffset(s.hostStart, s.hostDma, |s.taken|);
    hide Intact, InOrder, Load, SlotAddress;
  }

  // The length poll finds: whole words
  function RoundedLength(f: Frame): nat
  {
    f.length / 4 * 4
  }

  lemma {:induction false} NextFrameIs(s: State)
    requires Consistent(s) && s.poll.Looping? && |s.taken| < s.poll.seen
    ensures |s.taken| < |s.accepted|
    ensures var f := s.accepted[|s.taken|]; Decode(NextSlot(s)) == f.(length := RoundedLength(f))
  {
    hide CardSlot, SlotAddress, Decode;
    var n := |s.taken|;
    SlotOffset(s.hostStart, s.hostDma, n);
    assert Stored(s, n);
    CardSlotDecodes(s.accepted[n]);
  }

  // What an iteration of poll does with the next frame: too short a frame, or one for an interface that is down, is
  // taken off the ring and dropped; another is passed on, or poll returns when there is no buffer for it.
  lemma {:induction false} TakeOutcome(s: State, up: bool, skb: bool)
    requires Consistent(s) && s.poll.Looping? && |s.taken| < s.poll.seen && s.poll.work < s.poll.budget
    ensures |s.taken| < |s.accepted|
    ensures var t, f := Step(s, Take(up, skb)), s.accepted[|s.taken|];
            if up && RoundedLength(f) >= 36 && !skb then
              t.taken == s.taken && t.poll == Returned(s.poll.work, s.poll.budget)
            else
              && t.taken == s.taken + [Taken(f.(length := RoundedLength(f)), up && RoundedLength(f) >= 36)]
              && t.poll == Looping(s.poll.limit, s.poll.seen, s.poll.work + 1, s.poll.budget)
  {
    MoreIs(s);
    NextFrameIs(s);
    hide Consistent, NextSlot, Decode, HostIncr, More;
  }

  // The steps that took a frame
  function TakeEvents(s: State, es: seq<Event>): seq<Event>
    decreases |es|
  {
    if es == [] then []
    else
      var front := es[..|es| - 1];
      TakeEvents(s, front) + (if |Run(s, es).taken| > |Run(s, front).taken| then [es[|es| - 1]] else [])
  }

  // Each frame was taken by an iteration, and passed to the stack if and only if its interface was up then and its
  // length in whole words was at least 36.
  ghost predicate PassedRight(s: State, takes: seq<Event>)
  {
    && |takes| == |s.taken| <= |s.accepted|
    && forall i :: 0 <= i < |takes| ==>
         && takes[i].Take?
         && (s.taken[i].passed <==> takes[i].up && s.accepted[i].length / 4 * 4 >= 36)
  }

  lemma {:induction false} StepPassesRight(s: State, e: Event, takes: seq<Event>)
    requires Consistent(s) && PassedRight(s, takes)
    ensures var t := Step(s, e);
            PassedRight(t, takes + (if |t.taken| > |s.taken| then [e] else []))
  {
    if e.Take? && More(s) {
      MoreIs(s);
      hide More;
      TakeOutcome(s, e.up, e.skb);
    } else {
      NothingTaken(s, e);
    }
    hide Step, Consistent;
  }

  lemma NothingTaken(s: State, e: Event)
    requires !(e.Take? && More(s))
    ensures Step(s, e).taken == s.taken && s.accepted <= Step(s, e).accepted
  {
    hide CardSlot, DmaIncr;
  }

  // In every run, for every interleaving: a frame poll took was passed to the stack exactly when the iteration that
  // took it found the interface up and the frame at least 36 bytes long.
  lemma {:induction false} PassedIfLongEnough(hostStart: nat, dma: nat, mem: Memory, es: seq<Event>)
    requires dma + RING_BYTES < ADDRESS_LIMIT && LegalEvents(es)
    ensures var init := Init(hostStart, dma, mem);
            PassedRight(Run(init, es), TakeEvents(init, es))
    decreases |es|
  {
    var init := Init(hostStart, dma, mem);
    hide Step, Consistent;
    if es != [] {
      var front := es[..|es| - 1];
      PassedIfLongEnough(hostStart, dma, mem, front);
      assert Consistent(init) by { InitIsConsistent(hostStart, dma, mem); }
      RunKeepsConsistent(init, front);
      StepPassesRight(Run(init, front), es[|es| - 1], TakeEvents(init, front));
    }
  }

  lemma InitIsConsistent(hostStart: nat, dma: nat, mem: Memory)
    requires dma + RING_BYTES < ADDRESS_LIMIT
    ensures Consistent(Init(hostStart, dma, mem))
  {
  }

  // ----- One interrupt for each arming -----

  function Interrupts(s: State, es: seq<Event>): nat
    decreases |es|
  {
    if es == [] then 0
    else
      var front := es[..|es| - 1];
      Interrupts(s, front) + (if Run(s, front).armed && !Run(s, es).armed then 1 else 0)
  }

  function Armings(s: State, es: seq<Event>): nat
    decreases |es|
  {
    if es == [] then 0
    else
      var front := es[..|es| - 1];
      Armings(s, front) + (if Run(s, es).poll.Published? && !Run(s, front).poll.Published? then 1 else 0)
  }

  // A pass of the interrupt thread raises an interrupt exactly when there are unread frames and it is armed, and
  // disarms it; nothing else raises one, and only the driver's write of the read pointer arms it again.
  lemma ArmingStep(s: State, e: Event)
    ensures var t := Step(s, e);
            && (t.msi && !s.msi ==> e.IrqThread? && s.armed && s.buf.read != s.buf.write)
            && (e.IrqThread? && s.armed && s.buf.read != s.buf.write ==> t.msi && !t.armed)
            && (s.armed && !t.armed ==> e.IrqThread? && t.msi)
            && (!s.armed && t.armed ==> e.Publish? && t.poll.Published? && !s.poll.Published?)
  {
    hide CardSlot, DmaIncr, Decode, NextSlot, HostIncr;
  }

  // In every run there is at most one interrupt for the set-up and one for each write of the read pointer.
  lemma {:induction false} OneInterruptForEachArming(hostStart: nat, dma: nat, mem: Memory, es: seq<Event>)
    ensures var init := Init(hostStart, dma, mem);
            Interrupts(init, es) + (if Run(init, es).armed then 1 else 0) <= 1 + Armings(init, es)
    decreases |es|
  {
    hide Step;
    if es != [] {
      OneInterruptForEachArming(hostStart, dma, mem, es[..|es| - 1]);
      ArmingStep(Run(Init(hostStart, dma, mem), es[..|es| - 1]), es[|es| - 1]);
    }
  }

  // The polls that a run begins, and those that end for want of budget, after which the kernel polls again
  function Polls(s: State, es: seq<Event>): nat
    decreases |es|
  {
    if es == [] then 0
    else
      var front := es[..|es| - 1];
      Polls(s, front) + (if Run(s, front).poll.Idle? && Run(s, es).poll.Entered? then 1 else 0)
  }

  function Exhausted(s: State, es: seq<Event>): nat
    decreases |es|
  {
    if es == [] then 0
    else
      var front, p := es[..|es| - 1], Run(s, es[..|es| - 1]).poll;
      Exhausted(s, front) +
      (if p.Returned? && p.work >= p.budget && Run(s, es).poll.Idle? then 1 else 0)
  }

  // Polls that are still to come: listed, remembered, or about to be asked for by an interrupt on its way
  function Due(s: State): nat
  {
    (if s.napi.listed then 1 else 0) + (if s.napi.missed then 1 else 0) + (if s.msi then 1 else 0)
  }

  lemma DueStep(s: State, e: Event)
    ensures var t := Step(s, e);
            Due(t) + (if s.poll.Idle? && t.poll.Entered? then 1 else 0) <=
            Due(s) + (if s.armed && !t.armed then 1 else 0) +
            (if s.poll.Returned? && s.poll.work >= s.poll.budget && t.poll.Idle? then 1 else 0)
  {
    hide CardSlot, DmaIncr, Decode, NextSlot, HostIncr;
  }

  // In every run there are no more polls than interrupts and polls that ran out of budget, those still to come
  // included.
  lemma {:induction false} PollsAreAskedFor(hostStart: nat, dma: nat, mem: Memory, es: seq<Event>)
    ensures var init := Init(hostStart, dma, mem);
            Polls(init, es) + Due(Run(init, es)) <= Interrupts(init, es) + Exhausted(init, es)
    decreases |es|
  {
    hide Step;
    if es != [] {
      PollsAreAskedFor(hostStart, dma, mem, es[..|es| - 1]);
      DueStep(Run(Init(hostStart, dma, mem), es[..|es| - 1]), es[|es| - 1]);
    }
  }

  // ----- No lost wake-up -----

  // The kernel will still run poll, or the card will still interrupt.
  predicate Awake(s: State)
  {
    s.armed || s.msi || s.napi.listed || !s.poll.Idle?
  }

  ghost predicate Healthy(s: State)
  {
    && Awake(s)
    && (s.napi.listed ==> s.napi.sched)
    && (s.napi.missed ==> s.napi.sched)
    && match s.poll
       case Idle => s.napi.sched == s.napi.listed
       case Entered(_) => s.napi.sched && !s.napi.listed
       case Looping(_, _, _, _) => s.napi.sched && !s.napi.listed
       case Published(_, _) => s.napi.sched && !s.napi.listed && (s.armed || s.msi || s.napi.missed)
       case Returned(work, budget) =>
         if work < budget then s.napi.sched == s.napi.listed && (s.armed || s.msi || s.napi.listed)
         else s.napi.sched && !s.napi.listed
  }

  // Scheduled, but on no list and in no poll: the kernel ignores every further request.
  predicate Stalled(s: State)
  {
    && s.napi.sched && !s.napi.listed
    && (s.poll.Idle? || (s.poll.Returned? && s.poll.work < s.poll.budget))
  }

  lemma StepKeepsHealth(s: State, e: Event)
    requires Healthy(s)
    ensures if AllocationFails(s, e) then Stalled(Step(s, e)) else Healthy(Step(s, e))
  {
    hide CardSlot, DmaIncr, Decode, NextSlot, HostIncr;
  }

  lemma StepKeepsStall(s: State, e: Event)
    requires Stalled(s)
    ensures Stalled(Step(s, e)) && Step(s, e).taken == s.taken && !AllocationFails(s, e)
  {
    hide CardSlot, DmaIncr, Decode, NextSlot, HostIncr;
  }

  // Some iteration of the run fails to get a buffer.
  ghost predicate SomeAllocationFails(s: State, es: seq<Event>)
  {
    exists i :: 0 <= i < |es| && FailsAt(s, es, i)
  }

  predicate FailsAt(s: State, es: seq<Event>, i: nat)
    requires i < |es|
  {
    AllocationFails(Run(s, es[..i]), es[i])
  }

  lemma {:induction false} HealthOrStall(s: State, es: seq<Event>)
    requires Healthy(s)
    ensures if SomeAllocationFails(s, es) then Stalled(Run(s, es)) else Healthy(Run(s, es))
    decreases |es|
  {
    hide Healthy, Stalled, AllocationFails, Step;
    if es != [] {
      var last := |es| - 1;
      var before := es[..last];
      HealthOrStall(s, before);
      assert forall i :: 0 <= i < last ==> es[..i] == before[..i] && es[i] == before[i];
      assert forall i :: 0 <= i < last ==> (FailsAt(s, es, i) <==> FailsAt(s, before, i));
      if SomeAllocationFails(s, before) {
        var i :| 0 <= i < |before| && FailsAt(s, before, i);
        assert FailsAt(s, es, i);
        StepKeepsStall(Run(s, before), es[last]);
      } else {
        StepKeepsHealth(Run(s, before), es[last]);
        assert FailsAt(s, es, last) <==> AllocationFails(Run(s, before), es[last]);
      }
    }
  }

  // Whatever the interleaving, the poll can be woken if and only if no iteration ever failed to
  // allocate a buffer.
  lemma NoLostWakeUp(hostStart: nat, dma: nat, mem: Memory, es: seq<Event>)
    ensures var s := Run(Init(hostStart, dma, mem), es);
            && (!SomeAllocationFails(Init(hostStart, dma, mem), es) ==> Awake(s) && !Stalled(s))
            && (SomeAllocationFails(Init(hostStart, dma, mem), es) ==> Stalled(s))
  {
    var init := Init(hostStart, dma, mem);
    hide Run, SomeAllocationFails;
    HealthOrStall(init, es);
  }

  lemma {:induction false} RunAdds(s: State, es: seq<Event>, fs: seq<Event>)
    ensures Run(s, es + fs) == Run(Run(s, es), fs)
    decreases |fs|
  {
    hide Step;
    if fs == [] {
      assert es + fs == es;
    } else {
      RunAdds(s, es, fs[..|fs| - 1]);
      assert (es + fs)[..|es + fs| - 1] == es + fs[..|fs| - 1];
    }
  }

  // One failed allocation ends reception: no later run takes another frame.
  lemma {:induction false} StallIsForever(s: State, es: seq<Event>)
    requires Stalled(s)
    ensures Stalled(Run(s, es)) && Run(s, es).taken == s.taken
    decreases |es|
  {
    hide Stalled, Step;
    if es != [] {
      StallIsForever(s, es[..|es| - 1]);
      StepKeepsStall(Run(s, es[..|es| - 1]), es[|es| - 1]);
    }
  }

  // ----- Everything is taken -----

  function Takes(n: nat): (es: seq<Event>)
    ensures |es| == n && forall e :: e in es ==> e == Take(true, true)
  {
    seq(n, _ => Take(true, true))
  }

  // What is left of a poll with a budget of at most n, whatever it has done already
  function Finish(n: nat): seq<Event>
  {
    [ReadPointer] + Takes(n) + [Publish, Complete, Retire]
  }

  // An interrupt and a poll of budget n
  function Round(n: nat): seq<Event>
  {
    [IrqThread, Msi, Dispatch(n)] + Finish(n)
  }

  // The budget of the poll in progress
  function BudgetOf(p: Poll): nat
  {
    if p.Idle? then 0 else p.budget
  }

  function Smaller(a: nat, b: nat): nat
  {
    if a < b then a else b
  }

  function Unread(s: State): int
  {
    |s.accepted| - |s.taken|
  }

  lemma {:induction false} RunOne(s: State, e: Event)
    ensures Run(s, [e]) == Step(s, e)
  {
    hide Step;
    assert [e][..0] == [] && Run(s, []) == s;
  }

  // Steps that can neither fail to allocate nor bring a frame keep the ring consistent and healthy.
  lemma QuietStep(s: State, e: Event)
    requires Consistent(s) && Healthy(s) && !e.Receive? && (e.Take? ==> e.skb)
    ensures Consistent(Step(s, e)) && Healthy(Step(s, e)) && Step(s, e).accepted == s.accepted
    ensures |Step(s, e).taken| >= |s.taken|
  {
    StepKeepsConsistent(s, e);
    StepKeepsHealth(s, e);
    hide Consistent, Healthy, CardSlot, DmaIncr, Decode, NextSlot, HostIncr;
  }

  // n iterations of poll take n frames, or as many as there are and the budget allows.
  lemma {:induction false} LoopTakes(s: State, n: nat)
    requires Consistent(s) && Healthy(s) && s.poll.Looping?
    ensures |s.taken| <= s.poll.seen && s.poll.work <= s.poll.budget
    ensures var s' := Run(s, Takes(n));
            var k := Smaller(n, Smaller(s.poll.seen - |s.taken|, s.poll.budget - s.poll.work));
            && Consistent(s') && Healthy(s') && s'.accepted == s.accepted && |s'.taken| == |s.taken| + k
            && s'.poll == Looping(s.poll.limit, s.poll.seen, s.poll.work + k, s.poll.budget)
    decreases n
  {
    MoreIs(s);
    if n > 0 {
      LoopTakes(s, n - 1);
      var t := Run(s, Takes(n - 1));
      assert Takes(n)[..n - 1] == Takes(n - 1);
      QuietStep(t, Take(true, true));
      MoreIs(t);
      hide Consistent, Healthy;
      if More(t) {
        TakeCounts(t);
      }
    }
  }

  lemma TakeCounts(s: State)
    requires More(s)
    ensures var t := Step(s, Take(true, true));
            && |t.taken| == |s.taken| + 1
            && t.poll == Looping(s.poll.limit, s.poll.seen, s.poll.work + 1, s.poll.budget)
  {
    hide Decode, NextSlot, HostIncr;
  }

  // Nothing to take outside the loop
  lemma {:induction false} NoLoopNoTakes(s: State, n: nat)
    requires !s.poll.Looping?
    ensures Run(s, Takes(n)) == s
    decreases n
  {
    if n > 0 {
      NoLoopNoTakes(s, n - 1);
      assert Takes(n)[..n - 1] == Takes(n - 1);
      hide Run;
    }
  }

  // Enough iterations leave the loop with nothing more to do.
  lemma TakesEnd(s: State, n: nat)
    requires Consistent(s) && Healthy(s) && !s.poll.Entered? && BudgetOf(s.poll) <= n
    ensures var t := Run(s, Takes(n));
            && Consistent(t) && Healthy(t) && t.accepted == s.accepted && !More(t) && !t.poll.Entered?
            && (t.poll.Idle? <==> s.poll.Idle?)
            && |t.taken| == |s.taken| + (if s.poll.Looping? then
                                           Smaller(s.poll.seen - |s.taken|, s.poll.budget - s.poll.work) else 0)
  {
    if s.poll.Looping? {
      LoopTakes(s, n);
      MoreIs(Run(s, Takes(n)));
    } else {
      NoLoopNoTakes(s, n);
    }
    hide Consistent, Healthy, Run;
  }

  // Publish, Complete and Retire bring the poll to an end and take nothing.
  lemma PollEnds(s: State)
    requires Consistent(s) && Healthy(s) && !More(s) && !s.poll.Entered?
    ensures var t := Step(Step(Step(s, Publish), Complete), Retire);
            Consistent(t) && Healthy(t) && t.poll.Idle? && t.accepted == s.accepted && |t.taken| == |s.taken|
  {
    var s1 := Step(s, Publish);
    var s2 := Step(s1, Complete);
    QuietStep(s, Publish);
    QuietStep(s1, Complete);
    QuietStep(s2, Retire);
    hide Consistent, Healthy, More, CompleteNapi;
  }

  // From any phase of poll, a healthy poll runs to its end with the frames it may still take.
  lemma {:induction false} PollFinishes(s: State, n: nat)
    requires Consistent(s) && Healthy(s) && BudgetOf(s.poll) <= n
    ensures var t := Run(s, Finish(n));
            && Consistent(t) && Healthy(t) && t.poll.Idle? && t.accepted == s.accepted
            && |s.taken| <= |t.taken|
            && (s.poll.Idle? ==> |t.taken| == |s.taken|)
            && (s.poll.Entered? ==> |t.taken| == |s.taken| + Smaller(Unread(s), s.poll.budget))
  {
    var s1 := Step(s, ReadPointer);
    var s2 := Run(s1, Takes(n));
    FinishSteps(s, n);
    QuietStep(s, ReadPointer);
    PointerRead(s);
    hide Run, Finish, Consistent, Healthy, Step;
    TakesEnd(s1, n);
    PollEnds(s2);
  }

  lemma PointerRead(s: State)
    requires Consistent(s)
    ensures |s.taken| <= |s.accepted|
    ensures var t := Step(s, ReadPointer);
            && !t.poll.Entered? && t.taken == s.taken && BudgetOf(t.poll) == BudgetOf(s.poll)
            && (t.poll.Idle? <==> s.poll.Idle?)
            && (s.poll.Entered? ==> t.poll.Looping? && t.poll.seen == |s.accepted| && t.poll.work == 0)
  {
    hide Intact, InOrder;
  }

  lemma {:induction false} FinishSteps(s: State, n: nat)
    ensures Run(s, Finish(n)) == Step(Step(Step(Run(Step(s, ReadPointer), Takes(n)), Publish), Complete), Retire)
  {
    hide Step;
    RunAdds(s, [ReadPointer] + Takes(n), [Publish, Complete, Retire]);
    RunAdds(s, [ReadPointer], Takes(n));
    RunOne(s, ReadPointer);
    ThreeSteps(Run(s, [ReadPointer] + Takes(n)), Publish, Complete, Retire);
  }

  lemma {:induction false} ThreeSteps(s: State, a: Event, b: Event, c: Event)
    ensures Run(s, [a, b, c]) == Step(Step(Step(s, a), b), c)
  {
    hide Step;
    assert [a, b, c][..2] == [a, b] && [a, b][..1] == [a];
    RunOne(s, a);
  }

  // Between polls of a healthy state with unread frames, an interrupt lists the poll.
  lemma InterruptLists(s: State)
    requires Consistent(s) && Healthy(s) && s.poll.Idle? && |s.taken| < |s.accepted|
    ensures Step(Step(s, IrqThread), Msi).napi.listed
  {
    hide CardSlot, Decode, SlotAddress, HostIncr, DmaIncr;
    WrapAround(s.hostDma, s.told, |s.accepted|);
  }

  // Between polls, a round takes exactly the unread frames or as many as the budget allows, and ends between polls.
  lemma {:induction false} RoundTakes(s: State, n: nat)
    requires Consistent(s) && Healthy(s) && s.poll.Idle?
    ensures var t := Run(s, Round(n));
            && Consistent(t) && Healthy(t) && t.poll.Idle? && t.accepted == s.accepted
            && Unread(s) >= 0 && |t.taken| == |s.taken| + Smaller(Unread(s), n)
  {
    var s1 := Step(s, IrqThread);
    var s2 := Step(s1, Msi);
    var s3 := Step(s2, Dispatch(n));
    RunAdds(s, [IrqThread, Msi, Dispatch(n)], Finish(n));
    ThreeSteps(s, IrqThread, Msi, Dispatch(n));
    QuietStep(s, IrqThread);
    QuietStep(s1, Msi);
    QuietStep(s2, Dispatch(n));
    assert |s.taken| <= |s.accepted|;
    if Unread(s) > 0 {
      InterruptLists(s);
    }
    hide Run, Finish, Consistent, Healthy;
    assert s3.taken == s.taken && (Unread(s) > 0 ==> s3.poll == Entered(n)) && BudgetOf(s3.poll) <= n;
    hide Step;
    PollFinishes(s3, n);
  }

  function Rounds(n: nat, k: nat): seq<Event>
  {
    if k == 0 then [] else Rounds(n, k - 1) + Round(n)
  }

  lemma NoRounds(n: nat)
    ensures Finish(n) + Rounds(n, 0) == Finish(n)
  {
    hide Finish;
  }

  lemma {:induction false} OneRoundMore(s: State, n: nat, k: nat)
    requires k > 0
    ensures var before := Finish(n) + Rounds(n, k - 1);
            Run(s, Finish(n) + Rounds(n, k)) == Run(Run(s, before), Round(n))
    ensures Unread(Run(s, Finish(n) + Rounds(n, k - 1))) ==
            |Run(s, Finish(n) + Rounds(n, k - 1)).accepted| - |Run(s, Finish(n) + Rounds(n, k - 1)).taken|
  {
    hide Run, Finish, Round;
    assert Finish(n) + Rounds(n, k) == Finish(n) + Rounds(n, k - 1) + Round(n);
    RunAdds(s, Finish(n) + Rounds(n, k - 1), Round(n));
  }

  lemma TakenAreAccepted(s: State)
    requires Consistent(s)
    ensures Unread(s) == |s.accepted| - |s.taken| >= 0
  {
    hide Intact, InOrder;
  }

  lemma {:induction false} TakesMore(first: nat, before: nat, unread: nat, n: nat, k: nat)
    requires k > 0 && (unread == 0 || before >= first + n * (k - 1))
    ensures Smaller(unread, n) == unread || before + Smaller(unread, n) >= first + n * k
  {
    assert n * k == n * (k - 1) + n;
  }

  // From every healthy state, in any phase of poll: finish it, and k more rounds of budget n take n k frames or
  // all that were accepted, in order.
  lemma {:induction false} RoundsTakeAll(s: State, n: nat, k: nat)
    requires Consistent(s) && Healthy(s) && BudgetOf(s.poll) <= n
    ensures var t := Run(s, Finish(n) + Rounds(n, k));
            && Consistent(t) && Healthy(t) && t.poll.Idle? && t.accepted == s.accepted
            && Unread(s) >= 0 && |t.taken| <= |t.accepted|
            && (|t.taken| == |t.accepted| || |t.taken| >= |s.taken| + n * k)
    decreases k
  {
    hide *;
    if k == 0 {
      PollFinishes(s, n);
      NoRounds(n);
      TakenAreAccepted(Run(s, Finish(n)));
      TakenAreAccepted(s);
    } else {
      RoundsTakeAll(s, n, k - 1);
      var before := Finish(n) + Rounds(n, k - 1);
      RoundTakes(Run(s, before), n);
      OneRoundMore(s, n, k);
      TakenAreAccepted(Run(s, Finish(n) + Rounds(n, k)));
      TakesMore(|s.taken|, |Run(s, before).taken|, |s.accepted| - |Run(s, before).taken|, n, k);
    }
  }

  // So with a budget of 64, one round for every 64 unread frames takes them all.
  lemma {:induction false} EverythingIsTaken(s: State)
    requires Consistent(s) && Healthy(s) && BudgetOf(s.poll) <= 64
    ensures Unread(s) >= 0
    ensures var t := Run(s, Finish(64) + Rounds(64, (Unread(s) + 63) / 64));
            && t.accepted == s.accepted && |t.taken| == |s.accepted| && InOrder(t)
            && t.poll.Idle? && Healthy(t)
  {
    assert |s.taken| <= |s.accepted|;
    var k := (Unread(s) + 63) / 64;
    assert 64 * k >= Unread(s);
    hide Run, Finish, Rounds, Healthy;
    RoundsTakeAll(s, 64, k);
  }

  // A run that does fail: a frame, its interrupt, and no buffer for it.
  lemma AllocationCanFail(hostStart: nat, dma: nat, mem: Memory, f: Frame)
    requires dma + RING_BYTES < ADDRESS_LIMIT && Fits(f) && f.length >= MIN_LENGTH
    ensures var es := [Receive(f), IrqThread, Msi, Dispatch(64), ReadPointer, Take(true, false)];
            SomeAllocationFails(Init(hostStart, dma, mem), es) && Stalled(Run(Init(hostStart, dma, mem), es))
  {
    hide *;
    var s := Init(hostStart, dma, mem);
    var es := [Receive(f), IrqThread, Msi, Dispatch(64), ReadPointer, Take(true, false)];
    var s3 := Run(s, [Receive(f), IrqThread, Msi]);
    ThreeSteps(s, Receive(f), IrqThread, Msi);
    FirstTakeFails(hostStart, dma, mem, f);
    RunAdds(s, [Receive(f), IrqThread, Msi], [Dispatch(64), ReadPointer]);
    RunAdds(s3, [Dispatch(64)], [ReadPointer]);
    RunOne(s3, Dispatch(64));
    RunOne(Step(s3, Dispatch(64)), ReadPointer);
    assert [Receive(f), IrqThread, Msi] + ([Dispatch(64)] + [ReadPointer]) == es[..5];
    assert [Dispatch(64)] + [ReadPointer] == [Dispatch(64), ReadPointer];
    LastFails(s, es);
    NoLostWakeUp(hostStart, dma, mem, es);
  }

  lemma LastFails(s: State, es: seq<Event>)
    requires es != [] && AllocationFails(Run(s, es[..|es| - 1]), es[|es| - 1])
    ensures SomeAllocationFails(s, es)
  {
    assert FailsAt(s, es, |es| - 1);
  }

  lemma FirstTakeFails(hostStart: nat, dma: nat, mem: Memory, f: Frame)
    requires dma + RING_BYTES < ADDRESS_LIMIT && Fits(f) && f.length >= MIN_LENGTH
    ensures var s3 := Step(Step(Step(Init(hostStart, dma, mem), Receive(f)), IrqThread), Msi);
            AllocationFails(Step(Step(s3, Dispatch(64)), ReadPointer), Take(true, false))
  {
    CardSlotDecodes(f);
    hide CardSlot, Decode;
    var s1 := Step(Init(hostStart, dma, mem), Receive(f));
    assert s1.buf.write == dma + FRAME_SIZE && s1.mem[dma] == CardSlot(f);
  }
}
