/** Both rings and the card between them: the card's transmit thread receives again every frame that it reads
    (driver/qemu-device/fejkon.c), so what net_tx queues comes back to poll (driver/src/board.c).
 */
module LoopBack {
  import opened DmaRing
  import RxRing
  import TxRing

  // For each frame the receive ring accepted, `looped` says whether the transmit thread brought it; `lost`
  // counts the frames of the transmit thread that found the receive ring full.
  datatype System = System(tx: TxRing.State, rx: RxRing.State, looped: seq<bool>, lost: nat)

  function Init(rxStart: nat, rxDma: nat, rxMem: Memory, txStart: nat, txDma: nat, txMem: Memory): System
  {
    System(TxRing.Init(txStart, txDma, txMem), RxRing.Init(rxStart, rxDma, rxMem), [], 0)
  }

  // A frame queued, the two halves of a pass of the transmit thread, or any step of the receive ring, frames
  // of other origin among them
  datatype Event =
    | Xmit(frame: Frame, more: bool)
    | Fetch
    | Advance
    | Other(event: RxRing.Event)

  function Step(s: System, e: Event): System
  {
    match e
    case Xmit(f, more) => s.(tx := TxRing.Step(s.tx, TxRing.Xmit(f, more)))
    case Advance => s.(tx := TxRing.Step(s.tx, TxRing.Advance))
    case Fetch =>
      var tx := TxRing.Step(s.tx, TxRing.Fetch);
      if |tx.sent| <= |s.tx.sent| then s
      else
        var rx := RxRing.Step(s.rx, RxRing.Receive(tx.sent[|tx.sent| - 1].frame));
        if |rx.accepted| > |s.rx.accepted| then System(tx, rx, s.looped + [true], s.lost)
        else System(tx, rx, s.looped, s.lost + 1)
    case Other(event) =>
      var rx := RxRing.Step(s.rx, event);
      s.(rx := rx, looped := if |rx.accepted| > |s.rx.accepted| then s.looped + [false] else s.looped)
  }

  function Run(s: System, es: seq<Event>): System
    decreases |es|
  {
    if es == [] then s else Step(Run(s, es[..|es| - 1]), es[|es| - 1])
  }

  predicate Legal(e: Event)
  {
    e.Other? && e.event.Receive? ==> Fits(e.event.frame)
  }

  // A pass of the transmit thread on both rings is the two halves one after the other.
  lemma PassIsTwoSteps(s: System)
    ensures var t := Step(Step(s, Fetch), Advance);
            && t.tx == TxRing.Step(TxRing.Step(s.tx, TxRing.Fetch), TxRing.Advance)
            && t.rx == if |t.tx.sent| == |s.tx.sent| then s.rx
                       else RxRing.Step(s.rx, RxRing.Receive(t.tx.sent[|t.tx.sent| - 1].frame))
  {
    FetchSends(s.tx);
    TxKeepsSent(TxRing.Step(s.tx, TxRing.Fetch), TxRing.Advance);
    hide TxRing.Step, RxRing.Step;
  }

  // ----- The frames that were looped back -----

  // The marked frames, in order
  function Ours(fs: seq<Frame>, marks: seq<bool>): seq<Frame>
    requires |fs| == |marks|
  {
    if fs == [] then []
    else
      var n := |fs| - 1;
      Ours(fs[..n], marks[..n]) + (if marks[n] then [fs[n]] else [])
  }

  lemma OursAppend(fs: seq<Frame>, marks: seq<bool>, f: Frame, mark: bool)
    requires |fs| == |marks|
    ensures Ours(fs + [f], marks + [mark]) == Ours(fs, marks) + (if mark then [f] else [])
  {
    assert (fs + [f])[..|fs|] == fs && (marks + [mark])[..|fs|] == marks;
  }

  lemma {:induction false} OursPrefix(fs: seq<Frame>, marks: seq<bool>, n: nat)
    requires n <= |fs| == |marks|
    ensures Ours(fs[..n], marks[..n]) <= Ours(fs, marks)
  {
    if n < |fs| {
      var k := |fs| - 1;
      OursPrefix(fs[..k], marks[..k], n);
      assert fs[..k][..n] == fs[..n] && marks[..k][..n] == marks[..n];
    } else {
      assert fs[..n] == fs && marks[..n] == marks;
    }
  }

  function SentFrames(sent: seq<TxRing.Sent>): (fs: seq<Frame>)
    ensures |fs| == |sent|
  {
    seq(|sent|, i requires 0 <= i < |sent| => sent[i].frame)
  }

  function TakenFrames(taken: seq<RxRing.Taken>): (fs: seq<Frame>)
    ensures |fs| == |taken|
  {
    seq(|taken|, i requires 0 <= i < |taken| => taken[i].frame)
  }

  // While no looped frame was lost, the looped frames among those accepted are the frames sent.
  ghost predicate Linked(s: System)
  {
    && TxRing.Consistent(s.tx) && RxRing.Consistent(s.rx)
    && |s.looped| == |s.rx.accepted|
    && (s.lost == 0 ==> Ours(s.rx.accepted, s.looped) == SentFrames(s.tx.sent))
  }

  lemma StepAccepts(s: RxRing.State, e: RxRing.Event)
    ensures var accepted := RxRing.Step(s, e).accepted;
            accepted == s.accepted || (e.Receive? && accepted == s.accepted + [e.frame])
  {
    hide CardSlot, Decode;
  }

  lemma FetchSends(s: TxRing.State)
    ensures var t := TxRing.Step(s, TxRing.Fetch);
            t == s || (|t.sent| == |s.sent| + 1 && t.sent[..|s.sent|] == s.sent && Fits(t.sent[|s.sent|].frame))
  {
    if s.buf.read != s.buf.write && !s.fetching {
      DecodedFits(Load(s.mem, s.buf.read));
    }
    hide Decode, Fits;
  }

  lemma FetchKeepsLinked(s: System)
    requires Linked(s)
    ensures Linked(Step(s, Fetch))
  {
    var tx := TxRing.Step(s.tx, TxRing.Fetch);
    TxRing.StepKeepsConsistent(s.tx, TxRing.Fetch);
    FetchSends(s.tx);
    if |tx.sent| > |s.tx.sent| {
      var f := tx.sent[|s.tx.sent|].frame;
      RxRing.StepKeepsConsistent(s.rx, RxRing.Receive(f));
      StepAccepts(s.rx, RxRing.Receive(f));
      hide TxRing.Consistent, RxRing.Consistent, TxRing.Step, RxRing.Step;
      OursAppend(s.rx.accepted, s.looped, f, true);
      assert SentFrames(tx.sent) == SentFrames(s.tx.sent) + [f];
    }
  }

  lemma TxKeepsSent(s: TxRing.State, e: TxRing.Event)
    requires !e.Fetch?
    ensures TxRing.Step(s, e).sent == s.sent
  {
    hide DriverSlot;
  }

  lemma StepKeepsLinked(s: System, e: Event)
    requires Linked(s) && Legal(e)
    ensures Linked(Step(s, e))
  {
    hide TxRing.Consistent, RxRing.Consistent, TxRing.Step, RxRing.Step;
    match e
    case Fetch =>
      FetchKeepsLinked(s);
    case Xmit(f, more) =>
      TxRing.StepKeepsConsistent(s.tx, TxRing.Xmit(f, more));
      TxKeepsSent(s.tx, TxRing.Xmit(f, more));
    case Advance =>
      TxRing.StepKeepsConsistent(s.tx, TxRing.Advance);
      TxKeepsSent(s.tx, TxRing.Advance);
    case Other(event) =>
      RxRing.StepKeepsConsistent(s.rx, event);
      StepAccepts(s.rx, event);
      if event.Receive? {
        OursAppend(s.rx.accepted, s.looped, event.frame, false);
      }
  }

  lemma {:induction false} RunKeepsLinked(s: System, es: seq<Event>)
    requires Linked(s) && forall i :: 0 <= i < |es| ==> Legal(es[i])
    ensures Linked(Run(s, es))
    decreases |es|
  {
    hide Linked, Step, Legal;
    if es != [] {
      RunKeepsLinked(s, es[..|es| - 1]);
      StepKeepsLinked(Run(s, es[..|es| - 1]), es[|es| - 1]);
    }
  }

  // ----- End to end -----

  // No frame was overwritten before the card read it.
  ghost predicate SentInTime(s: TxRing.State)
  {
    forall i :: 0 <= i < |s.sent| ==> s.sent[i].queuedThen - i <= 128
  }

  function CarriedAll(fs: seq<Frame>): (r: seq<Frame>)
    ensures |r| == |fs|
  {
    seq(|fs|, i requires 0 <= i < |fs| => TxRing.Carried(fs[i]))
  }

  lemma SentAreCarried(s: TxRing.State)
    requires TxRing.Consistent(s) && SentInTime(s)
    ensures SentFrames(s.sent) <= CarriedAll(s.queued)
  {
    assert |s.sent| <= |s.queued|;
    hide TxRing.Carried, TxRing.Pointers, TxRing.HoldsLatest;
    forall i | 0 <= i < |s.sent|
      ensures s.sent[i].frame == TxRing.Carried(s.queued[i])
    {
      assert TxRing.Latest(i, s.sent[i].queuedThen) == i;
    }
  }

  // What poll takes of the looped frames is what the transmit thread sent: their lengths are whole words.
  lemma {:induction false} OursTaken(fs: seq<Frame>, taken: seq<RxRing.Taken>, marks: seq<bool>, ours: seq<Frame>)
    requires |taken| == |fs| == |marks| && Ours(fs, marks) == ours
    requires forall i :: 0 <= i < |taken| ==> taken[i].frame == Rounded(fs[i])
    requires forall i :: 0 <= i < |ours| ==> ours[i].length % 4 == 0
    ensures Ours(TakenFrames(taken), marks) == ours
    decreases |fs|
  {
    if fs != [] {
      var n := |fs| - 1;
      var front := Ours(fs[..n], marks[..n]);
      assert forall i :: 0 <= i < |front| ==> front[i] == ours[i];
      OursTaken(fs[..n], taken[..n], marks[..n], front);
      assert TakenFrames(taken)[..n] == TakenFrames(taken[..n]);
      if marks[n] {
        assert ours[|front|] == fs[n];
      }
    }
  }

  lemma OursTakenPrefix(s: System)
    requires Linked(s) && s.lost == 0 && SentInTime(s.tx)
    ensures |s.rx.taken| <= |s.looped|
    ensures Ours(TakenFrames(s.rx.taken), s.looped[..|s.rx.taken|]) <= CarriedAll(s.tx.queued)
  {
    var n := |s.rx.taken|;
    SentAreCarried(s.tx);
    hide TxRing.Consistent, RxRing.Pointers, RxRing.Intact, SentInTime;
    assert forall i :: 0 <= i < n ==> s.rx.taken[i].frame == Rounded(s.rx.accepted[i]);
    hide RxRing.Consistent;
    var ours := Ours(s.rx.accepted[..n], s.looped[..n]);
    OursPrefix(s.rx.accepted, s.looped, n);
    assert forall i :: 0 <= i < |ours| ==> ours[i] == TxRing.Carried(s.tx.queued[i]);
    OursTaken(s.rx.accepted[..n], s.rx.taken, s.looped[..n], ours);
  }

  // In every run, whatever the interleaving and whatever else the card receives: as long as no frame was
  // overwritten in the transmit ring and none found the receive ring full, the looped frames that poll takes
  // are the first frames net_tx queued, in order, each once, with port and length in words.
  lemma {:induction false} QueuedFramesComeBack(
      rxStart: nat, rxDma: nat, rxMem: Memory, txStart: nat, txDma: nat, txMem: Memory, es: seq<Event>)
    requires rxDma + RING_BYTES < ADDRESS_LIMIT && txDma + RING_BYTES < ADDRESS_LIMIT
    requires forall i :: 0 <= i < |es| ==> Legal(es[i])
    ensures var s := Run(Init(rxStart, rxDma, rxMem, txStart, txDma, txMem), es);
            s.lost == 0 && SentInTime(s.tx) ==>
              |s.rx.taken| <= |s.looped| &&
              Ours(TakenFrames(s.rx.taken), s.looped[..|s.rx.taken|]) <= CarriedAll(s.tx.queued)
  {
    var init := Init(rxStart, rxDma, rxMem, txStart, txDma, txMem);
    assert Linked(init);
    hide *;
    RunKeepsLinked(init, es);
    var s := Run(init, es);
    if s.lost == 0 && SentInTime(s.tx) {
      OursTakenPrefix(s);
    }
  }
}
